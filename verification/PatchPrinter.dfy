/**
 Unified diffs printed from line edit scripts, and what the applier makes of them: completeness,
 inversion, and the position of hunks without old lines.
 */
module PatchPrinter {
  import opened Options
  import opened Text
  import opened PatchApplier

  /** An edit script: unchanged stretches that no hunk shows, and hunks. */
  datatype Script = End | Same(lines: seq<string>, rest: Script) | Changed(edits: seq<Edit>, rest: Script)

  function Source(script: Script): seq<string> {
    match script
    case End => []
    case Same(lines, rest) => lines + Source(rest)
    case Changed(edits, rest) => OldSide(edits) + Source(rest)
  }

  function Target(script: Script): seq<string> {
    match script
    case End => []
    case Same(lines, rest) => lines + Target(rest)
    case Changed(edits, rest) => NewSide(edits) + Target(rest)
  }

  function PrintEdit(e: Edit): string {
    match e
    case Keep(text) => " " + text
    case Del(text) => "-" + text
    case Add(text) => "+" + text
  }

  function PrintEdits(edits: seq<Edit>): seq<string> {
    seq(|edits|, i requires 0 <= i < |edits| => PrintEdit(edits[i]))
  }

  /** `@@ -start,count +start,count @@`; the tail after the old start is not read back. */
  function PrintHeader(start: nat, tail: string): string {
    "@@ -" + Decimal(start) + "," + tail
  }

  function Counts(oldCount: nat, newStart: nat, newCount: nat): string {
    Decimal(oldCount) + " +" + Decimal(newStart) + "," + Decimal(newCount) + " @@"
  }

  /** How a hunk's header is printed, given its zero-based positions in both files. */
  type HeaderPrinter = (seq<Edit>, nat, nat) -> string

  /** The hunks of a script. */
  function Print(header: HeaderPrinter, script: Script, oldPos: nat, newPos: nat): seq<string>
    decreases script
  {
    match script
    case End => []
    case Same(lines, rest) => Print(header, rest, oldPos + |lines|, newPos + |lines|)
    case Changed(edits, rest) =>
      [header(edits, oldPos, newPos)] + PrintEdits(edits)
      + Print(header, rest, oldPos + |OldSide(edits)|, newPos + |NewSide(edits)|)
  }

  /** The standard header, with both files' lines numbered from 1. */
  function HeaderOf(edits: seq<Edit>, oldPos: nat, newPos: nat): string {
    PrintHeader(oldPos + 1, Counts(|OldSide(edits)|, newPos + 1, |NewSide(edits)|))
  }

  /** The hunks that a script stands for. */
  function HunksOf(script: Script, pos: nat): seq<Hunk>
    decreases script
  {
    match script
    case End => []
    case Same(lines, rest) => HunksOf(rest, pos + |lines|)
    case Changed(edits, rest) => [Hunk(pos, edits)] + HunksOf(rest, pos + |OldSide(edits)|)
  }

  // ---------------------------------------------------------------- reading back what was printed

  lemma {:induction false} WordStops(s: string, rest: string)
    requires (forall i :: 0 <= i < |s| ==> !IsSpace(s[i])) && s != ""
    ensures exists word :: Word(s + rest) == s + word
  {
    if |s| == 1 {
      assert (s + rest)[1..] == rest;
      assert Word(s + rest) == s + Word(rest);
    } else {
      WordStops(s[1..], rest);
      var word :| Word(s[1..] + rest) == s[1..] + word;
      assert (s + rest)[1..] == s[1..] + rest;
      assert Word(s + rest) == s + word;
    }
  }

  lemma {:induction false} FirstPiece(digits: string, rest: string)
    requires ',' !in digits
    ensures Split(digits + "," + rest, ',')[0] == digits
  {
    SplitHead(digits, rest, ',');
  }

  /** The header's old start is read back, whatever follows its comma. */
  lemma HeaderStart(start: nat, tail: string)
    requires start <= USIZE_MAX
    ensures IsHeader(PrintHeader(start, tail))
    ensures OldHunkStart(PrintHeader(start, tail)[|HUNK|..]) == Some(start)
  {
    var d := Decimal(start);
    var s := "-" + d + ",";
    var header := PrintHeader(start, tail)[|HUNK|..];
    assert header == s + tail;
    assert TrimStart(header) == header;
    WordStops(s, tail);
    var word :| Word(s + tail) == s + word;
    var range := d + "," + word;
    assert StripPrefix(s + word, "-") == Some(range) by { assert (s + word)[1..] == range; }
    FirstPiece(d, word);
    ParseDecimal(start, USIZE_MAX);
  }

  lemma EditLine(e: Edit)
    ensures Read(PrintEdit(e)) == Body(Change(e))
  {
    var line := PrintEdit(e);
    assert line[1..] == e.text;
    assert HUNK[0] == '@' && NO_NEWLINE[0] == '\\';
  }

  /** The printer's old positions are read back; nothing else in a header matters. */
  ghost predicate ReadsBack(read: string -> Token, header: HeaderPrinter) {
    forall edits, oldPos: nat, newPos: nat :: oldPos < USIZE_MAX ==>
        read(header(edits, oldPos, newPos)) == Header(Some(oldPos + 1))
  }

  lemma StandardHeaderReadsBack()
    ensures ReadsBack(Read, HeaderOf)
  {
    forall edits, oldPos: nat, newPos: nat | oldPos < USIZE_MAX
      ensures Read(HeaderOf(edits, oldPos, newPos)) == Header(Some(oldPos + 1))
    {
      HeaderStart(oldPos + 1, Counts(|OldSide(edits)|, newPos + 1, |NewSide(edits)|));
    }
  }

  function BodyTokens(edits: seq<Edit>): (r: seq<Token>)
    ensures |r| == |edits| && forall i :: 0 <= i < |edits| ==> r[i] == Body(Change(edits[i]))
  {
    seq(|edits|, i requires 0 <= i < |edits| => Body(Change(edits[i])))
  }

  /** What a printed script looks like to the loops. */
  function ScriptTokens(script: Script, pos: nat): seq<Token>
    decreases script
  {
    match script
    case End => []
    case Same(lines, rest) => ScriptTokens(rest, pos + |lines|)
    case Changed(edits, rest) => HunkTokens(pos + 1, edits) + ScriptTokens(rest, pos + |OldSide(edits)|)
  }

  function HunkTokens(start: nat, edits: seq<Edit>): seq<Token> {
    [Header(Some(start))] + BodyTokens(edits)
  }

  /** `Tokens`, for any way of reading a line. */
  function Mapped(read: string -> Token, lines: seq<string>): (r: seq<Token>)
    ensures |r| == |lines| && forall i :: 0 <= i < |lines| ==> r[i] == read(lines[i])
  {
    seq(|lines|, i requires 0 <= i < |lines| => read(lines[i]))
  }

  ghost predicate ReadsEdits(read: string -> Token) {
    forall e :: read(PrintEdit(e)) == Body(Change(e))
  }

  lemma MappedConcat(read: string -> Token, a: seq<string>, b: seq<string>)
    ensures Mapped(read, a + b) == Mapped(read, a) + Mapped(read, b)
  {
  }

  lemma HunkPrinted(read: string -> Token, header: string, start: nat, edits: seq<Edit>)
    requires read(header) == Header(Some(start)) && ReadsEdits(read)
    ensures Mapped(read, [header] + PrintEdits(edits)) == HunkTokens(start, edits)
  {
    var tokens := Mapped(read, [header] + PrintEdits(edits));
    forall i | 0 < i < |tokens| ensures tokens[i] == HunkTokens(start, edits)[i] {
      assert tokens[i] == read(PrintEdit(edits[i - 1]));
    }
  }

  lemma {:induction false} PrintedTokens(
    read: string -> Token, header: HeaderPrinter, script: Script, oldPos: nat, newPos: nat)
    requires ReadsBack(read, header) && ReadsEdits(read) && oldPos + |Source(script)| < USIZE_MAX
    ensures Mapped(read, Print(header, script, oldPos, newPos)) == ScriptTokens(script, oldPos)
    decreases script
  {
    match script
    case End =>
    case Same(lines, rest) => PrintedTokens(read, header, rest, oldPos + |lines|, newPos + |lines|);
    case Changed(edits, rest) =>
      var o, n := oldPos + |OldSide(edits)|, newPos + |NewSide(edits)|;
      PrintedTokens(read, header, rest, o, n);
      PrintedChange(read, header, edits, rest, oldPos, newPos);
  }

  lemma PrintedChange(
    read: string -> Token, header: HeaderPrinter, edits: seq<Edit>, rest: Script, oldPos: nat, newPos: nat)
    requires read(header(edits, oldPos, newPos)) == Header(Some(oldPos + 1)) && ReadsEdits(read)
    ensures var tail := Print(header, rest, oldPos + |OldSide(edits)|, newPos + |NewSide(edits)|);
            Mapped(read, Print(header, Changed(edits, rest), oldPos, newPos))
            == HunkTokens(oldPos + 1, edits) + Mapped(read, tail)
  {
    HunkThenRest(read, header(edits, oldPos, newPos), oldPos + 1, edits,
                 Print(header, rest, oldPos + |OldSide(edits)|, newPos + |NewSide(edits)|));
  }

  lemma HunkThenRest(read: string -> Token, line: string, start: nat, edits: seq<Edit>, rest: seq<string>)
    requires read(line) == Header(Some(start)) && ReadsEdits(read)
    ensures Mapped(read, [line] + PrintEdits(edits) + rest) == HunkTokens(start, edits) + Mapped(read, rest)
  {
    HunkPrinted(read, line, start, edits);
    MappedConcat(read, [line] + PrintEdits(edits), rest);
  }

  lemma ReadReadsEdits()
    ensures ReadsEdits(Read)
  {
    forall e ensures Read(PrintEdit(e)) == Body(Change(e)) {
      EditLine(e);
    }
  }

  lemma TokensMapped(lines: seq<string>)
    ensures Tokens(lines) == Mapped(Read, lines)
  {
  }

  lemma TokensConcat(a: seq<string>, b: seq<string>)
    ensures Tokens(a + b) == Tokens(a) + Tokens(b)
  {
  }

  /** A body at line `i` is read up to the next header or the end. */
  lemma {:induction false} BodyReadBack(tokens: seq<Token>, i: nat, edits: seq<Edit>)
    requires i + |edits| <= |tokens| && tokens[i..i + |edits|] == BodyTokens(edits)
    requires i + |edits| == |tokens| || tokens[i + |edits|].Header?
    ensures ReadBody(tokens, i) == Some((edits, i + |edits|))
    decreases |edits|
  {
    if edits != [] {
      assert tokens[i..i + |edits|][0] == Body(Change(edits[0]));
      assert tokens[i + 1..i + 1 + |edits[1..]|] == tokens[i..i + |edits|][1..] == BodyTokens(edits)[1..]
             == BodyTokens(edits[1..]);
      BodyReadBack(tokens, i + 1, edits[1..]);
      assert [edits[0]] + edits[1..] == edits;
    }
  }

  /** A hunk at line `i` is read in front of what follows it. */
  lemma HunkReadBack(tokens: seq<Token>, i: nat, p: nat, edits: seq<Edit>, rest: seq<Token>)
    requires i <= |tokens| && tokens[i..] == HunkTokens(p, edits) + rest && (rest == [] || rest[0].Header?)
    ensures i + 1 + |edits| <= |tokens| && tokens[i + 1 + |edits|..] == rest
    ensures var tail := ReadHunks(tokens, i + 1 + |edits|);
            ReadHunks(tokens, i) == if tail.None? then None else Some([Hunk(Position(p), edits)] + tail.value)
  {
    var s, j := tokens[i..], i + 1 + |edits|;
    assert s[0] == tokens[i] && s[1..1 + |edits|] == BodyTokens(edits) && s[1 + |edits|..] == rest;
    assert tokens[i + 1..j] == s[1..1 + |edits|];
    assert j < |tokens| ==> tokens[j] == s[j - i] == rest[0];
    BodyReadBack(tokens, i + 1, edits);
  }

  lemma {:induction false} ScriptStarts(script: Script, pos: nat)
    ensures ScriptTokens(script, pos) == [] || ScriptTokens(script, pos)[0].Header?
    decreases script
  {
    if script.Same? {
      ScriptStarts(script.rest, pos + |script.lines|);
    }
  }

  /** A printed script is read back as its hunks. */
  lemma {:induction false} ScriptReadBack(tokens: seq<Token>, i: nat, script: Script, pos: nat)
    requires i <= |tokens| && tokens[i..] == ScriptTokens(script, pos)
    ensures ReadHunks(tokens, i) == Some(HunksOf(script, pos))
    decreases script
  {
    match script
    case End =>
      assert i == |tokens|;
    case Same(lines, rest) =>
      ScriptReadBack(tokens, i, rest, pos + |lines|);
    case Changed(edits, rest) =>
      var next := pos + |OldSide(edits)|;
      ScriptStarts(rest, next);
      HunkReadBack(tokens, i, pos + 1, edits, ScriptTokens(rest, next));
      ScriptReadBack(tokens, i + 1 + |edits|, rest, next);
  }

  /** Lines that are not headers are skipped before the first hunk. */
  lemma {:induction false} SkipPreamble(tokens: seq<Token>, n: nat, i: nat)
    requires i <= n <= |tokens| && forall k :: 0 <= k < n ==> tokens[k].Body?
    ensures ReadHunks(tokens, i) == ReadHunks(tokens, n)
    decreases n - i
  {
    if i < n { SkipPreamble(tokens, n, i + 1); }
  }

  lemma {:induction false} DestinationKept(preamble: seq<string>, lines: seq<string>)
    requires preamble <= lines && Destination(preamble).Some?
    ensures Destination(lines).Some?
  {
    assert lines[0] == preamble[0];
    if StripPrefix(preamble[0], "+++ b/").None? {
      assert preamble[1..] <= lines[1..];
      DestinationKept(preamble[1..], lines[1..]);
    }
  }

  /** The lines before the first hunk of a section: no headers, and a destination. */
  predicate Preamble(lines: seq<string>) {
    (forall k :: 0 <= k < |lines| ==> !IsHeader(lines[k])) && Destination(lines).Some?
  }

  // ---------------------------------------------------------------- completeness and inversion

  /** A part of the source at a position, and what follows it. */
  lemma PartAt(source: seq<string>, pos: nat, part: seq<string>, rest: seq<string>, extra: seq<string>)
    requires pos <= |source| && source[pos..] == part + rest + extra
    ensures pos + |part| <= |source| && source[pos..pos + |part|] == part && source[pos + |part|..] == rest + extra
  {
    assert source[pos..][..|part|] == part && source[pos..][|part|..] == rest + extra;
  }

  /** The hunks of a script fit its source, whatever follows it, and splice it to its target. */
  lemma {:induction false} ScriptSplices(script: Script, source: seq<string>, cursor: nat, pos: nat, extra: seq<string>)
    requires cursor <= pos <= |source| && source[pos..] == Source(script) + extra
    ensures Hunks(HunksOf(script, pos), source, cursor) == Some(source[cursor..pos] + (Target(script) + extra))
    decreases script
  {
    match script
    case End =>
      assert source[cursor..] == source[cursor..pos] + source[pos..];
    case Same(lines, rest) =>
      PartAt(source, pos, lines, Source(rest), extra);
      ScriptSplices(rest, source, cursor, pos + |lines|, extra);
      SameAppended(source, cursor, pos, lines, Target(rest), extra);
    case Changed(edits, rest) =>
      var next := pos + |OldSide(edits)|;
      PartAt(source, pos, OldSide(edits), Source(rest), extra);
      ScriptSplices(rest, source, next, next, extra);
      HunkSpliced(source, cursor, Hunk(pos, edits), HunksOf(rest, next), Target(rest), extra);
  }

  lemma SameAppended(
    source: seq<string>, cursor: nat, pos: nat, part: seq<string>, tail: seq<string>, extra: seq<string>)
    requires cursor <= pos <= pos + |part| <= |source| && source[pos..pos + |part|] == part
    ensures source[cursor..pos + |part|] + (tail + extra) == source[cursor..pos] + (part + tail + extra)
  {
    assert source[cursor..pos + |part|] == source[cursor..pos] + part;
  }

  lemma HunkSpliced(source: seq<string>, cursor: nat, h: Hunk, rest: seq<Hunk>, tail: seq<string>, extra: seq<string>)
    requires cursor <= h.at && EndOf(h) <= |source| && source[h.at..EndOf(h)] == OldSide(h.edits)
    requires Hunks(rest, source, EndOf(h)) == Some(source[EndOf(h)..EndOf(h)] + (tail + extra))
    ensures Hunks([h] + rest, source, cursor) == Some(source[cursor..h.at] + (NewSide(h.edits) + tail + extra))
  {
    var hunks := [h] + rest;
    assert hunks[0] == h && hunks[1..] == rest;
    HunksCons(hunks, source, cursor);
    assert source[EndOf(h)..EndOf(h)] + (tail + extra) == tail + extra;
    assert source[cursor..h.at] + NewSide(h.edits) + (tail + extra)
           == source[cursor..h.at] + (NewSide(h.edits) + tail + extra);
  }

  lemma OutcomeOf(lines: seq<string>, source: seq<string>, hunks: seq<Hunk>)
    requires ReadHunks(Tokens(lines), 0) == Some(hunks) && Destination(lines).Some?
    ensures Outcome(lines, source) == Hunks(hunks, source, 0)
  {
    HunksMeaning(hunks, source, 0);
  }

  /** Hunks printed from any edit script, with any header whose old start reads back, turn its
      source into its target. */
  lemma PrintedPatchApplies(header: HeaderPrinter, preamble: seq<string>, script: Script)
    requires ReadsBack(Read, header) && Preamble(preamble) && |Source(script)| < USIZE_MAX
    ensures Outcome(preamble + Print(header, script, 0, 0), Source(script)) == Some(Target(script))
  {
    var source := Source(script);
    var lines := PrintedHunks(header, preamble, script);
    OutcomeOf(lines, source, HunksOf(script, 0));
    assert source[0..] == source + [];
    ScriptSplices(script, source, 0, 0, []);
    assert source[0..0] + (Target(script) + []) == Target(script);
  }

  lemma PrintedHunks(header: HeaderPrinter, preamble: seq<string>, script: Script) returns (lines: seq<string>)
    requires ReadsBack(Read, header) && Preamble(preamble) && |Source(script)| < USIZE_MAX
    ensures lines == preamble + Print(header, script, 0, 0)
    ensures ReadHunks(Tokens(lines), 0) == Some(HunksOf(script, 0)) && Destination(lines).Some?
  {
    var printed := Print(header, script, 0, 0);
    lines := preamble + printed;
    ReadReadsEdits();
    PrintedTokens(Read, header, script, 0, 0);
    TokensMapped(printed);
    AfterPreamble(lines, preamble, printed);
    ScriptReadBack(Tokens(lines), |preamble|, script, 0);
  }

  /** Reading a section starts at the end of its preamble. */
  lemma AfterPreamble(lines: seq<string>, preamble: seq<string>, rest: seq<string>)
    requires Preamble(preamble) && lines == preamble + rest
    ensures |preamble| <= |lines| && Tokens(lines)[|preamble|..] == Tokens(rest)
    ensures ReadHunks(Tokens(lines), 0) == ReadHunks(Tokens(lines), |preamble|) && Destination(lines).Some?
  {
    TokensConcat(preamble, rest);
    SkipPreamble(Tokens(lines), |preamble|, 0);
    DestinationKept(preamble, lines);
  }

  function ReverseEdits(edits: seq<Edit>): seq<Edit> {
    if edits == [] then []
    else
      [match edits[0] case Keep(t) => Keep(t) case Del(t) => Add(t) case Add(t) => Del(t)] + ReverseEdits(edits[1..])
  }

  function Reverse(script: Script): Script {
    match script
    case End => End
    case Same(lines, rest) => Same(lines, Reverse(rest))
    case Changed(edits, rest) => Changed(ReverseEdits(edits), Reverse(rest))
  }

  lemma {:induction false} ReverseSwapsEdits(edits: seq<Edit>)
    ensures OldSide(ReverseEdits(edits)) == NewSide(edits) && NewSide(ReverseEdits(edits)) == OldSide(edits)
  {
    if edits != [] {
      ReverseSwapsEdits(edits[1..]);
      assert ReverseEdits(edits)[1..] == ReverseEdits(edits[1..]);
    }
  }

  lemma {:induction false} ReverseSwaps(script: Script)
    ensures Source(Reverse(script)) == Target(script) && Target(Reverse(script)) == Source(script)
  {
    match script
    case End =>
    case Same(_, rest) => ReverseSwaps(rest);
    case Changed(edits, rest) =>
      ReverseSwaps(rest);
      ReverseSwapsEdits(edits);
  }

  /** Applying a printed patch and then the reversed, renumbered one restores the source. */
  lemma ReversedPatchRestores(header: HeaderPrinter, preamble: seq<string>, script: Script)
    requires ReadsBack(Read, header) && Preamble(preamble) && |Source(script)| < USIZE_MAX
             && |Target(script)| < USIZE_MAX
    ensures var patched := Outcome(preamble + Print(header, script, 0, 0), Source(script));
            && patched.Some?
            && Outcome(preamble + Print(header, Reverse(script), 0, 0), patched.value) == Some(Source(script))
  {
    PrintedPatchApplies(header, preamble, script);
    ReverseSwaps(script);
    PrintedPatchApplies(header, preamble, Reverse(script));
  }

  // ---------------------------------------------------------------- hunks without old lines

  function Adds(lines: seq<string>): seq<Edit> {
    if lines == [] then [] else [Add(lines[0])] + Adds(lines[1..])
  }

  lemma {:induction false} AddsSides(lines: seq<string>)
    ensures OldSide(Adds(lines)) == [] && NewSide(Adds(lines)) == lines
  {
    if lines != [] { AddsSides(lines[1..]); }
  }

  lemma {:induction false} CommutesIffRepeats(lines: seq<string>, x: string)
    ensures lines + [x] == [x] + lines <==> forall i :: 0 <= i < |lines| ==> lines[i] == x
  {
    if lines + [x] == [x] + lines {
      forall i | 0 <= i < |lines| ensures lines[i] == x {
        RepeatsUpTo(lines, x, i);
      }
    }
    if forall i :: 0 <= i < |lines| ==> lines[i] == x {
      assert lines + [x] == [x] + lines;
    }
  }

  lemma {:induction false} RepeatsUpTo(lines: seq<string>, x: string, i: nat)
    requires lines + [x] == [x] + lines && i < |lines|
    ensures lines[i] == x
  {
    assert (lines + [x])[i] == ([x] + lines)[i];
    if i > 0 { RepeatsUpTo(lines, x, i - 1); }
  }

  /** In the usual format `-p,0` inserts after line `p`. This applier inserts before line `p`, so
      the result is the usual one exactly when every inserted line equals line `p`. */
  lemma ZeroCountHunk(preamble: seq<string>, source: seq<string>, p: nat, lines: seq<string>, tail: string)
    requires Preamble(preamble) && 1 <= p <= |source| && p <= USIZE_MAX
    ensures var got := Outcome(preamble + ([PrintHeader(p, tail)] + PrintEdits(Adds(lines))), source);
            && got == Some(source[..p - 1] + lines + source[p - 1..])
            && (got == Some(source[..p] + lines + source[p..]) <==>
                forall i :: 0 <= i < |lines| ==> lines[i] == source[p - 1])
  {
    var header := PrintHeader(p, tail);
    HeaderStart(p, tail);
    ZeroCountOutcome(preamble, header, source, p, lines);
    InsertionShifted(source, p, lines);
  }

  lemma ZeroCountOutcome(preamble: seq<string>, header: string, source: seq<string>, p: nat, lines: seq<string>)
    requires Preamble(preamble) && 1 <= p <= |source| && Read(header) == Header(Some(p))
    ensures Outcome(preamble + ([header] + PrintEdits(Adds(lines))), source)
            == Some(source[..p - 1] + lines + source[p - 1..])
  {
    var rest := [header] + PrintEdits(Adds(lines));
    var section := preamble + rest;
    AfterPreamble(section, preamble, rest);
    ReadReadsEdits();
    HunkPrinted(Read, header, p, Adds(lines));
    TokensMapped(rest);
    assert HunkTokens(p, Adds(lines)) + [] == HunkTokens(p, Adds(lines));
    HunkReadBack(Tokens(section), |preamble|, p, Adds(lines), []);
    assert [Hunk(p - 1, Adds(lines))] + [] == [Hunk(p - 1, Adds(lines))];
    OutcomeOf(section, source, [Hunk(p - 1, Adds(lines))]);
    InsertOnly(source, p - 1, lines);
  }

  /** A hunk that only adds inserts its lines at its position. */
  lemma InsertOnly(source: seq<string>, at: nat, lines: seq<string>)
    requires at <= |source|
    ensures Hunks([Hunk(at, Adds(lines))], source, 0) == Some(source[..at] + lines + source[at..])
  {
    AddsSides(lines);
    var hunks := [Hunk(at, Adds(lines))];
    HunksCons(hunks, source, 0);
    assert source[0..at] == source[..at] && hunks[1..] == [];
  }

  lemma InsertionShifted(source: seq<string>, p: nat, lines: seq<string>)
    requires 1 <= p <= |source|
    ensures source[..p - 1] + lines + source[p - 1..] == source[..p] + lines + source[p..]
            <==> forall i :: 0 <= i < |lines| ==> lines[i] == source[p - 1]
  {
    var x, a, b := source[p - 1], source[..p - 1], source[p..];
    assert source[..p] == a + [x] && source[p - 1..] == [x] + b;
    assert a + lines + ([x] + b) == a + (lines + [x]) + b;
    assert (a + [x]) + lines + b == a + ([x] + lines) + b;
    var s, t := a + (lines + [x]) + b, a + ([x] + lines) + b;
    assert s[|a|..|a| + |lines| + 1] == lines + [x] && t[|a|..|a| + |lines| + 1] == [x] + lines;
    CommutesIffRepeats(lines, x);
  }
}
