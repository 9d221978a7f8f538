/**
 How the lines of a patch are read, said with the marks of the format spelled out, and what a
 section does, said without following the loops.
 */
module PatchReading {
  import opened Options
  import opened Text
  import opened PatchApplier
  import opened PatchPrinter

  // ---------------------------------------------------------------- single lines

  /** A line that starts with `@@ ` is a header, and what follows says its start. */
  lemma HeaderLine(header: string)
    ensures Read("@@ " + header) == Header(OldHunkStart(header))
  {
    var line := "@@ " + header;
    assert line[..3] == "@@ " && line[3..] == header;
  }

  lemma StartOfWord(word: string, rest: string)
    requires (forall i :: 0 <= i < |word| ==> !IsSpace(word[i])) && (rest == "" || IsSpace(rest[0]))
    ensures OldHunkStart(("-" + word) + rest) == ParseUnsigned(Split(word, ',')[0], USIZE_MAX)
  {
    var header := ("-" + word) + rest;
    assert TrimStart(header) == header;
    WholeWord("-" + word, rest);
    assert ("-" + word)[1..] == word && ("-" + word)[..1] == "-";
  }

  /** A header that begins with a minus sign, up to the first blank. */
  lemma HeaderWord(word: string, rest: string)
    requires (forall i :: 0 <= i < |word| ==> !IsSpace(word[i])) && (rest == "" || IsSpace(rest[0]))
    ensures Read("@@ -" + word + rest) == Header(ParseUnsigned(Split(word, ',')[0], USIZE_MAX))
  {
    StartOfWord(word, rest);
    HeaderLine(("-" + word) + rest);
    Joined(word, rest);
  }

  lemma Joined(word: string, rest: string)
    ensures "@@ " + (("-" + word) + rest) == "@@ -" + word + rest
  {
    assert "@@ " + "-" == "@@ -";
  }

  lemma {:induction false} WholeWord(word: string, rest: string)
    requires (forall i :: 0 <= i < |word| ==> !IsSpace(word[i])) && (rest == "" || IsSpace(rest[0]))
    ensures Word(word + rest) == word
  {
    if word == "" {
      assert word + rest == rest;
    } else {
      WholeWord(word[1..], rest);
      assert (word + rest)[1..] == word[1..] + rest;
    }
  }

  lemma ParseDecimalIff(n: nat, max: nat)
    ensures ParseUnsigned(Decimal(n), max) == if n <= max then Some(n) else None
  {
    ValueDecimal(n);
    assert IsDigit(Decimal(n)[0]);
  }

  lemma DigitsPlain(n: nat)
    ensures ',' !in Decimal(n) && forall i :: 0 <= i < |Decimal(n)| ==> !IsSpace(Decimal(n)[i])
  {
    var s := Decimal(n);
    forall i | 0 <= i < |s| ensures s[i] != ',' && !IsSpace(s[i]) {
      assert IsDigit(s[i]);
    }
  }

  /** The old start of a header without a count: `@@ -n ...`, read if it fits 64 bits. */
  lemma HeaderWithoutCount(n: nat, tail: string)
    ensures Read("@@ -" + Decimal(n) + " " + tail)
            == Header(if n < 0x1_0000_0000_0000_0000 then Some(n) else None)
  {
    DigitsPlain(n);
    HeaderWord(Decimal(n), " " + tail);
    assert "@@ -" + Decimal(n) + (" " + tail) == "@@ -" + Decimal(n) + " " + tail;
    SplitAlone(Decimal(n), ',');
    ParseDecimalIff(n, USIZE_MAX);
  }

  lemma {:induction false} WordPrefix(s: string, rest: string) returns (word: string, after: string)
    requires forall i :: 0 <= i < |s| ==> !IsSpace(s[i])
    ensures s + rest == (s + word) + after && (forall i :: 0 <= i < |word| ==> !IsSpace(word[i]))
    ensures after == "" || IsSpace(after[0])
  {
    word, after := CutWord(rest);
    assert s + (word + after) == (s + word) + after;
  }

  lemma {:induction false} CutWord(s: string) returns (word: string, after: string)
    ensures s == word + after && (forall i :: 0 <= i < |word| ==> !IsSpace(word[i]))
    ensures after == "" || IsSpace(after[0])
  {
    if s == "" || IsSpace(s[0]) {
      word, after := "", s;
    } else {
      word, after := CutWord(s[1..]);
      word := [s[0]] + word;
    }
  }

  /** The old start of a header with a count, `@@ -n,...`, whatever follows the comma. */
  lemma HeaderWithCount(n: nat, tail: string)
    ensures Read("@@ -" + Decimal(n) + "," + tail)
            == Header(if n < 0x1_0000_0000_0000_0000 then Some(n) else None)
  {
    DigitsPlain(n);
    var start := Decimal(n) + ",";
    var word, after := WordPrefix(start, tail);
    HeaderWord(start + word, after);
    Regrouped("@@ -", Decimal(n), ",", tail, start + word, after);
    SplitHead(Decimal(n), word, ',');
    assert start + word == Decimal(n) + [','] + word;
    ParseDecimalIff(n, USIZE_MAX);
  }

  lemma Regrouped(a: string, b: string, c: string, d: string, e: string, f: string)
    requires (b + c) + d == e + f
    ensures a + b + c + d == a + e + f
  {
    assert a + b + c + d == a + ((b + c) + d);
    assert a + e + f == a + (e + f);
  }

  /** A header whose first word does not start with a minus sign is an error. */
  lemma HeaderWithoutMinus(c: char, tail: string)
    requires !IsSpace(c) && c != '-'
    ensures Read("@@ " + [c] + tail) == Header(None)
  {
    var line := "@@ " + [c] + tail;
    assert line[..3] == "@@ " && line[3..] == [c] + tail;
    assert TrimStart(line[3..]) == line[3..];
    assert Word(line[3..])[0] == c;
  }

  /** Every other line: the marks of kept, deleted and added lines, the note, the empty line, and
      what ends a hunk. */
  lemma LineKinds(text: string)
    ensures Read(" " + text) == Body(Change(Keep(text)))
    ensures Read("-" + text) == Body(Change(Del(text)))
    ensures Read("+" + text) == Body(Change(Add(text)))
    ensures Read("\\ No newline at end of file") == Body(Note)
    ensures Read("") == Body(Panic)
  {
    EditLine(Keep(text));
    EditLine(Del(text));
    EditLine(Add(text));
    NoteLine("\\ No newline at end of file");
    EmptyLine();
  }

  lemma NoteLine(line: string)
    requires line == "\\ No newline at end of file"
    ensures Read(line) == Body(Note)
  {
    assert line[0] == '\\' && "@@ "[0] == '@';
  }

  lemma EmptyLine()
    ensures Read("") == Body(Panic)
  {
  }

  lemma OtherLines(c: char, text: string)
    requires c != ' ' && c != '-' && c != '+' && !("@@ " <= [c] + text) && [c] + text != "\\ No newline at end of file"
    ensures Read([c] + text) == Body(if c < '\U{80}' then Stop else Panic)
  {
  }

  /** The destination is what follows `+++ b/` on the first line that starts so. */
  lemma {:induction false} DestinationIs(before: seq<string>, path: string, after: seq<string>)
    requires forall i :: 0 <= i < |before| ==> !("+++ b/" <= before[i])
    ensures Destination(before + ["+++ b/" + path] + after) == Some(path)
    ensures Destination(before) == None
  {
    var lines := before + ["+++ b/" + path] + after;
    if before == [] {
      assert lines[0] == "+++ b/" + path && lines[0][6..] == path && lines[0][..6] == "+++ b/";
    } else {
      DestinationIs(before[1..], path, after);
      assert lines[1..] == before[1..] + ["+++ b/" + path] + after;
    }
  }

  // ---------------------------------------------------------------- which lines matter

  /** The lines that count: headers, and between a header and the first line that ends its hunk,
      everything but notes. */
  function Clean(tokens: seq<Token>, inside: bool): seq<Token> {
    if tokens == [] then []
    else
      match tokens[0]
      case Header(_) => [tokens[0]] + Clean(tokens[1..], true)
      case Body(line) =>
        if !inside || line.Stop? then Clean(tokens[1..], false)
        else if line.Note? then Clean(tokens[1..], true)
        else [tokens[0]] + Clean(tokens[1..], true)
  }

  /** Hunks with their starts as headers give them, one after the other. */
  function Spelled(starts: seq<nat>, hunks: seq<Hunk>): seq<Token>
    requires |starts| == |hunks|
  {
    if hunks == [] then [] else HunkTokens(starts[0], hunks[0].edits) + Spelled(starts[1..], hunks[1..])
  }

  ghost predicate Starts(starts: seq<nat>, hunks: seq<Hunk>) {
    |starts| == |hunks| && forall k :: 0 <= k < |hunks| ==> Position(starts[k]) == hunks[k].at
  }

  /** What counts from line `i` on, outside a hunk, spells these hunks. */
  ghost predicate ReadAs(tokens: seq<Token>, i: nat, starts: seq<nat>, hunks: seq<Hunk>) {
    Starts(starts, hunks) && i <= |tokens| && Clean(tokens[i..], false) == Spelled(starts, hunks)
  }

  /** The same inside a hunk: first the rest of its body. */
  ghost predicate ReadInsideAs(tokens: seq<Token>, i: nat, edits: seq<Edit>, starts: seq<nat>, hunks: seq<Hunk>) {
    Starts(starts, hunks) && i <= |tokens| && Clean(tokens[i..], true) == BodyTokens(edits) + Spelled(starts, hunks)
  }

  lemma SpelledStarts(starts: seq<nat>, hunks: seq<Hunk>)
    requires |starts| == |hunks|
    ensures Spelled(starts, hunks) == [] || Spelled(starts, hunks)[0].Header?
    ensures hunks == [] <==> Spelled(starts, hunks) == []
  {
  }

  lemma {:induction false} CleanOutside(tokens: seq<Token>)
    ensures Clean(tokens, false) == [] || Clean(tokens, false)[0].Header?
  {
    if tokens != [] && tokens[0].Body? { CleanOutside(tokens[1..]); }
  }

  lemma CleanStep(tokens: seq<Token>, i: nat, inside: bool)
    requires i < |tokens|
    ensures Clean(tokens[i..], inside) ==
            match tokens[i]
            case Header(_) => [tokens[i]] + Clean(tokens[i + 1..], true)
            case Body(line) =>
              if !inside || line.Stop? then Clean(tokens[i + 1..], false)
              else if line.Note? then Clean(tokens[i + 1..], true)
              else [tokens[i]] + Clean(tokens[i + 1..], true)
  {
    assert tokens[i..][0] == tokens[i] && tokens[i..][1..] == tokens[i + 1..];
  }

  lemma ConsStarts(start: nat, edits: seq<Edit>, starts: seq<nat>, hunks: seq<Hunk>)
    requires Starts(starts, hunks)
    ensures Starts([start] + starts, [Hunk(Position(start), edits)] + hunks)
    ensures Spelled([start] + starts, [Hunk(Position(start), edits)] + hunks)
            == [Header(Some(start))] + (BodyTokens(edits) + Spelled(starts, hunks))
  {
    var s, h := [start] + starts, [Hunk(Position(start), edits)] + hunks;
    assert s[1..] == starts && h[1..] == hunks;
    forall k | 0 <= k < |h| ensures Position(s[k]) == h[k].at {
      if k > 0 { assert s[k] == starts[k - 1] && h[k] == hunks[k - 1]; }
    }
    assert HunkTokens(start, edits) + Spelled(starts, hunks)
           == [Header(Some(start))] + (BodyTokens(edits) + Spelled(starts, hunks));
  }

  lemma ConsBody(edit: Edit, edits: seq<Edit>, rest: seq<Token>)
    ensures BodyTokens([edit] + edits) + rest == [Body(Change(edit))] + (BodyTokens(edits) + rest)
  {
  }

  /** Where hunks are read, the lines that count spell them. */
  lemma {:induction false} ReadSpells(tokens: seq<Token>, i: nat) returns (starts: seq<nat>)
    requires i <= |tokens| && ReadHunks(tokens, i).Some?
    ensures ReadAs(tokens, i, starts, ReadHunks(tokens, i).value)
    decreases |tokens| - i, 0
  {
    if i == |tokens| {
      starts := [];
    } else if tokens[i].Body? {
      CleanStep(tokens, i, false);
      starts := ReadSpells(tokens, i + 1);
    } else {
      var start, body := tokens[i].start.value, ReadBody(tokens, i + 1).value;
      var rest := BodySpells(tokens, i + 1);
      starts := [start] + rest;
      CleanStep(tokens, i, false);
      ConsStarts(start, body.0, rest, ReadHunks(tokens, body.1).value);
    }
  }

  lemma {:induction false} BodySpells(tokens: seq<Token>, i: nat) returns (starts: seq<nat>)
    requires i <= |tokens| && ReadBody(tokens, i).Some? && ReadHunks(tokens, ReadBody(tokens, i).value.1).Some?
    ensures var body := ReadBody(tokens, i).value;
            ReadInsideAs(tokens, i, body.0, starts, ReadHunks(tokens, body.1).value)
    decreases |tokens| - i, 1
  {
    if i == |tokens| || tokens[i].Header? || tokens[i].line.Stop? {
      starts := ReadSpells(tokens, i);
      if i < |tokens| {
        CleanStep(tokens, i, true);
        CleanStep(tokens, i, false);
      }
      NoBody(Spelled(starts, ReadHunks(tokens, i).value));
    } else {
      CleanStep(tokens, i, true);
      starts := BodySpells(tokens, i + 1);
      if tokens[i].line.Change? {
        ConsBody(tokens[i].line.edit, ReadBody(tokens, i + 1).value.0,
                 Spelled(starts, ReadHunks(tokens, ReadBody(tokens, i).value.1).value));
      }
    }
  }

  lemma NoBody(rest: seq<Token>)
    ensures BodyTokens([]) + rest == rest
  {
  }

  /** Where the lines that count spell hunks, those are read. */
  lemma {:induction false} SpelledReads(tokens: seq<Token>, i: nat, starts: seq<nat>, hunks: seq<Hunk>)
    requires ReadAs(tokens, i, starts, hunks)
    ensures ReadHunks(tokens, i) == Some(hunks)
    decreases |tokens| - i, 0
  {
    SpelledStarts(starts, hunks);
    if i < |tokens| {
      CleanStep(tokens, i, false);
      if tokens[i].Body? {
        SpelledReads(tokens, i + 1, starts, hunks);
      } else {
        FirstSpelled(tokens[i], Clean(tokens[i + 1..], true), starts, hunks);
        SpelledBody(tokens, i + 1, hunks[0].edits, starts[1..], hunks[1..]);
        assert [hunks[0]] + hunks[1..] == hunks;
      }
    } else {
      assert tokens[i..] == [];
    }
  }

  lemma {:induction false} FirstSpelled(first: Token, rest: seq<Token>, starts: seq<nat>, hunks: seq<Hunk>)
    requires Starts(starts, hunks) && [first] + rest == Spelled(starts, hunks)
    ensures hunks != [] && first == Header(Some(starts[0])) && Starts(starts[1..], hunks[1..])
    ensures rest == BodyTokens(hunks[0].edits) + Spelled(starts[1..], hunks[1..])
  {
    var all := [first] + rest;
    assert all[0] == first && all[1..] == rest;
    SpelledStarts(starts, hunks);
    assert HunkTokens(starts[0], hunks[0].edits)[1..] == BodyTokens(hunks[0].edits);
  }

  lemma {:induction false} SpelledBody(tokens: seq<Token>, i: nat, edits: seq<Edit>, starts: seq<nat>, hunks: seq<Hunk>)
    requires ReadInsideAs(tokens, i, edits, starts, hunks)
    ensures ReadBody(tokens, i).Some? && ReadBody(tokens, i).value.0 == edits
    ensures ReadHunks(tokens, ReadBody(tokens, i).value.1) == Some(hunks)
    decreases |tokens| - i, 1
  {
    var spelled := BodyTokens(edits) + Spelled(starts, hunks);
    SpelledStarts(starts, hunks);
    if i == |tokens| {
      assert tokens[i..] == [] && spelled == [];
      SpelledEmpty(tokens, i, edits, starts, hunks);
    } else {
      CleanStep(tokens, i, true);
      CleanStep(tokens, i, false);
      if tokens[i].Header? || tokens[i].line.Stop? {
        CleanOutside(tokens[i..]);
        NoEdits(edits, Spelled(starts, hunks));
        NoBody(Spelled(starts, hunks));
        SpelledReads(tokens, i, starts, hunks);
      } else if tokens[i].line.Note? {
        SpelledBody(tokens, i + 1, edits, starts, hunks);
      } else {
        FirstEdit(tokens[i], Clean(tokens[i + 1..], true), edits, Spelled(starts, hunks));
        SpelledBody(tokens, i + 1, edits[1..], starts, hunks);
        assert [edits[0]] + edits[1..] == edits;
      }
    }
  }

  lemma SpelledEmpty(tokens: seq<Token>, i: nat, edits: seq<Edit>, starts: seq<nat>, hunks: seq<Hunk>)
    requires |starts| == |hunks| && BodyTokens(edits) + Spelled(starts, hunks) == [] && i == |tokens|
    ensures edits == [] && hunks == []
  {
    assert |BodyTokens(edits)| + |Spelled(starts, hunks)| == 0;
    SpelledStarts(starts, hunks);
  }

  lemma NoEdits(edits: seq<Edit>, rest: seq<Token>)
    requires BodyTokens(edits) + rest == [] || (BodyTokens(edits) + rest)[0].Header?
    ensures edits == []
  {
    if edits != [] { HasEdits(edits, rest); }
  }

  lemma HasEdits(edits: seq<Edit>, rest: seq<Token>)
    requires edits != []
    ensures BodyTokens(edits) + rest != [] && (BodyTokens(edits) + rest)[0].Body?
  {
    assert (BodyTokens(edits) + rest)[0] == BodyTokens(edits)[0];
  }

  lemma FirstEdit(first: Token, more: seq<Token>, edits: seq<Edit>, rest: seq<Token>)
    requires [first] + more == BodyTokens(edits) + rest && first.Body? && (rest == [] || rest[0].Header?)
    ensures edits != [] && first == Body(Change(edits[0])) && more == BodyTokens(edits[1..]) + rest
  {
    var all := [first] + more;
    assert all[0] == first && all[1..] == more;
    if edits == [] {
      NoBody(rest);
    } else {
      assert edits == [edits[0]] + edits[1..];
      ConsBody(edits[0], edits[1..], rest);
    }
  }

  /** The hunks of a section are read exactly as the lines that count spell them: notes and lines
      outside hunks do not matter, and nothing else is forgiven. */
  lemma HunksReadIff(tokens: seq<Token>, hunks: seq<Hunk>)
    ensures ReadHunks(tokens, 0) == Some(hunks) <==>
            exists starts :: Starts(starts, hunks) && Clean(tokens, false) == Spelled(starts, hunks)
  {
    assert tokens[0..] == tokens;
    if ReadHunks(tokens, 0) == Some(hunks) {
      var starts := ReadSpells(tokens, 0);
    }
    forall starts | Starts(starts, hunks) && Clean(tokens, false) == Spelled(starts, hunks)
      ensures ReadHunks(tokens, 0) == Some(hunks)
    {
      SpelledReads(tokens, 0, starts, hunks);
    }
  }

  // ---------------------------------------------------------------- what a section does

  /** The loops succeed exactly on the source of an edit script with these hunks, and give its target. */
  lemma HunksIffScript(hunks: seq<Hunk>, source: seq<string>, out: seq<string>)
    ensures Hunks(hunks, source, 0) == Some(out) <==>
            exists script :: HunksOf(script, 0) == hunks && Source(script) == source && Target(script) == out
  {
    if Hunks(hunks, source, 0) == Some(out) {
      var script := ScriptFor(hunks, source, 0);
      assert source[0..] == source;
    }
    forall script | HunksOf(script, 0) == hunks && Source(script) == source && Target(script) == out
      ensures Hunks(hunks, source, 0) == Some(out)
    {
      assert source[0..] == Source(script) + [];
      ScriptSplices(script, source, 0, 0, []);
      assert source[0..0] + (out + []) == out;
    }
  }

  lemma {:induction false} ScriptFor(hunks: seq<Hunk>, source: seq<string>, cursor: nat) returns (script: Script)
    requires cursor <= |source| && Hunks(hunks, source, cursor).Some?
    ensures HunksOf(script, cursor) == hunks && Source(script) == source[cursor..]
    ensures Target(script) == Hunks(hunks, source, cursor).value
    decreases |hunks|
  {
    if hunks == [] {
      script := Same(source[cursor..], End);
      assert source[cursor..] + [] == source[cursor..];
    } else {
      var h := hunks[0];
      HunksCons(hunks, source, cursor);
      var rest := ScriptFor(hunks[1..], source, EndOf(h));
      script := Same(source[cursor..h.at], Changed(h.edits, rest));
      ScriptShape(hunks, source, cursor, h, rest);
    }
  }

  lemma ScriptShape(hunks: seq<Hunk>, source: seq<string>, cursor: nat, h: Hunk, rest: Script)
    requires hunks != [] && h == hunks[0] && cursor <= h.at && EndOf(h) <= |source|
    requires source[h.at..EndOf(h)] == OldSide(h.edits)
    requires HunksOf(rest, EndOf(h)) == hunks[1..] && Source(rest) == source[EndOf(h)..]
    ensures var script := Same(source[cursor..h.at], Changed(h.edits, rest));
            && HunksOf(script, cursor) == hunks && Source(script) == source[cursor..]
            && Target(script) == source[cursor..h.at] + NewSide(h.edits) + Target(rest)
  {
    var same, changed := source[cursor..h.at], Changed(h.edits, rest);
    assert Hunk(h.at, h.edits) == h && [h] + hunks[1..] == hunks;
    assert HunksOf(changed, h.at) == [Hunk(h.at, h.edits)] + HunksOf(rest, EndOf(h));
    assert source[cursor..] == same + (OldSide(h.edits) + source[EndOf(h)..]);
    assert same + (NewSide(h.edits) + Target(rest)) == same + NewSide(h.edits) + Target(rest);
  }

  /** A section with a destination and readable hunks succeeds on a source with some output exactly
      if these are the source and the target of an edit script with those hunks. */
  lemma OutcomeIffScript(lines: seq<string>, source: seq<string>, out: seq<string>, hunks: seq<Hunk>)
    requires Destination(lines).Some? && ReadHunks(Tokens(lines), 0) == Some(hunks)
    ensures Outcome(lines, source) == Some(out) <==>
            exists script :: HunksOf(script, 0) == hunks && Source(script) == source && Target(script) == out
  {
    OutcomeOf(lines, source, hunks);
    HunksIffScript(hunks, source, out);
  }

  /** A hunk that starts at line 0 creates a file: its lines are the added ones. */
  lemma CreatedFile(preamble: seq<string>, lines: seq<string>, tail: string)
    requires Preamble(preamble)
    ensures Outcome(preamble + (["@@ -0," + tail] + PrintEdits(Adds(lines))), []) == Some(lines)
  {
    HeaderWithCount(0, tail);
    assert Decimal(0) == "0" && "@@ -" + "0" + "," + tail == "@@ -0," + tail;
    FromStartZero(preamble, "@@ -0," + tail, lines);
  }

  lemma FromStartZero(preamble: seq<string>, header: string, lines: seq<string>)
    requires Preamble(preamble) && Read(header) == Header(Some(0))
    ensures Outcome(preamble + ([header] + PrintEdits(Adds(lines))), []) == Some(lines)
  {
    var rest, edits := [header] + PrintEdits(Adds(lines)), Adds(lines);
    var section := preamble + rest;
    AfterPreamble(section, preamble, rest);
    ReadReadsEdits();
    HunkPrinted(Read, header, 0, edits);
    TokensMapped(rest);
    assert HunkTokens(0, edits) + [] == HunkTokens(0, edits);
    HunkReadBack(Tokens(section), |preamble|, 0, edits, []);
    assert [Hunk(0, edits)] + [] == [Hunk(0, edits)];
    OutcomeOf(section, [], [Hunk(0, edits)]);
    InsertOnly([], 0, lines);
    assert [] + lines + [] == lines;
  }

  /** A small patch, spelled out. */
  lemma SmallPatch()
    ensures Outcome(["+++ b/f", "@@ -1,1 +1,1 @@", "-a", "+b"], ["a"]) == Some(["b"])
  {
    var lines := ["+++ b/f", "@@ -1,1 +1,1 @@", "-a", "+b"];
    var edits := [Del("a"), Add("b")];
    SmallTokens(lines);
    SmallHunks(Tokens(lines), edits);
    DestinationIs([], "f", lines[1..]);
    assert "+++ b/" + "f" == "+++ b/f";
    assert [] + ["+++ b/f"] + lines[1..] == lines;
    var script := Changed(edits, End);
    SmallScript(script);
    OutcomeIffScript(lines, ["a"], ["b"], [Hunk(0, edits)]);
  }

  lemma SmallScript(script: Script)
    requires script == Changed([Del("a"), Add("b")], End)
    ensures HunksOf(script, 0) == [Hunk(0, [Del("a"), Add("b")])] && Source(script) == ["a"] && Target(script) == ["b"]
  {
    var edits := [Del("a"), Add("b")];
    assert edits[1..] == [Add("b")] && edits[1..][1..] == [];
    assert OldSide(edits) == ["a"] && NewSide(edits) == ["b"];
  }

  lemma SmallTokens(lines: seq<string>)
    requires lines == ["+++ b/f", "@@ -1,1 +1,1 @@", "-a", "+b"]
    ensures Tokens(lines)
            == [Body(Change(Add("++ b/f"))), Header(Some(1)), Body(Change(Del("a"))), Body(Change(Add("b")))]
  {
    SmallHeader();
    SmallLines();
    FourTokens("+++ b/f", "@@ -1,1 +1,1 @@", "-a", "+b");
  }

  lemma SmallLines()
    ensures Read("+++ b/f") == Body(Change(Add("++ b/f")))
    ensures Read("-a") == Body(Change(Del("a"))) && Read("+b") == Body(Change(Add("b")))
  {
    MarkedLine("+++ b/f", Add("++ b/f"));
    MarkedLine("-a", Del("a"));
    MarkedLine("+b", Add("b"));
  }

  lemma MarkedLine(line: string, edit: Edit)
    requires line == PrintEdit(edit)
    ensures Read(line) == Body(Change(edit))
  {
    EditLine(edit);
  }

  lemma FourTokens(a: string, b: string, c: string, d: string)
    ensures Tokens([a, b, c, d]) == [Read(a), Read(b), Read(c), Read(d)]
  {
  }

  lemma SmallHeader()
    ensures Read("@@ -1,1 +1,1 @@") == Header(Some(1))
  {
    HeaderWithCount(1, "1 +1,1 @@");
    assert Decimal(1) == "1";
    assert "@@ -" + "1" + "," + "1 +1,1 @@" == "@@ -1,1 +1,1 @@";
  }

  lemma SmallHunks(tokens: seq<Token>, edits: seq<Edit>)
    requires |edits| == 2 && |tokens| == 4 && tokens[0].Body? && tokens[1] == Header(Some(1))
    requires tokens[2] == Body(Change(edits[0])) && tokens[3] == Body(Change(edits[1]))
    ensures ReadHunks(tokens, 0) == Some([Hunk(0, edits)])
  {
    assert tokens[1..] == HunkTokens(1, edits) + [];
    HunkReadBack(tokens, 1, 1, edits, []);
    assert [Hunk(0, edits)] + [] == [Hunk(0, edits)];
  }
}
