/**
 The in-process unified-diff applier. A panic of the build script is `None`. `ApplyFilePatch` is
 the code's pair of nested loops; its contract is the declarative reading of the patch: the hunks
 that the section contains, whether they fit the source, and the splice they describe.
 */
module PatchApplier {
  import opened Options
  import opened Text

  const USIZE_MAX: nat := 0xFFFF_FFFF_FFFF_FFFF

  const HUNK: string := "@@ "
  const NO_NEWLINE: string := "\\ No newline at end of file"

  datatype Edit = Keep(text: string) | Del(text: string) | Add(text: string)

  /** `at` is the zero-based source line where the hunk applies. */
  datatype Hunk = Hunk(at: nat, edits: seq<Edit>)

  // ---------------------------------------------------------------- reading a section

  predicate IsHeader(line: string) {
    HUNK <= line
  }

  /** `old_hunk_start` */
  function OldHunkStart(header: string): Option<nat> {
    match FirstWord(header)
    case None => None
    case Some(word) =>
      match StripPrefix(word, "-")
      case None => None
      case Some(range) => ParseUnsigned(Split(range, ',')[0], USIZE_MAX)
  }

  /** `saturating_sub(1)`, whatever the hunk's line count says. */
  function Position(start: nat): nat {
    if start == 0 then 0 else start - 1
  }

  datatype Line = Note | Change(edit: Edit) | Stop | Panic

  /** A line inside a hunk; `split_at(1)` panics on an empty line and inside a multi-byte character. */
  function Classify(line: string): Line {
    if line == NO_NEWLINE then Note
    else if line == "" || line[0] as int >= 0x80 then Panic
    else if line[0] == ' ' then Change(Keep(line[1..]))
    else if line[0] == '-' then Change(Del(line[1..]))
    else if line[0] == '+' then Change(Add(line[1..]))
    else Stop
  }

  /** What a line of a section is to the loops. */
  datatype Token = Header(start: Option<nat>) | Body(line: Line)

  function Read(line: string): Token {
    if IsHeader(line) then Header(OldHunkStart(line[|HUNK|..])) else Body(Classify(line))
  }

  function Tokens(lines: seq<string>): (r: seq<Token>)
    ensures |r| == |lines| && forall i :: 0 <= i < |lines| ==> r[i] == Read(lines[i])
  {
    seq(|lines|, i requires 0 <= i < |lines| => Read(lines[i]))
  }

  /** The edits of the hunk body that starts at line `i`, and where it ends. */
  function ReadBody(tokens: seq<Token>, i: nat): (r: Option<(seq<Edit>, nat)>)
    requires i <= |tokens|
    ensures r.Some? ==> i <= r.value.1 <= |tokens|
    decreases |tokens| - i
  {
    if i == |tokens| || tokens[i].Header? then Some(([], i))
    else
      match tokens[i].line
      case Note => ReadBody(tokens, i + 1)
      case Stop => Some(([], i))
      case Panic => None
      case Change(edit) =>
        match ReadBody(tokens, i + 1)
        case None => None
        case Some((edits, j)) => Some(([edit] + edits, j))
  }

  /** The hunks from line `i` on; lines outside hunk bodies are skipped. */
  function ReadHunks(tokens: seq<Token>, i: nat): Option<seq<Hunk>>
    requires i <= |tokens|
    decreases |tokens| - i
  {
    if i == |tokens| then Some([])
    else if !tokens[i].Header? then ReadHunks(tokens, i + 1)
    else
      match tokens[i].start
      case None => None
      case Some(start) =>
        match ReadBody(tokens, i + 1)
        case None => None
        case Some((edits, j)) =>
          match ReadHunks(tokens, j)
          case None => None
          case Some(hunks) => Some([Hunk(Position(start), edits)] + hunks)
  }

  /** The first `+++ b/` line names the file; a section without one panics. */
  function Destination(lines: seq<string>): Option<string> {
    if lines == [] then None
    else if StripPrefix(lines[0], "+++ b/").Some? then StripPrefix(lines[0], "+++ b/")
    else Destination(lines[1..])
  }

  // ---------------------------------------------------------------- what a patch means

  function OldSide(edits: seq<Edit>): seq<string> {
    if edits == [] then []
    else if edits[0].Add? then OldSide(edits[1..])
    else [edits[0].text] + OldSide(edits[1..])
  }

  function NewSide(edits: seq<Edit>): seq<string> {
    if edits == [] then []
    else if edits[0].Del? then NewSide(edits[1..])
    else [edits[0].text] + NewSide(edits[1..])
  }

  function EndOf(h: Hunk): nat {
    h.at + |OldSide(h.edits)|
  }

  /** Hunks are ordered, do not overlap, lie inside the source, and their context and deleted
      lines are the source lines there. */
  ghost predicate Fits(hunks: seq<Hunk>, source: seq<string>) {
    && (forall i :: 0 < i < |hunks| ==> EndOf(hunks[i - 1]) <= hunks[i].at)
    && (forall i :: 0 <= i < |hunks| ==>
          EndOf(hunks[i]) <= |source| && source[hunks[i].at..EndOf(hunks[i])] == OldSide(hunks[i].edits))
  }

  /** Untouched ranges and new sides, in order. */
  ghost function Splice(hunks: seq<Hunk>, source: seq<string>, cursor: nat): seq<string>
    requires cursor <= |source| && Fits(hunks, source) && (hunks != [] ==> cursor <= hunks[0].at)
  {
    if hunks == [] then source[cursor..]
    else
      FitsTail(hunks, source);
      source[cursor..hunks[0].at] + NewSide(hunks[0].edits) + Splice(hunks[1..], source, EndOf(hunks[0]))
  }

  lemma FitsTail(hunks: seq<Hunk>, source: seq<string>)
    requires hunks != [] && Fits(hunks, source)
    ensures Fits(hunks[1..], source) && hunks[0].at <= EndOf(hunks[0]) <= |source|
    ensures |hunks| > 1 ==> EndOf(hunks[0]) <= hunks[1].at
  {
    var tail := hunks[1..];
    forall i | 0 < i < |tail| ensures EndOf(tail[i - 1]) <= tail[i].at {
      assert tail[i - 1] == hunks[i] && tail[i] == hunks[i + 1];
    }
  }

  /** The declarative outcome of a section on a source. */
  ghost function Outcome(lines: seq<string>, source: seq<string>): Option<seq<string>> {
    match ReadHunks(Tokens(lines), 0)
    case None => None
    case Some(hunks) =>
      if Destination(lines).Some? && Fits(hunks, source) then Some(Splice(hunks, source, 0)) else None
  }

  // ---------------------------------------------------------------- the loops, step by step

  /** Output produced so far followed by the rest. */
  function Then(done: seq<string>, rest: Option<seq<string>>): Option<seq<string>> {
    if rest.None? then None else Some(done + rest.value)
  }

  /** The inner loop on parsed edits: what it appends and where its cursor ends. */
  function Edits(edits: seq<Edit>, source: seq<string>, cursor: nat): (r: Option<(seq<string>, nat)>)
    requires cursor <= |source|
    ensures r.Some? ==> cursor <= r.value.1 <= |source|
  {
    if edits == [] then Some(([], cursor))
    else
      match edits[0]
      case Add(text) =>
        (match Edits(edits[1..], source, cursor) case None => None case Some((out, c)) => Some(([text] + out, c)))
      case Del(text) =>
        if cursor < |source| && source[cursor] == text then Edits(edits[1..], source, cursor + 1) else None
      case Keep(text) =>
        if cursor < |source| && source[cursor] == text then
          (match Edits(edits[1..], source, cursor + 1) case None => None case Some((out, c)) => Some(([text] + out, c)))
        else None
  }

  /** The outer loop on parsed hunks. */
  function Hunks(hunks: seq<Hunk>, source: seq<string>, cursor: nat): Option<seq<string>>
    requires cursor <= |source|
    decreases |hunks|, 0
  {
    if hunks == [] then Some(source[cursor..])
    else if cursor <= hunks[0].at <= |source| then
      Then(source[cursor..hunks[0].at], InHunk(hunks[0].edits, hunks[1..], source, hunks[0].at))
    else None
  }

  function InHunk(edits: seq<Edit>, rest: seq<Hunk>, source: seq<string>, cursor: nat): Option<seq<string>>
    requires cursor <= |source|
    decreases |rest|, 1
  {
    match Edits(edits, source, cursor)
    case None => None
    case Some((out, c)) => Then(out, Hunks(rest, source, c))
  }

  /** The loops from line `i`, outside a hunk. */
  function FromLine(tokens: seq<Token>, i: nat, source: seq<string>, cursor: nat): Option<seq<string>>
    requires i <= |tokens| && cursor <= |source|
  {
    match ReadHunks(tokens, i)
    case None => None
    case Some(hunks) => Hunks(hunks, source, cursor)
  }

  /** The loops from line `i`, inside a hunk body. */
  function FromBody(tokens: seq<Token>, i: nat, source: seq<string>, cursor: nat): Option<seq<string>>
    requires i <= |tokens| && cursor <= |source|
  {
    match ReadBody(tokens, i)
    case None => None
    case Some((edits, j)) =>
      match ReadHunks(tokens, j)
      case None => None
      case Some(hunks) => InHunk(edits, hunks, source, cursor)
  }

  /** `Edits` succeeds exactly when the old side is what stands at the cursor, and yields the new side. */
  lemma {:induction false} EditsMeaning(edits: seq<Edit>, source: seq<string>, cursor: nat)
    requires cursor <= |source|
    ensures var end := cursor + |OldSide(edits)|;
            Edits(edits, source, cursor) ==
            if end <= |source| && source[cursor..end] == OldSide(edits) then Some((NewSide(edits), end)) else None
  {
    if edits != [] {
      var e, before := edits[0], OldSide(edits);
      if e.Add? {
        EditsMeaning(edits[1..], source, cursor);
      } else if cursor < |source| && source[cursor] == e.text {
        EditsMeaning(edits[1..], source, cursor + 1);
        var end := cursor + |before|;
        if end <= |source| {
          assert source[cursor + 1..end] == source[cursor..end][1..];
          assert before[1..] == OldSide(edits[1..]) && before == [e.text] + before[1..];
          assert source[cursor..end] == [source[cursor]] + source[cursor + 1..end];
        }
      } else if cursor + |before| <= |source| {
        assert source[cursor..cursor + |before|][0] == source[cursor] && before[0] == e.text;
      }
    }
  }

  /** Fitting, one hunk at a time. */
  lemma FitsCons(hunks: seq<Hunk>, source: seq<string>)
    requires hunks != []
    ensures Fits(hunks, source) <==>
              && EndOf(hunks[0]) <= |source| && source[hunks[0].at..EndOf(hunks[0])] == OldSide(hunks[0].edits)
              && Fits(hunks[1..], source) && (|hunks| > 1 ==> EndOf(hunks[0]) <= hunks[1].at)
  {
    var tail := hunks[1..];
    if Fits(hunks, source) {
      FitsTail(hunks, source);
    }
    if Fits(tail, source) && (|hunks| > 1 ==> EndOf(hunks[0]) <= hunks[1].at) {
      forall i | 0 < i < |hunks| ensures EndOf(hunks[i - 1]) <= hunks[i].at {
        if i > 1 { assert tail[i - 2] == hunks[i - 1] && tail[i - 1] == hunks[i]; }
      }
      forall i | 1 <= i < |hunks|
        ensures EndOf(hunks[i]) <= |source| && source[hunks[i].at..EndOf(hunks[i])] == OldSide(hunks[i].edits)
      {
        assert tail[i - 1] == hunks[i];
      }
    }
  }

  /** What `Hunks` does with a hunk that starts in range. */
  lemma HunksCons(hunks: seq<Hunk>, source: seq<string>, cursor: nat)
    requires hunks != [] && cursor <= hunks[0].at <= |source|
    ensures var h, end := hunks[0], EndOf(hunks[0]);
            Hunks(hunks, source, cursor) ==
            if end <= |source| && source[h.at..end] == OldSide(h.edits)
            then Then(source[cursor..h.at] + NewSide(h.edits), Hunks(hunks[1..], source, end)) else None
  {
    var h, end := hunks[0], EndOf(hunks[0]);
    EditsMeaning(h.edits, source, h.at);
    if end <= |source| { ThenThen(source[cursor..h.at], NewSide(h.edits), Hunks(hunks[1..], source, end)); }
  }

  /** The loops compute the splice, and fail exactly when the hunks do not fit. */
  lemma {:induction false} HunksMeaning(hunks: seq<Hunk>, source: seq<string>, cursor: nat)
    requires cursor <= |source|
    ensures Hunks(hunks, source, cursor) ==
            if Fits(hunks, source) && (hunks != [] ==> cursor <= hunks[0].at)
            then Some(Splice(hunks, source, cursor)) else None
    decreases |hunks|
  {
    if hunks != [] && cursor <= hunks[0].at <= |source| {
      FitsCons(hunks, source);
      HunksCons(hunks, source, cursor);
      if EndOf(hunks[0]) <= |source| {
        HunksMeaning(hunks[1..], source, EndOf(hunks[0]));
      }
    } else if hunks != [] && Fits(hunks, source) {
      FitsTail(hunks, source);
    }
  }

  // ---------------------------------------------------------------- the code

  lemma ThenNothing(rest: Option<seq<string>>)
    ensures Then([], rest) == rest
  {
    if rest.Some? { assert [] + rest.value == rest.value; }
  }

  lemma ThenThen(a: seq<string>, b: seq<string>, rest: Option<seq<string>>)
    ensures Then(a, Then(b, rest)) == Then(a + b, rest)
  {
    if rest.Some? { assert a + (b + rest.value) == (a + b) + rest.value; }
  }

  /** One line of a hunk body does what `FromBody` says. */
  lemma BodyStep(tokens: seq<Token>, i: nat, source: seq<string>, cursor: nat)
    requires i < |tokens| && cursor <= |source| && tokens[i].Body? && tokens[i].line.Change?
    ensures var r := FromBody(tokens, i, source, cursor);
            match tokens[i].line.edit
            case Add(text) => r == Then([text], FromBody(tokens, i + 1, source, cursor))
            case Del(text) =>
              r == (if cursor < |source| && source[cursor] == text
                    then FromBody(tokens, i + 1, source, cursor + 1) else None)
            case Keep(text) =>
              r == (if cursor < |source| && source[cursor] == text
                    then Then([text], FromBody(tokens, i + 1, source, cursor + 1)) else None)
  {
    var edit := tokens[i].line.edit;
    var tail := ReadBody(tokens, i + 1);
    if tail.Some? {
      var (edits, j) := tail.value;
      assert ([edit] + edits)[1..] == edits;
      var hunks := ReadHunks(tokens, j);
      var c := if edit.Add? then cursor else cursor + 1;
      if hunks.Some? && c <= |source| && Edits(edits, source, c).Some? {
        var (out, end) := Edits(edits, source, c).value;
        ThenThen([edit.text], out, Hunks(hunks.value, source, end));
      }
    }
  }

  /** The inner loop of `apply_file_patch`: one hunk body, from its first line. */
  method ApplyBody(lines: seq<string>, original: seq<string>, first: nat, cursor0: nat, output0: seq<string>)
    returns (ok: bool, index: nat, cursor: nat, output: seq<string>)
    requires first <= |lines| && cursor0 <= |original|
    ensures !ok ==> FromBody(Tokens(lines), first, original, cursor0) == None
    ensures ok ==>
              && first <= index <= |lines| && cursor <= |original|
              && Then(output0, FromBody(Tokens(lines), first, original, cursor0))
                 == Then(output, FromLine(Tokens(lines), index, original, cursor))
  {
    index, cursor, output := first, cursor0, output0;
    ghost var tokens := Tokens(lines);
    ghost var goal := Then(output0, FromBody(tokens, first, original, cursor0));
    while index < |lines| && !IsHeader(lines[index])
      invariant first <= index <= |lines| && cursor <= |original|
      invariant goal == Then(output, FromBody(tokens, index, original, cursor))
    {
      match Classify(lines[index]) {
        case Note =>
          index := index + 1;
        case Panic =>
          return false, index, cursor, output;
        case Stop =>
          break;
        case Change(edit) =>
          BodyStep(tokens, index, original, cursor);
          if !edit.Add? {
            if cursor >= |original| || original[cursor] != edit.text {
              return false, index, cursor, output;
            }
            cursor := cursor + 1;
          }
          if !edit.Del? {
            ThenThen(output, [edit.text], FromBody(tokens, index + 1, original, cursor));
            output := output + [edit.text];
          }
          index := index + 1;
      }
    }
    LeaveBody(tokens, index, original, cursor);
    ok := true;
  }

  /** `apply_file_patch` on the lines of a section and of the file it names. */
  method ApplyFilePatch(lines: seq<string>, original: seq<string>) returns (r: Option<seq<string>>)
    ensures r == Outcome(lines, original)
  {
    if Destination(lines).None? {
      return None;
    }
    HunksOutcome(lines, original);
    ghost var goal := FromLine(Tokens(lines), 0, original, 0);
    var output: seq<string>, cursor: nat, index: nat := [], 0, 0;
    ThenNothing(goal);
    while index < |lines|
      invariant index <= |lines| && cursor <= |original|
      invariant goal == Then(output, FromLine(Tokens(lines), index, original, cursor))
    {
      if !IsHeader(lines[index]) {
        index := index + 1;
        continue;
      }
      var start := OldHunkStart(lines[index][|HUNK|..]);
      if start.None? {
        return None;
      }
      var position := Position(start.value);
      HeaderStep(Tokens(lines), index, original, cursor);
      if !(cursor <= position <= |original|) {
        return None;
      }
      ThenThen(output, original[cursor..position], FromBody(Tokens(lines), index + 1, original, position));
      output := output + original[cursor..position];
      var ok;
      ok, index, cursor, output := ApplyBody(lines, original, index + 1, position, output);
      if !ok {
        return None;
      }
    }
    r := Some(output + original[cursor..]);
  }

  lemma HunksOutcome(lines: seq<string>, source: seq<string>)
    requires Destination(lines).Some?
    ensures FromLine(Tokens(lines), 0, source, 0) == Outcome(lines, source)
  {
    var hunks := ReadHunks(Tokens(lines), 0);
    if hunks.Some? { HunksMeaning(hunks.value, source, 0); }
  }

  /** A hunk header copies the untouched lines and enters the body. */
  lemma HeaderStep(tokens: seq<Token>, i: nat, source: seq<string>, cursor: nat)
    requires i < |tokens| && cursor <= |source| && tokens[i].Header? && tokens[i].start.Some?
    ensures var at := Position(tokens[i].start.value);
            && (cursor <= at <= |source| ==>
                  FromLine(tokens, i, source, cursor) == Then(source[cursor..at], FromBody(tokens, i + 1, source, at)))
            && (!(cursor <= at <= |source|) ==> FromLine(tokens, i, source, cursor) == None)
  {
    var body := ReadBody(tokens, i + 1);
    if body.Some? && ReadHunks(tokens, body.value.1).Some? {
      var h := Hunk(Position(tokens[i].start.value), body.value.0);
      var rest := ReadHunks(tokens, body.value.1).value;
      assert ([h] + rest)[0] == h && ([h] + rest)[1..] == rest;
    }
  }

  /** Where the body ends, the outer loop takes over. */
  lemma LeaveBody(tokens: seq<Token>, i: nat, source: seq<string>, cursor: nat)
    requires i <= |tokens| && cursor <= |source|
    requires i == |tokens| || tokens[i].Header? || tokens[i].line.Stop?
    ensures FromBody(tokens, i, source, cursor) == FromLine(tokens, i, source, cursor)
  {
    assert ReadBody(tokens, i) == Some(([], i));
    var hunks := ReadHunks(tokens, i);
    if hunks.Some? { ThenNothing(Hunks(hunks.value, source, cursor)); }
  }
}
