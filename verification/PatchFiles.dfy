/**
 Patching the text of whole files, and when a patch followed by its reverse restores a file byte
 for byte.
 */
module PatchFiles {
  import opened Options
  import opened Text
  import opened PatchApplier
  import opened PatchPrinter
  import opened PatchText

  /** What patching does to the text of a file. */
  ghost function FileOutcome(section: string, source: string): Option<string> {
    match Outcome(Lines(section), Lines(source))
    case None => None
    case Some(lines) => Some(Render(lines, EndsWithNewline(source)))
  }

  /** `apply_file_patch`, from the texts of the section and the file to the text that is written. */
  method ApplyToFile(section: string, source: string) returns (patched: Option<string>)
    ensures patched == FileOutcome(section, source)
  {
    var output := ApplyFilePatch(Lines(section), Lines(source));
    match output {
      case None => return None;
      case Some(lines) => return Some(Render(lines, EndsWithNewline(source)));
    }
  }

  /** How a script is printed: the header format and the lines before the first hunk. */
  datatype Format = Format(header: HeaderPrinter, preamble: seq<string>)

  function PrintedLines(format: Format, script: Script): seq<string> {
    format.preamble + Print(format.header, script, 0, 0)
  }

  /** The text of a section, with whatever line ends, that reads as the printed script. */
  ghost predicate Spells(section: string, format: Format, script: Script) {
    && ReadsBack(Read, format.header) && Preamble(format.preamble) && |Source(script)| < USIZE_MAX
    && Lines(section) == PrintedLines(format, script)
  }

  /** The printed patch turns the text of a file with the script's source lines into its target
      lines, with the same final newline, and with plain newlines throughout. */
  lemma PatchedFile(section: string, format: Format, script: Script, source: string)
    requires Spells(section, format, script) && Lines(source) == Source(script)
    ensures FileOutcome(section, source) == Some(Render(Target(script), EndsWithNewline(source)))
  {
    PrintedPatchApplies(format.header, format.preamble, script);
  }

  lemma SectionOutcome(section: string, format: Format, script: Script, lines: seq<string>)
    requires Spells(section, format, script)
    ensures Outcome(Lines(section), lines) == Hunks(HunksOf(script, 0), lines, 0)
  {
    var read := PrintedHunks(format.header, format.preamble, script);
    OutcomeOf(read, lines, HunksOf(script, 0));
  }

  // ---------------------------------------------------------------- target lines

  lemma {:induction false} NewSideOneLine(edits: seq<Edit>)
    requires OneLineEach(PrintEdits(edits))
    ensures OneLineEach(NewSide(edits))
  {
    if edits != [] {
      assert PrintEdits(edits)[0] == PrintEdit(edits[0]);
      assert forall c :: c in edits[0].text ==> c in PrintEdit(edits[0]);
      assert PrintEdits(edits)[1..] == PrintEdits(edits[1..]);
      NewSideOneLine(edits[1..]);
    }
  }

  lemma {:induction false} TargetOneLine(header: HeaderPrinter, script: Script, oldPos: nat, newPos: nat)
    requires OneLineEach(Source(script)) && OneLineEach(Print(header, script, oldPos, newPos))
    ensures OneLineEach(Target(script))
    decreases script
  {
    match script
    case End =>
    case Same(lines, rest) =>
      ConcatParts(lines, Source(rest));
      TargetOneLine(header, rest, oldPos + |lines|, newPos + |lines|);
      ConcatParts(lines, Target(rest));
    case Changed(edits, rest) =>
      ConcatParts(OldSide(edits), Source(rest));
      ChangeOneLine(header(edits, oldPos, newPos), edits,
                    Print(header, rest, oldPos + |OldSide(edits)|, newPos + |NewSide(edits)|));
      TargetOneLine(header, rest, oldPos + |OldSide(edits)|, newPos + |NewSide(edits)|);
      ConcatParts(NewSide(edits), Target(rest));
  }

  lemma ChangeOneLine(line: string, edits: seq<Edit>, rest: seq<string>)
    requires OneLineEach([line] + PrintEdits(edits) + rest)
    ensures OneLineEach(NewSide(edits)) && OneLineEach(rest)
  {
    ConcatParts([line] + PrintEdits(edits), rest);
    ConcatParts([line], PrintEdits(edits));
    NewSideOneLine(edits);
  }

  lemma ConcatParts(a: seq<string>, b: seq<string>)
    ensures OneLineEach(a + b) <==> OneLineEach(a) && OneLineEach(b)
  {
    if OneLineEach(a + b) {
      forall i | 0 <= i < |a| ensures '\n' !in a[i] { assert (a + b)[i] == a[i]; }
      forall i | 0 <= i < |b| ensures '\n' !in b[i] { assert (a + b)[|a| + i] == b[i]; }
    }
  }

  lemma TargetHasLines(section: string, format: Format, script: Script, source: string)
    requires Spells(section, format, script) && Lines(source) == Source(script)
    ensures OneLineEach(Target(script))
  {
    LinesOneLine(source);
    LinesOneLine(section);
    ConcatParts(format.preamble, Print(format.header, script, 0, 0));
    TargetOneLine(format.header, script, 0, 0);
  }

  // ---------------------------------------------------------------- restoring a file

  lemma RestoredIfRereads(back: string, format: Format, script: Script, source: string)
    requires Spells(back, format, Reverse(script)) && Lines(source) == Source(script) && CrLfs(source) == 0
    requires OneLineEach(Target(script)) && Rereads(Target(script), EndsWithNewline(source))
    ensures FileOutcome(back, Render(Target(script), EndsWithNewline(source))) == Some(source)
  {
    var newline := EndsWithNewline(source);
    RereadIff(Target(script), newline);
    RenderedEnd(Target(script), newline);
    ReverseSwaps(script);
    PatchedFile(back, format, Reverse(script), Render(Target(script), newline));
    TextRoundTripIff(source);
  }

  /** Deleting every line leaves a file that reads as one empty line, which the reversed patch keeps. */
  lemma EmptiedNotRestored(back: string, format: Format, script: Script, source: string)
    requires Spells(back, format, Reverse(script)) && Lines(source) == Source(script) && CrLfs(source) == 0
    requires EndsWithNewline(source) && Target(script) == []
    ensures FileOutcome(back, Render([], true)) != Some(source)
  {
    ReverseSwaps(script);
    assert Render([], true) == "\n";
    RawWithNewline([]);
    assert StripCr("") == "" && [""][1..] == [];
    assert Lines("\n") == [""];
    BlankKept(Reverse(script));
    SectionOutcome(back, format, Reverse(script), [""]);
    TextRoundTripIff(source);
    SomeLine(source);
    LongerByOne(Source(script));
  }

  lemma SomeLine(source: string)
    requires source != ""
    ensures Lines(source) != []
  {
    LastPiece(source);
  }

  lemma BlankKept(script: Script)
    requires Source(script) == []
    ensures Hunks(HunksOf(script, 0), [""], 0) == Some(Target(script) + [""])
  {
    assert [""][0..] == Source(script) + [""];
    ScriptSplices(script, [""], 0, 0, [""]);
    assert [""][0..0] + (Target(script) + [""]) == Target(script) + [""];
  }

  lemma LongerByOne(lines: seq<string>)
    requires lines != []
    ensures Render(lines + [""], true) != Render(lines, true)
  {
    var all := lines + [""];
    JoinLast(all);
    assert all[..|lines|] == lines;
    assert |Render(all, true)| == |Render(lines, true)| + 1;
  }

  /** A patched file without a final newline whose last of several lines is empty ends in a newline. */
  lemma {:induction false} JoinEndsInNewline(lines: seq<string>)
    requires |lines| > 1 && lines[|lines| - 1] == ""
    ensures EndsWithNewline(Join(lines, '\n'))
  {
    JoinLast(lines);
  }

  /** Patching keeps a final newline. */
  lemma NewlineKept(back: string, text: string, source: string)
    requires EndsWithNewline(text) && !EndsWithNewline(source)
    ensures FileOutcome(back, text) != Some(source)
  {
    var out := Outcome(Lines(back), Lines(text));
    if out.Some? {
      var joined := Join(out.value, '\n');
      assert (joined + "\n")[|joined|] == '\n';
    }
  }

  /** Hunks behind the end of the source are refused, if there are any. */
  lemma {:induction false} BeyondEnd(script: Script, pos: nat)
    requires pos > 0 && Source(script) == [] && Target(script) != []
    ensures Hunks(HunksOf(script, pos), [], 0) == None
  {
    match script
    case End =>
    case Same(lines, rest) => BeyondEnd(rest, pos);
    case Changed(edits, rest) =>
      assert HunksOf(script, pos)[0] == Hunk(pos, edits);
  }

  lemma NoBlankEndTail(front: seq<string>, lines: seq<string>)
    requires NoBlankEnd(front + lines)
    ensures NoBlankEnd(lines)
  {
    if lines != [] { assert (front + lines)[|front + lines| - 1] == lines[|lines| - 1]; }
  }

  /** The hunks of a script whose source is one empty line are refused by the empty file, unless
      the script ends in an empty line. */
  lemma {:induction false} LostLine(script: Script)
    requires Source(script) == [""] && NoBlankEnd(Target(script))
    ensures Hunks(HunksOf(script, 0), [], 0) == None
    decreases script
  {
    match script
    case End =>
    case Same(lines, rest) =>
      NoBlankEndTail(lines, Target(rest));
      if lines == [] {
        assert lines + Source(rest) == Source(rest);
        LostLine(rest);
      } else {
        BlankSkipped(lines, rest);
      }
    case Changed(edits, rest) =>
      NoBlankEndTail(NewSide(edits), Target(rest));
      if OldSide(edits) == [] {
        assert OldSide(edits) + Source(rest) == Source(rest);
        LostLine(rest);
      }
      RefusedWith(edits, HunksOf(rest, |OldSide(edits)|));
  }

  /** The empty line stands in an unchanged stretch, so any later hunk lies beyond the end. */
  lemma BlankSkipped(lines: seq<string>, rest: Script)
    requires lines != [] && lines + Source(rest) == [""] && NoBlankEnd(lines + Target(rest))
    ensures Hunks(HunksOf(rest, |lines|), [], 0) == None
  {
    assert lines[0] == (lines + Source(rest))[0];
    assert |lines| == 1 && Source(rest) == [];
    assert lines + [] == lines;
    BeyondEnd(rest, 1);
  }

  /** A first hunk with old lines does not fit the empty file; one without passes the refusal on. */
  lemma RefusedWith(edits: seq<Edit>, rest: seq<Hunk>)
    requires OldSide(edits) == [] ==> Hunks(rest, [], 0) == None
    ensures Hunks([Hunk(0, edits)] + rest, [], 0) == None
  {
    var hunks := [Hunk(0, edits)] + rest;
    assert hunks[0] == Hunk(0, edits) && hunks[1..] == rest;
    HunksCons(hunks, [], 0);
  }

  lemma {:induction false} StripKeepsLast(lines: seq<string>)
    ensures |StripCrs(lines, false)| == |lines|
    ensures lines != [] ==> StripCrs(lines, false)[|lines| - 1] == lines[|lines| - 1]
  {
    if lines != [] { StripKeepsLast(lines[1..]); }
  }

  lemma LastLineNotEmpty(source: string)
    requires !EndsWithNewline(source)
    ensures NoBlankEnd(Lines(source))
  {
    LastPiece(source);
    StripKeepsLast(RawLines(source));
  }

  lemma RefusedFile(back: string, format: Format, script: Script, source: string)
    requires Spells(back, format, script) && Hunks(HunksOf(script, 0), Lines(source), 0) == None
    ensures FileOutcome(back, source) == None
  {
    SectionOutcome(back, format, script, Lines(source));
  }

  lemma BlankRefused(script: Script, source: string)
    requires Lines(source) == Source(script) && !EndsWithNewline(source) && Target(script) == [""]
    ensures Hunks(HunksOf(Reverse(script), 0), [], 0) == None
  {
    ReverseSwaps(script);
    LastLineNotEmpty(source);
    LostLine(Reverse(script));
  }

  lemma BlankNotRestored(back: string, format: Format, script: Script, source: string)
    requires Spells(back, format, Reverse(script)) && Lines(source) == Source(script)
    requires !EndsWithNewline(source) && Target(script) == [""]
    ensures FileOutcome(back, "") == None
  {
    BlankRefused(script, source);
    EmptyText();
    RefusedFile(back, format, Reverse(script), "");
  }

  lemma EmptyText()
    ensures Render([""], false) == "" && Lines("") == []
  {
  }

  // ---------------------------------------------------------------- lost carriage returns

  function OldCrs(hunks: seq<Hunk>): nat {
    if hunks == [] then 0 else CrsIn(OldSide(hunks[0].edits)) + OldCrs(hunks[1..])
  }

  function NewCrs(hunks: seq<Hunk>): nat {
    if hunks == [] then 0 else CrsIn(NewSide(hunks[0].edits)) + NewCrs(hunks[1..])
  }

  /** Hunks change the number of carriage returns by what they delete and add. */
  lemma {:induction false} HunksCrs(hunks: seq<Hunk>, source: seq<string>, cursor: nat)
    requires cursor <= |source| && Hunks(hunks, source, cursor).Some?
    ensures CrsIn(Hunks(hunks, source, cursor).value) + OldCrs(hunks) == CrsIn(source[cursor..]) + NewCrs(hunks)
    decreases |hunks|
  {
    if hunks != [] {
      var h := hunks[0];
      HunksCons(hunks, source, cursor);
      HunksCrs(hunks[1..], source, EndOf(h));
      var rest := Hunks(hunks[1..], source, EndOf(h)).value;
      OneHunkCrs(source, cursor, h, rest);
    }
  }

  lemma OneHunkCrs(source: seq<string>, cursor: nat, h: Hunk, rest: seq<string>)
    requires cursor <= h.at && EndOf(h) <= |source| && source[h.at..EndOf(h)] == OldSide(h.edits)
    ensures CrsIn(source[cursor..]) == CrsIn(source[cursor..h.at]) + CrsIn(OldSide(h.edits)) + CrsIn(source[EndOf(h)..])
    ensures CrsIn(source[cursor..h.at] + NewSide(h.edits) + rest)
            == CrsIn(source[cursor..h.at]) + CrsIn(NewSide(h.edits)) + CrsIn(rest)
  {
    var a, b, c := source[cursor..h.at], OldSide(h.edits), source[EndOf(h)..];
    assert source[cursor..] == a + b + c;
    CrsInConcat(a + b, c);
    CrsInConcat(a, b);
    CrsInConcat(a + NewSide(h.edits), rest);
    CrsInConcat(a, NewSide(h.edits));
  }

  /** The hunks of a script account for its change in carriage returns. */
  predicate Balanced(script: Script, pos: nat) {
    CrsIn(Target(script)) + OldCrs(HunksOf(script, pos)) == CrsIn(Source(script)) + NewCrs(HunksOf(script, pos))
  }

  lemma {:induction false} ScriptCrs(script: Script, pos: nat)
    ensures Balanced(script, pos)
    decreases script
  {
    match script
    case End =>
    case Same(lines, rest) =>
      ScriptCrs(rest, pos + |lines|);
      SameBalanced(lines, rest, pos);
    case Changed(edits, rest) =>
      ScriptCrs(rest, pos + |OldSide(edits)|);
      ChangedBalanced(edits, rest, pos);
  }

  lemma SameBalanced(lines: seq<string>, rest: Script, pos: nat)
    requires Balanced(rest, pos + |lines|)
    ensures Balanced(Same(lines, rest), pos)
  {
    CrsInConcat(lines, Source(rest));
    CrsInConcat(lines, Target(rest));
  }

  lemma ChangedBalanced(edits: seq<Edit>, rest: Script, pos: nat)
    requires Balanced(rest, pos + |OldSide(edits)|)
    ensures Balanced(Changed(edits, rest), pos)
  {
    CrsInConcat(OldSide(edits), Source(rest));
    CrsInConcat(NewSide(edits), Target(rest));
    ChangeCrs(edits, rest, pos);
  }

  lemma {:induction false} ReversedCrs(script: Script, pos: nat, backPos: nat)
    ensures OldCrs(HunksOf(Reverse(script), backPos)) == NewCrs(HunksOf(script, pos))
    ensures NewCrs(HunksOf(Reverse(script), backPos)) == OldCrs(HunksOf(script, pos))
    decreases script
  {
    match script
    case End =>
    case Same(lines, rest) =>
      ReversedCrs(rest, pos + |lines|, backPos + |lines|);
    case Changed(edits, rest) =>
      ReversedCrs(rest, pos + |OldSide(edits)|, backPos + |NewSide(edits)|);
      ReversedChange(edits, rest, pos, backPos);
  }

  lemma ReversedChange(edits: seq<Edit>, rest: Script, pos: nat, backPos: nat)
    requires var there := HunksOf(rest, pos + |OldSide(edits)|);
             var back := HunksOf(Reverse(rest), backPos + |NewSide(edits)|);
             OldCrs(back) == NewCrs(there) && NewCrs(back) == OldCrs(there)
    ensures var there, back := HunksOf(Changed(edits, rest), pos), HunksOf(Reverse(Changed(edits, rest)), backPos);
            OldCrs(back) == NewCrs(there) && NewCrs(back) == OldCrs(there)
  {
    ChangeCrs(edits, rest, pos);
    BackCrs(edits, rest, backPos);
  }

  lemma ChangeCrs(edits: seq<Edit>, rest: Script, pos: nat)
    ensures var hunks, tail := HunksOf(Changed(edits, rest), pos), HunksOf(rest, pos + |OldSide(edits)|);
            && OldCrs(hunks) == CrsIn(OldSide(edits)) + OldCrs(tail)
            && NewCrs(hunks) == CrsIn(NewSide(edits)) + NewCrs(tail)
  {
    HeadCrs(Hunk(pos, edits), HunksOf(rest, pos + |OldSide(edits)|));
  }

  lemma BackCrs(edits: seq<Edit>, rest: Script, pos: nat)
    ensures var hunks := HunksOf(Reverse(Changed(edits, rest)), pos);
            var tail := HunksOf(Reverse(rest), pos + |NewSide(edits)|);
            && OldCrs(hunks) == CrsIn(NewSide(edits)) + OldCrs(tail)
            && NewCrs(hunks) == CrsIn(OldSide(edits)) + NewCrs(tail)
  {
    ReverseSwapsEdits(edits);
    ChangeCrs(ReverseEdits(edits), Reverse(rest), pos);
  }

  lemma HeadCrs(h: Hunk, rest: seq<Hunk>)
    ensures OldCrs([h] + rest) == CrsIn(OldSide(h.edits)) + OldCrs(rest)
    ensures NewCrs([h] + rest) == CrsIn(NewSide(h.edits)) + NewCrs(rest)
  {
    assert ([h] + rest)[1..] == rest;
  }

  /** There and back loses every carriage return before a newline, of the file and of the patched file. */
  lemma CrsLostOnTheWay(back: string, format: Format, script: Script, source: string, restored: string)
    requires Spells(back, format, Reverse(script)) && Lines(source) == Source(script)
    requires FileOutcome(back, Render(Target(script), EndsWithNewline(source))) == Some(restored)
    ensures Crs(restored) + CrLfs(source) + CrLfs(Render(Target(script), EndsWithNewline(source))) == Crs(source)
  {
    var patched := Render(Target(script), EndsWithNewline(source));
    SectionOutcome(back, format, Reverse(script), Lines(patched));
    var out := Hunks(HunksOf(Reverse(script), 0), Lines(patched), 0).value;
    HunksCrs(HunksOf(Reverse(script), 0), Lines(patched), 0);
    assert Lines(patched)[0..] == Lines(patched);
    ScriptCrs(script, 0);
    ReversedCrs(script, 0, 0);
    LinesDropCrs(source);
    LinesDropCrs(patched);
    RenderedCrs(Target(script), EndsWithNewline(source));
    RenderedCrs(out, EndsWithNewline(patched));
  }

  /** Patching a file and then applying the reversed patch gives the file back, byte for byte,
      exactly when it has no `\r\n` and the patched file reads back as its lines. */
  lemma FileRestoredIff(section: string, back: string, format: Format, script: Script, source: string)
    requires Spells(section, format, script) && Spells(back, format, Reverse(script)) && Lines(source) == Source(script)
    ensures var patched := FileOutcome(section, source);
            && patched.Some?
            && (FileOutcome(back, patched.value) == Some(source)
                <==> CrLfs(source) == 0 && Rereads(Target(script), EndsWithNewline(source)))
  {
    var newline := EndsWithNewline(source);
    var patched := Render(Target(script), newline);
    PatchedFile(section, format, script, source);
    TargetHasLines(section, format, script, source);
    RenderedCrLfs(Target(script), newline);
    if FileOutcome(back, patched) == Some(source) {
      CrsLostOnTheWay(back, format, script, source, source);
      RereadsIfRestored(back, format, script, source);
    } else if CrLfs(source) == 0 && Rereads(Target(script), newline) {
      RestoredIfRereads(back, format, script, source);
    }
  }

  lemma RereadsIfRestored(back: string, format: Format, script: Script, source: string)
    requires Spells(back, format, Reverse(script)) && Lines(source) == Source(script) && CrLfs(source) == 0
    requires FileOutcome(back, Render(Target(script), EndsWithNewline(source))) == Some(source)
    ensures if EndsWithNewline(source) then Target(script) != [] else NoBlankEnd(Target(script))
  {
    if EndsWithNewline(source) {
      if Target(script) == [] { EmptiedNotRestored(back, format, script, source); }
    } else if !NoBlankEnd(Target(script)) {
      BlankEndNotRestored(back, format, script, source, Render(Target(script), false));
    }
  }

  lemma BlankEndNotRestored(back: string, format: Format, script: Script, source: string, patched: string)
    requires Spells(back, format, Reverse(script)) && Lines(source) == Source(script)
    requires !EndsWithNewline(source) && !NoBlankEnd(Target(script)) && patched == Render(Target(script), false)
    ensures FileOutcome(back, patched) != Some(source)
  {
    if |Target(script)| > 1 {
      BlankEndRendered(Target(script));
      NewlineKept(back, patched, source);
    } else {
      assert Target(script) == [""];
      EmptyText();
      BlankNotRestored(back, format, script, source);
    }
  }

  lemma BlankEndRendered(lines: seq<string>)
    requires |lines| > 1 && !NoBlankEnd(lines)
    ensures EndsWithNewline(Render(lines, false))
  {
    JoinEndsInNewline(lines);
    assert Join(lines, '\n') + "" == Join(lines, '\n');
  }

  // ---------------------------------------------------------------- a file that is not restored

  lemma {:induction false} DecimalHasNoNewline(n: nat)
    ensures '\n' !in Decimal(n)
  {
    var s := Decimal(n);
    forall i | 0 <= i < |s| ensures s[i] != '\n' {
      assert IsDigit(s[i]);
    }
  }

  lemma StandardHeaderIsLine(edits: seq<Edit>, oldPos: nat, newPos: nat)
    ensures '\n' !in HeaderOf(edits, oldPos, newPos) && !EndsWithCr(HeaderOf(edits, oldPos, newPos))
  {
    DecimalHasNoNewline(oldPos + 1);
    DecimalHasNoNewline(|OldSide(edits)|);
    DecimalHasNoNewline(newPos + 1);
    DecimalHasNoNewline(|NewSide(edits)|);
    var counts := Counts(|OldSide(edits)|, newPos + 1, |NewSide(edits)|);
    assert '\n' !in counts && counts[|counts| - 1] == '@';
    var header := HeaderOf(edits, oldPos, newPos);
    assert header == "@@ -" + Decimal(oldPos + 1) + "," + counts;
    assert header[|header| - 1] == counts[|counts| - 1];
  }

  /** Deleting the only line of `"a\n"` and undoing it does not give the file back. */
  lemma FileNotRestored() returns (section: string, back: string, format: Format, script: Script)
    ensures Spells(section, format, script) && Spells(back, format, Reverse(script)) && Lines("a\n") == Source(script)
    ensures var patched := FileOutcome(section, "a\n");
            patched.Some? && FileOutcome(back, patched.value) != Some("a\n")
  {
    format := Format(HeaderOf, ["+++ b/f"]);
    script := Changed([Del("a")], End);
    section := SpelledDeletion(Del("a"));
    back := SpelledDeletion(Add("a"));
    OneLetterFile();
    DeletionScript(script);
    Unrestored(section, back, format, script, "a\n");
  }

  lemma Unrestored(section: string, back: string, format: Format, script: Script, source: string)
    requires Spells(section, format, script) && Spells(back, format, Reverse(script)) && Lines(source) == Source(script)
    requires EndsWithNewline(source) && Target(script) == []
    ensures var patched := FileOutcome(section, source);
            patched.Some? && FileOutcome(back, patched.value) != Some(source)
  {
    FileRestoredIff(section, back, format, script, source);
  }

  lemma DeletionScript(script: Script)
    requires script == Changed([Del("a")], End)
    ensures Reverse(script) == Changed([Add("a")], End) && Source(script) == ["a"] && Target(script) == []
  {
    assert OldSide([Del("a")]) == ["a"] && NewSide([Del("a")]) == [];
  }

  lemma OneLetterFile()
    ensures Lines("a\n") == ["a"] && EndsWithNewline("a\n")
  {
    assert Render(["a"], true) == "a\n";
    assert ["a"][1..] == [];
    RereadIff(["a"], true);
  }

  lemma SpelledDeletion(edit: Edit) returns (section: string)
    requires edit.text == "a"
    ensures Spells(section, Format(HeaderOf, ["+++ b/f"]), Changed([edit], End))
  {
    StandardHeaderReadsBack();
    StandardHeaderIsLine([edit], 0, 0);
    PreambleOk();
    var line := PrintEdit(edit);
    assert line[1] == 'a' && |line| == 2;
    section := SpelledLine(HeaderOf, "+++ b/f", edit);
  }

  /** A patch of one edit in three lines of text. */
  lemma SpelledLine(header: HeaderPrinter, first: string, edit: Edit) returns (section: string)
    requires ReadsBack(Read, header) && Preamble([first]) && OneLineEach([first, header([edit], 0, 0), PrintEdit(edit)])
    requires !EndsWithCr(first) && !EndsWithCr(header([edit], 0, 0)) && !EndsWithCr(PrintEdit(edit))
    requires |OldSide([edit])| <= 1
    ensures Spells(section, Format(header, [first]), Changed([edit], End))
  {
    var head, line := header([edit], 0, 0), PrintEdit(edit);
    section := Render([first, head, line], true);
    ThreeLines(first, head, line);
    assert PrintEdits([edit]) == [line];
    assert Print(header, End, |OldSide([edit])|, |NewSide([edit])|) == [];
    assert Print(header, Changed([edit], End), 0, 0) == [head] + [line] + [];
    assert PrintedLines(Format(header, [first]), Changed([edit], End)) == [first, head, line];
  }

  lemma ThreeLines(a: string, b: string, c: string)
    requires OneLineEach([a, b, c]) && !EndsWithCr(a) && !EndsWithCr(b) && !EndsWithCr(c)
    ensures Lines(Render([a, b, c], true)) == [a, b, c]
  {
    assert [a, b, c][1..] == [b, c] && [b, c][1..] == [c] && [c][1..] == [];
    assert CrEnds([c], true) == 0;
    assert CrEnds([b, c], true) == 0;
    RereadIff([a, b, c], true);
  }

  lemma PreambleOk()
    ensures Preamble(["+++ b/f"])
  {
    var line := "+++ b/f";
    assert line[0] == '+' && HUNK[0] == '@';
    assert line[..6] == "+++ b/" && StripPrefix(line, "+++ b/").Some?;
    assert [line][0] == line;
  }
}
