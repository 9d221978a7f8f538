/**
 Texts and their lines, as the build script reads and writes them: `str::lines` ends a line at a
 newline, drops one carriage return before it, and has no empty line after a final newline.
 */
module PatchText {
  import opened Text

  predicate EndsWithNewline(text: string) {
    text != "" && text[|text| - 1] == '\n'
  }

  predicate OneLineEach(lines: seq<string>) {
    forall i :: 0 <= i < |lines| ==> '\n' !in lines[i]
  }

  predicate NoBlankEnd(lines: seq<string>) {
    lines == [] || lines[|lines| - 1] != ""
  }

  /** The lines with the carriage returns that stand before newlines. */
  function RawLines(text: string): seq<string> {
    var pieces := Split(text, '\n');
    if pieces[|pieces| - 1] == "" then pieces[..|pieces| - 1] else pieces
  }

  predicate EndsWithCr(line: string) {
    line != "" && line[|line| - 1] == '\r'
  }

  function StripCr(line: string): string {
    if EndsWithCr(line) then line[..|line| - 1] else line
  }

  /** The lines without one carriage return each; the last one keeps it if no newline follows. */
  function StripCrs(lines: seq<string>, newline: bool): seq<string> {
    if lines == [] then []
    else [if newline || |lines| > 1 then StripCr(lines[0]) else lines[0]] + StripCrs(lines[1..], newline)
  }

  /** `str::lines` */
  function Lines(text: string): seq<string> {
    StripCrs(RawLines(text), EndsWithNewline(text))
  }

  /** What is written back: the lines joined, with a final newline if the source had one. */
  function Render(lines: seq<string>, newline: bool): string {
    Join(lines, '\n') + if newline then "\n" else ""
  }

  // ---------------------------------------------------------------- raw lines

  lemma RawRoundTrip(text: string)
    ensures Render(RawLines(text), EndsWithNewline(text)) == text
  {
    LastPiece(text);
    if EndsWithNewline(text) { NewlineRestored(text); } else { NoNewlineRestored(text); }
  }

  lemma NewlineRestored(text: string)
    requires EndsWithNewline(text)
    ensures Render(RawLines(text), true) == text
  {
    var pieces := Split(text, '\n');
    LastPiece(text);
    JoinSplit(text, '\n');
    JoinLast(pieces);
  }

  lemma NoNewlineRestored(text: string)
    requires !EndsWithNewline(text)
    ensures Render(RawLines(text), false) == text
  {
    LastPiece(text);
    JoinSplit(text, '\n');
    if text != "" { assert RawLines(text) == Split(text, '\n'); }
    assert text + "" == text;
  }

  /** The last piece is empty exactly for the empty text and texts that end in a newline. */
  lemma {:induction false} LastPiece(text: string)
    ensures Split(text, '\n')[|Split(text, '\n')| - 1] == "" <==> text == "" || EndsWithNewline(text)
    ensures |Split(text, '\n')| == 1 && text != "" ==> Split(text, '\n') == [text]
  {
    if text != "" {
      LastPiece(text[1..]);
      JoinSplit(text, '\n');
    }
  }

  lemma {:induction false} JoinLast(pieces: seq<string>)
    requires |pieces| > 1 && pieces[|pieces| - 1] == ""
    ensures Join(pieces, '\n') == Join(pieces[..|pieces| - 1], '\n') + "\n"
  {
    var front := pieces[..|pieces| - 1];
    if |pieces| > 2 {
      JoinLast(pieces[1..]);
      assert pieces[1..][..|pieces| - 2] == front[1..];
    } else {
      assert pieces[1..] == [""] && front == [pieces[0]];
    }
  }

  lemma RawReread(lines: seq<string>, newline: bool)
    requires OneLineEach(lines)
    ensures RawLines(Render(lines, newline)) == lines <==> if newline then lines != [] else NoBlankEnd(lines)
  {
    if newline { RawWithNewline(lines); } else if lines != [] { RawWithout(lines); }
  }

  lemma RawWithout(lines: seq<string>)
    requires lines != [] && OneLineEach(lines)
    ensures RawLines(Render(lines, false)) == if lines[|lines| - 1] == "" then lines[..|lines| - 1] else lines
  {
    assert Render(lines, false) == Join(lines, '\n');
    SplitJoin(lines, '\n');
  }

  lemma RawWithNewline(lines: seq<string>)
    requires OneLineEach(lines)
    ensures RawLines(Render(lines, true)) == if lines == [] then [""] else lines
  {
    if lines == [] {
      SplitHead("", "", '\n');
      assert Render(lines, true) == "" + ['\n'] + "";
    } else {
      var all := lines + [""];
      JoinLast(all);
      assert all[..|lines|] == lines;
      SplitJoin(all, '\n');
    }
  }

  /** What was rendered ends in a newline exactly as asked, unless its last line is empty or missing. */
  lemma RenderedEnd(lines: seq<string>, newline: bool)
    requires OneLineEach(lines) && (newline || NoBlankEnd(lines))
    ensures EndsWithNewline(Render(lines, newline)) <==> newline
  {
    var text := Join(lines, '\n');
    if newline {
      assert (text + "\n")[|text|] == '\n';
    } else {
      JoinEnd(lines);
      assert text + "" == text;
    }
  }

  lemma {:induction false} JoinEnd(lines: seq<string>)
    requires OneLineEach(lines) && (lines == [] || lines[|lines| - 1] != "")
    ensures !EndsWithNewline(Join(lines, '\n'))
  {
    if |lines| == 1 {
      assert lines[0][|lines[0]| - 1] in lines[0];
    } else if |lines| > 1 {
      var rest := Join(lines[1..], '\n');
      JoinEnd(lines[1..]);
      assert rest != "" by { JoinNonEmpty(lines[1..]); }
      assert Join(lines, '\n')[|lines[0]| + |rest|] == rest[|rest| - 1];
    }
  }

  lemma {:induction false} JoinNonEmpty(lines: seq<string>)
    requires lines != [] && lines[|lines| - 1] != ""
    ensures Join(lines, '\n') != ""
  {
  }

  // ---------------------------------------------------------------- counting carriage returns

  function Crs(text: string): nat {
    if text == "" then 0 else (if text[0] == '\r' then 1 else 0) + Crs(text[1..])
  }

  function CrsIn(lines: seq<string>): nat {
    if lines == [] then 0 else Crs(lines[0]) + CrsIn(lines[1..])
  }

  /** How often a carriage return stands before a newline. */
  function CrLfs(text: string): nat {
    if |text| < 2 then 0 else (if text[0] == '\r' && text[1] == '\n' then 1 else 0) + CrLfs(text[1..])
  }

  /** How many lines that a newline follows end in a carriage return. */
  function CrEnds(lines: seq<string>, newline: bool): nat {
    if lines == [] then 0
    else (if (newline || |lines| > 1) && EndsWithCr(lines[0]) then 1 else 0) + CrEnds(lines[1..], newline)
  }

  lemma {:induction false} CrsConcat(a: string, b: string)
    ensures Crs(a + b) == Crs(a) + Crs(b)
  {
    if a == "" {
      assert a + b == b;
    } else {
      CrsConcat(a[1..], b);
      assert (a + b)[1..] == a[1..] + b;
    }
  }

  lemma {:induction false} CrsInConcat(a: seq<string>, b: seq<string>)
    ensures CrsIn(a + b) == CrsIn(a) + CrsIn(b)
  {
    if a == [] {
      assert a + b == b;
    } else {
      CrsInConcat(a[1..], b);
      assert (a + b)[1..] == a[1..] + b;
    }
  }

  lemma {:induction false} RenderedCrs(lines: seq<string>, newline: bool)
    ensures Crs(Render(lines, newline)) == CrsIn(lines)
  {
    JoinedCrs(lines);
    CrsConcat(Join(lines, '\n'), if newline then "\n" else "");
  }

  lemma {:induction false} JoinedCrs(lines: seq<string>)
    ensures Crs(Join(lines, '\n')) == CrsIn(lines)
  {
    if |lines| == 1 {
      assert lines[1..] == [];
    } else if |lines| > 1 {
      JoinedCrs(lines[1..]);
      CrsConcat(lines[0] + "\n", Join(lines[1..], '\n'));
      CrsConcat(lines[0], "\n");
    }
  }

  lemma StrippedCr(line: string)
    ensures Crs(StripCr(line)) + (if EndsWithCr(line) then 1 else 0) == Crs(line)
  {
    if EndsWithCr(line) {
      CrsConcat(StripCr(line), "\r");
      assert StripCr(line) + "\r" == line;
    }
  }

  /** Stripping removes one carriage return per line that has one to lose. */
  lemma {:induction false} StrippedCrs(lines: seq<string>, newline: bool)
    ensures CrsIn(StripCrs(lines, newline)) + CrEnds(lines, newline) == CrsIn(lines)
    ensures CrEnds(lines, newline) == 0 ==> StripCrs(lines, newline) == lines
  {
    if lines != [] {
      StrippedCr(lines[0]);
      StrippedCrs(lines[1..], newline);
      assert StripCrs(lines, newline)[1..] == StripCrs(lines[1..], newline);
    }
  }

  lemma {:induction false} NoCrLf(line: string)
    requires '\n' !in line
    ensures CrLfs(line) == 0
  {
    if |line| >= 2 {
      assert line[1] in line;
      NoCrLf(line[1..]);
    }
  }

  lemma {:induction false} LineCrLfs(line: string, rest: string)
    requires '\n' !in line
    ensures CrLfs(line + "\n" + rest) == (if EndsWithCr(line) then 1 else 0) + CrLfs(rest)
  {
    var text := line + "\n" + rest;
    if line == "" {
      assert text[1..] == rest;
    } else {
      LineCrLfs(line[1..], rest);
      assert text[1..] == line[1..] + "\n" + rest;
      if |line| > 1 { assert line[1] in line; }
    }
  }

  /** Lines that a newline follows and that end in a carriage return are what `\r\n` comes from. */
  lemma {:induction false} RenderedCrLfs(lines: seq<string>, newline: bool)
    requires OneLineEach(lines)
    ensures CrLfs(Render(lines, newline)) == CrEnds(lines, newline)
  {
    if |lines| == 1 {
      assert lines[1..] == [];
      if newline {
        LineCrLfs(lines[0], "");
        assert lines[0] + "\n" + "" == Render(lines, true);
      } else {
        NoCrLf(lines[0]);
        assert Render(lines, false) == lines[0];
      }
    } else if |lines| > 1 {
      RenderedCrLfs(lines[1..], newline);
      LineCrLfs(lines[0], Render(lines[1..], newline));
      assert Render(lines, newline) == lines[0] + "\n" + Render(lines[1..], newline);
    }
  }

  lemma {:induction false} RawOneLine(text: string)
    ensures OneLineEach(RawLines(text))
  {
    PiecesAvoid(text, '\n');
  }

  /** Reading a text drops as many carriage returns as stand before newlines. */
  lemma LinesDropCrs(text: string)
    ensures CrEnds(RawLines(text), EndsWithNewline(text)) == CrLfs(text)
    ensures CrsIn(Lines(text)) + CrLfs(text) == Crs(text)
  {
    var raw, newline := RawLines(text), EndsWithNewline(text);
    RawRoundTrip(text);
    RawOneLine(text);
    RenderedCrLfs(raw, newline);
    RenderedCrs(raw, newline);
    StrippedCrs(raw, newline);
  }

  // ---------------------------------------------------------------- round trips

  /** Reading a text and writing its lines back changes nothing exactly if it has no `\r\n`. */
  lemma TextRoundTripIff(text: string)
    ensures Render(Lines(text), EndsWithNewline(text)) == text <==> CrLfs(text) == 0
  {
    LinesDropCrs(text);
    if CrLfs(text) == 0 {
      StrippedCrs(RawLines(text), EndsWithNewline(text));
      RawRoundTrip(text);
    } else {
      RenderedCrs(Lines(text), EndsWithNewline(text));
    }
  }

  /** A text with `\r\n` that is not written back as it was. */
  lemma CrLfRewritten()
    ensures Render(Lines("a\r\n"), true) == "a\n"
  {
    SplitHead("a\r", "", '\n');
    assert "a\r" + ['\n'] + "" == "a\r\n";
    assert RawLines("a\r\n") == ["a\r"];
    assert StripCr("a\r") == "a" && ["a\r"][1..] == [];
    assert Lines("a\r\n") == ["a"];
  }

  /** Some line is left in a file with a final newline, the last line of one without is not empty,
      and no line before a newline ends in a carriage return. */
  predicate Rereads(lines: seq<string>, newline: bool) {
    (if newline then lines != [] else NoBlankEnd(lines)) && CrEnds(lines, newline) == 0
  }

  /** Reading what was written gives the lines back exactly under that condition. */
  lemma RereadIff(lines: seq<string>, newline: bool)
    requires OneLineEach(lines)
    ensures Lines(Render(lines, newline)) == lines <==> Rereads(lines, newline)
  {
    var text := Render(lines, newline);
    RawReread(lines, newline);
    RenderedCrs(lines, newline);
    RenderedCrLfs(lines, newline);
    LinesDropCrs(text);
    if CrLfs(text) == 0 {
      StrippedCrs(RawLines(text), EndsWithNewline(text));
    }
  }

  lemma {:induction false} StrippedOneLine(lines: seq<string>, newline: bool)
    requires OneLineEach(lines)
    ensures OneLineEach(StripCrs(lines, newline))
  {
    if lines != [] {
      StrippedOneLine(lines[1..], newline);
    }
  }

  lemma LinesOneLine(text: string)
    ensures OneLineEach(Lines(text))
  {
    RawOneLine(text);
    StrippedOneLine(RawLines(text), EndsWithNewline(text));
  }
}
