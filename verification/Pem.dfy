/** PEM wrapping and unwrapping (section 2 of RFC 7468), over any sound Base64 codec. */
module Pem {
  import opened Options
  import opened Text
  import opened Base64

  function BeginMarker(name: string): string {
    "-----BEGIN " + name + "-----"
  }

  function EndMarker(name: string): string {
    "-----END " + name + "-----"
  }

  /** The body lines: pieces of 64 characters. */
  function Chunks(s: string): seq<string> {
    if s == "" then []
    else if |s| <= 64 then [s]
    else [s[..64]] + Chunks(s[64..])
  }

  /** Lines, each ended by a newline. */
  function Unlines(lines: seq<string>): string {
    if lines == [] then "" else lines[0] + "\n" + Unlines(lines[1..])
  }

  function Wrapped(codec: Codec, bytes: seq<Byte>, name: string): string {
    BeginMarker(name) + "\n" + Unlines(Chunks(codec.encode(bytes))) + EndMarker(name) + "\n"
  }

  /** The destination buffer of Core: what was written, and how much more fits; a buffer that grows
      has no bound. A write that does not fit throws and writes nothing. */
  class Destination<T> {
    var contents: seq<T>
    var room: Option<nat>

    predicate Fits(data: seq<T>)
      reads this
    {
      room.Some? ==> |data| <= room.value
    }

    constructor (room: Option<nat>)
      ensures contents == [] && this.room == room
    {
      contents, this.room := [], room;
    }

    method Write(data: seq<T>) returns (ok: bool)
      modifies this
      ensures ok == old(Fits(data))
      ensures contents == if ok then old(contents) + data else old(contents)
      ensures room == if ok && old(room).Some? then Some(old(room).value - |data|) else old(room)
    {
      ok := Fits(data);
      if ok {
        contents := contents + data;
        if room.Some? { room := Some(room.value - |data|); }
      }
    }
  }

  /** `pem_encode` succeeds exactly when the wrapped text fits, and then appends all of it. */
  method PemEncode(codec: Codec, bytes: seq<Byte>, name: string, destination: Destination<char>) returns (ok: bool)
    modifies destination
    ensures ok == old(destination.Fits(Wrapped(codec, bytes, name)))
    ensures destination.contents == old(destination.contents) + if ok then Wrapped(codec, bytes, name) else ""
  {
    var pem := WrapText(codec, bytes, name);
    ok := destination.Write(pem);
  }

  /** `pem_decode` succeeds exactly when the text decodes and the bytes fit, and then appends them. */
  method PemDecodeInto(codec: Codec, pem: string, name: string, destination: Destination<Byte>) returns (ok: bool)
    modifies destination
    ensures var decoded := PemDecode(codec, pem, name);
            && ok == (decoded.Some? && old(destination.Fits(decoded.value)))
            && destination.contents == old(destination.contents) + if ok then decoded.value else []
  {
    var decoded := PemDecode(codec, pem, name);
    if decoded.None? {
      return false;
    }
    ok := destination.Write(decoded.value);
  }

  /** The loop of `pem_encode`. */
  method WrapText(codec: Codec, bytes: seq<Byte>, name: string) returns (pem: string)
    ensures pem == Wrapped(codec, bytes, name)
  {
    var encoded := codec.encode(bytes);
    var head := BeginMarker(name) + "\n";
    pem := head;
    assert encoded[0..] == encoded;
    var offset := 0;
    while offset < |encoded|
      invariant 0 <= offset
      invariant pem + Unlines(Chunks(From(encoded, offset))) == head + Unlines(Chunks(encoded))
    {
      var line := encoded[offset..Min(offset + 64, |encoded|)];
      NextLine(pem, encoded, offset, line);
      pem := pem + (line + "\n");
      offset := offset + 64;
    }
    assert pem + "" == pem;
    pem := pem + EndMarker(name) + "\n";
  }

  function Min(a: nat, b: nat): nat {
    if a < b then a else b
  }

  function From(s: string, offset: nat): string {
    s[Min(offset, |s|)..]
  }

  /** A round of the loop moves one line from what is left to what is done. */
  lemma NextLine(pem: string, s: string, offset: nat, line: string)
    requires offset < |s| && line == s[offset..Min(offset + 64, |s|)]
    ensures pem + (line + "\n") + Unlines(Chunks(From(s, offset + 64))) == pem + Unlines(Chunks(From(s, offset)))
  {
    var left := From(s, offset);
    ChunkStep(left);
    assert left[..Min(64, |left|)] == line && left[Min(64, |left|)..] == From(s, offset + 64);
    assert pem + (line + "\n") + Unlines(Chunks(From(s, offset + 64)))
           == pem + (line + "\n" + Unlines(Chunks(From(s, offset + 64))));
  }

  lemma ChunkStep(s: string)
    requires s != ""
    ensures Unlines(Chunks(s)) == s[..Min(64, |s|)] + "\n" + Unlines(Chunks(s[Min(64, |s|)..]))
  {
    var n := Min(64, |s|);
    var first, rest := s[..n], Chunks(s[n..]);
    assert |s| <= 64 ==> first == s && rest == [];
    assert Chunks(s) == [first] + rest;
    UnlinesCons(first, rest);
  }

  lemma UnlinesCons(line: string, lines: seq<string>)
    ensures Unlines([line] + lines) == line + "\n" + Unlines(lines)
  {
    assert ([line] + lines)[1..] == lines;
  }

  /** The filter of `pem_decode`. */
  predicate Blank(c: char) {
    c == '\r' || c == '\n' || c == ' ' || c == '\t'
  }

  function Strip(s: string): string {
    if s == "" then "" else (if Blank(s[0]) then "" else [s[0]]) + Strip(s[1..])
  }

  /** What stands between the first begin marker and the first end marker after it. */
  function Between(pem: string, begin: string, end: string): Option<string> {
    match Find(pem, begin, 0)
    case None => None
    case Some(at) =>
      match Find(pem, end, at + |begin|)
      case None => None
      case Some(stop) => Some(pem[at + |begin|..stop])
  }

  /** `pem_decode` */
  function PemDecode(codec: Codec, pem: string, name: string): Option<seq<Byte>> {
    match Between(pem, BeginMarker(name), EndMarker(name))
    case None => None
    case Some(body) => codec.decode(Strip(body))
  }

  // ---------------------------------------------------------------- the body lines

  /** Body lines have 64 characters, except that the last may be shorter, and spell the text. */
  lemma {:induction false} ChunksShape(s: string)
    ensures var lines := Chunks(s);
            && (s == "" <==> lines == [])
            && (forall i :: 0 <= i < |lines| - 1 ==> |lines[i]| == 64)
            && (lines != [] ==> 0 < |lines[|lines| - 1]| <= 64)
            && Spelled(lines) == s
  {
    if |s| > 64 {
      ChunksShape(s[64..]);
      var rest := Chunks(s[64..]);
      assert Chunks(s)[1..] == rest;
      assert s[..64] + s[64..] == s;
    } else if s != "" {
      assert [s][1..] == [] && s + "" == s;
    }
  }

  function Spelled(lines: seq<string>): string {
    if lines == [] then "" else lines[0] + Spelled(lines[1..])
  }

  lemma SplitLine(line: string, more: string, rest: string)
    requires '\n' !in line
    ensures Split(line + "\n" + more + rest, '\n') == [line] + Split(more + rest, '\n')
  {
    SplitHead(line, more + rest, '\n');
    assert line + "\n" + more + rest == line + ['\n'] + (more + rest);
  }

  lemma {:induction false} SplitUnlines(lines: seq<string>, rest: string)
    requires forall i :: 0 <= i < |lines| ==> '\n' !in lines[i]
    ensures Split(Unlines(lines) + rest, '\n') == lines + Split(rest, '\n')
  {
    if lines == [] {
      assert "" + rest == rest;
    } else {
      SplitUnlines(lines[1..], rest);
      SplitLine(lines[0], Unlines(lines[1..]), rest);
      assert [lines[0]] + (lines[1..] + Split(rest, '\n')) == lines + Split(rest, '\n');
    }
  }

  lemma {:induction false} ChunksAvoid(s: string, c: char)
    requires c !in s
    ensures forall i :: 0 <= i < |Chunks(s)| ==> c !in Chunks(s)[i]
  {
    if |s| > 64 {
      ChunksAvoid(s[64..], c);
    }
  }

  /** The lines of an encoded text: the two markers around the body lines. */
  lemma WrappedLines(codec: Codec, bytes: seq<Byte>, name: string)
    requires Sound(codec) && '\n' !in name
    ensures Split(Wrapped(codec, bytes, name), '\n')
            == ["-----BEGIN " + name + "-----"] + Chunks(codec.encode(bytes)) + ["-----END " + name + "-----", ""]
  {
    var begin, lines, end := BeginMarker(name), Chunks(codec.encode(bytes)), EndMarker(name);
    ChunksAvoid(codec.encode(bytes), '\n');
    MarkedLines(begin, lines, end);
    assert Wrapped(codec, bytes, name) == begin + "\n" + Unlines(lines) + end + "\n";
  }

  lemma MarkedLines(begin: string, lines: seq<string>, end: string)
    requires '\n' !in begin && '\n' !in end && forall i :: 0 <= i < |lines| ==> '\n' !in lines[i]
    ensures Split(begin + "\n" + Unlines(lines) + end + "\n", '\n') == [begin] + lines + [end, ""]
  {
    var last := end + "\n";
    SplitHead(end, "", '\n');
    assert end + ['\n'] + "" == last;
    SplitUnlines(lines, last);
    SplitHead(begin, Unlines(lines) + last, '\n');
    assert begin + "\n" + Unlines(lines) + end + "\n" == begin + ['\n'] + (Unlines(lines) + last);
    assert [begin] + (lines + [end, ""]) == [begin] + lines + [end, ""];
  }

  // ---------------------------------------------------------------- the round trip

  lemma StripCons(c: char, s: string)
    ensures Strip([c] + s) == (if Blank(c) then "" else [c]) + Strip(s)
  {
    assert ([c] + s)[1..] == s;
  }

  lemma {:induction false} StripConcat(a: string, b: string)
    ensures Strip(a + b) == Strip(a) + Strip(b)
  {
    if a == "" {
      assert a + b == b;
    } else {
      var rest := a[1..];
      StripConcat(rest, b);
      StripCons(a[0], rest + b);
      StripCons(a[0], rest);
      Associate([a[0]], rest, b);
      assert a == [a[0]] + rest;
      Associate(if Blank(a[0]) then "" else [a[0]], Strip(rest), Strip(b));
    }
  }

  lemma Associate(a: string, b: string, c: string)
    ensures a + (b + c) == (a + b) + c
  {
  }

  lemma {:induction false} StripClean(s: string)
    requires forall i :: 0 <= i < |s| ==> !Blank(s[i])
    ensures Strip(s) == s
  {
    if s != "" {
      StripClean(s[1..]);
    }
  }

  /** Filtering the wrapped body gives the encoded text back. */
  lemma {:induction false} StripBody(s: string)
    requires forall i :: 0 <= i < |s| ==> InAlphabet(s[i])
    ensures Strip(Unlines(Chunks(s))) == s && '-' !in Unlines(Chunks(s))
  {
    if s != "" {
      var n := Min(64, |s|);
      ChunkStep(s);
      StripBody(s[n..]);
      StripLine(s[..n], Unlines(Chunks(s[n..])));
      assert s[..n] + s[n..] == s;
    }
  }

  lemma StripLine(line: string, rest: string)
    requires (forall i :: 0 <= i < |line| ==> InAlphabet(line[i])) && '-' !in rest
    ensures Strip(line + "\n" + rest) == line + Strip(rest) && '-' !in line + "\n" + rest
  {
    StripConcat(line + "\n", rest);
    StripConcat(line, "\n");
    StripClean(line);
    assert Strip("\n") == "" && line + "" == line;
  }

  /** A marker is found where it stands, if no dash stands between `from` and it. */
  lemma FoundAfter(text: string, marker: string, from: nat, at: nat)
    requires OccursAt(text, marker, at) && from <= at && marker != "" && marker[0] == '-'
    requires forall i :: from <= i < at ==> text[i] != '-'
    ensures Find(text, marker, from) == Some(at)
  {
    forall i | from <= i < at ensures !OccursAt(text, marker, i) {
      NotAt(text, marker, i);
    }
    FindFirst(text, marker, from, at);
  }

  /** A text with two markers, and a body between them. */
  predicate Marked(text: string, before: string, begin: string, body: string, end: string) {
    && OccursAt(text, before, 0) && OccursAt(text, begin, |before|)
    && OccursAt(text, body, |before| + |begin|) && OccursAt(text, end, |before| + |begin| + |body|)
  }

  lemma TextIsMarked(before: string, begin: string, body: string, end: string, after: string)
    ensures Marked(before + begin + body + end + after, before, begin, body, end)
  {
  }

  lemma Located(text: string, before: string, begin: string, body: string, end: string)
    requires Marked(text, before, begin, body, end)
    requires begin != "" && begin[0] == '-' && end != "" && end[0] == '-' && '-' !in before && '-' !in body
    ensures Between(text, begin, end) == Some(body)
  {
    var start := |before| + |begin|;
    NoDash(text, before, 0);
    FoundAfter(text, begin, 0, |before|);
    NoDash(text, body, start);
    FoundAfter(text, end, start, start + |body|);
    OccursAsSlice(text, body, start);
  }

  lemma Markers(name: string) returns (begin: string, end: string)
    ensures begin == BeginMarker(name) && begin != "" && begin[0] == '-'
    ensures end == EndMarker(name) && end != "" && end[0] == '-'
  {
    begin, end := BeginMarker(name), EndMarker(name);
  }

  /** Decoding depends only on the non-blank characters between the markers. */
  lemma DecodeReadsBody(codec: Codec, before: string, body: string, after: string, name: string)
    requires '-' !in before && '-' !in body
    ensures var pem := before + ("-----BEGIN " + name + "-----") + body + ("-----END " + name + "-----") + after;
            PemDecode(codec, pem, name) == codec.decode(Strip(body))
  {
    var begin, end := Markers(name);
    TextIsMarked(before, begin, body, end, after);
    Located(before + begin + body + end + after, before, begin, body, end);
  }

  /** Decoding what was encoded returns the bytes, for all bytes and every name. */
  lemma PemRoundTrip(codec: Codec, bytes: seq<Byte>, name: string)
    requires Sound(codec)
    ensures PemDecode(codec, Wrapped(codec, bytes, name), name) == Some(bytes)
  {
    var body := WrappedBody(codec.encode(bytes), name);
    assert Wrapped(codec, bytes, name) == "" + BeginMarker(name) + body + EndMarker(name) + "\n";
    DecodeReadsBody(codec, "", body, "\n", name);
  }

  lemma WrappedBody(encoded: string, name: string) returns (body: string)
    requires forall i :: 0 <= i < |encoded| ==> InAlphabet(encoded[i])
    ensures Strip(body) == encoded && '-' !in body
    ensures BeginMarker(name) + "\n" + Unlines(Chunks(encoded)) + EndMarker(name) + "\n"
            == "" + BeginMarker(name) + body + EndMarker(name) + "\n"
  {
    var lines := Unlines(Chunks(encoded));
    body := "\n" + lines;
    StripBody(encoded);
    StripConcat("\n", lines);
    assert Strip("\n") == "";
    Rewrapped(BeginMarker(name), lines, EndMarker(name));
  }

  lemma Rewrapped(begin: string, lines: string, end: string)
    ensures "" + begin + ("\n" + lines) + end + "\n" == begin + "\n" + lines + end + "\n"
  {
    assert begin + ("\n" + lines) == begin + "\n" + lines;
  }

  // ---------------------------------------------------------------- what is dropped and what is found

  /** Carriage returns, newlines, spaces and tabs are dropped wherever they stand; everything else is kept. */
  lemma StripMeans(a: string, c: char, b: string)
    ensures var kept := if c == '\r' || c == '\n' || c == ' ' || c == '\t' then "" else [c];
            Strip(a + [c] + b) == Strip(a) + kept + Strip(b)
    ensures Strip("") == ""
  {
    StripConcat(a + [c], b);
    StripConcat(a, [c]);
    assert [c][1..] == "";
  }

  /** Where a begin and an end marker enclose a body: the first begin marker, and the first end marker
      after it. */
  ghost predicate Encloses(pem: string, begin: string, body: string, end: string, at: nat) {
    && OccursAt(pem, begin, at) && (forall i :: 0 <= i < at ==> !OccursAt(pem, begin, i))
    && OccursAt(pem, body, at + |begin|) && OccursAt(pem, end, at + |begin| + |body|)
    && forall i :: at + |begin| <= i < at + |begin| + |body| ==> !OccursAt(pem, end, i)
  }

  lemma FoundEncloses(pem: string, begin: string, end: string, body: string) returns (at: nat)
    requires Between(pem, begin, end) == Some(body)
    ensures Encloses(pem, begin, body, end, at)
  {
    at := Find(pem, begin, 0).value;
    var stop := Find(pem, end, at + |begin|).value;
    forall i | 0 <= i < at ensures !OccursAt(pem, begin, i) {
      FindSkips(pem, begin, 0, i);
    }
    forall i | at + |begin| <= i < stop ensures !OccursAt(pem, end, i) {
      FindSkips(pem, end, at + |begin|, i);
    }
  }

  lemma EnclosedFound(pem: string, begin: string, end: string, body: string, at: nat)
    requires Encloses(pem, begin, body, end, at)
    ensures Between(pem, begin, end) == Some(body)
  {
    FindFirst(pem, begin, 0, at);
    FindFirst(pem, end, at + |begin|, at + |begin| + |body|);
    OccursAsSlice(pem, body, at + |begin|);
  }

  /** Decoding succeeds exactly if the two markers enclose a body, with the end marker wholly after
      the begin marker, and its non-blank characters decode. */
  lemma PemDecodesIff(codec: Codec, pem: string, name: string, bytes: seq<Byte>)
    ensures PemDecode(codec, pem, name) == Some(bytes) <==>
            exists body, at ::
              Encloses(pem, BeginMarker(name), body, EndMarker(name), at) && codec.decode(Strip(body)) == Some(bytes)
  {
    if PemDecode(codec, pem, name) == Some(bytes) {
      var body := Between(pem, BeginMarker(name), EndMarker(name)).value;
      var at := FoundEncloses(pem, BeginMarker(name), EndMarker(name), body);
    }
    forall body, at |
      Encloses(pem, BeginMarker(name), body, EndMarker(name), at) && codec.decode(Strip(body)) == Some(bytes)
      ensures PemDecode(codec, pem, name) == Some(bytes)
    {
      EnclosedFound(pem, BeginMarker(name), EndMarker(name), body, at);
    }
  }

  /** Markers that share their dashes enclose nothing. */
  lemma SharedDashes(codec: Codec, name: string)
    ensures PemDecode(codec, "-----BEGIN " + name + "-----" + "END " + name + "-----", name) == None
  {
    var begin, end := Markers(name);
    var pem := "-----BEGIN " + name + "-----" + "END " + name + "-----";
    TooShort(pem, begin, "END " + name + "-----", end);
  }

  lemma TooShort(pem: string, begin: string, rest: string, end: string)
    requires pem == begin + rest && |rest| < |end|
    ensures Between(pem, begin, end) == None
  {
    assert OccursAt(pem, begin, 0);
    FindFirst(pem, begin, 0, 0);
  }
}
