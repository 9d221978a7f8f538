/** The string operations of the Rust standard library that the code relies on. */
module Text {
  import opened Options

  // ---------------------------------------------------------------- white space

  /** The Unicode White_Space property. */
  predicate IsSpace(c: char) {
    var n := c as int;
    || 0x09 <= n <= 0x0d || n == 0x20 || n == 0x85 || n == 0xa0 || n == 0x1680
    || 0x2000 <= n <= 0x200a || n == 0x2028 || n == 0x2029 || n == 0x202f || n == 0x205f || n == 0x3000
  }

  function TrimStart(s: string): string {
    if s != "" && IsSpace(s[0]) then TrimStart(s[1..]) else s
  }

  function TrimEnd(s: string): string {
    if s != "" && IsSpace(s[|s| - 1]) then TrimEnd(s[..|s| - 1]) else s
  }

  /** `str::trim` */
  function Trim(s: string): string {
    TrimEnd(TrimStart(s))
  }

  /** The longest prefix without white space. */
  function Word(s: string): string {
    if s == "" || IsSpace(s[0]) then "" else [s[0]] + Word(s[1..])
  }

  /** `split_whitespace().next()` */
  function FirstWord(s: string): Option<string> {
    var word := Word(TrimStart(s));
    if word == "" then None else Some(word)
  }

  /** `strip_prefix` */
  function StripPrefix(s: string, prefix: string): Option<string> {
    if prefix <= s then Some(s[|prefix|..]) else None
  }

  // ---------------------------------------------------------------- splitting and joining

  /** `split(sep)`: the pieces between separators, always at least one. */
  function Split(s: string, sep: char): (pieces: seq<string>)
    ensures |pieces| >= 1
  {
    if s == "" then [""]
    else if s[0] == sep then [""] + Split(s[1..], sep)
    else
      var rest := Split(s[1..], sep);
      [[s[0]] + rest[0]] + rest[1..]
  }

  /** `join` with a one-character separator. */
  function Join(pieces: seq<string>, sep: char): string {
    if pieces == [] then ""
    else if |pieces| == 1 then pieces[0]
    else pieces[0] + [sep] + Join(pieces[1..], sep)
  }

  /** Joining the pieces gives the string back. */
  lemma {:induction false} JoinSplit(s: string, sep: char)
    ensures Join(Split(s, sep), sep) == s
  {
    if s != "" {
      JoinSplit(s[1..], sep);
      var rest := Split(s[1..], sep);
      if s[0] == sep {
        assert ([""] + rest)[1..] == rest;
      } else if |rest| > 1 {
        assert ([[s[0]] + rest[0]] + rest[1..])[1..] == rest[1..];
      }
    }
  }

  /** A piece followed by a separator comes back as the first piece. */
  lemma {:induction false} SplitHead(piece: string, rest: string, sep: char)
    requires sep !in piece
    ensures Split(piece + [sep] + rest, sep) == [piece] + Split(rest, sep)
  {
    var s := piece + [sep] + rest;
    if piece == "" {
      assert s[1..] == rest;
    } else {
      assert s[1..] == piece[1..] + [sep] + rest;
      SplitHead(piece[1..], rest, sep);
      assert [piece[0]] + piece[1..] == piece;
      var tail := Split(s[1..], sep);
      assert tail[0] == piece[1..] && tail[1..] == Split(rest, sep);
    }
  }

  lemma {:induction false} SplitAlone(piece: string, sep: char)
    requires sep !in piece
    ensures Split(piece, sep) == [piece]
  {
    if piece != "" {
      SplitAlone(piece[1..], sep);
      assert [piece[0]] + piece[1..] == piece;
    }
  }

  /** Splitting what was joined gives the pieces back. */
  lemma {:induction false} SplitJoin(pieces: seq<string>, sep: char)
    requires pieces != [] && forall i :: 0 <= i < |pieces| ==> sep !in pieces[i]
    ensures Split(Join(pieces, sep), sep) == pieces
  {
    if |pieces| == 1 {
      SplitAlone(pieces[0], sep);
    } else {
      SplitHead(pieces[0], Join(pieces[1..], sep), sep);
      SplitJoin(pieces[1..], sep);
    }
  }

  /** Pieces never contain the separator. */
  lemma {:induction false} PiecesAvoid(s: string, sep: char)
    ensures forall i :: 0 <= i < |Split(s, sep)| ==> sep !in Split(s, sep)[i]
  {
    if s != "" {
      PiecesAvoid(s[1..], sep);
    }
  }

  // ---------------------------------------------------------------- searching

  predicate OccursAt(text: string, pattern: string, i: nat) {
    i + |pattern| <= |text| && forall k :: 0 <= k < |pattern| ==> text[i + k] == pattern[k]
  }

  lemma OccursAsSlice(text: string, pattern: string, i: nat)
    requires OccursAt(text, pattern, i)
    ensures text[i..i + |pattern|] == pattern
  {
  }

  /** The middle of a concatenation occurs where it stands. */
  lemma MiddleOccurs(before: string, middle: string, after: string)
    ensures OccursAt(before + middle + after, middle, |before|)
  {
  }

  /** Occurrences inside a part of a text are occurrences in the text. */
  lemma OccursInside(text: string, part: string, at: nat, pattern: string, i: nat)
    requires OccursAt(text, part, at) && i + |pattern| <= |part|
    ensures OccursAt(text, pattern, at + i) <==> OccursAt(part, pattern, i)
  {
    forall k | 0 <= k < |pattern| ensures text[at + i + k] == pattern[k] <==> part[i + k] == pattern[k] {
      assert text[at + (i + k)] == part[i + k];
    }
  }

  /** `std::string::find`: the first occurrence at or after `from`. */
  function Find(text: string, pattern: string, from: nat): (r: Option<nat>)
    ensures r.Some? ==> from <= r.value && OccursAt(text, pattern, r.value)
    decreases |text| - from
  {
    if OccursAt(text, pattern, from) then Some(from)
    else if from + |pattern| >= |text| then None
    else Find(text, pattern, from + 1)
  }

  lemma NotAt(text: string, pattern: string, i: nat)
    requires i < |text| && pattern != "" && text[i] != pattern[0]
    ensures !OccursAt(text, pattern, i)
  {
    assert i + |pattern| <= |text| ==> text[i + 0] != pattern[0];
  }

  /** Where a part without dashes occurs, the text has none. */
  lemma NoDash(text: string, part: string, at: nat)
    requires OccursAt(text, part, at) && '-' !in part
    ensures forall i :: at <= i < at + |part| ==> text[i] != '-'
  {
    forall i | at <= i < at + |part| ensures text[i] != '-' {
      assert text[at + (i - at)] == part[i - at];
    }
  }

  /** Nothing is skipped: no occurrence stands before the one found, and none at all if none is found. */
  lemma {:induction false} FindSkips(text: string, pattern: string, from: nat, i: nat)
    requires from <= i && (Find(text, pattern, from).Some? ==> i < Find(text, pattern, from).value)
    ensures !OccursAt(text, pattern, i)
    decreases |text| - from
  {
    if from < i && from + |pattern| < |text| { FindSkips(text, pattern, from + 1, i); }
  }

  /** An occurrence with none before it is the one that is found. */
  lemma FindFirst(text: string, pattern: string, from: nat, at: nat)
    requires from <= at && OccursAt(text, pattern, at)
    requires forall i :: from <= i < at ==> !OccursAt(text, pattern, i)
    ensures Find(text, pattern, from) == Some(at)
  {
    var r := Find(text, pattern, from);
    if r.None? || at < r.value { FindSkips(text, pattern, from, at); }
  }

  // ---------------------------------------------------------------- decimal numbers

  predicate IsDigit(c: char) {
    '0' <= c <= '9'
  }

  function DigitOf(n: nat): (c: char)
    requires n < 10
    ensures IsDigit(c) && DigitValue(c) == n
  {
    ('0' as int + n) as char
  }

  function Decimal(n: nat): (s: string)
    ensures s != "" && forall i :: 0 <= i < |s| ==> IsDigit(s[i])
  {
    if n < 10 then [DigitOf(n)] else Decimal(n / 10) + [DigitOf(n % 10)]
  }

  function DigitValue(c: char): nat
    requires IsDigit(c)
  {
    c as int - '0' as int
  }

  function Value(digits: string): nat
    requires forall i :: 0 <= i < |digits| ==> IsDigit(digits[i])
  {
    if digits == "" then 0
    else Value(digits[..|digits| - 1]) * 10 + DigitValue(digits[|digits| - 1])
  }

  predicate AllDigits(s: string) {
    s != "" && forall i :: 0 <= i < |s| ==> IsDigit(s[i])
  }

  /** `str::parse` of an unsigned type: an optional plus sign, at least one digit, no overflow. */
  function ParseUnsigned(s: string, max: nat): Option<nat> {
    var digits := if |s| > 1 && s[0] == '+' then s[1..] else s;
    if AllDigits(digits) && Value(digits) <= max then Some(Value(digits)) else None
  }

  lemma {:induction false} ValueDecimal(n: nat)
    ensures Value(Decimal(n)) == n
  {
    if n >= 10 {
      ValueDecimal(n / 10);
      var s := Decimal(n);
      assert s[..|s| - 1] == Decimal(n / 10);
    }
  }

  lemma ParseDecimal(n: nat, max: nat)
    requires n <= max
    ensures ParseUnsigned(Decimal(n), max) == Some(n)
  {
    ValueDecimal(n);
    assert IsDigit(Decimal(n)[0]);
  }
}
