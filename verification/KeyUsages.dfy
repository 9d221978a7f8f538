/** The key-usage list: printed on the C++ side of the interface, parsed on the Rust side. */
module KeyUsages {
  import opened Options
  import opened Text

  const U32_MAX: nat := 0xFFFF_FFFF

  type U32 = n: nat | n <= U32_MAX

  function Decimals(values: seq<U32>): (r: seq<string>)
    ensures |r| == |values| && forall i :: 0 <= i < |r| ==> r[i] == Decimal(values[i])
  {
    seq(|values|, i requires 0 <= i < |values| => Decimal(values[i]))
  }

  /** `join_key_usages` */
  method JoinKeyUsages(values: seq<U32>) returns (output: string)
    ensures output == Join(Decimals(values), ',')
  {
    output := "";
    for index := 0 to |values|
      invariant output == Join(Decimals(values[..index]), ',')
    {
      if index != 0 {
        output := output + ",";
      }
      output := output + Decimal(values[index]);
      assert Decimals(values[..index + 1]) == Decimals(values[..index]) + [Decimal(values[index])];
      JoinAppend(Decimals(values[..index]), Decimal(values[index]));
    }
    assert values[..|values|] == values;
  }

  lemma {:induction false} JoinAppend(pieces: seq<string>, last: string)
    ensures Join(pieces + [last], ',') == if pieces == [] then last else Join(pieces, ',') + "," + last
  {
    if pieces == [] {
      assert pieces + [last] == [last];
    } else if |pieces| == 1 {
      assert (pieces + [last])[1..] == [last];
    } else {
      JoinAppend(pieces[1..], last);
      assert (pieces + [last])[1..] == pieces[1..] + [last];
    }
  }

  /** `parse_key_usages`: blank items are dropped, and one bad item fails the whole list. */
  function ParseKeyUsages(value: string): Option<seq<U32>> {
    Collect(Split(value, ','))
  }

  function Collect(pieces: seq<string>): Option<seq<U32>> {
    if pieces == [] then Some([])
    else if Trim(pieces[0]) == "" then Collect(pieces[1..])
    else
      match ParseUnsigned(Trim(pieces[0]), U32_MAX)
      case None => None
      case Some(n) =>
        match Collect(pieces[1..])
        case None => None
        case Some(rest) => Some([n] + rest)
  }

  lemma TrimDecimal(n: nat)
    ensures Trim(Decimal(n)) == Decimal(n)
  {
    var s := Decimal(n);
    assert IsDigit(s[0]) && IsDigit(s[|s| - 1]);
  }

  lemma {:induction false} CollectDecimals(values: seq<U32>)
    ensures Collect(Decimals(values)) == Some(values)
  {
    if values != [] {
      TrimDecimal(values[0]);
      ParseDecimal(values[0], U32_MAX);
      CollectDecimals(values[1..]);
      assert Decimals(values)[1..] == Decimals(values[1..]);
      assert [values[0]] + values[1..] == values;
    }
  }

  /** The parser inverts the printer, for every list and the empty one. */
  lemma ParseInvertsJoin(values: seq<U32>)
    ensures ParseKeyUsages(Join(Decimals(values), ',')) == Some(values)
  {
    if values == [] {
      assert Split("", ',') == [""] && Trim("") == "";
      assert Collect([""]) == Collect([""][1..]) == Some([]);
    } else {
      forall i | 0 <= i < |values| ensures ',' !in Decimals(values)[i] {
        NoComma(values[i]);
      }
      SplitJoin(Decimals(values), ',');
      CollectDecimals(values);
    }
  }

  lemma NoComma(n: nat)
    ensures ',' !in Decimal(n)
  {
    var s := Decimal(n);
    forall i | 0 <= i < |s| ensures s[i] != ',' {
      assert IsDigit(s[i]);
    }
  }

  /** An item that is not blank and not a 32-bit number. */
  predicate Bad(piece: string) {
    Trim(piece) != "" && ParseUnsigned(Trim(piece), U32_MAX).None?
  }

  predicate AnyBad(pieces: seq<string>) {
    exists i :: 0 <= i < |pieces| && Bad(pieces[i])
  }

  /** Parsing fails exactly when there is a bad item. */
  lemma ParseFailsIff(text: string)
    ensures ParseKeyUsages(text).None? <==> AnyBad(Split(text, ','))
  {
    CollectFailsIff(Split(text, ','));
  }

  lemma {:induction false} CollectFailsIff(pieces: seq<string>)
    ensures Collect(pieces).None? <==> AnyBad(pieces)
  {
    if pieces != [] {
      var rest := pieces[1..];
      CollectFailsIff(rest);
      if exists i :: 1 <= i < |pieces| && Bad(pieces[i]) {
        var i :| 1 <= i < |pieces| && Bad(pieces[i]);
        assert rest[i - 1] == pieces[i];
      }
      if Collect(pieces).None? && Collect(rest).Some? {
        assert Bad(pieces[0]);
      } else if Collect(rest).None? {
        var i :| 0 <= i < |rest| && Bad(rest[i]);
        assert pieces[i + 1] == rest[i];
      }
    }
  }

  /** A single number is accepted exactly if it fits 32 bits. */
  lemma ParsesIffFits(n: nat)
    ensures ParseKeyUsages(Decimal(n)) == if n < 0x1_0000_0000 then Some([n]) else None
  {
    NoComma(n);
    SplitAlone(Decimal(n), ',');
    TrimDecimal(n);
    ValueDecimal(n);
    assert IsDigit(Decimal(n)[0]);
    var pieces := [Decimal(n)];
    assert pieces[1..] == [] && Collect(pieces[1..]) == Some([]);
    assert ParseUnsigned(Trim(pieces[0]), U32_MAX) == if n < 0x1_0000_0000 then Some(n) else None;
    assert [n] + [] == [n];
  }

  predicate Blank(s: string) {
    forall i :: 0 <= i < |s| ==> s[i] == ' ' || s[i] == '\t' || s[i] == '\r' || s[i] == '\n'
  }

  lemma {:induction false} TrimStartBlank(blank: string, s: string)
    requires Blank(blank) && s != "" && !IsSpace(s[0])
    ensures TrimStart(blank + s) == s
  {
    if blank == "" {
      assert blank + s == s;
    } else {
      TrimStartBlank(blank[1..], s);
      assert (blank + s)[1..] == blank[1..] + s;
    }
  }

  lemma {:induction false} TrimEndBlank(s: string, blank: string)
    requires Blank(blank) && s != "" && !IsSpace(s[|s| - 1])
    ensures TrimEnd(s + blank) == s
  {
    if blank == "" {
      assert s + blank == s;
    } else {
      var front := blank[..|blank| - 1];
      TrimEndBlank(s, front);
      assert (s + blank)[..|s + blank| - 1] == s + front;
    }
  }

  lemma {:induction false} BlankVanishes(blank: string)
    requires Blank(blank)
    ensures Trim(blank) == ""
  {
    if blank != "" { BlankVanishes(blank[1..]); }
  }

  /** Blanks around an item, and blank items, do not matter. */
  lemma BlanksIgnored(before: string, n: U32, after: string, pieces: seq<string>)
    requires Blank(before) && Blank(after)
    ensures Collect([before + Decimal(n) + after] + pieces) == Collect([Decimal(n)] + pieces)
    ensures Collect([before] + pieces) == Collect(pieces)
  {
    var d := Decimal(n);
    assert IsDigit(d[0]) && IsDigit(d[|d| - 1]);
    TrimStartBlank(before, d + after);
    assert before + d + after == before + (d + after);
    TrimEndBlank(d, after);
    TrimDecimal(n);
    BlankVanishes(before);
    assert ([before + d + after] + pieces)[1..] == pieces;
    assert ([d] + pieces)[1..] == pieces && ([before] + pieces)[1..] == pieces;
  }
}
