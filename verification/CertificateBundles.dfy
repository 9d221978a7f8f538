/** Bundles of certificates, from their bytes to PEM text and back. */
module CertificateBundles {
  import opened Options
  import opened Text
  import opened Base64
  import opened Pem
  import C = Certificates

  /** The PEM texts of certificates. */
  function Texts(codec: Codec, certificates: seq<seq<Byte>>): (r: seq<string>)
    ensures |r| == |certificates|
    ensures forall i :: 0 <= i < |r| ==> r[i] == Wrapped(codec, certificates[i], "CERTIFICATE")
  {
    seq(|certificates|, i requires 0 <= i < |certificates| => Wrapped(codec, certificates[i], "CERTIFICATE"))
  }

  /** The two markers of certificate splitting are those of PEM, for certificates. */
  lemma SameMarkers()
    ensures C.BEGIN_MARKER == BeginMarker("CERTIFICATE") && C.END_MARKER == EndMarker("CERTIFICATE")
  {
  }

  /** Five dashes, a text without dashes, five dashes and a newline. */
  predicate Bar(begin: string, middle: string) {
    begin == "-----" + middle + "-----" && middle != "" && '-' !in middle
  }

  lemma Mismatch(text: string, pattern: string, i: nat, k: nat)
    requires k < |pattern| && i + k < |text| && text[i + k] != pattern[k]
    ensures !OccursAt(text, pattern, i)
  {
  }

  /** The characters of a bar at the start of a text. */
  lemma BarAt(text: string, begin: string, middle: string, i: nat)
    requires Bar(begin, middle) && OccursAt(text, begin, 0) && i < |middle|
    ensures 5 + i < |text| && text[5 + i] == middle[i] && middle[i] != '-'
  {
    assert begin[5 + i] == middle[i];
    assert text[0 + (5 + i)] == begin[5 + i];
    assert middle[i] in middle;
  }

  /** An end marker does not start inside a begin marker that a newline follows. */
  lemma NotInBegin(text: string, begin: string, middle: string, end: string, i: nat)
    requires Bar(begin, middle) && OccursAt(text, begin, 0) && |begin| < |text| && text[|begin|] == '\n'
    requires |end| > 5 && "-----" <= end && end[5] != middle[0] && '\n' !in end && i < |begin|
    ensures !OccursAt(text, end, i)
  {
    if i < 5 {
      BarAt(text, begin, middle, 0);
      assert 5 - i < 5 ==> end[5 - i] == '-';
      Mismatch(text, end, i, 5 - i);
    } else if i < 5 + |middle| {
      BarAt(text, begin, middle, i - 5);
      Mismatch(text, end, i, 0);
    } else {
      assert end[|begin| - i] in end;
      Mismatch(text, end, i, |begin| - i);
    }
  }

  /** No end marker starts in a body without dashes. */
  lemma NotInBody(text: string, body: string, at: nat, end: string, i: nat)
    requires OccursAt(text, body, at) && '-' !in body && at <= i < at + |body| && end != "" && end[0] == '-'
    ensures !OccursAt(text, end, i)
  {
    NoDash(text, body, at);
    Mismatch(text, end, i, 0);
  }

  /** A begin marker, a newline, a body, an end marker and a newline. */
  lemma WrappedIsBlock(text: string, begin: string, middle: string, body: string, end: string)
    requires text == begin + "\n" + body + end + "\n" && Bar(begin, middle) && '-' !in body
    requires |end| > 5 && "-----" <= end && end[5] != middle[0] && '\n' !in end
    ensures C.IsBlock(text, begin, end)
  {
    Laid(text, begin, body, end);
    forall i | 0 <= i < |text| - 1 - |end| ensures !OccursAt(text, end, i) {
      if i < |begin| {
        NotInBegin(text, begin, middle, end, i);
      } else if i == |begin| {
        Mismatch(text, end, i, 0);
      } else {
        NotInBody(text, body, |begin| + 1, end, i);
      }
    }
  }

  lemma Laid(text: string, begin: string, body: string, end: string)
    requires text == begin + "\n" + body + end + "\n"
    ensures OccursAt(text, begin, 0) && |begin| < |text| && text[|begin|] == '\n' && OccursAt(text, body, |begin| + 1)
    ensures |text| == |begin| + 1 + |body| + |end| + 1 && OccursAt(text, end, |begin| + 1 + |body|)
    ensures text[|text| - 1] == '\n'
  {
  }

  lemma CertificateBar()
    ensures Bar(BeginMarker("CERTIFICATE"), "BEGIN CERTIFICATE")
    ensures var end := EndMarker("CERTIFICATE"); |end| > 5 && "-----" <= end && end[5] == 'E' && '\n' !in end
    ensures "BEGIN CERTIFICATE"[0] == 'B'
  {
    var middle := "BEGIN CERTIFICATE";
    assert "BEGIN " + "CERTIFICATE" == middle;
    assert "-----BEGIN " == "-----" + "BEGIN ";
    assert BeginMarker("CERTIFICATE") == "-----" + middle + "-----";
  }

  lemma CertificateIsBlock(codec: Codec, bytes: seq<Byte>)
    requires Sound(codec)
    ensures C.IsBlock(Wrapped(codec, bytes, "CERTIFICATE"), BeginMarker("CERTIFICATE"), EndMarker("CERTIFICATE"))
  {
    CertificateBar();
    StripBody(codec.encode(bytes));
    WrappedIsBlock(Wrapped(codec, bytes, "CERTIFICATE"), BeginMarker("CERTIFICATE"), "BEGIN CERTIFICATE",
                   Unlines(Chunks(codec.encode(bytes))), EndMarker("CERTIFICATE"));
  }

  /** Certificates printed as PEM and concatenated split into the texts they came from, and each text
      decodes to its certificate. */
  lemma BundleRoundTrip(codec: Codec, certificates: seq<seq<Byte>>)
    requires Sound(codec)
    ensures C.Blocks(C.Concat(Texts(codec, certificates)), C.BEGIN_MARKER, C.END_MARKER) == Texts(codec, certificates)
    ensures forall i :: 0 <= i < |certificates| ==>
              PemDecode(codec, Texts(codec, certificates)[i], "CERTIFICATE") == Some(certificates[i])
  {
    SameMarkers();
    C.CertificateMarkers();
    var texts := Texts(codec, certificates);
    forall i | 0 <= i < |texts|
      ensures C.IsBlock(texts[i], BeginMarker("CERTIFICATE"), EndMarker("CERTIFICATE"))
      ensures PemDecode(codec, texts[i], "CERTIFICATE") == Some(certificates[i])
    {
      CertificateIsBlock(codec, certificates[i]);
      PemRoundTrip(codec, certificates[i], "CERTIFICATE");
    }
    C.SplitConcat(texts, C.BEGIN_MARKER, C.END_MARKER);
  }
}
