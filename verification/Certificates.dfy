/**
 Splitting a PEM bundle into certificate blocks. The theory holds for any two markers that start
 with a dash; `SplitCertificates` is the code's loop for the two certificate markers.
 */
module Certificates {
  import opened Options
  import opened Text

  const BEGIN_MARKER: string := "-----BEGIN CERTIFICATE-----"
  const END_MARKER: string := "-----END CERTIFICATE-----"

  /** One round of the loop: the block it cuts out, and where it goes on. */
  function Cut(pem: string, begin: string, end: string, cursor: nat): Option<(string, nat)> {
    match Find(pem, begin, cursor)
    case None => None
    case Some(at) =>
      match Find(pem, end, at)
      case None => None
      case Some(stop) => Some((pem[at..stop + |end|] + "\n", stop + |end|))
  }

  type Cutter = nat -> Option<(string, nat)>

  function CutterOf(pem: string, begin: string, end: string): Cutter {
    cursor => Cut(pem, begin, end, cursor)
  }

  /** What rounds cut out from `cursor` on, while they move forward within the text. */
  function Chain(next: Cutter, cursor: nat, limit: nat): seq<string>
    decreases if cursor <= limit then limit - cursor else 0
  {
    match next(cursor)
    case None => []
    case Some((block, after)) => if cursor < after <= limit then [block] + Chain(next, after, limit) else []
  }

  /** The blocks of a text. */
  function Blocks(pem: string, begin: string, end: string): seq<string> {
    Chain(CutterOf(pem, begin, end), 0, |pem|)
  }

  /** `split_certificates` */
  method SplitCertificates(pem: string) returns (result: seq<string>)
    ensures result == Blocks(pem, BEGIN_MARKER, END_MARKER)
  {
    result := SplitAtMarkers(pem, BEGIN_MARKER, END_MARKER);
  }

  method SplitAtMarkers(pem: string, beginMarker: string, endMarker: string) returns (result: seq<string>)
    requires endMarker != ""
    ensures result == Blocks(pem, beginMarker, endMarker)
  {
    result := [];
    var cursor := 0;
    ghost var next := CutterOf(pem, beginMarker, endMarker);
    ghost var goal := Chain(next, 0, |pem|);
    while true
      invariant cursor <= |pem|
      invariant result + Chain(next, cursor, |pem|) == goal
      decreases |pem| - cursor
    {
      var round := SearchFrom(pem, beginMarker, endMarker, next, cursor);
      if round.None? { break; }
      var (block, after) := round.value;
      Round(next, cursor, |pem|, block, after, result);
      result := result + [block];
      cursor := after;
    }
  }

  /** The two searches of a round. */
  method SearchFrom(pem: string, beginMarker: string, endMarker: string, ghost next: Cutter, cursor: nat)
    returns (round: Option<(string, nat)>)
    requires next == CutterOf(pem, beginMarker, endMarker) && endMarker != ""
    ensures round == next(cursor) && (round.Some? ==> cursor < round.value.1 <= |pem|)
  {
    var begin := Find(pem, beginMarker, cursor);
    if begin.None? { return None; }
    var end := Find(pem, endMarker, begin.value);
    if end.None? { return None; }
    var after := end.value + |endMarker|;
    round := Some((pem[begin.value..after] + "\n", after));
  }

  /** A round moves one block from what is left to what is done. */
  lemma Round(next: Cutter, cursor: nat, limit: nat, block: string, after: nat, done: seq<string>)
    requires next(cursor) == Some((block, after)) && cursor < after <= limit
    ensures (done + [block]) + Chain(next, after, limit) == done + Chain(next, cursor, limit)
  {
    var rest := Chain(next, after, limit);
    assert Chain(next, cursor, limit) == [block] + rest;
    assert done + ([block] + rest) == (done + [block]) + rest;
  }

  // ---------------------------------------------------------------- what a block is

  /** From a begin marker to the first end marker, then a newline. The markers may overlap, and
      further begin markers may stand inside. */
  predicate IsBlock(b: string, begin: string, end: string) {
    && |b| > |end| && b[|b| - 1] == '\n' && OccursAt(b, begin, 0) && OccursAt(b, end, |b| - 1 - |end|)
    && forall i :: 0 <= i < |b| - 1 - |end| ==> !OccursAt(b, end, i)
  }

  predicate AllBlocks(blocks: seq<string>, begin: string, end: string) {
    forall i :: 0 <= i < |blocks| ==> IsBlock(blocks[i], begin, end)
  }

  /** Markers start with a dash, and no end marker stands inside a begin marker. */
  predicate Markers(begin: string, end: string) {
    && begin != "" && begin[0] == '-' && begin[|begin| - 1] != '\n' && end != ""
    && forall i :: 0 <= i < |begin| ==> !OccursAt(begin, end, i)
  }

  lemma CertificateMarkers()
    ensures Markers(BEGIN_MARKER, END_MARKER)
  {
    assert BEGIN_MARKER[5] == 'B' && END_MARKER[5] == 'E' && END_MARKER[4] == '-' && END_MARKER[3] == '-';
    forall i | 0 <= i <= 2 ensures !OccursAt(BEGIN_MARKER, END_MARKER, i) {
      assert BEGIN_MARKER[i..i + |END_MARKER|][5 - i] == BEGIN_MARKER[5];
    }
  }

  /** What the loop cuts out is a block. */
  lemma CutIsBlock(pem: string, begin: string, end: string, at: nat, stop: nat, part: string)
    requires Markers(begin, end) && OccursAt(pem, begin, at) && at <= stop && OccursAt(pem, end, stop)
    requires forall i :: at <= i < stop ==> !OccursAt(pem, end, i)
    requires |part| == stop + |end| - at && OccursAt(pem, part, at)
    ensures IsBlock(part + "\n", begin, end)
  {
    BeginFits(pem, begin, end, at, stop);
    forall i | 0 <= i <= stop - at ensures OccursAt(part + "\n", end, i) <==> OccursAt(pem, end, at + i) {
      AlsoWithNewline(pem, part, at, end, i);
    }
    AlsoWithNewline(pem, part, at, begin, 0);
  }

  lemma BeginFits(pem: string, begin: string, end: string, at: nat, stop: nat)
    requires Markers(begin, end) && OccursAt(pem, begin, at) && at <= stop && OccursAt(pem, end, stop)
    ensures at + |begin| <= stop + |end|
  {
    if stop + |end| < at + |begin| {
      OccursInside(pem, begin, at, end, stop - at);
      assert false;
    }
  }

  lemma AlsoWithNewline(pem: string, part: string, at: nat, pattern: string, i: nat)
    requires OccursAt(pem, part, at) && i + |pattern| <= |part|
    ensures OccursAt(part + "\n", pattern, i) <==> OccursAt(pem, pattern, at + i)
  {
    OccursInside(pem, part, at, pattern, i);
    MiddleOccurs("", part, "\n");
    assert "" + part + "\n" == part + "\n";
    OccursInside(part + "\n", part, 0, pattern, i);
  }

  /** What a round cuts out is a block. */
  lemma RoundCutsBlock(pem: string, begin: string, end: string, cursor: nat)
    requires Markers(begin, end) && Cut(pem, begin, end, cursor).Some?
    ensures IsBlock(Cut(pem, begin, end, cursor).value.0, begin, end)
  {
    var at := Find(pem, begin, cursor).value;
    var stop := Find(pem, end, at).value;
    forall i | at <= i < stop ensures !OccursAt(pem, end, i) {
      FindSkips(pem, end, at, i);
    }
    CutIsBlock(pem, begin, end, at, stop, pem[at..stop + |end|]);
  }

  lemma {:induction false} ChainsAreBlocks(next: Cutter, cursor: nat, limit: nat, begin: string, end: string)
    requires forall c :: next(c).Some? ==> IsBlock(next(c).value.0, begin, end)
    ensures AllBlocks(Chain(next, cursor, limit), begin, end)
    decreases if cursor <= limit then limit - cursor else 0
  {
    if next(cursor).Some? && cursor < next(cursor).value.1 <= limit {
      ChainsAreBlocks(next, next(cursor).value.1, limit, begin, end);
    }
  }

  lemma BlocksAreBlocks(pem: string, begin: string, end: string)
    requires Markers(begin, end)
    ensures AllBlocks(Blocks(pem, begin, end), begin, end)
  {
    var next := CutterOf(pem, begin, end);
    forall c | next(c).Some? ensures IsBlock(next(c).value.0, begin, end) {
      RoundCutsBlock(pem, begin, end, c);
    }
    ChainsAreBlocks(next, 0, |pem|, begin, end);
  }

  // ---------------------------------------------------------------- splitting bundles

  /** Blocks, without their newlines, in a text with gaps around them. */
  datatype Bundle = End(gap: string) | Entry(gap: string, block: string, rest: Bundle)

  function TextOf(bundle: Bundle): string {
    match bundle
    case End(gap) => gap
    case Entry(gap, b, rest) => gap + (Body(b) + TextOf(rest))
  }

  /** A block without its newline. */
  function Body(b: string): string {
    if b == "" then "" else b[..|b| - 1]
  }

  function BlocksOf(bundle: Bundle): seq<string> {
    match bundle
    case End(_) => []
    case Entry(_, b, rest) => [b] + BlocksOf(rest)
  }

  /** The entries are blocks, and no gap has a dash. */
  predicate WellFormed(bundle: Bundle, begin: string, end: string) {
    '-' !in bundle.gap && (bundle.Entry? ==> IsBlock(bundle.block, begin, end) && WellFormed(bundle.rest, begin, end))
  }

  /** A bundle laid out in a text from a position to the end. */
  predicate LaidOut(pem: string, cursor: nat, bundle: Bundle)
    decreases bundle
  {
    && OccursAt(pem, bundle.gap, cursor)
    && match bundle
       case End(gap) => cursor + |gap| == |pem|
       case Entry(gap, b, rest) =>
         OccursAt(pem, Body(b), cursor + |gap|) && LaidOut(pem, cursor + |gap| + |Body(b)|, rest)
  }

  lemma {:induction false} TextIsLaidOut(before: string, bundle: Bundle)
    ensures LaidOut(before + TextOf(bundle), |before|, bundle)
    decreases bundle
  {
    match bundle
    case End(gap) =>
    case Entry(gap, b, rest) =>
      var text := Layout(before, gap, Body(b), TextOf(rest));
      TextIsLaidOut(before + gap + Body(b), rest);
  }

  lemma Layout(before: string, gap: string, part: string, rest: string) returns (text: string)
    ensures text == before + (gap + (part + rest)) && text == before + gap + part + rest
    ensures OccursAt(text, gap, |before|) && OccursAt(text, part, |before| + |gap|)
  {
    text := before + (gap + (part + rest));
    assert text == before + gap + part + rest;
  }

  /** The next block after a gap without dashes is found whole. */
  lemma NextBlock(pem: string, begin: string, end: string, cursor: nat, gap: string, b: string)
    requires Markers(begin, end) && BlockAfter(pem, cursor, gap, b, begin, end)
    ensures Cut(pem, begin, end, cursor) == Some((b, cursor + |gap| + |Body(b)|))
  {
    var at := BlockPlace(pem, begin, end, cursor, gap, b);
  }

  lemma BlockPlace(pem: string, begin: string, end: string, cursor: nat, gap: string, b: string) returns (at: nat)
    requires Markers(begin, end) && BlockAfter(pem, cursor, gap, b, begin, end)
    ensures Find(pem, begin, cursor) == Some(at) && Find(pem, end, at) == Some(at + |Body(b)| - |end|)
    ensures at == cursor + |gap| && at + |Body(b)| <= |pem| && pem[at..at + |Body(b)|] + "\n" == b
  {
    var part := Body(b);
    at := cursor + |gap|;
    assert b == part + "\n";
    NoDash(pem, gap, cursor);
    BeginFound(pem, begin, cursor, at, part);
    EndFound(pem, end, at, part);
    OccursAsSlice(pem, part, at);
  }

  lemma BeginFound(pem: string, begin: string, cursor: nat, at: nat, part: string)
    requires begin != "" && begin[0] == '-' && begin[|begin| - 1] != '\n' && OccursAt(part + "\n", begin, 0)
    requires cursor <= at && OccursAt(pem, part, at)
    requires forall i :: cursor <= i < at ==> pem[i] != '-'
    ensures Find(pem, begin, cursor) == Some(at)
  {
    assert (part + "\n")[0 + (|begin| - 1)] == begin[|begin| - 1];
    AlsoWithNewline(pem, part, at, begin, 0);
    forall i | cursor <= i < at ensures !OccursAt(pem, begin, i) {
      NotAt(pem, begin, i);
    }
    FindFirst(pem, begin, cursor, at);
  }

  lemma EndFound(pem: string, end: string, at: nat, part: string)
    requires |end| <= |part| && OccursAt(part + "\n", end, |part| - |end|) && OccursAt(pem, part, at)
    requires forall i :: 0 <= i < |part| - |end| ==> !OccursAt(part + "\n", end, i)
    ensures Find(pem, end, at) == Some(at + |part| - |end|)
  {
    var stop := at + |part| - |end|;
    AlsoWithNewline(pem, part, at, end, |part| - |end|);
    forall i | at <= i < stop ensures !OccursAt(pem, end, i) {
      AlsoWithNewline(pem, part, at, end, i - at);
    }
    FindFirst(pem, end, at, stop);
  }

  lemma NoBlock(pem: string, begin: string, end: string, cursor: nat, gap: string)
    requires Markers(begin, end) && OccursAt(pem, gap, cursor) && cursor + |gap| == |pem| && '-' !in gap
    ensures Cut(pem, begin, end, cursor) == None
  {
    NoDash(pem, gap, cursor);
    forall i | cursor <= i < |pem| ensures !OccursAt(pem, begin, i) {
      NotAt(pem, begin, i);
    }
  }

  /** Rounds that cut out the entries of a bundle one after another. */
  predicate Follows(next: Cutter, cursor: nat, limit: nat, bundle: Bundle)
    decreases bundle
  {
    match bundle
    case End(_) => next(cursor).None?
    case Entry(gap, b, rest) =>
      var after := cursor + |gap| + |Body(b)|;
      next(cursor) == Some((b, after)) && cursor < after <= limit && Follows(next, after, limit, rest)
  }

  lemma {:induction false} FollowedChain(next: Cutter, cursor: nat, limit: nat, bundle: Bundle)
    requires Follows(next, cursor, limit, bundle)
    ensures Chain(next, cursor, limit) == BlocksOf(bundle)
    decreases bundle
  {
    if bundle.Entry? {
      FollowedChain(next, cursor + |bundle.gap| + |Body(bundle.block)|, limit, bundle.rest);
    }
  }

  predicate BlockAfter(pem: string, cursor: nat, gap: string, b: string, begin: string, end: string) {
    && OccursAt(pem, gap, cursor) && '-' !in gap
    && IsBlock(b, begin, end) && OccursAt(pem, Body(b), cursor + |gap|)
  }

  /** One round finds the first part of a bundle, if `expected` says what rounds can expect. */
  ghost predicate RoundFinds(next: Cutter, limit: nat, expected: (nat, Bundle) -> bool, cursor: nat, bundle: Bundle) {
    match bundle
    case End(_) => next(cursor).None?
    case Entry(gap, b, rest) =>
      var after := cursor + |gap| + |Body(b)|;
      next(cursor) == Some((b, after)) && cursor < after <= limit && expected(after, rest)
  }

  lemma {:induction false} RoundsFollow(
    next: Cutter, limit: nat, expected: (nat, Bundle) -> bool, cursor: nat, bundle: Bundle)
    requires forall c: nat, x :: expected(c, x) ==> RoundFinds(next, limit, expected, c, x)
    requires expected(cursor, bundle)
    ensures Follows(next, cursor, limit, bundle)
    decreases bundle
  {
    if bundle.Entry? {
      RoundsFollow(next, limit, expected, cursor + |bundle.gap| + |Body(bundle.block)|, bundle.rest);
    }
  }

  predicate Expected(pem: string, begin: string, end: string, cursor: nat, bundle: Bundle) {
    WellFormed(bundle, begin, end) && LaidOut(pem, cursor, bundle)
  }

  lemma EntryFound(pem: string, begin: string, end: string, cursor: nat, gap: string, b: string, rest: Bundle)
    requires Markers(begin, end) && Expected(pem, begin, end, cursor, Entry(gap, b, rest))
    ensures var after := cursor + |gap| + |Body(b)|;
            && Cut(pem, begin, end, cursor) == Some((b, after)) && cursor < after <= |pem|
            && Expected(pem, begin, end, after, rest)
  {
    assert BlockAfter(pem, cursor, gap, b, begin, end);
    NextBlock(pem, begin, end, cursor, gap, b);
  }

  lemma RoundFound(
    pem: string, begin: string, end: string, next: Cutter, expected: (nat, Bundle) -> bool, c: nat, x: Bundle)
    requires Markers(begin, end) && next(c) == Cut(pem, begin, end, c) && Expected(pem, begin, end, c, x)
    requires forall c: nat, x :: Expected(pem, begin, end, c, x) ==> expected(c, x)
    ensures RoundFinds(next, |pem|, expected, c, x)
  {
    match x
    case End(gap) => NoBlock(pem, begin, end, c, gap);
    case Entry(gap, b, rest) => EntryFound(pem, begin, end, c, gap, b, rest);
  }

  lemma BundleFollowed(pem: string, begin: string, end: string, next: Cutter, bundle: Bundle)
    requires Markers(begin, end) && next == CutterOf(pem, begin, end) && Expected(pem, begin, end, 0, bundle)
    ensures Follows(next, 0, |pem|, bundle)
  {
    var expected := (c: nat, x: Bundle) => Expected(pem, begin, end, c, x);
    forall c: nat, x: Bundle | expected(c, x) ensures RoundFinds(next, |pem|, expected, c, x) {
      RoundFound(pem, begin, end, next, expected, c, x);
    }
    RoundsFollow(next, |pem|, expected, 0, bundle);
  }

  /** Splitting a bundle gives exactly its blocks, whatever stands in the gaps, dashes excepted. */
  lemma BundleSplits(begin: string, end: string, bundle: Bundle)
    requires Markers(begin, end) && WellFormed(bundle, begin, end)
    ensures Blocks(TextOf(bundle), begin, end) == BlocksOf(bundle)
  {
    var pem := TextOf(bundle);
    TextIsLaidOut("", bundle);
    assert "" + pem == pem;
    BundleFollowed(pem, begin, end, CutterOf(pem, begin, end), bundle);
    FollowedChain(CutterOf(pem, begin, end), 0, |pem|, bundle);
  }

  function Concat(blocks: seq<string>): string {
    if blocks == [] then "" else blocks[0] + Concat(blocks[1..])
  }

  /** A concatenation as a bundle: the gaps are the newlines that end the blocks. */
  function Tight(first: string, blocks: seq<string>): Bundle
    decreases |blocks|
  {
    if blocks == [] then End(first) else Entry(first, blocks[0], Tight("\n", blocks[1..]))
  }

  lemma {:induction false} TightText(blocks: seq<string>, begin: string, end: string, first: string)
    requires AllBlocks(blocks, begin, end) && '-' !in first
    ensures TextOf(Tight(first, blocks)) == first + Concat(blocks) && BlocksOf(Tight(first, blocks)) == blocks
    ensures WellFormed(Tight(first, blocks), begin, end)
    decreases |blocks|
  {
    if blocks != [] {
      var b, rest := blocks[0], blocks[1..];
      TightText(rest, begin, end, "\n");
      assert b == Body(b) + "\n";
      assert b + Concat(rest) == Body(b) + ("\n" + Concat(rest));
    }
  }

  /** Splitting undoes concatenation, for every list of blocks. */
  lemma SplitConcat(blocks: seq<string>, begin: string, end: string)
    requires Markers(begin, end) && AllBlocks(blocks, begin, end)
    ensures Blocks(Concat(blocks), begin, end) == blocks
  {
    TightText(blocks, begin, end, "");
    assert "" + Concat(blocks) == Concat(blocks);
    BundleSplits(begin, end, Tight("", blocks));
  }

  /** Splitting is stable: the blocks of any text, concatenated, split into the same blocks. */
  lemma SplitStable(pem: string)
    ensures var blocks := Blocks(pem, BEGIN_MARKER, END_MARKER);
            Blocks(Concat(blocks), BEGIN_MARKER, END_MARKER) == blocks
  {
    CertificateMarkers();
    StableFor(pem, BEGIN_MARKER, END_MARKER);
  }

  lemma StableFor(pem: string, begin: string, end: string)
    requires Markers(begin, end)
    ensures Blocks(Concat(Blocks(pem, begin, end)), begin, end) == Blocks(pem, begin, end)
  {
    BlocksAreBlocks(pem, begin, end);
    SplitConcat(Blocks(pem, begin, end), begin, end);
  }
}
