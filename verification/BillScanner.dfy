/** Finding Bill resources inside arbitrary files. */
module BillScanner {
  import opened Common
  import opened Bytes
  import opened BillStream
  import opened BillContainer

  const MAX_RESOURCE_BYTES: nat := 0x40000 * 4

  /** What is reported of one resource: everything but its bytes. */
  datatype Found = Found(
    offset: nat, size: nat, header: Header, bodyBytes: Word,
    preserved: nat, applied: bool, alreadyTransformed: Option<bool>)

  function Describe(offset: nat, r: Resource): Found {
    Found(offset, r.size, r.header, r.bodyBytes, r.preserved, r.applied, r.alreadyTransformed)
  }

  predicate MagicAt(data: seq<Byte>, o: nat) {
    o + 4 <= |data| && data[o..o + 4] == MAGIC
  }

  /** The size declared by the header at an offset. */
  function Extent(data: seq<Byte>, o: nat): (n: nat)
    requires o + HEADER_SIZE <= |data|
    ensures n >= HEADER_SIZE
  {
    HEADER_SIZE + FromLE32(data[o + 12..o + 16])
  }

  /** A resource starts here that fits the file and the size limit and parses. */
  predicate Candidate(data: seq<Byte>, o: nat) {
    && o + HEADER_SIZE <= |data|
    && MagicAt(data, o)
    && var n := Extent(data, o);
       n <= MAX_RESOURCE_BYTES && n % 4 == 0 && o + n <= |data| && Parse(data[o..o + n]).Ok?
  }

  function Report(data: seq<Byte>, o: nat): Found
    requires Candidate(data, o)
  {
    Describe(o, Parse(data[o..o + Extent(data, o)]).value)
  }

  /** Offset by offset: take the first resource, continue behind it. */
  function Scan(data: seq<Byte>, from: nat): seq<Found>
    requires from <= |data|
    decreases |data| - from
  {
    if from == |data| then []
    else if Candidate(data, from) then [Report(data, from)] + Scan(data, from + Extent(data, from))
    else Scan(data, from + 1)
  }

  lemma {:induction false} ScanSkips(data: seq<Byte>, from: nat, until: nat)
    requires from <= until <= |data|
    requires forall o :: from <= o < until ==> !Candidate(data, o)
    ensures Scan(data, from) == Scan(data, until)
    decreases |data| - from
  {
    if from < until {
      ScanSkips(data, from + 1, until);
    }
  }

  /** Where scanning resumes behind a resource. */
  function End(data: seq<Byte>, o: nat): nat {
    if Candidate(data, o) then o + Extent(data, o) else o
  }

  /** What counts as a resource, said without its header: some whole number of dwords,
      at most a mebibyte, of what is left of the file is accepted by the parser. Such a
      size is unique, and the report gives it. */
  lemma CandidateMeans(data: seq<Byte>, o: nat)
    ensures Candidate(data, o) <==> exists n :: Accepts(data, o, n)
    ensures forall n | Accepts(data, o, n) ::
              Candidate(data, o) && Report(data, o) == Describe(o, Parse(data[o..o + n]).value)
              && Report(data, o).size == n
  {
    hide Parse;
    if Candidate(data, o) {
      assert Accepts(data, o, Extent(data, o));
    }
    forall n | Accepts(data, o, n)
      ensures Candidate(data, o) && n == Extent(data, o)
      ensures Parse(data[o..o + n]).value.size == n
    {
      AcceptedSize(data, o, n);
    }
  }

  predicate Accepts(data: seq<Byte>, o: nat, n: nat) {
    n % 4 == 0 && n <= 0x100000 && o + n <= |data| && Parse(data[o..o + n]).Ok?
  }

  lemma AcceptedSize(data: seq<Byte>, o: nat, n: nat)
    requires Accepts(data, o, n)
    ensures HEADER_SIZE <= n == Extent(data, o) && MagicAt(data, o) && Parse(data[o..o + n]).value.size == n
  {
    hide FromLE32, FromLE16, Parse;
    var s := data[o..o + n];
    RefusalMeans(s);
    WholeSize(s);
    SubSlice(data, o, o + n, 12, 16);
    SubSlice(data, o, o + n, 0, 4);
  }

  lemma WholeSize(data: seq<Byte>)
    requires Parse(data).Ok?
    ensures Parse(data).value.size == |data|
  {
    hide HeaderOf, Field, Stream;
  }

  lemma CandidateFits(data: seq<Byte>, o: nat)
    requires Candidate(data, o)
    ensures o < End(data, o) <= |data| && MagicAt(data, o)
  {}

  lemma ScanTakes(data: seq<Byte>, o: nat)
    requires Candidate(data, o)
    ensures o < End(data, o) <= |data|
    ensures Scan(data, o) == [Report(data, o)] + Scan(data, End(data, o))
  {}

  // ---------- the scanner ----------

  /** The first occurrence of the magic at or behind a position, or -1. */
  method Find(data: seq<Byte>, start: nat) returns (offset: int)
    requires start <= |data|
    ensures offset == -1 || (start <= offset && MagicAt(data, offset))
    ensures forall o :: start <= o < (if offset == -1 then |data| else offset) ==> !MagicAt(data, o)
  {
    offset := start;
    while offset + 4 <= |data|
      invariant start <= offset <= |data|
      invariant forall o :: start <= o < offset ==> !MagicAt(data, o)
    {
      if data[offset..offset + 4] == MAGIC {
        return;
      }
      offset := offset + 1;
    }
    offset := -1;
  }

  lemma MagicFirst(data: seq<Byte>)
    ensures forall o :: Candidate(data, o) ==> MagicAt(data, o)
  {}

  /** The tests of the scanner behind a magic, one by one. */
  lemma CandidateTests(data: seq<Byte>, o: nat)
    requires MagicAt(data, o)
    ensures o + HEADER_SIZE > |data| ==> !Candidate(data, o)
    ensures o + HEADER_SIZE <= |data| ==>
              var n := HEADER_SIZE + FromLE32(data[o + 12..o + 16]);
              && (Candidate(data, o) <==>
                    n <= MAX_RESOURCE_BYTES && n % 4 == 0 && o + n <= |data| && Parse(data[o..o + n]).Ok?)
              && (Candidate(data, o) ==>
                    End(data, o) == o + n && Report(data, o) == Describe(o, Parse(data[o..o + n]).value))
  {
    hide Parse, FromLE32, Describe;
  }

  method ScanBytes(data: seq<Byte>) returns (results: seq<Found>)
    ensures results == Scan(data, 0)
  {
    hide Parse, Scan, Describe, Candidate, End, Report, FromLE32;
    MagicFirst(data);
    results := [];
    var cursor := 0;
    while true
      invariant cursor <= |data|
      invariant results + Scan(data, cursor) == Scan(data, 0)
      decreases |data| - cursor
    {
      var offset := Find(data, cursor);
      if offset < 0 {
        ScanSkips(data, cursor, |data|);
        ScanEnds(data);
        break;
      }
      ScanSkips(data, cursor, offset);
      CandidateTests(data, offset);
      if Candidate(data, offset) {
        ScanTakes(data, offset);
      } else {
        ScanSkips(data, offset, offset + 1);
      }
      cursor := offset + 1;
      if offset + HEADER_SIZE > |data| {
        continue;
      }
      var bodyBytes: nat := FromLE32(data[offset + 12..offset + 16]);
      var totalBytes := HEADER_SIZE + bodyBytes;
      if totalBytes < HEADER_SIZE || totalBytes > MAX_RESOURCE_BYTES || totalBytes % 4 != 0
         || offset + totalBytes > |data|
      {
        continue;
      }
      var parsed := Parse(data[offset..offset + totalBytes]);
      if parsed.Err? {
        continue;
      }
      results := results + [Describe(offset, parsed.value)];
      cursor := offset + totalBytes;
    }
  }

  lemma ScanEnds(data: seq<Byte>)
    ensures Scan(data, |data|) == []
  {}

  // ---------- what a scan is ----------

  /** The offsets at which a scan reports. */
  function Offsets(data: seq<Byte>, from: nat): seq<nat>
    requires from <= |data|
    decreases |data| - from
  {
    if from == |data| then []
    else if Candidate(data, from) then [from] + Offsets(data, End(data, from))
    else Offsets(data, from + 1)
  }

  lemma {:induction false} ScanReportsOffsets(data: seq<Byte>, from: nat)
    requires from <= |data|
    ensures |Scan(data, from)| == |Offsets(data, from)|
    ensures forall i :: 0 <= i < |Offsets(data, from)| ==>
              Candidate(data, Offsets(data, from)[i]) &&
              Scan(data, from)[i] == Report(data, Offsets(data, from)[i])
    decreases |data| - from
  {
    hide Candidate, Report;
    if from == |data| {
    } else if Candidate(data, from) {
      ScanTakes(data, from);
      ScanReportsOffsets(data, End(data, from));
    } else {
      ScanReportsOffsets(data, from + 1);
    }
  }

  predicate Covers(data: seq<Byte>, o: nat, x: nat) {
    o <= x < End(data, o)
  }

  predicate Covered(data: seq<Byte>, found: seq<nat>, x: nat) {
    exists i :: 0 <= i < |found| && Covers(data, found[i], x)
  }

  predicate Listed(data: seq<Byte>, from: nat, found: seq<nat>) {
    forall i :: 0 <= i < |found| ==> from <= found[i] && Candidate(data, found[i])
  }

  predicate Apart(data: seq<Byte>, found: seq<nat>) {
    forall i, j :: 0 <= i < j < |found| ==> End(data, found[i]) <= found[j]
  }

  ghost predicate Complete(data: seq<Byte>, from: nat, found: seq<nat>) {
    forall x: nat | from <= x && Candidate(data, x) :: Covered(data, found, x)
  }

  /** Resources in order and apart, leaving out none that does not start strictly
      inside a reported one. */
  ghost predicate Greedy(data: seq<Byte>, from: nat, found: seq<nat>) {
    Listed(data, from, found) && Apart(data, found) && Complete(data, from, found)
  }

  /** The greedy description determines the scan and the scan satisfies it. */
  lemma {:induction false} ScanIsGreedy(data: seq<Byte>, from: nat, found: seq<nat>)
    requires from <= |data|
    ensures Greedy(data, from, found) <==> found == Offsets(data, from)
    decreases |data| - from
  {
    hide Candidate, End, Greedy;
    if from == |data| {
      NothingAtEnd(data, found);
    } else if Candidate(data, from) {
      CandidateFits(data, from);
      if found != [] && found[0] == from {
        ScanIsGreedy(data, End(data, from), found[1..]);
        GreedyTail(data, from, found);
        assert found == [found[0]] + found[1..];
      } else {
        GreedyHead(data, from, found);
      }
    } else {
      ScanIsGreedy(data, from + 1, found);
      GreedySkip(data, from, found);
    }
  }

  lemma NothingAtEnd(data: seq<Byte>, found: seq<nat>)
    ensures Greedy(data, |data|, found) <==> found == []
  {
    forall x: nat | |data| <= x
      ensures !Candidate(data, x)
    {}
    hide Candidate;
    if found != [] {
      assert Listed(data, |data|, found) ==> Candidate(data, found[0]);
    }
  }

  lemma GreedyHead(data: seq<Byte>, from: nat, found: seq<nat>)
    requires Candidate(data, from)
    ensures Greedy(data, from, found) ==> found != [] && found[0] == from
  {
    hide Candidate, End;
    if Greedy(data, from, found) {
      assert Covered(data, found, from);
      var i :| 0 <= i < |found| && Covers(data, found[i], from);
      CandidateFits(data, found[0]);
      assert i == 0;
    }
  }

  lemma GreedySkip(data: seq<Byte>, from: nat, found: seq<nat>)
    requires !Candidate(data, from)
    ensures Greedy(data, from, found) <==> Greedy(data, from + 1, found)
  {
    hide Candidate, End, Covered;
  }

  lemma GreedyTail(data: seq<Byte>, from: nat, found: seq<nat>)
    requires Candidate(data, from) && found != [] && found[0] == from
    ensures Greedy(data, from, found) <==> Greedy(data, End(data, from), found[1..])
  {
    ListTail(data, from, found);
    CompleteTail(data, from, found);
    hide Listed, Apart, Complete, Candidate, End;
  }

  lemma ListTail(data: seq<Byte>, from: nat, found: seq<nat>)
    requires Candidate(data, from) && found != [] && found[0] == from
    ensures Listed(data, from, found) && Apart(data, found)
            <==> Listed(data, End(data, from), found[1..]) && Apart(data, found[1..])
  {
    hide Candidate, End;
    CandidateFits(data, from);
    var end, rest := End(data, from), found[1..];
    assert forall i :: 1 <= i < |found| ==> found[i] == rest[i - 1];
    if Listed(data, end, rest) && Apart(data, rest) {
      forall i, j | 0 <= i < j < |found|
        ensures End(data, found[i]) <= found[j]
      {
        assert found[j] == rest[j - 1];
      }
    }
    if Listed(data, from, found) && Apart(data, found) {
      forall i | 0 <= i < |rest|
        ensures end <= rest[i] && Candidate(data, rest[i])
      {
        assert rest[i] == found[i + 1];
      }
    }
  }

  lemma CompleteTail(data: seq<Byte>, from: nat, found: seq<nat>)
    requires Candidate(data, from) && found != [] && found[0] == from
    ensures Complete(data, from, found) <==> Complete(data, End(data, from), found[1..])
  {
    hide Candidate, End;
    CandidateFits(data, from);
    forall x: nat | from <= x
      ensures Covered(data, found, x) <==> x < End(data, from) || Covered(data, found[1..], x)
    {
      CoveredTail(data, found, x);
    }
    hide Covered;
  }

  lemma CoveredTail(data: seq<Byte>, found: seq<nat>, x: nat)
    requires found != [] && found[0] <= x
    ensures Covered(data, found, x) <==> x < End(data, found[0]) || Covered(data, found[1..], x)
  {
    hide End;
    var rest := found[1..];
    if x < End(data, found[0]) {
      assert Covers(data, found[0], x);
    }
    if i :| 0 <= i < |found| && Covers(data, found[i], x) {
      assert i > 0 ==> found[i] == rest[i - 1];
    }
    if i :| 0 <= i < |rest| && Covers(data, rest[i], x) {
      assert found[i + 1] == rest[i];
    }
  }

  // ---------- round trip ----------

  /** A file laid out on purpose: resources, each behind a filler. */
  datatype Part = Part(filler: seq<Byte>, resource: seq<Byte>)

  function Layout(parts: seq<Part>, last: seq<Byte>): seq<Byte> {
    if parts == [] then last
    else parts[0].filler + parts[0].resource + Layout(parts[1..], last)
  }

  predicate NoMagic(filler: seq<Byte>) {
    forall o :: 0 <= o <= |filler| - 4 ==> !MagicAt(filler, o)
  }

  predicate Scannable(resource: seq<Byte>) {
    Parse(resource).Ok? && |resource| % 4 == 0 && |resource| <= MAX_RESOURCE_BYTES
  }

  predicate Placed(parts: seq<Part>) {
    forall p <- parts :: NoMagic(p.filler) && Scannable(p.resource)
  }

  /** The reports expected of a layout that starts at a given offset. */
  function Expected(parts: seq<Part>, at: nat): seq<Found>
    requires Placed(parts)
  {
    if parts == [] then []
    else
      var o := at + |parts[0].filler|;
      [Describe(o, Parse(parts[0].resource).value)] + Expected(parts[1..], o + |parts[0].resource|)
  }

  /** The magic overlaps no copy of itself, so none straddles the border of a
      filler and the resource behind it. */
  lemma NoMagicInFiller(data: seq<Byte>, start: nat, filler: seq<Byte>, o: nat)
    requires start + |filler| <= |data| && data[start..start + |filler|] == filler && NoMagic(filler)
    requires start <= o < start + |filler|
    requires start + |filler| == |data| || MagicAt(data, start + |filler|)
    ensures !MagicAt(data, o)
  {
    var end := start + |filler|;
    if o + 4 <= end {
      SubSlice(data, start, end, o - start, o - start + 4);
      assert !MagicAt(filler, o - start);
    } else if end < |data| {
      assert data[end..end + 4][0] == data[end];
      assert o + 4 <= |data| ==> data[o..o + 4][end - o] == data[end];
    }
  }

  lemma ResourceIsCandidate(data: seq<Byte>, o: nat, resource: seq<Byte>)
    requires Scannable(resource) && o + |resource| <= |data| && data[o..o + |resource|] == resource
    ensures Candidate(data, o) && End(data, o) == o + |resource|
    ensures Report(data, o) == Describe(o, Parse(resource).value)
  {
    hide FromLE32, Stream;
    SubSlice(data, o, o + |resource|, 0, 4);
    SubSlice(data, o, o + |resource|, 12, 16);
  }

  lemma {:induction false} ScanLayoutFrom(data: seq<Byte>, at: nat, parts: seq<Part>, last: seq<Byte>)
    requires Placed(parts) && NoMagic(last)
    requires at <= |data| && data[at..] == Layout(parts, last)
    ensures Scan(data, at) == Expected(parts, at)
    decreases |parts|
  {
    hide Candidate, End, Parse, Scan, MagicAt, NoMagic, Report, Describe;
    ScanEnds(data);
    if parts == [] {
      forall o | at <= o < |data|
        ensures !Candidate(data, o)
      {
        NoMagicInFiller(data, at, last, o);
        NotCandidate(data, o);
      }
      ScanSkips(data, at, |data|);
    } else {
      var f, r, rest := parts[0].filler, parts[0].resource, Layout(parts[1..], last);
      var start := at + |f|;
      assert parts[0] in parts;
      assert forall p <- parts[1..] :: p in parts;
      Stretches(data, at, f, r, rest);
      ResourceIsCandidate(data, start, r);
      ScanTakes(data, start);
      CandidateFits(data, start);
      forall o | at <= o < start
        ensures !Candidate(data, o)
      {
        NoMagicInFiller(data, at, f, o);
        NotCandidate(data, o);
      }
      ScanSkips(data, at, start);
      ScanLayoutFrom(data, start + |r|, parts[1..], last);
    }
  }

  lemma NotCandidate(data: seq<Byte>, o: nat)
    requires !MagicAt(data, o)
    ensures !Candidate(data, o)
  {}

  /** Scanning a layout reports exactly its resources, whatever their bodies hold. */
  lemma ScanRoundTrip(parts: seq<Part>, last: seq<Byte>)
    requires Placed(parts) && NoMagic(last)
    ensures Scan(Layout(parts, last), 0) == Expected(parts, 0)
  {
    ScanLayoutFrom(Layout(parts, last), 0, parts, last);
  }
}
