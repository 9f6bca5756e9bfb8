/** The dashboard's time buckets. */
module Timeline {
  import opened Prelude

  const SLOTS: nat := 20
  const BUCKET_MS: int := 30000
  const PROTOCOLS: seq<string> := ["snmp", "ves", "protobuf", "avro", "sftp", "webhook"]

  /** `at` is the event's time in milliseconds; absent when its timestamp is no date. */
  datatype Event = Event(at: Option<int>, protocol: string)

  predicate Selects(e: Event, p: string, start: int, end: int) {
    e.protocol == p && e.at.Some? && start <= e.at.value < end
  }

  /** events.filter(...).length */
  function Count(events: seq<Event>, p: string, start: int, end: int): nat {
    if events == [] then 0
    else Count(Front(events), p, start, end) + if Selects(Last(events), p, start, end) then 1 else 0
  }

  function Base(now: int): int {
    now - (SLOTS - 1) * BUCKET_MS
  }

  function SlotStart(now: int, i: nat): int {
    now - (SLOTS - 1 - i) * BUCKET_MS
  }

  /** One slot's count of one protocol. */
  function Cell(events: seq<Event>, p: string, now: int, i: nat): nat {
    Count(events, p, SlotStart(now, i), SlotStart(now, i) + BUCKET_MS)
  }

  lemma KnownProtocols()
    ensures (set p | p in PROTOCOLS) == {"snmp", "ves", "protobuf", "avro", "sftp", "webhook"}
  {
  }

  /** buildTimeline: for each slot the count of each known protocol. */
  method BuildTimeline(events: seq<Event>, now: int) returns (points: seq<map<string, nat>>)
    ensures |points| == SLOTS == 20
    ensures forall i :: 0 <= i < SLOTS ==> points[i].Keys == {"snmp", "ves", "protobuf", "avro", "sftp", "webhook"}
    ensures forall i, p :: 0 <= i < SLOTS && p in points[i] ==> points[i][p] == Cell(events, p, now, i)
  {
    KnownProtocols();
    points := [];
    for i := 0 to SLOTS
      invariant |points| == i
      invariant forall k :: 0 <= k < i ==> points[k].Keys == set p | p in PROTOCOLS
      invariant forall k, p :: 0 <= k < i && p in points[k] ==> points[k][p] == Cell(events, p, now, k)
    {
      var start := now - (SLOTS - 1 - i) * BUCKET_MS;
      var end := start + BUCKET_MS;
      var pt: map<string, nat> := map[];
      for k := 0 to |PROTOCOLS|
        invariant pt.Keys == set p | p in PROTOCOLS[..k]
        invariant forall p :: p in pt ==> pt[p] == Cell(events, p, now, i)
      {
        var n := FilterLength(events, PROTOCOLS[k], start, end);
        pt := pt[PROTOCOLS[k] := n];
        assert PROTOCOLS[..k + 1] == PROTOCOLS[..k] + [PROTOCOLS[k]];
      }
      assert PROTOCOLS[..|PROTOCOLS|] == PROTOCOLS;
      points := points + [pt];
    }
  }

  method FilterLength(events: seq<Event>, p: string, start: int, end: int) returns (n: nat)
    ensures n == Count(events, p, start, end)
  {
    n := 0;
    for i := 0 to |events|
      invariant n == Count(events[..i], p, start, end)
    {
      assert Front(events[..i + 1]) == events[..i];
      if Selects(events[i], p, start, end) { n := n + 1; }
    }
    assert events[..|events|] == events;
  }

  // ---------------------------------------------------------------- direct indexing

  /** The slot an instant falls in, counted from the first one's start. */
  function SlotOf(now: int, at: int): int {
    (at - Base(now)) / BUCKET_MS
  }

  function CountInSlot(events: seq<Event>, p: string, now: int, i: nat): nat {
    if events == [] then 0
    else CountInSlot(Front(events), p, now, i)
         + if Last(events).protocol == p && Last(events).at.Some? && SlotOf(now, Last(events).at.value) == i then 1 else 0
  }

  /** Each slot counts exactly the events whose floor((t - base) / bucket) is its index, so no
      event is counted in two slots. */
  lemma {:induction false} CellIsDirectIndex(events: seq<Event>, p: string, now: int, i: nat)
    ensures Cell(events, p, now, i) == CountInSlot(events, p, now, i)
  {
    if events != [] {
      CellIsDirectIndex(Front(events), p, now, i);
      assert SlotStart(now, i) == Base(now) + i * BUCKET_MS;
    }
  }

  lemma {:induction false} CountSplits(events: seq<Event>, p: string, a: int, b: int, c: int)
    requires a <= b <= c
    ensures Count(events, p, a, c) == Count(events, p, a, b) + Count(events, p, b, c)
  {
    if events != [] { CountSplits(Front(events), p, a, b, c); }
  }

  function SumOfCells(events: seq<Event>, p: string, now: int, n: nat): nat {
    if n == 0 then 0 else SumOfCells(events, p, now, n - 1) + Cell(events, p, now, n - 1)
  }

  lemma {:induction false} EmptyCount(events: seq<Event>, p: string, a: int)
    ensures Count(events, p, a, a) == 0
  {
    if events != [] { EmptyCount(Front(events), p, a); }
  }

  lemma {:induction false} SumOfFirstCells(events: seq<Event>, p: string, now: int, n: nat)
    ensures SumOfCells(events, p, now, n) == Count(events, p, Base(now), Base(now) + n * BUCKET_MS)
  {
    if n == 0 {
      EmptyCount(events, p, Base(now));
    } else {
      SumOfFirstCells(events, p, now, n - 1);
      CountSplits(events, p, Base(now), SlotStart(now, n - 1), SlotStart(now, n - 1) + BUCKET_MS);
    }
  }

  /** The slots of a protocol sum to the number of its events in the nine and a half minutes before
      now and the half minute after it. */
  lemma TimelineCountsAll(events: seq<Event>, p: string, now: int)
    ensures SumOfCells(events, p, now, SLOTS) == Count(events, p, now - 19 * 30000, now + 30000)
  {
    SumOfFirstCells(events, p, now, SLOTS);
  }

  /** One bucket later every slot shows what the next one showed. */
  lemma TimelineShifts(events: seq<Event>, p: string, now: int, i: nat)
    requires i + 1 < SLOTS
    ensures Cell(events, p, now + BUCKET_MS, i) == Cell(events, p, now, i + 1)
    ensures CountInSlot(events, p, now + BUCKET_MS, i) == CountInSlot(events, p, now, i + 1)
  {
    CellIsDirectIndex(events, p, now + BUCKET_MS, i);
    CellIsDirectIndex(events, p, now, i + 1);
  }
}
