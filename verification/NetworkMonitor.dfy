/** Packet aggregation: the per-connection table, its cap, the swap at each interval, and whole runs. */
module NetworkMonitor {
  import opened TrafficThrottle

  const MAX_AGGREGATOR_KEYS := 50000

  /** An IP packet; `key` is what its layers say, `now` the clock at its callback. */
  datatype Packet = Packet(key: Key, length: nat, now: real)

  datatype Stats = Stats(bytes: nat, packets: nat, firstSeen: real, lastSeen: real)

  /** A Python dict: `order` is its insertion order. */
  datatype Aggregator = Aggregator(order: seq<Key>, stats: map<Key, Stats>)

  const EMPTY := Aggregator([], map[])

  ghost predicate WellFormed(agg: Aggregator) {
    && (forall k :: k in agg.order <==> k in agg.stats)
    && (forall i, j :: 0 <= i < j < |agg.order| ==> agg.order[i] != agg.order[j])
  }

  predicate Overflows(agg: Aggregator, p: Packet) {
    p.key !in agg.stats && |agg.order| >= MAX_AGGREGATOR_KEYS
  }

  function Count(agg: Aggregator, p: Packet): Aggregator {
    var base := if Overflows(agg, p) then EMPTY else agg;
    if p.key in base.stats then
      var s := base.stats[p.key];
      base.(stats := base.stats[p.key := Stats(s.bytes + p.length, s.packets + 1, s.firstSeen, p.now)])
    else
      Aggregator(base.order + [p.key], base.stats[p.key := Stats(p.length, 1, p.now, p.now)])
  }

  function RecordOf(key: Key, s: Stats): Record {
    var seconds := (s.lastSeen - s.firstSeen).Floor;
    Record(key, s.bytes, s.packets, if seconds < 1 then 1 else seconds)
  }

  /** The entries in insertion order. */
  function Records(order: seq<Key>, stats: map<Key, Stats>): seq<Record> {
    if order == [] then []
    else
      var k := order[|order| - 1];
      Records(order[..|order| - 1], stats) + if k in stats then [RecordOf(k, stats[k])] else []
  }

  class NetworkMonitor {
    const interval: int
    var aggregator: Aggregator

    constructor (interval: int)
      ensures this.interval == interval && aggregator == EMPTY
    {
      this.interval, aggregator := interval, EMPTY;
    }

    method PacketCallback(p: Packet)
      requires WellFormed(aggregator)
      modifies this`aggregator
      ensures p.key !in old(aggregator).stats && |old(aggregator).order| >= 50000 ==>
                aggregator == Aggregator([p.key], map[p.key := Stats(p.length, 1, p.now, p.now)])
      ensures p.key !in old(aggregator).stats && |old(aggregator).order| < 50000 ==>
                && aggregator.order == old(aggregator).order + [p.key]
                && aggregator.stats == old(aggregator).stats[p.key := Stats(p.length, 1, p.now, p.now)]
      ensures p.key in old(aggregator).stats ==>
                var s := old(aggregator).stats[p.key];
                && aggregator.order == old(aggregator).order
                && aggregator.stats == old(aggregator).stats[p.key :=
                     Stats(s.bytes + p.length, s.packets + 1, s.firstSeen, p.now)]
      ensures aggregator == Count(old(aggregator), p) && WellFormed(aggregator)
    {
      if p.key !in aggregator.stats {
        if |aggregator.order| >= MAX_AGGREGATOR_KEYS {
          aggregator := EMPTY;
        }
        aggregator := Aggregator(aggregator.order + [p.key],
                                 aggregator.stats[p.key := Stats(0, 0, p.now, p.now)]);
      }
      var s := aggregator.stats[p.key];
      var s' := Stats(s.bytes + p.length, s.packets + 1, s.firstSeen, p.now);
      ghost var before := aggregator.stats;
      aggregator := aggregator.(stats := aggregator.stats[p.key := s']);
      CountWellFormed(old(aggregator), p);
      assert aggregator.stats == Count(old(aggregator), p).stats;
    }

    method GetAndClearTraffic() returns (records: seq<Record>)
      requires WellFormed(aggregator)
      modifies this`aggregator
      ensures |records| == |old(aggregator).order|
      ensures forall i :: 0 <= i < |records| ==>
                var key := old(aggregator).order[i];
                var s := old(aggregator).stats[key];
                var seconds := (s.lastSeen - s.firstSeen).Floor;
                records[i] == Record(key, s.bytes, s.packets, if seconds < 1 then 1 else seconds)
      ensures records == Records(old(aggregator).order, old(aggregator).stats)
      ensures aggregator == EMPTY
    {
      var snapshot := aggregator;
      aggregator := EMPTY;
      records := [];
      for i := 0 to |snapshot.order|
        invariant |records| == i && forall j :: 0 <= j < i ==>
                    records[j] == RecordOf(snapshot.order[j], snapshot.stats[snapshot.order[j]])
        invariant records == Records(snapshot.order[..i], snapshot.stats)
      {
        assert snapshot.order[..i + 1][..i] == snapshot.order[..i];
        var key := snapshot.order[i];
        records := records + [RecordOf(key, snapshot.stats[key])];
      }
      assert snapshot.order[..|snapshot.order|] == snapshot.order;
    }

    /** One interval: everything held is handed to the callback, throttled. */
    method Interval() returns (sent: seq<Record>)
      requires WellFormed(aggregator)
      modifies this`aggregator
      ensures sent == PrepareSendBatch(Records(old(aggregator).order, old(aggregator).stats), interval)
      ensures aggregator == EMPTY
    {
      var records := GetAndClearTraffic();
      sent := PrepareSendBatch(records, interval);
    }
  }

  // ---- the table is the group-by of its window ----------------------------

  lemma CountWellFormed(agg: Aggregator, p: Packet)
    requires WellFormed(agg)
    ensures WellFormed(Count(agg, p))
  {
  }

  function BytesOf(ps: seq<Packet>, k: Key): nat {
    if ps == [] then 0
    else BytesOf(ps[..|ps| - 1], k) + if ps[|ps| - 1].key == k then ps[|ps| - 1].length else 0
  }

  function PacketsOf(ps: seq<Packet>, k: Key): nat {
    if ps == [] then 0
    else PacketsOf(ps[..|ps| - 1], k) + if ps[|ps| - 1].key == k then 1 else 0
  }

  /** The i-th packet is the first of its key. */
  predicate FirstOfKey(ps: seq<Packet>, i: nat)
    requires i < |ps|
  {
    forall j :: 0 <= j < i ==> ps[j].key != ps[i].key
  }

  predicate LastOfKey(ps: seq<Packet>, i: nat)
    requires i < |ps|
  {
    forall j :: i < j < |ps| ==> ps[j].key != ps[i].key
  }

  /** The keys in the order of their first packets. */
  function Appearances(ps: seq<Packet>): seq<Key> {
    if ps == [] then []
    else
      var k := |ps| - 1;
      Appearances(ps[..k]) + if FirstOfKey(ps, k) then [ps[k].key] else []
  }

  ghost predicate Occurs(window: seq<Packet>, k: Key) {
    exists i :: 0 <= i < |window| && window[i].key == k
  }

  /** The keys are those of the window, with their sums. */
  ghost predicate SumsOf(stats: map<Key, Stats>, window: seq<Packet>) {
    && (forall k :: k in stats <==> Occurs(window, k))
    && (forall k :: k in stats ==>
          stats[k].bytes == BytesOf(window, k) && stats[k].packets == PacketsOf(window, k))
  }

  /** Each key holds the times of its first and its last packet. */
  ghost predicate TimesOf(stats: map<Key, Stats>, window: seq<Packet>) {
    forall i :: 0 <= i < |window| && window[i].key in stats ==>
      && (FirstOfKey(window, i) ==> stats[window[i].key].firstSeen == window[i].now)
      && (LastOfKey(window, i) ==> stats[window[i].key].lastSeen == window[i].now)
  }

  /**
   The table holds exactly the keys of the window in order of appearance, each with its
   bytes, its packets and the times of its first and last packet.
   */
  ghost predicate GroupsBy(agg: Aggregator, window: seq<Packet>) {
    && WellFormed(agg)
    && SumsOf(agg.stats, window)
    && TimesOf(agg.stats, window)
    && agg.order == Appearances(window)
  }

  lemma AppearancesStep(window: seq<Packet>, p: Packet)
    ensures Appearances(window + [p]) ==
            Appearances(window) + if Occurs(window, p.key) then [] else [p.key]
  {
    var after := window + [p];
    assert after[..|window|] == window && after[|window|] == p;
    assert forall i :: 0 <= i < |window| ==> after[i] == window[i];
    assert FirstOfKey(after, |window|) <==> !Occurs(window, p.key);
  }

  lemma TimesStep(agg: Aggregator, window: seq<Packet>, p: Packet)
    requires TimesOf(agg.stats, window) && !Overflows(agg, p)
    requires forall k :: k in agg.stats <==> Occurs(window, k)
    ensures TimesOf(Count(agg, p).stats, window + [p])
  {
    var after := window + [p];
    var stats := Count(agg, p).stats;
    var n := |window|;
    assert after[n] == p;
    forall i | 0 <= i < |after| && after[i].key in stats
      ensures FirstOfKey(after, i) ==> stats[after[i].key].firstSeen == after[i].now
      ensures LastOfKey(after, i) ==> stats[after[i].key].lastSeen == after[i].now
    {
      if i < n {
        assert after[i] == window[i];
        assert Occurs(window, window[i].key);
        assert FirstOfKey(after, i) ==> FirstOfKey(window, i) by {
          assert forall j :: 0 <= j < i ==> after[j] == window[j];
        }
        assert LastOfKey(after, i) ==> LastOfKey(window, i) && p.key != window[i].key by {
          assert forall j :: i < j < n ==> after[j] == window[j];
        }
      } else if p.key in agg.stats {
        var x :| 0 <= x < n && window[x].key == p.key;
        assert after[x] == window[x];
      }
    }
  }

  lemma {:induction false} AbsentKey(ps: seq<Packet>, k: Key)
    requires forall i :: 0 <= i < |ps| ==> ps[i].key != k
    ensures BytesOf(ps, k) == 0 && PacketsOf(ps, k) == 0
  {
    if ps != [] {
      AbsentKey(ps[..|ps| - 1], k);
    }
  }

  lemma WindowKeys(window: seq<Packet>, p: Packet, k: Key)
    ensures Occurs(window + [p], k) <==> p.key == k || Occurs(window, k)
  {
    var after := window + [p];
    assert after[|window|] == p;
    if i :| 0 <= i < |window| && window[i].key == k {
      assert after[i] == window[i];
    }
    if i :| 0 <= i < |after| && after[i].key == k {
      assert i < |window| ==> window[i].key == k;
    }
  }

  lemma WindowSums(window: seq<Packet>, p: Packet, k: Key)
    ensures BytesOf(window + [p], k) == BytesOf(window, k) + if p.key == k then p.length else 0
    ensures PacketsOf(window + [p], k) == PacketsOf(window, k) + if p.key == k then 1 else 0
  {
    assert (window + [p])[..|window|] == window;
  }

  lemma SumsStep(agg: Aggregator, window: seq<Packet>, p: Packet)
    requires SumsOf(agg.stats, window) && !Overflows(agg, p)
    ensures SumsOf(Count(agg, p).stats, window + [p])
  {
    var after := window + [p];
    if p.key !in agg.stats {
      AbsentKey(window, p.key);
    }
    forall k
      ensures k in Count(agg, p).stats <==> Occurs(after, k)
      ensures k in Count(agg, p).stats ==>
                Count(agg, p).stats[k].bytes == BytesOf(after, k) &&
                Count(agg, p).stats[k].packets == PacketsOf(after, k)
    {
      WindowKeys(window, p, k);
      WindowSums(window, p, k);
    }
  }

  lemma CountGroups(agg: Aggregator, window: seq<Packet>, p: Packet)
    requires GroupsBy(agg, window) && !Overflows(agg, p)
    ensures GroupsBy(Count(agg, p), window + [p])
  {
    CountWellFormed(agg, p);
    SumsStep(agg, window, p);
    TimesStep(agg, window, p);
    AppearancesStep(window, p);
  }

  // ---- totals -------------------------------------------------------------

  function Held(agg: Aggregator): seq<Record> {
    Records(agg.order, agg.stats)
  }

  lemma {:induction false} SumUpdated(order: seq<Key>, stats: map<Key, Stats>, k: Key, s: Stats)
    requires forall x :: x in order ==> x in stats
    requires forall i, j :: 0 <= i < j < |order| ==> order[i] != order[j]
    requires k in stats
    ensures SumBytes(Records(order, stats[k := s])) ==
            SumBytes(Records(order, stats)) + if k in order then s.bytes - stats[k].bytes else 0
    ensures SumPackets(Records(order, stats[k := s])) ==
            SumPackets(Records(order, stats)) + if k in order then s.packets - stats[k].packets else 0
  {
    if order != [] {
      var n := |order| - 1;
      var last, last' := RecordOf(order[n], stats[order[n]]), RecordOf(order[n], stats[k := s][order[n]]);
      assert order[n] !in order[..n] && order == order[..n] + [order[n]];
      SumUpdated(order[..n], stats, k, s);
      SumConcat(Records(order[..n], stats), [last]);
      SumConcat(Records(order[..n], stats[k := s]), [last']);
      assert [last][1..] == [] && [last'][1..] == [];
    }
  }

  lemma {:induction false} RecordsOfOthers(order: seq<Key>, stats: map<Key, Stats>, k: Key, s: Stats)
    requires forall x :: x in order ==> x in stats
    requires k !in order
    ensures Records(order, stats[k := s]) == Records(order, stats)
  {
    if order != [] {
      RecordsOfOthers(order[..|order| - 1], stats, k, s);
    }
  }

  lemma CountAddsPacket(agg: Aggregator, p: Packet)
    requires WellFormed(agg) && !Overflows(agg, p)
    ensures SumBytes(Held(Count(agg, p))) == SumBytes(Held(agg)) + p.length
    ensures SumPackets(Held(Count(agg, p))) == SumPackets(Held(agg)) + 1
  {
    var after := Count(agg, p);
    if p.key in agg.stats {
      SumUpdated(agg.order, agg.stats, p.key, after.stats[p.key]);
    } else {
      NewKeyRecords(agg.order, agg.stats, p.key, after.stats[p.key]);
    }
  }

  lemma NewKeyRecords(order: seq<Key>, stats: map<Key, Stats>, k: Key, s: Stats)
    requires forall x :: x in order ==> x in stats
    requires k !in order
    ensures SumBytes(Records(order + [k], stats[k := s])) == SumBytes(Records(order, stats)) + s.bytes
    ensures SumPackets(Records(order + [k], stats[k := s])) == SumPackets(Records(order, stats)) + s.packets
  {
    var last := [RecordOf(k, s)];
    assert (order + [k])[..|order|] == order;
    RecordsOfOthers(order, stats, k, s);
    assert Records(order + [k], stats[k := s]) == Records(order, stats) + last;
    assert last[1..] == [];
    SumConcat(Records(order, stats), last);
  }

  // ---- whole runs ---------------------------------------------------------

  datatype Totals = Totals(bytes: nat, packets: nat)

  function Plus(t: Totals, rs: seq<Record>): Totals {
    Totals(t.bytes + SumBytes(rs), t.packets + SumPackets(rs))
  }

  /** `window` is what arrived since the table was last swapped out or cleared. */
  datatype State = State(aggregator: Aggregator, window: seq<Packet>, captured: Totals,
                         handed: Totals, discarded: Totals, largest: nat)

  datatype Event = Capture(packet: Packet) | SendInterval(interval: int)

  function Step(s: State, e: Event): State {
    match e
    case Capture(p) =>
      var cleared := Overflows(s.aggregator, p);
      s.(aggregator := Count(s.aggregator, p),
         window := if cleared then [p] else s.window + [p],
         captured := Totals(s.captured.bytes + p.length, s.captured.packets + 1),
         discarded := if cleared then Plus(s.discarded, Held(s.aggregator)) else s.discarded)
    case SendInterval(interval) =>
      var batch := PrepareSendBatch(Held(s.aggregator), interval);
      s.(aggregator := EMPTY, window := [], handed := Plus(s.handed, batch),
         largest := if |batch| > s.largest then |batch| else s.largest)
  }

  /** Handed over, held and discarded traffic add up to what was captured. */
  predicate Conserved(s: State) {
    && s.captured.bytes == s.handed.bytes + SumBytes(Held(s.aggregator)) + s.discarded.bytes
    && s.captured.packets == s.handed.packets + SumPackets(Held(s.aggregator)) + s.discarded.packets
  }

  ghost predicate Inv(s: State) {
    && GroupsBy(s.aggregator, s.window)
    && |s.aggregator.order| <= MAX_AGGREGATOR_KEYS
    && s.largest <= MAX_SEND_PER_INTERVAL
    && Conserved(s)
  }

  lemma CountAfterOverflow(agg: Aggregator, p: Packet)
    requires Overflows(agg, p)
    ensures GroupsBy(Count(agg, p), [p]) && |Count(agg, p).order| == 1
    ensures SumBytes(Held(Count(agg, p))) == p.length && SumPackets(Held(Count(agg, p))) == 1
  {
    CountFromEmpty(agg, p);
    FirstPacketGroups(p);
    FirstPacketSums(p);
  }

  lemma FirstPacketGroups(p: Packet)
    ensures GroupsBy(Count(EMPTY, p), [p])
  {
    EmptyGroups();
    CountGroups(EMPTY, [], p);
    assert [] + [p] == [p];
  }

  lemma FirstPacketSums(p: Packet)
    ensures SumBytes(Held(Count(EMPTY, p))) == p.length && SumPackets(Held(Count(EMPTY, p))) == 1
  {
    EmptyGroups();
    CountAddsPacket(EMPTY, p);
  }

  lemma EmptyGroups()
    ensures GroupsBy(EMPTY, []) && Held(EMPTY) == []
  {
  }

  lemma CountFromEmpty(agg: Aggregator, p: Packet)
    requires Overflows(agg, p)
    ensures Count(agg, p) == Count(EMPTY, p) == Aggregator([p.key], map[p.key := Stats(p.length, 1, p.now, p.now)])
  {
  }

  lemma CaptureKeeps(s: State, p: Packet)
    requires Inv(s)
    ensures Inv(Step(s, Capture(p)))
  {
    if Overflows(s.aggregator, p) {
      CountAfterOverflow(s.aggregator, p);
    } else {
      CountAddsPacket(s.aggregator, p);
      CountGroups(s.aggregator, s.window, p);
    }
  }

  lemma InvKept(s: State, e: Event)
    requires Inv(s)
    ensures Inv(Step(s, e))
  {
    match e
    case Capture(p) => CaptureKeeps(s, p);
    case SendInterval(interval) => IntervalKeeps(s, interval);
  }

  lemma IntervalKeeps(s: State, interval: int)
    requires Inv(s)
    ensures Inv(Step(s, SendInterval(interval)))
  {
    ThrottleKeepsTotals(Held(s.aggregator), interval);
    EmptyGroups();
  }

  function Run(s: State, es: seq<Event>): State
    decreases |es|
  {
    if es == [] then s else Run(Step(s, es[0]), es[1..])
  }

  lemma {:induction false} InvAlongRun(s: State, es: seq<Event>)
    requires Inv(s)
    ensures Inv(Run(s, es))
    decreases |es|
  {
    if es != [] {
      InvKept(s, es[0]);
      InvAlongRun(Step(s, es[0]), es[1..]);
    }
  }

  predicate Init(s: State) {
    && s.aggregator == EMPTY && s.window == [] && s.largest == 0
    && s.captured == s.handed == s.discarded == Totals(0, 0)
  }

  lemma InitInv(s: State)
    requires Init(s)
    ensures Inv(s)
  {
  }

  /**
   Traffic conservation: over any run, bytes and packets handed to the callback, still
   held, and discarded by the cap add up to those captured, and no interval hands over
   more than 300 records.
   */
  lemma TrafficConservation(s: State, es: seq<Event>)
    requires Init(s)
    ensures Conserved(Run(s, es)) && Run(s, es).largest <= MAX_SEND_PER_INTERVAL
  {
    InitInv(s);
    InvAlongRun(s, es);
  }

  /** Some packet of the run arrives at a full table under a key that is not in it. */
  predicate HitsCap(s: State, es: seq<Event>)
    decreases |es|
  {
    es != [] && ((es[0].Capture? && Overflows(s.aggregator, es[0].packet)) || HitsCap(Step(s, es[0]), es[1..]))
  }

  lemma {:induction false} PresentKey(ps: seq<Packet>, i: nat)
    requires i < |ps|
    ensures PacketsOf(ps, ps[i].key) >= 1
  {
    if i < |ps| - 1 {
      PresentKey(ps[..|ps| - 1], i);
    }
  }

  /** A table with a key holds a packet. */
  lemma {:induction false} HeldPackets(order: seq<Key>, stats: map<Key, Stats>)
    requires order != [] && order[0] in stats && stats[order[0]].packets >= 1
    ensures SumPackets(Records(order, stats)) >= 1
  {
    var n := |order| - 1;
    if n == 0 {
      assert Records(order[..0], stats) == [];
      assert Records(order, stats) == [RecordOf(order[0], stats[order[0]])];
    } else {
      HeldPackets(order[..n], stats);
      var last := if order[n] in stats then [RecordOf(order[n], stats[order[n]])] else [];
      SumConcat(Records(order[..n], stats), last);
    }
  }

  lemma DiscardStep(s: State, e: Event)
    requires Inv(s)
    ensures Step(s, e).discarded.packets >= s.discarded.packets
    ensures e.Capture? && Overflows(s.aggregator, e.packet) ==>
              Step(s, e).discarded.packets > s.discarded.packets
    ensures !(e.Capture? && Overflows(s.aggregator, e.packet)) ==> Step(s, e).discarded == s.discarded
  {
    if e.Capture? && Overflows(s.aggregator, e.packet) {
      var order := s.aggregator.order;
      assert order[0] in s.aggregator.stats;
      var i :| 0 <= i < |s.window| && s.window[i].key == order[0];
      PresentKey(s.window, i);
      HeldPackets(order, s.aggregator.stats);
    }
  }

  lemma {:induction false} DiscardsGrow(s: State, es: seq<Event>)
    requires Inv(s)
    ensures Run(s, es).discarded.packets >= s.discarded.packets
    ensures HitsCap(s, es) ==> Run(s, es).discarded.packets > s.discarded.packets
    ensures !HitsCap(s, es) ==> Run(s, es).discarded == s.discarded
    decreases |es|
  {
    if es != [] {
      DiscardStep(s, es[0]);
      InvKept(s, es[0]);
      DiscardsGrow(Step(s, es[0]), es[1..]);
    }
  }

  /** What the cap announces as an early flush loses traffic: nothing is discarded if and only if no packet hits it. */
  lemma NothingDiscardedExact(s: State, es: seq<Event>)
    requires Inv(s)
    ensures Run(s, es).discarded == s.discarded <==> !HitsCap(s, es)
  {
    DiscardsGrow(s, es);
  }

  /** The i-th of a flood of packets, each of a connection of its own. */
  function FloodPacket(i: nat): Packet {
    Packet(Key("10.0.0.1", "10.0.0.2", i, 443, "TCP"), 100, 0.0)
  }

  function Flood(n: nat): seq<Event> {
    seq(n, i requires 0 <= i => Capture(FloodPacket(i)))
  }

  lemma {:induction false} RunConcat(s: State, es: seq<Event>, fs: seq<Event>)
    ensures Run(s, es + fs) == Run(Run(s, es), fs)
    decreases |es|
  {
    if es == [] {
      assert es + fs == fs;
    } else {
      assert (es + fs)[1..] == es[1..] + fs;
      RunConcat(Step(s, es[0]), es[1..], fs);
    }
  }

  /** The table holds n packets of n connections and nothing has left it. */
  ghost predicate Flooded(s: State, n: nat) {
    && |s.aggregator.order| == n && (forall k :: k in s.aggregator.stats ==> k.sourcePort < n)
    && s.discarded == s.handed == Totals(0, 0) && s.captured == Totals(100 * n, n)
  }

  lemma FloodStep(s: State, n: nat)
    requires Flooded(s, n) && n < MAX_AGGREGATOR_KEYS
    ensures Flooded(Step(s, Capture(FloodPacket(n))), n + 1)
  {
    assert FloodPacket(n).key !in s.aggregator.stats;
  }

  lemma FloodGrows(s: State, n: nat)
    ensures Run(s, Flood(n + 1)) == Step(Run(s, Flood(n)), Capture(FloodPacket(n)))
  {
    var last := [Capture(FloodPacket(n))];
    assert Flood(n + 1) == Flood(n) + last && last[1..] == [];
    RunConcat(s, Flood(n), last);
    assert Run(Step(Run(s, Flood(n)), last[0]), last[1..]) == Step(Run(s, Flood(n)), last[0]);
  }

  /** As long as it fits, a flood is held packet by packet. */
  lemma {:induction false} FloodHeld(s: State, n: nat)
    requires Init(s) && n <= MAX_AGGREGATOR_KEYS
    ensures Flooded(Run(s, Flood(n)), n)
    decreases n
  {
    if n == 0 {
      assert Flood(0) == [];
    } else {
      FloodHeld(s, n - 1);
      FloodGrows(s, n - 1);
      FloodStep(Run(s, Flood(n - 1)), n - 1);
    }
  }

  /** The packet of one connection too many discards all traffic held so far. */
  lemma CapDiscards(s: State, n: nat)
    requires Init(s) && n == 50000
    ensures Run(s, Flood(n + 1)).discarded == Totals(100 * n, n)
  {
    FloodHeld(s, n);
    FloodGrows(s, n);
    TrafficConservation(s, Flood(n));
    FloodOverflows(Run(s, Flood(n)), n);
  }

  lemma FloodOverflows(s: State, n: nat)
    requires Flooded(s, n) && n == MAX_AGGREGATOR_KEYS && Conserved(s)
    ensures Step(s, Capture(FloodPacket(n))).discarded == Totals(100 * n, n)
  {
    assert FloodPacket(n).key !in s.aggregator.stats;
  }

  /** At any time the table is the group-by of its window, with at most 50000 keys. */
  lemma TableGroupsWindow(s: State, es: seq<Event>)
    requires Init(s)
    ensures GroupsBy(Run(s, es).aggregator, Run(s, es).window)
    ensures |Run(s, es).aggregator.order| <= 50000
  {
    InitInv(s);
    InvAlongRun(s, es);
  }
}
