/** `_prepare_send_batch`: the records of one interval, cut to a fixed number without losing a byte. */
module TrafficThrottle {
  const MAX_SEND_PER_INTERVAL := 300

  datatype Key = Key(source: string, destination: string, sourcePort: nat, destinationPort: nat, protocol: string)

  datatype Record = Record(key: Key, bytes: nat, packets: nat, duration: int)

  const OVERFLOW_KEY := Key("0.0.0.0", "0.0.0.0", 0, 0, "AGG_OVERFLOW")

  function SumBytes(rs: seq<Record>): nat {
    if rs == [] then 0 else rs[0].bytes + SumBytes(rs[1..])
  }

  function SumPackets(rs: seq<Record>): nat {
    if rs == [] then 0 else rs[0].packets + SumPackets(rs[1..])
  }

  function Insert(r: Record, rs: seq<Record>): seq<Record> {
    if rs == [] || r.bytes >= rs[0].bytes then [r] + rs else [rs[0]] + Insert(r, rs[1..])
  }

  /** Python's `sorted(..., key=bytes, reverse=True)`. */
  function Ranked(rs: seq<Record>): seq<Record> {
    if rs == [] then [] else Insert(rs[0], Ranked(rs[1..]))
  }

  function Summary(overflow: seq<Record>, interval: int): Record {
    Record(OVERFLOW_KEY, SumBytes(overflow), SumPackets(overflow), interval)
  }

  function PrepareSendBatch(rs: seq<Record>, interval: int): seq<Record> {
    if |rs| <= MAX_SEND_PER_INTERVAL then rs
    else
      RankedLength(rs);
      var keep := MAX_SEND_PER_INTERVAL - 1;
      Ranked(rs)[..keep] + [Summary(Ranked(rs)[keep..], interval)]
  }

  // ---- the ranking --------------------------------------------------------

  ghost predicate Descending(rs: seq<Record>) {
    forall i, j :: 0 <= i < j < |rs| ==> rs[i].bytes >= rs[j].bytes
  }

  function WithBytes(rs: seq<Record>, b: nat): seq<Record> {
    if rs == [] then []
    else (if rs[0].bytes == b then [rs[0]] else []) + WithBytes(rs[1..], b)
  }

  lemma {:induction false} RankedLength(rs: seq<Record>)
    ensures |Ranked(rs)| == |rs|
  {
    if rs != [] {
      RankedLength(rs[1..]);
      InsertLength(rs[0], Ranked(rs[1..]));
    }
  }

  lemma {:induction false} InsertLength(r: Record, rs: seq<Record>)
    ensures |Insert(r, rs)| == |rs| + 1
  {
    if rs != [] && r.bytes < rs[0].bytes {
      InsertLength(r, rs[1..]);
    }
  }

  lemma {:induction false} InsertPermutes(r: Record, rs: seq<Record>)
    ensures multiset(Insert(r, rs)) == multiset(rs) + multiset{r}
  {
    if rs != [] && r.bytes < rs[0].bytes {
      InsertPermutes(r, rs[1..]);
      assert rs == [rs[0]] + rs[1..];
    }
  }

  lemma {:induction false} InsertMembers(r: Record, rs: seq<Record>, x: Record)
    ensures x in Insert(r, rs) ==> x == r || x in rs
  {
    if rs != [] && r.bytes < rs[0].bytes {
      InsertMembers(r, rs[1..], x);
    }
  }

  lemma {:induction false} InsertDescends(r: Record, rs: seq<Record>)
    requires Descending(rs)
    ensures Descending(Insert(r, rs))
  {
    if rs != [] && r.bytes < rs[0].bytes {
      var rest := Insert(r, rs[1..]);
      InsertDescends(r, rs[1..]);
      forall i | 0 <= i < |rest|
        ensures rest[i].bytes <= rs[0].bytes
      {
        InsertMembers(r, rs[1..], rest[i]);
      }
    }
  }

  lemma WithBytesCons(r: Record, rs: seq<Record>, b: nat)
    ensures WithBytes([r] + rs, b) == if r.bytes == b then [r] + WithBytes(rs, b) else WithBytes(rs, b)
  {
    assert ([r] + rs)[1..] == rs;
  }

  lemma {:induction false} InsertStable(r: Record, rs: seq<Record>, b: nat)
    ensures WithBytes(Insert(r, rs), b) == WithBytes([r] + rs, b)
  {
    if rs != [] && r.bytes < rs[0].bytes {
      var first, rest := rs[0], rs[1..];
      InsertStable(r, rest, b);
      WithBytesCons(first, Insert(r, rest), b);
      WithBytesCons(first, rest, b);
      WithBytesCons(r, rest, b);
      assert rs == [first] + rest;
      WithBytesCons(r, rs, b);
    }
  }

  lemma {:induction false} RankedSorts(rs: seq<Record>)
    ensures Descending(Ranked(rs)) && multiset(Ranked(rs)) == multiset(rs)
  {
    if rs != [] {
      RankedSorts(rs[1..]);
      InsertPermutes(rs[0], Ranked(rs[1..]));
      InsertDescends(rs[0], Ranked(rs[1..]));
      assert rs == [rs[0]] + rs[1..];
    }
  }

  lemma {:induction false} RankedStable(rs: seq<Record>, b: nat)
    ensures WithBytes(Ranked(rs), b) == WithBytes(rs, b)
  {
    if rs != [] {
      RankedStable(rs[1..], b);
      InsertStable(rs[0], Ranked(rs[1..]), b);
      WithBytesCons(rs[0], Ranked(rs[1..]), b);
    }
  }

  /** The ranking is the permutation with falling bytes that keeps equal records in order. */
  lemma RankedIsStableSort(rs: seq<Record>, b: nat)
    ensures Descending(Ranked(rs)) && multiset(Ranked(rs)) == multiset(rs)
    ensures WithBytes(Ranked(rs), b) == WithBytes(rs, b)
  {
    RankedSorts(rs);
    RankedStable(rs, b);
  }

  // ---- sums ---------------------------------------------------------------

  lemma {:induction false} SumConcat(xs: seq<Record>, ys: seq<Record>)
    ensures SumBytes(xs + ys) == SumBytes(xs) + SumBytes(ys)
    ensures SumPackets(xs + ys) == SumPackets(xs) + SumPackets(ys)
  {
    if xs == [] {
      assert xs + ys == ys;
    } else {
      assert (xs + ys)[1..] == xs[1..] + ys;
      SumConcat(xs[1..], ys);
    }
  }

  lemma SplitAt(rs: seq<Record>, k: nat)
    requires k <= |rs|
    ensures rs == rs[..k] + rs[k..]
  {
  }

  lemma {:induction false} SumInsert(r: Record, rs: seq<Record>)
    ensures SumBytes(Insert(r, rs)) == r.bytes + SumBytes(rs)
    ensures SumPackets(Insert(r, rs)) == r.packets + SumPackets(rs)
  {
    if rs != [] && r.bytes < rs[0].bytes {
      SumInsert(r, rs[1..]);
      assert Insert(r, rs)[1..] == Insert(r, rs[1..]);
    } else {
      assert Insert(r, rs)[1..] == rs;
    }
  }

  lemma {:induction false} SumRanked(rs: seq<Record>)
    ensures SumBytes(Ranked(rs)) == SumBytes(rs) && SumPackets(Ranked(rs)) == SumPackets(rs)
  {
    if rs != [] {
      SumRanked(rs[1..]);
      SumInsert(rs[0], Ranked(rs[1..]));
    }
  }

  /** What is sent adds up to what was aggregated, in at most 300 records. */
  lemma ThrottleKeepsTotals(rs: seq<Record>, interval: int)
    ensures |PrepareSendBatch(rs, interval)| <= 300
    ensures SumBytes(PrepareSendBatch(rs, interval)) == SumBytes(rs)
    ensures SumPackets(PrepareSendBatch(rs, interval)) == SumPackets(rs)
  {
    if |rs| > MAX_SEND_PER_INTERVAL {
      RankedLength(rs);
      SumRanked(rs);
      var keep := MAX_SEND_PER_INTERVAL - 1;
      var ranked := Ranked(rs);
      SplitAt(ranked, keep);
      SumConcat(ranked[..keep], ranked[keep..]);
      var last := [Summary(ranked[keep..], interval)];
      assert last[1..] == [];
      SumConcat(ranked[..keep], last);
    }
  }

  /**
   On overflow 299 records stay, each with at least as many bytes as any summarised
   one; kept and summarised records together are the input, and nothing is cut otherwise.
   */
  lemma ThrottleKeepsLargest(rs: seq<Record>, interval: int) returns (overflow: seq<Record>)
    ensures |rs| <= 300 ==> PrepareSendBatch(rs, interval) == rs && overflow == []
    ensures |rs| > 300 ==>
              var batch := PrepareSendBatch(rs, interval);
              var kept := batch[..|batch| - 1];
              && |kept| == 299 && Descending(kept)
              && multiset(kept) + multiset(overflow) == multiset(rs)
              && (forall i, j :: 0 <= i < |kept| && 0 <= j < |overflow| ==> kept[i].bytes >= overflow[j].bytes)
              && batch[299] == Record(Key("0.0.0.0", "0.0.0.0", 0, 0, "AGG_OVERFLOW"),
                                      SumBytes(overflow), SumPackets(overflow), interval)
  {
    overflow := [];
    if |rs| > MAX_SEND_PER_INTERVAL {
      RankedLength(rs);
      RankedSorts(rs);
      var keep := MAX_SEND_PER_INTERVAL - 1;
      var ranked := Ranked(rs);
      overflow := ranked[keep..];
      SplitAt(ranked, keep);
      var batch := PrepareSendBatch(rs, interval);
      assert batch == ranked[..keep] + [Summary(overflow, interval)];
      assert |ranked[..keep]| == keep == |batch| - 1;
      assert batch[..|batch| - 1] == ranked[..keep];
    }
  }
}
