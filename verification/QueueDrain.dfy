/** How fast the queue empties when nothing is enqueued and one flusher runs, whatever the senders answer. */
module QueueDrain {
  import opened EventQueue

  /** The table after one flush per element of `answers`. */
  function FlushAll(rows: seq<Row>, batchSize: nat, answers: seq<Answers>): seq<Row>
    decreases |answers|
  {
    if answers == [] then rows
    else FlushAll(Flushed(rows, batchSize, answers[0]), batchSize, answers[1..])
  }

  ghost predicate BelowLimit(rows: seq<Row>) {
    forall i :: 0 <= i < |rows| ==> rows[i].retries < MAX_RETRY
  }

  ghost predicate TriedAtLeast(rows: seq<Row>, n: nat) {
    forall i :: 0 <= i < |rows| ==> rows[i].retries >= n
  }

  /** The attempts still allowed to the pending rows together. */
  function Potential(rows: seq<Row>): int {
    if rows == [] then 0 else MAX_RETRY - rows[0].retries + Potential(rows[1..])
  }

  function CeilDiv(n: nat, d: nat): nat
    requires d > 0
  {
    (n + d - 1) / d
  }

  // ---- one flush ----------------------------------------------------------

  lemma {:induction false} SettledConcat(xs: seq<Row>, ys: seq<Row>, v: map<nat, Verdict>)
    ensures Settled(xs + ys, v) == Settled(xs, v) + Settled(ys, v)
    decreases |xs|
  {
    if xs == [] {
      assert xs + ys == ys;
    } else {
      assert (xs + ys)[1..] == xs[1..] + ys;
      SettledConcat(xs[1..], ys, v);
    }
  }

  /** Verdicts that respect the retry limit for these rows. */
  ghost predicate Respects(rows: seq<Row>, v: map<nat, Verdict>) {
    forall i :: 0 <= i < |rows| && rows[i].id in v && v[rows[i].id].Retry? ==> rows[i].retries + 1 < MAX_RETRY
  }

  lemma {:induction false} SettledTried(rows: seq<Row>, v: map<nat, Verdict>, n: nat)
    requires TriedAtLeast(rows, n) && BelowLimit(rows) && Respects(rows, v)
    ensures BelowLimit(Settled(rows, v)) && |Settled(rows, v)| <= |rows|
    ensures Ids(rows) <= v.Keys ==> TriedAtLeast(Settled(rows, v), n + 1)
    ensures Ids(rows) <= v.Keys && n + 1 >= MAX_RETRY ==> Settled(rows, v) == []
    ensures Potential(Settled(rows, v)) <= Potential(rows)
    ensures rows != [] && rows[0].id in v ==> Potential(Settled(rows, v)) < Potential(rows)
    decreases |rows|
  {
    if rows != [] {
      assert TriedAtLeast(rows[1..], n) && BelowLimit(rows[1..]) && Respects(rows[1..], v);
      SettledTried(rows[1..], v, n);
      if Ids(rows) <= v.Keys {
        assert rows[0].id in Ids(rows);
        forall id | id in Ids(rows[1..])
          ensures id in v
        {
          var i :| 0 <= i < |rows[1..]| && rows[1..][i].id == id;
          assert rows[i + 1].id in Ids(rows);
        }
      }
      var all, rest := Settled(rows, v), Settled(rows[1..], v);
      if Settle(rows[0], v) == [] {
        assert all == rest;
      } else {
        assert all[0] == Settle(rows[0], v)[0] && all[1..] == rest;
      }
    }
  }

  lemma BatchRespects(rows: seq<Row>, batchSize: nat, answers: Answers)
    requires Ascending(rows)
    ensures var v := Verdicts(Oldest(rows, batchSize), answers);
            Respects(rows, v) && v.Keys == Ids(Oldest(rows, batchSize))
  {
    var batch := Oldest(rows, batchSize);
    VerdictKeys(batch, answers);
    forall i | 0 <= i < |rows| && rows[i].id in Ids(batch)
      ensures var v := Verdicts(batch, answers)[rows[i].id]; v.Retry? ==> rows[i].retries + 1 < MAX_RETRY
    {
      var j :| 0 <= j < |batch| && batch[j].id == rows[i].id;
      assert i == j;
      VerdictAt(batch, answers, j);
    }
  }

  /** Every flush of a non-empty table uses up at least one of the attempts left. */
  lemma FlushUsesAttempts(rows: seq<Row>, batchSize: nat, answers: Answers)
    requires Ascending(rows) && BelowLimit(rows) && rows != [] && batchSize >= 1
    ensures Potential(Flushed(rows, batchSize, answers)) < Potential(rows)
  {
    BatchRespects(rows, batchSize, answers);
    assert Oldest(rows, batchSize)[0].id == rows[0].id;
    SettledTried(rows, Verdicts(Oldest(rows, batchSize), answers), 0);
  }

  lemma BatchCoversHead(head: seq<Row>, tail: seq<Row>, batchSize: nat, answers: Answers)
    requires Ascending(head + tail) && BelowLimit(head + tail) && |head| <= batchSize
    ensures var v := Verdicts(Oldest(head + tail, batchSize), answers);
            Respects(head + tail, v) && Respects(head, v) && Respects(tail, v) && Ids(head) <= v.Keys
    ensures BelowLimit(head) && BelowLimit(tail)
  {
    var rows := head + tail;
    BatchRespects(rows, batchSize, answers);
    forall i | 0 <= i < |head|
      ensures head[i] == rows[i] && head[i].id in Ids(Oldest(rows, batchSize))
    {
      assert Oldest(rows, batchSize)[i] == rows[i];
    }
    forall i | 0 <= i < |tail|
      ensures tail[i] == rows[|head| + i]
    {
    }
  }

  /** Rows at the head that fit one batch are all tried by every flush. */
  lemma HeadIsTried(head: seq<Row>, tail: seq<Row>, batchSize: nat, answers: Answers, n: nat)
    returns (head': seq<Row>, tail': seq<Row>)
    requires Ascending(head + tail) && BelowLimit(head + tail) && |head| <= batchSize && TriedAtLeast(head, n)
    ensures Flushed(head + tail, batchSize, answers) == head' + tail'
    ensures |head'| <= |head| && |tail'| <= |tail| && TriedAtLeast(head', n + 1)
    ensures n + 1 == MAX_RETRY ==> head' == []
    ensures Ascending(head' + tail') && BelowLimit(head' + tail')
  {
    var v := Verdicts(Oldest(head + tail, batchSize), answers);
    BatchCoversHead(head, tail, batchSize, answers);
    SettledConcat(head, tail, v);
    SettledTried(head, v, n);
    SettledTried(tail, v, 0);
    SettledKeepsOrder(head + tail, v);
    head', tail' := Settled(head, v), Settled(tail, v);
  }

  // ---- whole drains -------------------------------------------------------

  /** After the flushes left until the limit, nothing of the head is pending. */
  lemma {:induction false} HeadDrains(head: seq<Row>, tail: seq<Row>, batchSize: nat, answers: seq<Answers>, n: nat)
    requires Ascending(head + tail) && BelowLimit(head + tail) && |head| <= batchSize && TriedAtLeast(head, n)
    requires n + |answers| == MAX_RETRY && (n == MAX_RETRY ==> head == [])
    ensures var after := FlushAll(head + tail, batchSize, answers);
            |after| <= |tail| && Ascending(after) && BelowLimit(after)
    decreases |answers|
  {
    if answers == [] {
      assert head + tail == tail;
    } else {
      var head', tail' := HeadIsTried(head, tail, batchSize, answers[0], n);
      HeadDrains(head', tail', batchSize, answers[1..], n + 1);
    }
  }

  lemma {:induction false} FlushAllConcat(rows: seq<Row>, batchSize: nat, xs: seq<Answers>, ys: seq<Answers>)
    ensures FlushAll(rows, batchSize, xs + ys) == FlushAll(FlushAll(rows, batchSize, xs), batchSize, ys)
    decreases |xs|
  {
    if xs == [] {
      assert xs + ys == ys;
    } else {
      assert (xs + ys)[1..] == xs[1..] + ys;
      FlushAllConcat(Flushed(rows, batchSize, xs[0]), batchSize, xs[1..], ys);
    }
  }

  lemma {:induction false} EmptyStaysEmpty(batchSize: nat, answers: seq<Answers>)
    ensures FlushAll([], batchSize, answers) == []
    decreases |answers|
  {
    if answers != [] {
      EmptyStaysEmpty(batchSize, answers[1..]);
    }
  }

  /** Twenty flushes clear what the first of them found in its batch. */
  lemma TwentyFlushes(rows: seq<Row>, batchSize: nat, answers: seq<Answers>)
    requires Ascending(rows) && BelowLimit(rows) && |answers| == MAX_RETRY
    ensures var after := FlushAll(rows, batchSize, answers);
            && Ascending(after) && BelowLimit(after)
            && |after| <= if |rows| <= batchSize then 0 else |rows| - batchSize
  {
    var head := Oldest(rows, batchSize);
    var tail := rows[|head|..];
    assert rows == head + tail;
    HeadDrains(head, tail, batchSize, answers, 0);
  }

  /** How many rows that many full batches hold. */
  function Capacity(batches: nat, batchSize: nat): nat {
    if batches == 0 then 0 else batchSize + Capacity(batches - 1, batchSize)
  }

  lemma {:induction false} CapacityIsProduct(batches: nat, batchSize: nat)
    ensures Capacity(batches, batchSize) == batches * batchSize
  {
    if batches > 0 {
      CapacityIsProduct(batches - 1, batchSize);
      assert (batches - 1) * batchSize == batches * batchSize - batchSize;
    }
  }

  lemma {:induction false} BatchesDrain(rows: seq<Row>, batchSize: nat, answers: seq<Answers>, batches: nat)
    requires Ascending(rows) && BelowLimit(rows)
    requires |rows| <= Capacity(batches, batchSize) && |answers| >= MAX_RETRY * batches
    ensures FlushAll(rows, batchSize, answers) == []
    decreases batches
  {
    if batches == 0 {
      EmptyStaysEmpty(batchSize, answers);
    } else {
      var first, rest := answers[..MAX_RETRY], answers[MAX_RETRY..];
      assert answers == first + rest;
      TwentyFlushes(rows, batchSize, first);
      FlushAllConcat(rows, batchSize, first, rest);
      BatchesDrain(FlushAll(rows, batchSize, first), batchSize, rest, batches - 1);
    }
  }

  lemma CeilDivCovers(n: nat, d: nat)
    requires d > 0
    ensures CeilDiv(n, d) * d >= n
  {
    var q := (n + d - 1) / d;
    assert n + d - 1 == q * d + (n + d - 1) % d;
  }

  /**
   Drain bound: with no new rows, N pending rows are gone after 20 * ceil(N / batchSize)
   flushes, sent or dropped, whatever the senders answer.
   */
  lemma DrainBound(rows: seq<Row>, batchSize: nat, answers: seq<Answers>)
    requires Ascending(rows) && BelowLimit(rows) && batchSize >= 1
    requires |answers| >= MAX_RETRY * CeilDiv(|rows|, batchSize)
    ensures FlushAll(rows, batchSize, answers) == []
  {
    CeilDivCovers(|rows|, batchSize);
    CapacityIsProduct(CeilDiv(|rows|, batchSize), batchSize);
    BatchesDrain(rows, batchSize, answers, CeilDiv(|rows|, batchSize));
  }
}
