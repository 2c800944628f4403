/**
 The offline event queue: a bounded table of pending rows, and a flush in three
 phases, a locked snapshot, unlocked sends and a locked commit.
 */
module EventQueue {
  const MAX_QUEUE_SIZE := 10000
  const MAX_RETRY := 20

  datatype Kind = SecurityEvent | Traffic

  /** `decodes` tells whether the stored text parses as JSON again. */
  datatype Payload = Payload(kind: Kind, text: string, endpoint: string, decodes: bool)

  datatype Row = Row(id: nat, payload: Payload, retries: nat)

  datatype Verdict = Sent | Retry | GivenUp | Malformed

  /** What a sender answers for the i-th row of a batch; an exception is a refusal. */
  type Answers = nat -> bool

  ghost predicate Ascending(rows: seq<Row>) {
    forall i, j :: 0 <= i < j < |rows| ==> rows[i].id < rows[j].id
  }

  function Ids(rows: seq<Row>): set<nat> {
    set i | 0 <= i < |rows| :: rows[i].id
  }

  /** The fate the sending loop decides for a row. */
  function Judge(row: Row, accepted: bool): Verdict {
    if !row.payload.decodes then Malformed
    else if accepted then Sent
    else if row.retries + 1 >= MAX_RETRY then GivenUp
    else Retry
  }

  function Verdicts(batch: seq<Row>, answers: Answers): map<nat, Verdict> {
    if batch == [] then map[]
    else
      var k := |batch| - 1;
      Verdicts(batch[..k], answers)[batch[k].id := Judge(batch[k], answers(k))]
  }

  /** The ids of a batch in order whose verdict is one of `vs`. */
  function Judged(batch: seq<Row>, answers: Answers, vs: set<Verdict>): seq<nat> {
    if batch == [] then []
    else
      var k := |batch| - 1;
      Judged(batch[..k], answers, vs) + if Judge(batch[k], answers(k)) in vs then [batch[k].id] else []
  }

  // ---- the table operations, as SQL defines them --------------------------

  /** `DELETE ... WHERE id IN ids` */
  function Without(rows: seq<Row>, ids: seq<nat>): seq<Row> {
    if rows == [] then []
    else (if rows[0].id in ids then [] else [rows[0]]) + Without(rows[1..], ids)
  }

  /** `UPDATE ... SET retry_count = retry_count + 1 WHERE id IN ids` */
  function Bumped(rows: seq<Row>, ids: seq<nat>): seq<Row> {
    seq(|rows|, i requires 0 <= i < |rows| =>
      if rows[i].id in ids then rows[i].(retries := rows[i].retries + 1) else rows[i])
  }

  /** Room for one more row, the oldest rows leaving first. */
  function Trimmed(rows: seq<Row>): seq<Row> {
    if |rows| >= MAX_QUEUE_SIZE then rows[|rows| - MAX_QUEUE_SIZE + 1..] else rows
  }

  function Oldest(rows: seq<Row>, n: nat): seq<Row> {
    if |rows| <= n then rows else rows[..n]
  }

  // ---- a commit, row by row -----------------------------------------------

  function Settle(row: Row, verdicts: map<nat, Verdict>): seq<Row> {
    if row.id !in verdicts then [row]
    else if verdicts[row.id].Retry? then [row.(retries := row.retries + 1)]
    else []
  }

  /** The table after a commit with these verdicts: rows leave, stay or count one more failure. */
  function Settled(rows: seq<Row>, verdicts: map<nat, Verdict>): seq<Row> {
    if rows == [] then [] else Settle(rows[0], verdicts) + Settled(rows[1..], verdicts)
  }

  function Flushed(rows: seq<Row>, batchSize: nat, answers: Answers): seq<Row> {
    Settled(rows, Verdicts(Oldest(rows, batchSize), answers))
  }

  lemma {:induction false} VerdictAt(batch: seq<Row>, answers: Answers, i: nat)
    requires Ascending(batch) && i < |batch|
    ensures batch[i].id in Verdicts(batch, answers)
    ensures Verdicts(batch, answers)[batch[i].id] == Judge(batch[i], answers(i))
  {
    if i < |batch| - 1 {
      VerdictAt(batch[..|batch| - 1], answers, i);
    }
  }

  lemma {:induction false} VerdictKeys(batch: seq<Row>, answers: Answers)
    ensures Verdicts(batch, answers).Keys == Ids(batch)
  {
    if batch != [] {
      var k := |batch| - 1;
      VerdictKeys(batch[..k], answers);
      forall id
        ensures id in Ids(batch) <==> id in Ids(batch[..k]) || id == batch[k].id
      {
        if id in Ids(batch[..k]) {
          var i :| 0 <= i < k && batch[..k][i].id == id;
          assert batch[i].id == id;
        }
        if id in Ids(batch) {
          var i :| 0 <= i < |batch| && batch[i].id == id;
          assert i < k ==> batch[..k][i].id == id;
        }
      }
    }
  }

  lemma {:induction false} JudgedIds(batch: seq<Row>, answers: Answers, vs: set<Verdict>, id: nat)
    requires Ascending(batch)
    ensures id in Judged(batch, answers, vs) <==>
            id in Verdicts(batch, answers) && Verdicts(batch, answers)[id] in vs
  {
    if batch != [] {
      var k := |batch| - 1;
      JudgedIds(batch[..k], answers, vs, id);
      if id == batch[k].id {
        VerdictKeys(batch[..k], answers);
        assert id !in Verdicts(batch[..k], answers);
      }
    }
  }

  lemma {:induction false} JudgedHas(batch: seq<Row>, answers: Answers, vs: set<Verdict>, i: nat)
    requires i < |batch| && Judge(batch[i], answers(i)) in vs
    ensures batch[i].id in Judged(batch, answers, vs)
  {
    if i < |batch| - 1 {
      JudgedHas(batch[..|batch| - 1], answers, vs, i);
    }
  }

  lemma {:induction false} JudgedCount(batch: seq<Row>, answers: Answers)
    ensures |Judged(batch, answers, {Sent})| + |Judged(batch, answers, {Retry})| +
            |Judged(batch, answers, {GivenUp, Malformed})| == |batch|
  {
    if batch != [] {
      JudgedCount(batch[..|batch| - 1], answers);
    }
  }

  /** Every row of a batch is sent, retried or dropped, by its text, its answer and its failures so far. */
  lemma EachJudgedOnce(batch: seq<Row>, answers: Answers)
    ensures forall i :: 0 <= i < |batch| ==>
              batch[i].id in if batch[i].payload.decodes && answers(i) then Judged(batch, answers, {Sent})
                             else if batch[i].payload.decodes && batch[i].retries < 19
                             then Judged(batch, answers, {Retry})
                             else Judged(batch, answers, {GivenUp, Malformed})
    ensures |Judged(batch, answers, {Sent})| + |Judged(batch, answers, {Retry})| +
            |Judged(batch, answers, {GivenUp, Malformed})| == |batch|
  {
    JudgedCount(batch, answers);
    forall i | 0 <= i < |batch|
      ensures batch[i].id in if batch[i].payload.decodes && answers(i) then Judged(batch, answers, {Sent})
                             else if batch[i].payload.decodes && batch[i].retries < 19
                             then Judged(batch, answers, {Retry})
                             else Judged(batch, answers, {GivenUp, Malformed})
    {
      var v := Judge(batch[i], answers(i));
      JudgedHas(batch, answers, if v == GivenUp || v == Malformed then {GivenUp, Malformed} else {v}, i);
    }
  }

  lemma WithoutCons(row: Row, rows: seq<Row>, ids: seq<nat>)
    ensures Without([row] + rows, ids) == (if row.id in ids then [] else [row]) + Without(rows, ids)
  {
    assert ([row] + rows)[1..] == rows;
  }

  lemma BumpedCons(row: Row, rows: seq<Row>, ids: seq<nat>)
    ensures Bumped([row] + rows, ids) ==
            [if row.id in ids then row.(retries := row.retries + 1) else row] + Bumped(rows, ids)
  {
  }

  /** What the three statements of the commit leave of one row. */
  function Left(row: Row, sent: seq<nat>, dropped: seq<nat>, retried: seq<nat>): seq<Row> {
    if row.id in sent || row.id in dropped then []
    else if row.id in retried then [row.(retries := row.retries + 1)]
    else [row]
  }

  lemma CommitCons(row: Row, rows: seq<Row>, sent: seq<nat>, dropped: seq<nat>, retried: seq<nat>)
    ensures Bumped(Without(Without([row] + rows, sent), dropped), retried) ==
            Left(row, sent, dropped, retried) + Bumped(Without(Without(rows, sent), dropped), retried)
  {
    var rest := Without(rows, sent);
    WithoutCons(row, rows, sent);
    if row.id in sent {
      assert [] + rest == rest;
    } else {
      WithoutCons(row, rest, dropped);
      if row.id in dropped {
        assert [] + Without(rest, dropped) == Without(rest, dropped);
      } else {
        BumpedCons(row, Without(rest, dropped), retried);
      }
    }
  }

  /** The three statements of the commit have the row-by-row effect of the verdicts. */
  lemma {:induction false} CommitSettles(rows: seq<Row>, sent: seq<nat>, dropped: seq<nat>, retried: seq<nat>,
                                         verdicts: map<nat, Verdict>)
    requires forall id :: id in sent <==> id in verdicts && verdicts[id].Sent?
    requires forall id :: id in dropped <==> id in verdicts && (verdicts[id].GivenUp? || verdicts[id].Malformed?)
    requires forall id :: id in retried <==> id in verdicts && verdicts[id].Retry?
    ensures Bumped(Without(Without(rows, sent), dropped), retried) == Settled(rows, verdicts)
  {
    if rows != [] {
      CommitSettles(rows[1..], sent, dropped, retried, verdicts);
      assert rows == [rows[0]] + rows[1..];
      CommitCons(rows[0], rows[1..], sent, dropped, retried);
      assert Left(rows[0], sent, dropped, retried) == Settle(rows[0], verdicts);
    }
  }

  class EventQueue {
    const batchSize: nat
    var rows: seq<Row>
    var nextId: nat
    var sendersSet: bool

    ghost predicate Valid()
      reads this
    {
      && Ascending(rows)
      && 1 <= nextId
      && (forall i :: 0 <= i < |rows| ==> 1 <= rows[i].id < nextId)
      && 1 <= batchSize <= 200
    }

    constructor (batchSize: int)
      ensures Valid() && rows == [] && nextId == 1 && !sendersSet
      ensures this.batchSize == if batchSize < 1 then 1 else if batchSize > 200 then 200 else batchSize
    {
      var capped := if batchSize < 200 then batchSize else 200;
      this.batchSize := if capped < 1 then 1 else capped;
      rows, nextId, sendersSet := [], 1, false;
    }

    method Enqueue(payload: Payload)
      requires Valid()
      modifies this`rows, this`nextId
      ensures Valid() && nextId == old(nextId) + 1
      ensures |rows| == if |old(rows)| < 10000 then |old(rows)| + 1 else 10000
      ensures rows[|rows| - 1] == Row(old(nextId), payload, 0)
      ensures rows[..|rows| - 1] == old(rows)[|old(rows)| + 1 - |rows|..]
      ensures rows == Trimmed(old(rows)) + [Row(old(nextId), payload, 0)]
    {
      var count := |rows|;
      if count >= MAX_QUEUE_SIZE {
        var overflow := count - MAX_QUEUE_SIZE + 1;
        rows := rows[overflow..];
      }
      rows := rows + [Row(nextId, payload, 0)];
      nextId := nextId + 1;
    }

    /** First phase, under the lock. */
    method Snapshot() returns (batch: seq<Row>)
      requires Valid()
      ensures batch == Oldest(rows, batchSize) && Ascending(batch)
      ensures |batch| == (if |rows| < batchSize then |rows| else batchSize) && batch == rows[..|batch|]
    {
      batch := Oldest(rows, batchSize);
    }

    /** Second phase, without the lock: every row of the batch is tried once, in id order. */
    method SendAll(batch: seq<Row>, answers: Answers)
      returns (sent: seq<nat>, retried: seq<nat>, dropped: seq<nat>)
      ensures forall i :: 0 <= i < |batch| ==>
                if batch[i].payload.decodes && answers(i) then batch[i].id in sent
                else if batch[i].payload.decodes && batch[i].retries < 19 then batch[i].id in retried
                else batch[i].id in dropped
      ensures |sent| + |retried| + |dropped| == |batch|
      ensures sent == Judged(batch, answers, {Sent})
      ensures retried == Judged(batch, answers, {Retry})
      ensures dropped == Judged(batch, answers, {GivenUp, Malformed})
    {
      sent, retried, dropped := [], [], [];
      for i := 0 to |batch|
        invariant sent == Judged(batch[..i], answers, {Sent})
        invariant retried == Judged(batch[..i], answers, {Retry})
        invariant dropped == Judged(batch[..i], answers, {GivenUp, Malformed})
      {
        assert batch[..i + 1][..i] == batch[..i];
        var row := batch[i];
        if !row.payload.decodes {
          dropped := dropped + [row.id];
        } else if answers(i) {
          sent := sent + [row.id];
        } else if row.retries + 1 >= MAX_RETRY {
          dropped := dropped + [row.id];
        } else {
          retried := retried + [row.id];
        }
      }
      assert batch[..|batch|] == batch;
      EachJudgedOnce(batch, answers);
    }

    /** Third phase, under the lock again; `rows` may have changed since the snapshot. */
    method Commit(ghost batch: seq<Row>, ghost answers: Answers,
                  sent: seq<nat>, retried: seq<nat>, dropped: seq<nat>)
      requires Ascending(batch)
      requires sent == Judged(batch, answers, {Sent}) && retried == Judged(batch, answers, {Retry})
      requires dropped == Judged(batch, answers, {GivenUp, Malformed})
      modifies this`rows
      ensures rows == Settled(old(rows), Verdicts(batch, answers))
    {
      forall id
        ensures id in sent <==> id in Verdicts(batch, answers) && Verdicts(batch, answers)[id].Sent?
        ensures id in retried <==> id in Verdicts(batch, answers) && Verdicts(batch, answers)[id].Retry?
        ensures id in dropped <==> id in Verdicts(batch, answers) &&
                                   (Verdicts(batch, answers)[id].GivenUp? || Verdicts(batch, answers)[id].Malformed?)
      {
        JudgedIds(batch, answers, {Sent}, id);
        JudgedIds(batch, answers, {Retry}, id);
        JudgedIds(batch, answers, {GivenUp, Malformed}, id);
      }
      CommitSettles(rows, sent, dropped, retried, Verdicts(batch, answers));
      if sent != [] {
        rows := Without(rows, sent);
      } else {
        WithoutNone(rows);
      }
      if dropped != [] {
        rows := Without(rows, dropped);
      } else {
        WithoutNone(rows);
      }
      if retried != [] {
        rows := Bumped(rows, retried);
      } else {
        assert Bumped(rows, []) == rows;
      }
    }

    /** A whole flush that nothing interrupts. */
    method FlushBatch(answers: Answers)
      requires Valid()
      modifies this`rows
      ensures Valid()
      ensures rows == if sendersSet then Flushed(old(rows), batchSize, answers) else old(rows)
    {
      if !sendersSet {
        return;
      }
      var batch := Snapshot();
      SettledKeepsOrder(rows, Verdicts(batch, answers));
      if batch == [] {
        return;
      }
      var sent, retried, dropped := SendAll(batch, answers);
      Commit(batch, answers, sent, retried, dropped);
    }
  }

  lemma {:induction false} WithoutNone(rows: seq<Row>)
    ensures Without(rows, []) == rows
  {
    if rows != [] {
      WithoutNone(rows[1..]);
    }
  }

  /** Each row of a settled table comes from one row before: the same, or with one failure more. */
  lemma {:induction false} SettledRows(rows: seq<Row>, verdicts: map<nat, Verdict>, r: Row)
    ensures r in Settled(rows, verdicts) <==> exists i :: 0 <= i < |rows| && r in Settle(rows[i], verdicts)
  {
    if rows != [] {
      SettledRows(rows[1..], verdicts, r);
      if i :| 0 <= i < |rows[1..]| && r in Settle(rows[1..][i], verdicts) {
        assert r in Settle(rows[i + 1], verdicts);
      }
      if i :| 0 <= i < |rows| && r in Settle(rows[i], verdicts) {
        if i > 0 {
          assert r in Settle(rows[1..][i - 1], verdicts);
        }
      }
    }
  }

  lemma SettledIds(rows: seq<Row>, verdicts: map<nat, Verdict>)
    ensures forall r :: r in Settled(rows, verdicts) ==> exists i :: 0 <= i < |rows| && rows[i].id == r.id
  {
    forall r | r in Settled(rows, verdicts)
      ensures exists i :: 0 <= i < |rows| && rows[i].id == r.id
    {
      SettledRows(rows, verdicts, r);
      var i :| 0 <= i < |rows| && r in Settle(rows[i], verdicts);
      assert rows[i].id == r.id;
    }
  }

  lemma AscendingPrepend(row: Row, rows: seq<Row>)
    requires Ascending(rows) && forall r :: r in rows ==> row.id < r.id
    ensures Ascending([row] + rows)
  {
  }

  lemma SettleKeepsId(row: Row, rows: seq<Row>, verdicts: map<nat, Verdict>)
    requires Ascending(rows) && forall r :: r in rows ==> row.id < r.id
    ensures Ascending(Settle(row, verdicts) + rows) && |Settle(row, verdicts)| <= 1
  {
    if Settle(row, verdicts) == [] {
      assert [] + rows == rows;
    } else {
      AscendingPrepend(Settle(row, verdicts)[0], rows);
      assert Settle(row, verdicts) == [Settle(row, verdicts)[0]];
    }
  }

  lemma {:induction false} SettledKeepsOrder(rows: seq<Row>, verdicts: map<nat, Verdict>)
    requires Ascending(rows)
    ensures Ascending(Settled(rows, verdicts)) && |Settled(rows, verdicts)| <= |rows|
    ensures forall r :: r in Settled(rows, verdicts) ==> exists i :: 0 <= i < |rows| && rows[i].id == r.id
  {
    SettledIds(rows, verdicts);
    if rows != [] {
      var rest := Settled(rows[1..], verdicts);
      SettledKeepsOrder(rows[1..], verdicts);
      forall r | r in rest
        ensures rows[0].id < r.id
      {
        var i :| 0 <= i < |rows[1..]| && rows[1..][i].id == r.id;
        assert rows[i + 1].id == r.id;
      }
      SettleKeepsId(rows[0], rest, verdicts);
    }
  }

  /**
   A whole flush, row by row: a row beyond the batch stays as it is; one in the batch stays,
   with one failure more, exactly when it decodes, is refused and has failed fewer than 19 times.
   */
  lemma FlushedExactly(rows: seq<Row>, batchSize: nat, answers: Answers, r: Row)
    requires Ascending(rows)
    ensures r in Flushed(rows, batchSize, answers) <==>
            exists i :: 0 <= i < |rows| &&
              if i >= batchSize then r == rows[i]
              else rows[i].payload.decodes && !answers(i) && rows[i].retries < 19 &&
                   r == rows[i].(retries := rows[i].retries + 1)
    ensures Ascending(Flushed(rows, batchSize, answers))
  {
    var batch := Oldest(rows, batchSize);
    var verdicts := Verdicts(batch, answers);
    SettledRows(rows, verdicts, r);
    SettledKeepsOrder(rows, verdicts);
    forall i | 0 <= i < |rows|
      ensures r in Settle(rows[i], verdicts) <==>
              if i >= batchSize then r == rows[i]
              else rows[i].payload.decodes && !answers(i) && rows[i].retries < 19 &&
                   r == rows[i].(retries := rows[i].retries + 1)
    {
      RowSettled(rows, batchSize, answers, i);
    }
  }

  lemma RowSettled(rows: seq<Row>, batchSize: nat, answers: Answers, i: nat)
    requires Ascending(rows) && i < |rows|
    ensures Settle(rows[i], Verdicts(Oldest(rows, batchSize), answers)) ==
            if i >= batchSize then [rows[i]]
            else if rows[i].payload.decodes && !answers(i) && rows[i].retries < 19
            then [rows[i].(retries := rows[i].retries + 1)] else []
  {
    var batch := Oldest(rows, batchSize);
    VerdictKeys(batch, answers);
    if i < batchSize {
      VerdictAt(batch, answers, i);
    }
  }
}
