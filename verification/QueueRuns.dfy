/**
 The event queue under concurrency: enqueues, flush snapshots, single sends, flush
 commits and restarts in any order, with any number of flushes under way. The books kept
 beside the table (fates, failures, insertions, acceptances) are the specification.
 */
module QueueRuns {
  import opened EventQueue

  /** Why a row left the table. */
  datatype Fate = WasSent | RetryDropped | MalformedDropped | Evicted

  /** A flush between its snapshot and its commit; `replies` is how the rows tried so far were answered. */
  datatype Flight = Flight(batch: seq<Row>, replies: seq<bool>)

  /** `accepted` holds the ids for which a sender has returned success. */
  datatype State = State(batchSize: nat, rows: seq<Row>, nextId: nat, flights: seq<Flight>,
                         fates: map<nat, Fate>, failures: map<nat, nat>,
                         inserted: map<nat, Payload>, accepted: set<nat>)

  /** `Send(k, ok)` tries the next row of the k-th flush under way; a malformed row is not sent at all. */
  datatype Event = Enqueue(payload: Payload) | StartFlush | Send(k: nat, ok: bool) | Commit(k: nat) | Restart

  function Given(replies: seq<bool>): Answers {
    (i: nat) => i < |replies| && replies[i]
  }

  function VerdictsOf(f: Flight): map<nat, Verdict> {
    Verdicts(f.batch, Given(f.replies))
  }

  function Failures(failures: map<nat, nat>, id: nat): nat {
    if id in failures then failures[id] else 0
  }

  function FateOf(v: Verdict): Fate
    requires !v.Retry?
  {
    match v
    case Sent => WasSent
    case GivenUp => RetryDropped
    case Malformed => MalformedDropped
  }

  predicate Enabled(s: State, e: Event) {
    match e
    case Send(k, _) => k < |s.flights| && |s.flights[k].replies| < |s.flights[k].batch|
    case Commit(k) => k < |s.flights| && |s.flights[k].replies| == |s.flights[k].batch|
    case _ => true
  }

  function Committed(s: State, v: map<nat, Verdict>): State {
    var pending := Ids(s.rows);
    s.(rows := Settled(s.rows, v),
       fates := s.fates + (map id | id in pending && id in v && !v[id].Retry? :: FateOf(v[id])),
       failures := s.failures + (map id | id in pending && id in v && (v[id].Retry? || v[id].GivenUp?) ::
                                   Failures(s.failures, id) + 1))
  }

  function Step(s: State, e: Event): State
    requires Enabled(s, e)
  {
    match e
    case Enqueue(payload) =>
      var kept := Trimmed(s.rows);
      s.(rows := kept + [Row(s.nextId, payload, 0)],
         nextId := s.nextId + 1,
         fates := s.fates + (map id | id in Ids(s.rows) - Ids(kept) :: Evicted),
         inserted := s.inserted[s.nextId := payload])
    case StartFlush =>
      s.(flights := s.flights + [Flight(Oldest(s.rows, s.batchSize), [])])
    case Send(k, ok) =>
      var f := s.flights[k];
      var row := f.batch[|f.replies|];
      s.(flights := s.flights[k := f.(replies := f.replies + [ok])],
         accepted := s.accepted + if row.payload.decodes && ok then {row.id} else {})
    case Commit(k) =>
      Committed(s, VerdictsOf(s.flights[k])).(flights := s.flights[..k] + s.flights[k + 1..])
    case Restart =>
      s.(flights := [])
  }

  predicate Executable(s: State, es: seq<Event>)
    decreases |es|
  {
    es == [] || (Enabled(s, es[0]) && Executable(Step(s, es[0]), es[1..]))
  }

  function Run(s: State, es: seq<Event>): State
    requires Executable(s, es)
    decreases |es|
  {
    if es == [] then s else Run(Step(s, es[0]), es[1..])
  }

  predicate Init(s: State) {
    && s.rows == [] && s.nextId == 1 && s.flights == []
    && s.fates == map[] && s.failures == map[] && s.inserted == map[] && s.accepted == {}
  }

  // ---- conservation -------------------------------------------------------

  /** Every id handed out so far is pending or has one fate, never both. */
  ghost predicate Partition(s: State) {
    && (forall id: nat :: 1 <= id < s.nextId <==> id in Ids(s.rows) || id in s.fates)
    && (forall id: nat :: !(id in Ids(s.rows) && id in s.fates))
  }

  /** Rows, in the table or under way, are what was inserted under their id. */
  ghost predicate Genuine(s: State, rows: seq<Row>) {
    forall i :: 0 <= i < |rows| ==> rows[i].id in s.inserted && s.inserted[rows[i].id] == rows[i].payload
  }

  /** Rows under way and rows of the table with the same id carry the same payload. */
  ghost predicate SamePayloads(batch: seq<Row>, rows: seq<Row>) {
    forall i, j | 0 <= i < |batch| && 0 <= j < |rows| && batch[i].id == rows[j].id ::
      batch[i].payload == rows[j].payload
  }

  ghost predicate SameRetries(batch: seq<Row>, rows: seq<Row>) {
    forall i, j | 0 <= i < |batch| && 0 <= j < |rows| && batch[i].id == rows[j].id ::
      batch[i].retries == rows[j].retries
  }

  /** A flush under way holds genuine rows, and the rows it has seen accepted are on the books. */
  ghost predicate SoundFlight(s: State, f: Flight) {
    && Ascending(f.batch) && Genuine(s, f.batch)
    && |f.replies| <= |f.batch|
    && (forall i :: 0 <= i < |f.replies| && f.replies[i] && f.batch[i].payload.decodes ==>
          f.batch[i].id in s.accepted)
  }

  ghost predicate Inv(s: State) {
    && s.nextId >= 1
    && |s.rows| <= MAX_QUEUE_SIZE
    && Ascending(s.rows)
    && Partition(s)
    && (forall id: nat :: id in s.inserted <==> 1 <= id < s.nextId)
    && Genuine(s, s.rows)
    && (forall k :: 0 <= k < |s.flights| ==> SoundFlight(s, s.flights[k]))
    && (forall id :: id in s.fates && s.fates[id].WasSent? ==> id in s.accepted)
  }

  lemma TrimmedRows(rows: seq<Row>)
    requires Ascending(rows)
    ensures Ascending(Trimmed(rows)) && |Trimmed(rows)| < MAX_QUEUE_SIZE
    ensures forall r :: r in Trimmed(rows) ==> r in rows
  {
  }

  lemma IdsAppend(rows: seq<Row>, row: Row)
    ensures Ids(rows + [row]) == Ids(rows) + {row.id}
  {
    var all := rows + [row];
    assert forall i :: 0 <= i < |rows| ==> all[i] == rows[i];
    assert all[|rows|] == row;
  }

  lemma IdsOf(rows: seq<Row>, id: nat)
    ensures id in Ids(rows) <==> exists r :: r in rows && r.id == id
  {
    if r :| r in rows && r.id == id {
      var i :| 0 <= i < |rows| && rows[i] == r;
    }
  }

  lemma SettledIdsExact(rows: seq<Row>, v: map<nat, Verdict>, id: nat)
    ensures id in Ids(Settled(rows, v)) <==> id in Ids(rows) && (id in v ==> v[id].Retry?)
  {
    IdsOf(rows, id);
    IdsOf(Settled(rows, v), id);
    if id in Ids(rows) && (id in v ==> v[id].Retry?) {
      var i :| 0 <= i < |rows| && rows[i].id == id;
      var r := Settle(rows[i], v)[0];
      assert r in Settle(rows[i], v);
      SettledRows(rows, v, r);
      assert r in Settled(rows, v) && r.id == id;
    }
    if r :| r in Settled(rows, v) && r.id == id {
      SettledRows(rows, v, r);
      var i :| 0 <= i < |rows| && r in Settle(rows[i], v);
      assert rows[i].id == id;
    }
  }

  lemma SettledGenuine(s: State, v: map<nat, Verdict>)
    requires Genuine(s, s.rows)
    ensures Genuine(s, Settled(s.rows, v))
  {
    var after := Settled(s.rows, v);
    forall i | 0 <= i < |after|
      ensures after[i].id in s.inserted && s.inserted[after[i].id] == after[i].payload
    {
      SettledRows(s.rows, v, after[i]);
      assert after[i] in after;
      var j :| 0 <= j < |s.rows| && after[i] in Settle(s.rows[j], v);
    }
  }

  lemma TrimmedOfGenuine(s: State)
    requires Inv(s)
    ensures Genuine(s, Trimmed(s.rows)) && Ids(Trimmed(s.rows)) <= Ids(s.rows)
    ensures forall r :: r in Trimmed(s.rows) ==> r.id < s.nextId
  {
    var kept := Trimmed(s.rows);
    TrimmedRows(s.rows);
    forall i | 0 <= i < |kept|
      ensures kept[i].id in s.inserted && s.inserted[kept[i].id] == kept[i].payload
      ensures kept[i].id in Ids(s.rows)
    {
      assert kept[i] in s.rows;
      var j :| 0 <= j < |s.rows| && s.rows[j] == kept[i];
    }
  }

  lemma EnqueuePartition(s: State, e: Event)
    requires Inv(s) && e.Enqueue?
    ensures Partition(Step(s, e))
  {
    TrimmedOfGenuine(s);
    IdsAppend(Trimmed(s.rows), Row(s.nextId, e.payload, 0));
  }

  lemma EnqueueRows(s: State, e: Event)
    requires Inv(s) && e.Enqueue?
    ensures Ascending(Step(s, e).rows) && Genuine(Step(s, e), Step(s, e).rows)
    ensures |Step(s, e).rows| <= MAX_QUEUE_SIZE
  {
    var t := Step(s, e);
    var kept := Trimmed(s.rows);
    TrimmedRows(s.rows);
    TrimmedOfGenuine(s);
    forall i | 0 <= i < |kept|
      ensures t.rows[i] == kept[i] && kept[i].id < s.nextId
    {
      assert kept[i] in kept;
    }
  }

  /** An enqueue evicts a row exactly when 10000 are pending, and then the oldest. */
  lemma EvictsExactly(s: State, e: Event, id: nat)
    requires Inv(s) && e.Enqueue?
    ensures id in Step(s, e).fates && id !in s.fates <==> |s.rows| == 10000 && id == s.rows[0].id
    ensures id in s.fates ==> id in Step(s, e).fates && Step(s, e).fates[id] == s.fates[id]
    ensures |s.rows| == 10000 && id == s.rows[0].id ==> Step(s, e).fates[id].Evicted?
  {
    var kept := Trimmed(s.rows);
    if |s.rows| == 10000 {
      assert s.rows == [s.rows[0]] + kept;
      IdsPrepend(s.rows[0], kept);
      assert s.rows[0].id in Ids(s.rows);
    }
  }

  lemma IdsPrepend(row: Row, rows: seq<Row>)
    requires Ascending([row] + rows)
    ensures Ids([row] + rows) == {row.id} + Ids(rows) && row.id !in Ids(rows)
  {
    var all := [row] + rows;
    assert all[0] == row;
    assert forall i :: 0 <= i < |rows| ==> all[i + 1] == rows[i];
  }

  /** Why a row left: pushed out by 10000 later ones, unreadable, or accepted by its sender. */
  ghost predicate FateReasons(s: State) {
    forall id :: id in s.fates ==>
      match s.fates[id]
      case Evicted => id + 10000 < s.nextId
      case MalformedDropped => id in s.inserted && !s.inserted[id].decodes
      case WasSent => id in s.inserted && s.inserted[id].decodes && id in s.accepted
      case RetryDropped => id in s.inserted && s.inserted[id].decodes
  }

  lemma {:induction false} IdsGrow(rows: seq<Row>, i: nat, j: nat)
    requires Ascending(rows) && i <= j < |rows|
    ensures rows[i].id + (j - i) <= rows[j].id
    decreases j - i
  {
    if i < j {
      IdsGrow(rows, i, j - 1);
    }
  }

  lemma EnqueueKeepsReasons(s: State, e: Event)
    requires Inv(s) && FateReasons(s) && e.Enqueue?
    ensures FateReasons(Step(s, e))
  {
    if |s.rows| == 10000 {
      IdsGrow(s.rows, 0, 9999);
      assert s.rows[9999].id in s.inserted;
    }
    forall id | id in Step(s, e).fates
      ensures id in s.fates || (|s.rows| == 10000 && id == s.rows[0].id && Step(s, e).fates[id].Evicted?)
      ensures id in s.fates ==> Step(s, e).fates[id] == s.fates[id] && id in s.inserted
    {
      EvictsExactly(s, e, id);
    }
  }

  /** A verdict agrees with the payload inserted under the id. */
  lemma VerdictOfInserted(s: State, f: Flight, id: nat)
    requires SoundFlight(s, f) && id in VerdictsOf(f)
    ensures id in s.inserted && (VerdictsOf(f)[id].Malformed? <==> !s.inserted[id].decodes)
  {
    VerdictKeys(f.batch, Given(f.replies));
    var i :| 0 <= i < |f.batch| && f.batch[i].id == id;
    VerdictAt(f.batch, Given(f.replies), i);
  }

  lemma CommitKeepsReasons(s: State, e: Event)
    requires Inv(s) && FateReasons(s) && Enabled(s, e) && e.Commit?
    ensures FateReasons(Step(s, e))
  {
    var f := s.flights[e.k];
    forall id | id in VerdictsOf(f)
      ensures id in s.inserted && (VerdictsOf(f)[id].Malformed? <==> !s.inserted[id].decodes)
      ensures VerdictsOf(f)[id].Sent? ==> id in s.accepted
    {
      VerdictOfInserted(s, f, id);
      if VerdictsOf(f)[id].Sent? {
        SentWasAccepted(s, f, id);
      }
    }
  }

  lemma {:induction false} ReasonsAlongRun(s: State, es: seq<Event>)
    requires Inv(s) && FateReasons(s) && Executable(s, es)
    ensures FateReasons(Run(s, es))
    decreases |es|
  {
    if es != [] {
      InvKept(s, es[0]);
      match es[0] {
        case Enqueue(_) => EnqueueKeepsReasons(s, es[0]);
        case Commit(_) => CommitKeepsReasons(s, es[0]);
        case _ =>
      }
      ReasonsAlongRun(Step(s, es[0]), es[1..]);
    }
  }

  /** In every interleaving no row leaves the table without its reason. */
  lemma RowsLeaveForReasons(s: State, es: seq<Event>, id: nat)
    requires Init(s) && Executable(s, es)
    ensures var t := Run(s, es);
            id in t.fates ==>
              && (t.fates[id].Evicted? ==> id + 10000 < t.nextId)
              && (t.fates[id].MalformedDropped? <==> id in t.inserted && !t.inserted[id].decodes &&
                                                     !t.fates[id].Evicted?)
              && (t.fates[id].WasSent? ==> id in t.accepted)
  {
    ReasonsAlongRun(s, es);
  }

  /** A flush stays sound while its rows stay inserted and no acceptance is forgotten. */
  lemma SoundFlightKept(s: State, t: State, f: Flight)
    requires SoundFlight(s, f) && s.accepted <= t.accepted
    requires forall id :: id in s.inserted ==> id in t.inserted && t.inserted[id] == s.inserted[id]
    ensures SoundFlight(t, f)
  {
  }

  lemma EnqueueKeeps(s: State, e: Event)
    requires Inv(s) && e.Enqueue?
    ensures Inv(Step(s, e))
  {
    EnqueueRows(s, e);
    EnqueuePartition(s, e);
    var t := Step(s, e);
    forall k | 0 <= k < |t.flights|
      ensures SoundFlight(t, t.flights[k])
    {
      SoundFlightKept(s, t, s.flights[k]);
    }
  }

  lemma SendKeeps(s: State, e: Event)
    requires Inv(s) && Enabled(s, e) && e.Send?
    ensures Inv(Step(s, e))
  {
    var t := Step(s, e);
    forall k | 0 <= k < |t.flights|
      ensures SoundFlight(t, t.flights[k])
    {
      SoundFlightKept(s, t, s.flights[k]);
    }
  }

  /** A row judged sent was accepted by its sender. */
  lemma SentWasAccepted(s: State, f: Flight, id: nat)
    requires SoundFlight(s, f) && id in VerdictsOf(f) && VerdictsOf(f)[id].Sent?
    ensures id in s.accepted
  {
    VerdictKeys(f.batch, Given(f.replies));
    var i :| 0 <= i < |f.batch| && f.batch[i].id == id;
    VerdictAt(f.batch, Given(f.replies), i);
  }

  lemma CommittedPartition(s: State, v: map<nat, Verdict>)
    requires Partition(s)
    ensures Partition(Committed(s, v))
  {
    var t := Committed(s, v);
    forall id
      ensures id in Ids(t.rows) <==> id in Ids(s.rows) && (id in v ==> v[id].Retry?)
    {
      SettledIdsExact(s.rows, v, id);
    }
  }

  lemma CommitKeeps(s: State, e: Event)
    requires Inv(s) && Enabled(s, e) && e.Commit?
    ensures Inv(Step(s, e))
  {
    var v := VerdictsOf(s.flights[e.k]);
    var t := Step(s, e);
    SettledKeepsOrder(s.rows, v);
    SettledGenuine(s, v);
    CommittedPartition(s, v);
    forall k | 0 <= k < |t.flights|
      ensures SoundFlight(t, t.flights[k])
    {
      SoundFlightKept(s, t, if k < e.k then s.flights[k] else s.flights[k + 1]);
    }
    forall id | id in t.fates && t.fates[id].WasSent?
      ensures id in t.accepted
    {
      if id in Ids(s.rows) && id in v && v[id].Sent? {
        SentWasAccepted(s, s.flights[e.k], id);
      }
    }
  }

  lemma StartKeeps(s: State)
    requires Inv(s)
    ensures Inv(Step(s, StartFlush))
  {
    var t := Step(s, StartFlush);
    forall k | 0 <= k < |t.flights|
      ensures SoundFlight(t, t.flights[k])
    {
      if k < |s.flights| {
        SoundFlightKept(s, t, s.flights[k]);
      }
    }
  }

  lemma InvKept(s: State, e: Event)
    requires Inv(s) && Enabled(s, e)
    ensures Inv(Step(s, e))
  {
    match e
    case Enqueue(_) => EnqueueKeeps(s, e);
    case StartFlush => StartKeeps(s);
    case Send(_, _) => SendKeeps(s, e);
    case Commit(_) => CommitKeeps(s, e);
    case Restart =>
  }

  lemma {:induction false} InvAlongRun(s: State, es: seq<Event>)
    requires Inv(s) && Executable(s, es)
    ensures Inv(Run(s, es))
    decreases |es|
  {
    if es != [] {
      InvKept(s, es[0]);
      InvAlongRun(Step(s, es[0]), es[1..]);
    }
  }

  /**
   Conservation under every interleaving, however many flushes overlap: each id ever
   handed out is pending or has exactly one fate, only ids a sender has accepted count as
   sent, a row under way still is what its id stands for, and the table stays bounded.
   */
  lemma Conservation(s: State, es: seq<Event>)
    requires Init(s) && Executable(s, es)
    ensures var t := Run(s, es);
            && (forall id: nat :: 1 <= id < t.nextId <==> (id in Ids(t.rows) <==> id !in t.fates))
            && (forall id :: id in t.fates && t.fates[id].WasSent? ==> id in t.accepted)
            && (forall k :: 0 <= k < |t.flights| ==> SamePayloads(t.flights[k].batch, t.rows))
            && |t.rows| <= MAX_QUEUE_SIZE
  {
    InvAlongRun(s, es);
  }

  /** A fate is final: no later event revives a row or records another reason. */
  lemma {:induction false} FatesAreFinal(s: State, es: seq<Event>, id: nat)
    requires Inv(s) && Executable(s, es) && id in s.fates
    ensures id in Run(s, es).fates && Run(s, es).fates[id] == s.fates[id]
    ensures id !in Ids(Run(s, es).rows)
    decreases |es|
  {
    if es != [] {
      InvKept(s, es[0]);
      assert id !in Ids(s.rows);
      FatesAreFinal(Step(s, es[0]), es[1..], id);
    }
  }

  // ---- a flush that nothing interrupts ------------------------------------

  /** The sends of the k-th flush from its `from`-th row on. */
  function Sends(k: nat, answers: Answers, from: nat, n: nat): seq<Event>
    decreases n - from
  {
    if from >= n then [] else [Send(k, answers(from))] + Sends(k, answers, from + 1, n)
  }

  function Replies(answers: Answers, n: nat): seq<bool> {
    seq(n, i requires 0 <= i => answers(i))
  }

  lemma RunCons(s: State, e: Event, es: seq<Event>)
    requires Enabled(s, e) && Executable(Step(s, e), es)
    ensures Executable(s, [e] + es) && Run(s, [e] + es) == Run(Step(s, e), es)
  {
    assert ([e] + es)[1..] == es;
  }

  lemma {:induction false} RunConcat(s: State, es: seq<Event>, fs: seq<Event>)
    requires Executable(s, es) && Executable(Run(s, es), fs)
    ensures Executable(s, es + fs) && Run(s, es + fs) == Run(Run(s, es), fs)
    decreases |es|
  {
    if es == [] {
      assert es + fs == fs;
    } else {
      assert (es + fs)[1..] == es[1..] + fs;
      RunConcat(Step(s, es[0]), es[1..], fs);
    }
  }

  lemma {:induction false} SendsRun(s: State, k: nat, answers: Answers, from: nat)
    requires k < |s.flights| && from <= |s.flights[k].batch| && s.flights[k].replies == Replies(answers, from)
    ensures var f := s.flights[k];
            var es := Sends(k, answers, from, |f.batch|);
            && Executable(s, es)
            && Run(s, es) == s.(flights := s.flights[k := Flight(f.batch, Replies(answers, |f.batch|))],
                                accepted := Run(s, es).accepted)
    decreases |s.flights[k].batch| - from
  {
    var f := s.flights[k];
    if from < |f.batch| {
      var t := Step(s, Send(k, answers(from)));
      var all := Flight(f.batch, Replies(answers, |f.batch|));
      assert t.flights[k].replies == Replies(answers, from + 1);
      assert t.flights[k := all] == s.flights[k := all];
      SendsRun(t, k, answers, from + 1);
      RunCons(s, Send(k, answers(from)), Sends(k, answers, from + 1, |f.batch|));
    }
  }

  lemma {:induction false} SameVerdicts(batch: seq<Row>, xs: Answers, ys: Answers)
    requires forall i: nat :: i < |batch| ==> xs(i) == ys(i)
    ensures Verdicts(batch, xs) == Verdicts(batch, ys)
  {
    if batch != [] {
      SameVerdicts(batch[..|batch| - 1], xs, ys);
    }
  }

  /** The steps of one flush at a queue where no other is under way. */
  function WholeFlush(answers: Answers, n: nat): seq<Event> {
    [StartFlush] + (Sends(0, answers, 0, n) + ([Commit(0)] + []))
  }

  /** A flush that nothing interrupts is the queue's own `FlushBatch`. */
  lemma UninterruptedFlush(s: State, answers: Answers)
    requires s.flights == []
    ensures var es := WholeFlush(answers, |Oldest(s.rows, s.batchSize)|);
            && Executable(s, es)
            && Run(s, es).rows == Flushed(s.rows, s.batchSize, answers) && Run(s, es).flights == []
  {
    var batch := Oldest(s.rows, s.batchSize);
    var s1 := Step(s, StartFlush);
    var sends := Sends(0, answers, 0, |batch|);
    assert s1.flights == [Flight(batch, [])] && Replies(answers, 0) == [];
    SendsRun(s1, 0, answers, 0);
    var s2 := Run(s1, sends);
    assert s2.flights == [Flight(batch, Replies(answers, |batch|))];
    SameVerdicts(batch, Given(Replies(answers, |batch|)), answers);
    RunCons(s2, Commit(0), []);
    RunConcat(s1, sends, [Commit(0)] + []);
    RunCons(s, StartFlush, sends + ([Commit(0)] + []));
  }

  /** Such a restart occurs: stopped right after an acceptance, any queue keeps the accepted row. */
  lemma RestartForgetsAcceptance(s: State)
    requires s.flights == [] && s.batchSize >= 1 && s.rows != [] && s.rows[0].payload.decodes
    ensures var es := [StartFlush] + ([Send(0, true)] + ([Restart] + []));
            && Executable(s, es)
            && s.rows[0].id in Run(s, es).accepted && Run(s, es).rows == s.rows && Run(s, es).flights == []
  {
    var s1 := Step(s, StartFlush);
    assert s1.flights == [Flight(Oldest(s.rows, s.batchSize), [])];
    var s2 := Step(s1, Send(0, true));
    RunCons(s2, Restart, []);
    RunCons(s1, Send(0, true), [Restart] + []);
    RunCons(s, StartFlush, [Send(0, true)] + ([Restart] + []));
  }

  // ---- how many flushes overlap -------------------------------------------

  /** At most `m` flushes are under way at once. */
  predicate AtMost(s: State, es: seq<Event>, m: nat)
    requires Executable(s, es)
    decreases |es|
  {
    es == [] || ((es[0].StartFlush? ==> |s.flights| < m) && AtMost(Step(s, es[0]), es[1..], m))
  }

  predicate OneFlusher(s: State, es: seq<Event>)
    requires Executable(s, es)
  {
    AtMost(s, es, 1)
  }

  // ---- an accepted row is sent once ---------------------------------------

  /** The flush has seen this id accepted and not committed yet. */
  ghost predicate AcceptedBy(f: Flight, id: nat) {
    exists i :: 0 <= i < |f.replies| && i < |f.batch| && f.batch[i].id == id && f.replies[i] &&
                f.batch[i].payload.decodes
  }

  predicate Gone(s: State, id: nat) {
    id in s.fates && (s.fates[id].WasSent? || s.fates[id].Evicted?)
  }

  ghost predicate AcceptedInv(s: State) {
    && |s.flights| <= 1
    && (forall k, id :: 0 <= k < |s.flights| && id in Ids(s.flights[k].batch) ==>
          id in Ids(s.rows) || (id in s.fates && s.fates[id].Evicted?))
    && (forall id :: id in s.accepted ==>
          Gone(s, id) || exists k :: 0 <= k < |s.flights| && AcceptedBy(s.flights[k], id))
  }

  lemma SendKeepsAccepted(s: State, e: Event)
    requires Inv(s) && AcceptedInv(s) && Enabled(s, e) && e.Send?
    ensures AcceptedInv(Step(s, e))
  {
    var t := Step(s, e);
    var f, g := s.flights[e.k], t.flights[e.k];
    forall id | id in t.accepted
      ensures Gone(t, id) || AcceptedBy(t.flights[0], id)
    {
      if id in s.accepted && !Gone(s, id) {
        var i :| 0 <= i < |f.replies| && i < |f.batch| && f.batch[i].id == id && f.replies[i] &&
                 f.batch[i].payload.decodes;
        assert g.replies[i] == f.replies[i];
      } else if id !in s.accepted {
        assert g.replies[|f.replies|] && g.batch[|f.replies|].id == id;
      }
    }
  }

  lemma GoneStays(s: State, e: Event, id: nat)
    requires Inv(s) && Enabled(s, e) && Gone(s, id)
    ensures Gone(Step(s, e), id)
  {
    assert id !in Ids(s.rows);
  }

  lemma AcceptedRowGoes(s: State, e: Event, i: nat)
    requires Inv(s) && AcceptedInv(s) && Enabled(s, e) && e.Commit?
    requires i < |s.flights[e.k].replies| && s.flights[e.k].replies[i] && s.flights[e.k].batch[i].payload.decodes
    ensures Gone(Step(s, e), s.flights[e.k].batch[i].id)
  {
    var f := s.flights[e.k];
    var id := f.batch[i].id;
    assert SoundFlight(s, f) && Given(f.replies)(i);
    VerdictAt(f.batch, Given(f.replies), i);
    assert id in Ids(f.batch) && VerdictsOf(f)[id].Sent?;
    if id !in Ids(s.rows) {
      GoneStays(s, e, id);
    }
  }

  lemma CommitKeepsAccepted(s: State, e: Event)
    requires Inv(s) && AcceptedInv(s) && Enabled(s, e) && e.Commit?
    ensures AcceptedInv(Step(s, e))
  {
    var t := Step(s, e);
    var f := s.flights[e.k];
    assert t.flights == [] && t.accepted == s.accepted;
    forall id | id in s.accepted
      ensures Gone(t, id)
    {
      if Gone(s, id) {
        GoneStays(s, e, id);
      } else {
        var i :| 0 <= i < |f.replies| && i < |f.batch| && f.batch[i].id == id && f.replies[i] &&
                 f.batch[i].payload.decodes;
        AcceptedRowGoes(s, e, i);
      }
    }
  }

  lemma EnqueueKeepsAccepted(s: State, e: Event)
    requires Inv(s) && AcceptedInv(s) && e.Enqueue?
    ensures AcceptedInv(Step(s, e))
  {
    var t := Step(s, e);
    IdsAppend(Trimmed(s.rows), Row(s.nextId, e.payload, 0));
    forall id | Gone(s, id)
      ensures Gone(t, id)
    {
      GoneStays(s, e, id);
    }
  }

  lemma StartKeepsAccepted(s: State)
    requires Inv(s) && AcceptedInv(s) && s.flights == []
    ensures AcceptedInv(Step(s, StartFlush))
  {
    var batch := Oldest(s.rows, s.batchSize);
    assert Step(s, StartFlush).flights == [Flight(batch, [])];
    forall id | id in Ids(batch)
      ensures id in Ids(s.rows)
    {
      var i :| 0 <= i < |batch| && batch[i].id == id;
      assert s.rows[i].id == id;
    }
  }

  /** A restart that meets an accepted row which no commit has settled yet. */
  ghost predicate Loses(s: State, e: Event) {
    e.Restart? && exists id :: id in s.accepted && !Gone(s, id)
  }

  ghost predicate LosesNone(s: State, es: seq<Event>)
    requires Executable(s, es)
    decreases |es|
  {
    es == [] || (!Loses(s, es[0]) && LosesNone(Step(s, es[0]), es[1..]))
  }

  /** Exactly such a restart leaves an accepted row behind to be sent again. */
  lemma RestartLosesExactly(s: State)
    requires Inv(s) && AcceptedInv(s)
    ensures AcceptedInv(Step(s, Restart)) <==> !Loses(s, Restart)
    ensures Loses(s, Restart) <==>
            exists k, id :: 0 <= k < |s.flights| && AcceptedBy(s.flights[k], id) && !Gone(s, id)
  {
    forall k, id | 0 <= k < |s.flights| && AcceptedBy(s.flights[k], id)
      ensures id in s.accepted
    {
      assert SoundFlight(s, s.flights[k]);
    }
  }

  /** What a lost acceptance leads to: the row is still pending, and no flush holds it. */
  lemma LostRowIsPending(s: State, id: nat)
    requires Inv(s) && AcceptedInv(s) && id in s.accepted && !Gone(s, id)
    ensures id in Ids(Step(s, Restart).rows) && Step(s, Restart).flights == []
  {
    var k :| 0 <= k < |s.flights| && AcceptedBy(s.flights[k], id);
    var f := s.flights[k];
    var i :| 0 <= i < |f.replies| && i < |f.batch| && f.batch[i].id == id && f.replies[i] && f.batch[i].payload.decodes;
    assert id in Ids(f.batch);
  }

  /**
   With one flusher, and as long as no restart meets an acceptance that is not committed,
   an accepted row has left the table as sent or evicted, or waits for the commit of the
   flush that saw it accepted: it is not sent again.
   */
  lemma {:induction false} AcceptedIsSettled(s: State, es: seq<Event>)
    requires Inv(s) && AcceptedInv(s) && Executable(s, es) && OneFlusher(s, es) && LosesNone(s, es)
    ensures AcceptedInv(Run(s, es))
    decreases |es|
  {
    if es != [] {
      InvKept(s, es[0]);
      match es[0] {
        case Enqueue(_) => EnqueueKeepsAccepted(s, es[0]);
        case StartFlush => StartKeepsAccepted(s);
        case Send(_, _) => SendKeepsAccepted(s, es[0]);
        case Commit(_) => CommitKeepsAccepted(s, es[0]);
        case Restart => RestartLosesExactly(s);
      }
      AcceptedIsSettled(Step(s, es[0]), es[1..]);
    }
  }

  // ---- exact retry accounting with one flusher ----------------------------

  ghost predicate RetryInv(s: State) {
    && |s.flights| <= 1
    && (forall i :: 0 <= i < |s.rows| ==> s.rows[i].retries == Failures(s.failures, s.rows[i].id) < MAX_RETRY)
    && (forall k :: 0 <= k < |s.flights| ==> SameRetries(s.flights[k].batch, s.rows))
    && (forall id: nat :: Failures(s.failures, id) <= MAX_RETRY)
    && (forall id: nat :: Failures(s.failures, id) == MAX_RETRY <==> id in s.fates && s.fates[id].RetryDropped?)
    && (forall id: nat :: id in s.failures ==> id < s.nextId)
  }

  lemma EnqueueKeepsRetries(s: State, e: Event)
    requires Inv(s) && RetryInv(s) && e.Enqueue?
    ensures RetryInv(Step(s, e))
  {
    EnqueuedRows(s, e);
    var t := Step(s, e);
    forall k | 0 <= k < |t.flights|
      ensures SameRetries(t.flights[k].batch, t.rows)
    {
      NewRowNotUnderWay(s, e, t.flights[k].batch);
    }
    forall id: nat
      ensures Failures(t.failures, id) == MAX_RETRY <==> id in t.fates && t.fates[id].RetryDropped?
    {
      EnqueuedBooks(s, e, id);
    }
  }

  /** Every row after an enqueue is an old one or the new one, whose id is larger than any other. */
  lemma EnqueuedRows(s: State, e: Event)
    requires Inv(s) && RetryInv(s) && e.Enqueue?
    ensures var t := Step(s, e);
            forall j :: 0 <= j < |t.rows| ==>
              (if j == |t.rows| - 1 then t.rows[j] == Row(s.nextId, e.payload, 0) else t.rows[j] in s.rows) &&
              t.rows[j].retries == Failures(t.failures, t.rows[j].id) < MAX_RETRY
  {
    var t := Step(s, e);
    TrimmedRows(s.rows);
    forall j | 0 <= j < |t.rows|
      ensures if j == |t.rows| - 1 then t.rows[j] == Row(s.nextId, e.payload, 0) else t.rows[j] in s.rows
      ensures t.rows[j].retries == Failures(t.failures, t.rows[j].id) < MAX_RETRY
    {
      if j < |t.rows| - 1 {
        assert t.rows[j] == Trimmed(s.rows)[j] && Trimmed(s.rows)[j] in Trimmed(s.rows);
        var i :| 0 <= i < |s.rows| && s.rows[i] == t.rows[j];
      } else {
        assert s.nextId !in s.failures;
      }
    }
  }

  lemma NewRowNotUnderWay(s: State, e: Event, batch: seq<Row>)
    requires Inv(s) && e.Enqueue? && Genuine(s, batch) && SameRetries(batch, s.rows)
    requires var t := Step(s, e);
             forall j :: 0 <= j < |t.rows| ==>
               if j == |t.rows| - 1 then t.rows[j] == Row(s.nextId, e.payload, 0) else t.rows[j] in s.rows
    ensures SameRetries(batch, Step(s, e).rows)
  {
    var t := Step(s, e);
    forall i, j | 0 <= i < |batch| && 0 <= j < |t.rows| && batch[i].id == t.rows[j].id
      ensures batch[i].retries == t.rows[j].retries
    {
      if j < |t.rows| - 1 {
        var x :| 0 <= x < |s.rows| && s.rows[x] == t.rows[j];
      }
    }
  }

  lemma EnqueuedBooks(s: State, e: Event, id: nat)
    requires Inv(s) && RetryInv(s) && e.Enqueue?
    ensures var t := Step(s, e);
            Failures(t.failures, id) == MAX_RETRY <==> id in t.fates && t.fates[id].RetryDropped?
  {
    assert Failures(s.failures, id) == MAX_RETRY <==> id in s.fates && s.fates[id].RetryDropped?;
    if id in Ids(s.rows) {
      var j :| 0 <= j < |s.rows| && s.rows[j].id == id;
    }
  }

  /** The verdict of a pending row of the batch is the one its current retry count calls for. */
  lemma VerdictIsCurrent(s: State, e: Event, j: nat)
    requires Inv(s) && RetryInv(s) && Enabled(s, e) && e.Commit? && j < |s.rows|
    requires s.rows[j].id in VerdictsOf(s.flights[e.k])
    ensures var v := VerdictsOf(s.flights[e.k])[s.rows[j].id];
            && (v.Retry? ==> s.rows[j].retries + 1 < MAX_RETRY)
            && (v.GivenUp? ==> s.rows[j].retries + 1 == MAX_RETRY)
  {
    var f := s.flights[e.k];
    VerdictKeys(f.batch, Given(f.replies));
    var i :| 0 <= i < |f.batch| && f.batch[i].id == s.rows[j].id;
    VerdictAt(f.batch, Given(f.replies), i);
  }

  lemma CommittedFailures(s: State, e: Event, id: nat)
    requires Enabled(s, e) && e.Commit?
    ensures var v := VerdictsOf(s.flights[e.k]);
            var t := Step(s, e);
            if id in Ids(s.rows) && id in v then
              && Failures(t.failures, id) ==
                   Failures(s.failures, id) + (if v[id].Retry? || v[id].GivenUp? then 1 else 0)
              && (!v[id].Retry? ==> id in t.fates && t.fates[id] == FateOf(v[id]))
              && (v[id].Retry? ==> (id in t.fates <==> id in s.fates))
            else
              && Failures(t.failures, id) == Failures(s.failures, id)
              && (id in t.fates <==> id in s.fates) && (id in s.fates ==> t.fates[id] == s.fates[id])
  {
  }

  lemma SettledRowRetries(s: State, e: Event, j: nat, r: Row)
    requires Inv(s) && RetryInv(s) && Enabled(s, e) && e.Commit? && j < |s.rows|
    requires r in Settle(s.rows[j], VerdictsOf(s.flights[e.k]))
    ensures r.retries == Failures(Step(s, e).failures, r.id) < MAX_RETRY
  {
    var row := s.rows[j];
    assert row.id in Ids(s.rows) && row.retries == Failures(s.failures, row.id) < MAX_RETRY;
    CommittedFailures(s, e, row.id);
    if row.id in VerdictsOf(s.flights[e.k]) {
      VerdictIsCurrent(s, e, j);
      assert r == row.(retries := row.retries + 1);
    } else {
      assert r == row;
    }
  }

  lemma CommittedRowRetries(s: State, e: Event, i: nat)
    requires Inv(s) && RetryInv(s) && Enabled(s, e) && e.Commit? && i < |Step(s, e).rows|
    ensures var t := Step(s, e);
            t.rows[i].retries == Failures(t.failures, t.rows[i].id) < MAX_RETRY
  {
    var v := VerdictsOf(s.flights[e.k]);
    var r := Step(s, e).rows[i];
    SettledRows(s.rows, v, r);
    var j :| 0 <= j < |s.rows| && r in Settle(s.rows[j], v);
    SettledRowRetries(s, e, j, r);
  }

  lemma CommittedBooks(s: State, e: Event, id: nat)
    requires Inv(s) && RetryInv(s) && Enabled(s, e) && e.Commit?
    ensures var t := Step(s, e);
            && Failures(t.failures, id) <= MAX_RETRY
            && (Failures(t.failures, id) == MAX_RETRY <==> id in t.fates && t.fates[id].RetryDropped?)
  {
    CommittedFailures(s, e, id);
    assert Failures(s.failures, id) == MAX_RETRY <==> id in s.fates && s.fates[id].RetryDropped?;
    if id in Ids(s.rows) {
      assert id !in s.fates;
      var j :| 0 <= j < |s.rows| && s.rows[j].id == id;
      if id in VerdictsOf(s.flights[e.k]) {
        VerdictIsCurrent(s, e, j);
      }
    }
  }

  lemma CommitKeepsRetries(s: State, e: Event)
    requires Inv(s) && RetryInv(s) && Enabled(s, e) && e.Commit?
    ensures RetryInv(Step(s, e))
  {
    var t := Step(s, e);
    assert t.flights == [];
    forall i | 0 <= i < |t.rows|
      ensures t.rows[i].retries == Failures(t.failures, t.rows[i].id) < MAX_RETRY
    {
      CommittedRowRetries(s, e, i);
    }
    forall id: nat
      ensures Failures(t.failures, id) <= MAX_RETRY
      ensures Failures(t.failures, id) == MAX_RETRY <==> id in t.fates && t.fates[id].RetryDropped?
    {
      CommittedBooks(s, e, id);
    }
  }

  lemma RetryInvKept(s: State, e: Event)
    requires Inv(s) && RetryInv(s) && Enabled(s, e) && (e.StartFlush? ==> s.flights == [])
    ensures RetryInv(Step(s, e))
  {
    match e
    case Enqueue(_) => EnqueueKeepsRetries(s, e);
    case Commit(_) => CommitKeepsRetries(s, e);
    case Send(_, _) =>
    case StartFlush => StartKeepsRetries(s);
    case Restart =>
  }

  lemma StartKeepsRetries(s: State)
    requires Inv(s) && RetryInv(s) && s.flights == []
    ensures RetryInv(Step(s, StartFlush))
  {
    var batch := Oldest(s.rows, s.batchSize);
    forall i, j | 0 <= i < |batch| && 0 <= j < |s.rows| && batch[i].id == s.rows[j].id
      ensures batch[i].retries == s.rows[j].retries
    {
      assert batch[i] == s.rows[i] && i == j;
    }
    assert Step(s, StartFlush).flights == [Flight(batch, [])];
  }

  lemma {:induction false} RetriesAlongRun(s: State, es: seq<Event>)
    requires Inv(s) && RetryInv(s) && Executable(s, es) && OneFlusher(s, es)
    ensures RetryInv(Run(s, es))
    decreases |es|
  {
    if es != [] {
      InvKept(s, es[0]);
      RetryInvKept(s, es[0]);
      RetriesAlongRun(Step(s, es[0]), es[1..]);
    }
  }

  /**
   With one flusher at a time a pending row's counter is the number of its committed
   failed sends and below 20, and a row is dropped for its retries exactly when that
   number reaches 20.
   */
  lemma RetryExactness(s: State, es: seq<Event>)
    requires Init(s) && Executable(s, es) && OneFlusher(s, es)
    ensures var t := Run(s, es);
            && (forall i :: 0 <= i < |t.rows| ==> t.rows[i].retries == Failures(t.failures, t.rows[i].id) < MAX_RETRY)
            && (forall id: nat :: Failures(t.failures, id) <= MAX_RETRY)
            && (forall id: nat :: Failures(t.failures, id) == MAX_RETRY <==> id in t.fates && t.fates[id].RetryDropped?)
  {
    RetriesAlongRun(s, es);
  }
}
