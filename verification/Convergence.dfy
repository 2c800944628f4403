/**
 What the transition system of the two channels guarantees over whole runs, and
 where the documented repair of channel B's failures does not happen.
 */
module Convergence {
  import opened Wrappers
  import opened RuleLog
  import opened RuleNames
  import opened HybridSync

  /** A stored the revision of the whole log, B's cursor names its last command and B is not handing over again. */
  predicate InSync(s: State) {
    s.a.Waiting? && s.lastRevision == Published(s) && s.cursor == |s.log| && NextB(s) == |s.log|
  }

  // ---- safety over all runs, whatever fails -------------------------------

  /**
   Convergence of A and B under every interleaving, crash and failure, unreadable loads
   included as long as nothing they make a channel do again is cut short: once in sync,
   an id is as the log says if its last attempted write was a channel's and left what
   it meant to, and the last reconcile covered the id: it is in the log's state, or it
   can be listed and the listing of that reconcile worked.
   */
  lemma ChannelsConverge(s: State, es: seq<Event>)
    requires Init(s) && Executable(s, es) && Uncut(s, es) && InSync(Run(s, es))
    ensures var t := Run(s, es);
            forall id :: id !in t.suspect && Covered(t.log, id, t.listed) ==>
                           Lookup(t.table, id) == Lookup(Fold(t.log), id)
  {
    InitInv(s);
    InvAlongRun(s, es);
    SyncedIsRight(Run(s, es));
  }

  lemma SyncedIsRight(t: State)
    requires Inv(t) && InSync(t)
    ensures forall id :: id !in t.suspect && Covered(t.log, id, t.listed) ==>
                           Lookup(t.table, id) == Lookup(Fold(t.log), id)
  {
    assert t.log[NextB(t)..] == [];
    forall id | id !in t.suspect && Covered(t.log, id, t.listed)
      ensures Lookup(t.table, id) == Lookup(Fold(t.log), id)
    {
      assert Settled(t, id);
    }
  }

  /** What is in the table is what the last attempted write meant to leave, or was there at first. */
  ghost predicate AttemptsExplain(first: Table, s: State) {
    forall id :: id !in s.suspect ==>
      Lookup(s.table, id) == Overlay(LastWrite(s.attempted, id), Lookup(first, id))
  }

  lemma AttemptExplains(first: Table, s: State, c: Cmd, e: Effect)
    requires AttemptsExplain(first, s)
    ensures AttemptsExplain(first, Attempt(s, c, e))
  {
    forall id | id !in Attempt(s, c, e).suspect
      ensures Lookup(Attempt(s, c, e).table, id) ==
              Overlay(LastWrite(Attempt(s, c, e).attempted, id), Lookup(first, id))
    {
      LastWriteConcat(s.attempted, [c], id);
      assert [c][1..] == [];
    }
  }

  lemma {:induction false} LastAttemptHolds(first: Table, s: State, es: seq<Event>)
    requires AttemptsExplain(first, s) && Executable(s, es)
    ensures AttemptsExplain(first, Run(s, es))
    decreases |es|
  {
    if es != [] {
      var t := Step(s, es[0]);
      match es[0] {
        case AWrite(effect) =>
          AttemptExplains(first, s.(a := s.a.(todo := s.a.todo[1..])), s.a.todo[0], effect);
        case BApply(effect) =>
          if !s.log[s.b.next].Poison? {
            AttemptExplains(first, t.(table := s.table, attempted := s.attempted, suspect := s.suspect),
                            s.log[s.b.next], effect);
          }
        case LocalBlock(c) => BlockExplains(first, s, c);
        case _ =>
      }
      LastAttemptHolds(first, t, es[1..]);
    }
  }

  lemma BlockExplains(first: Table, s: State, c: Cmd)
    requires AttemptsExplain(first, s) && Enabled(s, LocalBlock(c))
    ensures AttemptsExplain(first, Step(s, LocalBlock(c)))
  {
    forall id | id !in s.suspect + {c.id}
      ensures LastWrite(s.attempted + [c], id) == LastWrite(s.attempted, id)
    {
      LastWriteConcat(s.attempted, [c], id);
      assert [c][1..] == [];
    }
  }

  /** The last write tried on the id, if any, was a removal; otherwise the first table lacked it. */
  predicate LastRemoved(first: Table, attempted: seq<Cmd>, id: int) {
    var w := LastWrite(attempted, id);
    if w.Some? then w.value.None? else id !in first
  }

  /**
   In sync, after a listing that worked and with no write gone wrong, the whole table is
   the state of the log if and only if each id outside that state which no listing can
   see was removed last, or was neither there at first nor ever written.
   */
  lemma SyncedTableExact(s: State, es: seq<Event>)
    requires Init(s) && Executable(s, es) && Uncut(s, es) && InSync(Run(s, es))
    requires Run(s, es).suspect == {} && Run(s, es).listed
    ensures var t := Run(s, es);
            t.table == Fold(t.log) <==>
            forall id :: !Reached(t.log, id) ==> LastRemoved(s.table, t.attempted, id)
  {
    var t := Run(s, es);
    ChannelsConverge(s, es);
    LastAttemptHolds(s.table, s, es);
    forall id
      ensures Lookup(t.table, id) == Lookup(Fold(t.log), id) <==>
              (!Reached(t.log, id) ==> LastRemoved(s.table, t.attempted, id))
    {
      assert Lookup(t.table, id) == Overlay(LastWrite(t.attempted, id), Lookup(s.table, id));
    }
    if forall id :: !Reached(t.log, id) ==> LastRemoved(s.table, t.attempted, id) {
      TablesEqual(t.table, Fold(t.log));
    }
  }

  /**
   The persisted cursor never passes a command that was not handed over, and hand-over
   is in order; this holds even when B could not read its cursor.
   */
  lemma AtLeastOnceInOrder(s: State, es: seq<Event>)
    requires Init(s) && Executable(s, es)
    ensures var t := Run(s, es);
            && t.cursor <= |t.log|
            && (forall i: nat :: i < t.cursor ==> i in t.delivered)
            && (forall j, i: nat :: 0 <= j < |t.delivered| && i < t.delivered[j] ==> i in t.delivered[..j])
  {
    InitInv(s);
    SafeInvAlongRun(s, es);
  }

  predicate StuckAt(s: State, p: nat) {
    && p < |s.log| && s.log[p].Poison?
    && s.cursor <= p
    && (!s.b.Polling? ==> s.b.next <= p)
  }

  /** A command whose handler raises is replayed for ever: no run moves the cursor past it. */
  lemma {:induction false} PoisonBlocksCursor(s: State, es: seq<Event>, p: nat)
    requires StuckAt(s, p) && Executable(s, es)
    ensures StuckAt(Run(s, es), p)
    decreases |es|
  {
    if es != [] {
      PoisonBlocksCursor(Step(s, es[0]), es[1..], p);
    }
  }

  // ---- runs in which every write does what it means -----------------------

  predicate Achieves(s: State, c: Cmd, e: Effect) {
    (c.Upsert? || c.Delete?) ==> Lookup(Write(s.table, Effective(c, e)), c.id) == Intent(c)
  }

  /** Crashes, aborted cycles and batches, unreadable loads and lossy store merges are allowed here. */
  predicate Faultless(s: State, e: Event)
    requires Enabled(s, e)
  {
    match e
    case AList(works, _) => works
    case AWrite(effect) => Achieves(s, s.a.todo[0], effect)
    case BApply(effect) => Achieves(s, s.log[s.b.next], effect)
    case LocalBlock(_) => false
    case _ => !CutShort(s, e)
  }

  predicate FaultlessRun(s: State, es: seq<Event>)
    requires Executable(s, es)
    decreases |es|
  {
    es == [] || (Faultless(s, es[0]) && FaultlessRun(Step(s, es[0]), es[1..]))
  }

  /** A has a reconcile of the whole log still to begin. */
  predicate OutOfDate(s: State) {
    s.lastRevision != Published(s) && !(s.a.Writing? && s.a.revision == |s.log|)
  }

  /** A reconcile whose listing works writes or removes the id, whatever the table holds. */
  predicate Reached(log: seq<Cmd>, id: int) {
    Covered(log, id, true)
  }

  /** The reconcile that counts had a listing that worked. */
  predicate ListingWorked(s: State) {
    && Bounds(s)
    && (s.lastRevision == Published(s) ==> s.listed)
    && (s.a.Writing? && s.a.revision == |s.log| ==> s.a.works)
  }

  function Trusting(s: State): State {
    s.(suspect := {})
  }

  lemma AttemptForgets(s: State, c: Cmd, e: Effect)
    requires Achieves(s, c, e)
    ensures Attempt(Trusting(s), c, e) == Trusting(Attempt(s, c, e))
  {
  }

  lemma ListingWorkedKept(s: State, e: Event)
    requires ListingWorked(s) && Enabled(s, e) && Faultless(s, e)
    ensures ListingWorked(Step(s, e))
  {
    BoundsKept(s, e);
  }

  lemma AWriteForgets(s: State, effect: Effect)
    requires Enabled(s, AWrite(effect)) && Achieves(s, s.a.todo[0], effect)
    ensures Step(Trusting(s), AWrite(effect)) == Trusting(Step(s, AWrite(effect)))
  {
    AttemptForgets(s.(a := s.a.(todo := s.a.todo[1..])), s.a.todo[0], effect);
  }

  lemma BApplyForgets(s: State, effect: Effect)
    requires Enabled(s, BApply(effect)) && Achieves(s, s.log[s.b.next], effect)
    ensures Step(Trusting(s), BApply(effect)) == Trusting(Step(s, BApply(effect)))
  {
    if !s.log[s.b.next].Poison? {
      var seen := s.(delivered := s.delivered + [s.b.next], b := s.b.(next := s.b.next + 1));
      AttemptForgets(seen, s.log[s.b.next], effect);
    }
  }

  /** Faultless steps add no suspect, so a run that forgets old suspects goes the same way. */
  lemma FaultlessStep(s: State, e: Event)
    requires Enabled(s, e) && Faultless(s, e)
    ensures Enabled(Trusting(s), e) && Step(Trusting(s), e) == Trusting(Step(s, e))
    ensures !CutShort(Trusting(s), e)
  {
    assert Enabled(Trusting(s), e);
    match e
    case AWrite(effect) => AWriteForgets(s, effect);
    case BApply(effect) => BApplyForgets(s, effect);
    case _ =>
  }

  lemma {:induction false} FaultlessAlongRun(s: State, es: seq<Event>)
    requires ListingWorked(s) && Executable(s, es) && FaultlessRun(s, es)
    ensures Executable(Trusting(s), es) && Run(Trusting(s), es) == Trusting(Run(s, es))
    ensures Uncut(Trusting(s), es) && ListingWorked(Run(s, es))
    decreases |es|
  {
    if es != [] {
      FaultlessStep(s, es[0]);
      ListingWorkedKept(s, es[0]);
      FaultlessAlongRun(Step(s, es[0]), es[1..]);
    }
  }

  /**
   After any history of failures, a faultless continuation that begins before A has
   caught up and ends in sync has converged on every id a listing can see or the
   server's final state names.
   */
  lemma FaultlessConvergence(s0: State, history: seq<Event>, es: seq<Event>)
    requires Init(s0) && Executable(s0, history) && OutOfDate(Run(s0, history))
    requires Executable(Run(s0, history), es) && FaultlessRun(Run(s0, history), es)
    requires InSync(Run(Run(s0, history), es))
    ensures var t := Run(Run(s0, history), es);
            forall id :: Reached(t.log, id) ==> Lookup(t.table, id) == Lookup(Fold(t.log), id)
  {
    InitInv(s0);
    SafeInvAlongRun(s0, history);
    var s := Run(s0, history);
    FaultlessAlongRun(s, es);
    assert Inv(Trusting(s));
    InvAlongRun(Trusting(s), es);
    SyncedIsRight(Trusting(Run(s, es)));
  }

  /** Neither the server nor what A holds has ever named the id. */
  ghost predicate Unnamed(s: State, id: int) {
    && LastWrite(s.log, id).None?
    && (s.a.Fetched? ==> LastWrite(s.a.rules, id).None?)
    && (s.a.Writing? ==> LastWrite(s.a.todo, id).None?)
  }

  lemma SnapshotNamesNothingNew(rules: seq<Cmd>, log: seq<Cmd>, id: int)
    requires IsSnapshot(rules, log) && LastWrite(log, id).None?
    ensures LastWrite(rules, id).None?
  {
    LookupAfterWrites(map[], log, id);
    LookupAfterWrites(map[], rules, id);
    UpsertsLeaveContent(rules, id);
  }

  lemma UnnamedKept(s: State, e: Event, id: int)
    requires Unnamed(s, id) && !Listable(id) && Enabled(s, e) && LastWrite(Step(s, e).log, id).None?
    ensures Unnamed(Step(s, e), id) && Lookup(Step(s, e).table, id) == Lookup(s.table, id)
  {
    match e
    case AFetch(_, rules) => SnapshotNamesNothingNew(rules, s.log, id);
    case AList(_, removals) =>
      LastWriteConcat(Deletes(removals), s.a.rules, id);
      DeletesExactly(removals, id);
    case AWrite(_) => assert !Touches(s.a.todo[0], id);
    case BApply(_) =>
      if Touches(s.log[s.b.next], id) {
        TouchedId(s.log, s.b.next, id);
      }
    case _ =>
  }

  lemma {:induction false} LogOnlyGrows(s: State, es: seq<Event>)
    requires Executable(s, es)
    ensures s.log <= Run(s, es).log
    decreases |es|
  {
    if es != [] {
      LogOnlyGrows(Step(s, es[0]), es[1..]);
    }
  }

  lemma UnnamedBefore(s: State, es: seq<Event>, id: int)
    requires Executable(s, es) && LastWrite(Run(s, es).log, id).None?
    ensures LastWrite(s.log, id).None?
  {
    var after := Run(s, es).log;
    LogOnlyGrows(s, es);
    assert after == s.log + after[|s.log|..];
    LastWriteConcat(s.log, after[|s.log|..], id);
  }

  /** In every run, whatever works or fails, an id no listing can see and the server never names keeps what it had. */
  lemma {:induction false} UnlistableIdStranded(s: State, es: seq<Event>, id: int)
    requires Unnamed(s, id) && !Listable(id) && Executable(s, es) && LastWrite(Run(s, es).log, id).None?
    ensures Unnamed(Run(s, es), id) && Lookup(Run(s, es).table, id) == Lookup(s.table, id)
    decreases |es|
  {
    if es != [] {
      UnnamedBefore(Step(s, es[0]), es[1..], id);
      UnnamedKept(s, es[0], id);
      UnlistableIdStranded(Step(s, es[0]), es[1..], id);
    }
  }

  /**
   If the log leaves no id behind that it once wrote and no listing can see, the whole
   table is the state of the server's log if and only if every id of the first table that
   no listing can see is in that state.
   */
  lemma FullConvergence(s0: State, history: seq<Event>, es: seq<Event>)
    requires Init(s0) && Executable(s0, history) && OutOfDate(Run(s0, history))
    requires Executable(Run(s0, history), es) && FaultlessRun(Run(s0, history), es)
    requires InSync(Run(Run(s0, history), es))
    requires var log := Run(Run(s0, history), es).log;
             forall id :: !Listable(id) && LastWrite(log, id).Some? ==> id in Fold(log)
    ensures var t := Run(Run(s0, history), es);
            t.table == Fold(t.log) <==>
            forall id :: id in s0.table && !Listable(id) ==> id in Fold(t.log)
  {
    var t := Run(Run(s0, history), es);
    FaultlessConvergence(s0, history, es);
    RunConcat(s0, history, es);
    forall id
      ensures Lookup(t.table, id) == Lookup(Fold(t.log), id) <==>
              (id in s0.table && !Listable(id) ==> id in Fold(t.log))
    {
      if !Reached(t.log, id) {
        UnnamedBefore(s0, history + es, id);
        UnlistableIdStranded(s0, history + es, id);
      }
    }
    if forall id :: id in s0.table && !Listable(id) ==> id in Fold(t.log) {
      TablesEqual(t.table, Fold(t.log));
    }
  }

  /**
   The same for any log, in terms of what was written: if no write on an id out of reach
   has gone wrong last, the whole table is the state of the server's log if and only if
   each of these ids was removed last, or was neither there at first nor ever written.
   */
  lemma FaultlessTableExact(s0: State, history: seq<Event>, es: seq<Event>)
    requires Init(s0) && Executable(s0, history) && OutOfDate(Run(s0, history))
    requires Executable(Run(s0, history), es) && FaultlessRun(Run(s0, history), es)
    requires InSync(Run(Run(s0, history), es))
    requires var t := Run(Run(s0, history), es);
             forall id :: !Reached(t.log, id) ==> id !in t.suspect
    ensures var t := Run(Run(s0, history), es);
            t.table == Fold(t.log) <==>
            forall id :: !Reached(t.log, id) ==> LastRemoved(s0.table, t.attempted, id)
  {
    var t := Run(Run(s0, history), es);
    FaultlessConvergence(s0, history, es);
    RunConcat(s0, history, es);
    LastAttemptHolds(s0.table, s0, history + es);
    forall id
      ensures Lookup(t.table, id) == Lookup(Fold(t.log), id) <==>
              (!Reached(t.log, id) ==> LastRemoved(s0.table, t.attempted, id))
    {
      assert !Reached(t.log, id) ==>
               Lookup(t.table, id) == Overlay(LastWrite(t.attempted, id), Lookup(s0.table, id));
    }
    if forall id :: !Reached(t.log, id) ==> LastRemoved(s0.table, t.attempted, id) {
      TablesEqual(t.table, Fold(t.log));
    }
  }

  // ---- the documented repair of B's failures ------------------------------

  /** Nothing new from the server, no local block, and the store read and merged without loss. */
  predicate Calm(e: Event) {
    match e
    case Append(_) => false
    case LocalBlock(_) => false
    case AStore(keepsB) => keepsB
    case BStore(keepsA) => keepsA
    case _ => Sighted(e)
  }

  predicate Undisturbed(es: seq<Event>) {
    forall i :: 0 <= i < |es| ==> Calm(es[i])
  }

  /**
   In sync means at rest: an equal revision is skipped, so until the server changes
   something, a load of the store fails or a merge loses a field, no later cycle of A
   repairs what a failed write of either channel left.
   */
  lemma {:induction false} InSyncIsAtRest(s: State, es: seq<Event>)
    requires InSync(s)
    requires Executable(s, es) && Undisturbed(es)
    ensures Run(s, es).table == s.table && Run(s, es).log == s.log && InSync(Run(s, es))
    decreases |es|
  {
    if es != [] {
      assert Undisturbed(es[1..]) && Undisturbed([es[0]]);
      assert es[0] == es[0..][0];
      InSyncIsAtRest(Step(s, es[0]), es[1..]);
    }
  }

  function Fresh(table: Table): State {
    State(1, [], table, 0, 0, Waiting, Polling, false, [], [], {})
  }

  /** A has stored revision 2 of a log with one upsert; B has not polled yet. */
  function AStored(content: Content): State {
    State(1, [Upsert(1, content)], map[1 := content], 2, 0, Waiting, Polling, true, [], [Upsert(1, content)], {})
  }

  function ReconcileEvents(): seq<Event> {
    [AList(true, [])] + ([AWrite(Applied)] + ([AStore(true)] + []))
  }

  function ACycle(content: Content): seq<Event> {
    [Append(Upsert(1, content))] + ([AFetch(true, [Upsert(1, content)])] + ReconcileEvents())
  }

  /** B's replay of the same command fails in rule creation, which only logs a warning. */
  function FailedBatch(): seq<Event> {
    [BAsk(true)] + ([BFetch(1)] + ([BApply(Erased)] + ([BStore(true)] + [])))
  }

  lemma RunCons(s: State, e: Event, es: seq<Event>)
    requires Enabled(s, e) && Executable(Step(s, e), es)
    ensures Executable(s, [e] + es) && Run(s, [e] + es) == Run(Step(s, e), es)
  {
    assert ([e] + es)[1..] == es;
  }

  lemma {:induction false} RunConcat(s: State, es: seq<Event>, fs: seq<Event>)
    requires Executable(s, es) && Executable(Run(s, es), fs)
    ensures Executable(s, es + fs) && Run(s, es + fs) == Run(Run(s, es), fs)
    decreases |es|
  {
    if es == [] {
      assert es + fs == fs;
    } else {
      assert (es + fs)[1..] == es[1..] + fs;
      RunConcat(Step(s, es[0]), es[1..], fs);
    }
  }

  /** The state in which A holds the snapshot of one upsert and nothing is written. */
  function AHolds(content: Content): State {
    Fresh(map[]).(log := [Upsert(1, content)], a := Fetched(1, [Upsert(1, content)]))
  }

  lemma OneRuleReconciled(content: Content)
    ensures Executable(AHolds(content), ReconcileEvents()) &&
            Run(AHolds(content), ReconcileEvents()) == AStored(content)
  {
    var log := [Upsert(1, content)];
    var s2 := AHolds(content);
    var s3 := s2.(a := Writing(1, true, log));
    var s4 := s2.(a := Writing(1, true, []), table := map[1 := content], attempted := log);
    assert log[1..] == [] && Deletes([]) + log == log && [] + log == log;
    assert Step(s2, AList(true, [])) == s3;
    assert Step(s3, AWrite(Applied)) == s4;
    RunCons(s4, AStore(true), []);
    RunCons(s3, AWrite(Applied), [AStore(true)] + []);
    RunCons(s2, AList(true, []), [AWrite(Applied)] + ([AStore(true)] + []));
  }

  lemma ACycleRuns(content: Content)
    ensures Executable(Fresh(map[]), ACycle(content)) && Run(Fresh(map[]), ACycle(content)) == AStored(content)
  {
    var up := Upsert(1, content);
    var s1 := Fresh(map[]).(log := [up]);
    assert Fresh(map[]).log + [up] == [up];
    assert Step(Fresh(map[]), Append(up)) == s1;
    assert Step(s1, AFetch(true, [up])) == AHolds(content);
    OneRuleReconciled(content);
    RunCons(s1, AFetch(true, [up]), ReconcileEvents());
    RunCons(Fresh(map[]), Append(up), [AFetch(true, [up])] + ReconcileEvents());
  }

  /** What B's failed batch leaves. */
  function BFailed(content: Content): State {
    AStored(content).(table := map[], cursor := 1, delivered := [0],
                      attempted := [Upsert(1, content), Upsert(1, content)], suspect := {1})
  }

  lemma FailedBatchRuns(content: Content)
    ensures Executable(AStored(content), FailedBatch()) && Run(AStored(content), FailedBatch()) == BFailed(content)
  {
    var s0 := AStored(content);
    var s1 := s0.(b := Asking(0));
    var s2 := s0.(b := Applying(0, 1));
    var s3 := BFailed(content).(b := Applying(1, 1), cursor := 0);
    assert Step(s2, BApply(Erased)).table == map[];
    assert Step(s2, BApply(Erased)) == s3;
    RunCons(s3, BStore(true), []);
    RunCons(s2, BApply(Erased), [BStore(true)] + []);
    RunCons(s1, BFetch(1), [BApply(Erased)] + ([BStore(true)] + []));
    RunCons(s0, BAsk(true), [BFetch(1)] + ([BApply(Erased)] + ([BStore(true)] + [])));
  }

  /**
   A failed write of B is not picked up by the next cycle of A: from a fresh start,
   A stores revision 2, B's copy of the command fails, and whatever follows without
   news from the server leaves the rule missing, as long as the store can be read and
   no merge loses a field.
   */
  lemma BFailureNotRepaired(content: Content, es: seq<Event>)
    ensures Init(Fresh(map[])) && Executable(Fresh(map[]), ACycle(content) + FailedBatch())
    ensures var s := Run(Fresh(map[]), ACycle(content) + FailedBatch());
            && InSync(s)
            && (Executable(s, es) && Undisturbed(es) ==> 1 !in Run(s, es).table && 1 in Fold(Run(s, es).log))
  {
    ACycleRuns(content);
    FailedBatchRuns(content);
    RunConcat(Fresh(map[]), ACycle(content), FailedBatch());
    var s := Run(Fresh(map[]), ACycle(content) + FailedBatch());
    if Executable(s, es) && Undisturbed(es) {
      InSyncIsAtRest(s, es);
      LookupAfterWrites(map[], s.log, 1);
    }
  }

  function StrandingEvents(): seq<Event> {
    [AFetch(true, [])] + ([AList(true, [])] + ([AStore(true)] + []))
  }

  /** Such ids do get stranded: a faultless run of one cycle is in sync and the leftover rule is still there. */
  lemma NegativeIdStranded(id: int, content: Content)
    requires !Listable(id)
    ensures var s, es := Fresh(map[id := content]), StrandingEvents();
            && Init(s) && Executable(s, es) && FaultlessRun(s, es) && InSync(Run(s, es))
            && id in Run(s, es).table && id !in Fold(Run(s, es).log)
  {
    var s := Fresh(map[id := content]);
    var s1 := s.(a := Fetched(0, []));
    var s2 := s.(a := Writing(0, true, []));
    var s3 := s.(lastRevision := 1, listed := true);
    var e1, e2, e3 := AFetch(true, []), AList(true, []), AStore(true);
    assert Step(s, e1) == s1;
    assert ToRemove(s1.table, []) == {};
    assert Deletes([]) + [] == [] && Step(s1, e2) == s2;
    assert Step(s2, e3) == s3;
    RunCons(s2, e3, []);
    RunCons(s1, e2, [e3] + []);
    RunCons(s, e1, [e2] + ([e3] + []));
    FaultlessCons(s2, e3, []);
    FaultlessCons(s1, e2, [e3] + []);
    FaultlessCons(s, e1, [e2] + ([e3] + []));
  }

  lemma FaultlessCons(s: State, e: Event, es: seq<Event>)
    requires Enabled(s, e) && Faultless(s, e) && Executable(Step(s, e), es) && FaultlessRun(Step(s, e), es)
    ensures Executable(s, [e] + es) && FaultlessRun(s, [e] + es)
  {
    assert ([e] + es)[1..] == es;
  }
}
