/**
 What happens when a channel cannot read its own field and what it then does again is cut
 short by a restart: exactly when this harms a table that was right.
 */
module CutReplays {
  import opened Wrappers
  import opened RuleLog
  import opened HybridSync
  import opened Convergence
  import opened ChannelRefinement
  import opened ConvergenceReached

  /** In sync and right, with B between polls and nothing suspect. */
  ghost predicate AllWell(s: State) {
    InSync(s) && s.b.Polling? && s.suspect == {} && s.table == Fold(s.log)
  }

  /** No write in these events fails. */
  predicate WritesWork(e: Event) {
    match e
    case AWrite(effect) => effect.Applied?
    case BApply(effect) => effect.Applied?
    case LocalBlock(_) => false
    case _ => true
  }

  lemma WorkKeepsTrust(s: State, e: Event)
    requires Enabled(s, e) && WritesWork(e) && s.suspect == {}
    ensures Step(s, e).suspect == {}
  {
  }

  lemma {:induction false} WorkingRunsKeepTrust(s: State, es: seq<Event>)
    requires Executable(s, es) && s.suspect == {} && forall i :: 0 <= i < |es| ==> WritesWork(es[i])
    ensures Run(s, es).suspect == {}
    decreases |es|
  {
    if es != [] {
      WorkKeepsTrust(s, es[0]);
      assert forall i :: 0 <= i < |es[1..]| ==> es[1..][i] == es[i + 1];
      WorkingRunsKeepTrust(Step(s, es[0]), es[1..]);
    }
  }

  lemma {:induction false} AllAppliedWork(n: nat)
    ensures forall i :: 0 <= i < |BApplies(AllApplied(n))| ==> WritesWork(BApplies(AllApplied(n))[i])
    ensures forall i :: 0 <= i < |AWrites(AllApplied(n))| ==> WritesWork(AWrites(AllApplied(n))[i])
  {
    if n > 0 {
      assert AllApplied(n)[1..] == AllApplied(n - 1);
      AllAppliedWork(n - 1);
    }
  }

  /** B, unable to read its cursor, starts over and is stopped after n commands. */
  function ReplayCut(end: nat, n: nat): seq<Event> {
    PollEvents(false, end, AllApplied(n), Crash)
  }

  /** At rest as before, with this table. */
  ghost predicate SameRest(s: State, t: State, table: Table) {
    t == s.(table := table, delivered := t.delivered, attempted := t.attempted, suspect := t.suspect)
  }

  lemma ReplayCutRuns(s: State, n: nat)
    requires s.a.Waiting? && s.b.Polling? && n <= |s.log|
    requires forall i :: 0 <= i < n ==> !s.log[i].Poison?
    ensures var es := ReplayCut(|s.log|, n);
            Executable(s, es) && SameRest(s, Run(s, es), WriteAll(s.table, s.log[..n]))
  {
    var t := PollSteps(s, false, |s.log|, AllApplied(n), Crash);
    AppliedWrites(s.table, s.log[..n]);
    assert s.log[0..0 + n] == s.log[..n];
  }

  /**
   From a state in which all is well, a replay stopped after n commands leaves the channels
   in sync with nothing suspect, and the table is right if and only if these n commands
   already contain the last write of every id they touch. A finished replay does no harm.
   */
  lemma ReplayCutExact(s: State, n: nat)
    requires SafeInv(s) && AllWell(s) && n <= |s.log|
    ensures var es := ReplayCut(|s.log|, n);
            && Executable(s, es) && InSync(Run(s, es)) && Run(s, es).suspect == {} && Run(s, es).log == s.log
            && (Run(s, es).table == Fold(s.log) <==> Complete(s.log, n))
    ensures Complete(s.log, |s.log|)
  {
    ReplayCutRuns(s, n);
    assert s.log[..|s.log|] == s.log;
    AllAppliedWork(n);
    WorkingRunsKeepTrust(s, ReplayCut(|s.log|, n));
    CutReplayExact(s.log, n);
  }

  /** A, unable to read its revision, reconciles again and is stopped after n writes. */
  function RewriteCut(rules: seq<Cmd>, n: nat): seq<Event> {
    [AFetch(false, rules)] + ([AList(true, [])] + (AWrites(AllApplied(n)) + ([Crash] + [])))
  }

  lemma RewriteCutRuns(s: State, rules: seq<Cmd>, n: nat)
    requires s.a.Waiting? && s.b.Polling? && IsSnapshot(rules, s.log) && s.table == Fold(s.log) && n <= |rules|
    ensures var es := RewriteCut(rules, n);
            Executable(s, es) && SameRest(s, Run(s, es), WriteAll(s.table, rules[..n]))
  {
    var s1 := Step(s, AFetch(false, rules));
    NothingToRemove(s1);
    assert Deletes([]) + rules == rules;
    var s2 := Step(s1, AList(true, []));
    AWritesRun(s2, AllApplied(n));
    var s3 := Run(s2, AWrites(AllApplied(n)));
    assert SameRest(s, Step(s3, Crash), s3.table);
    AppliedWrites(s.table, rules[..n]);
    RunCons(s3, Crash, []);
    RunConcat(s2, AWrites(AllApplied(n)), [Crash] + []);
    RunCons(s1, AList(true, []), AWrites(AllApplied(n)) + ([Crash] + []));
    RunCons(s, AFetch(false, rules), [AList(true, [])] + (AWrites(AllApplied(n)) + ([Crash] + [])));
  }

  /**
   The same for channel A and the order in which a snapshot lists its rules: only one that
   lists an id twice with different contents can do harm.
   */
  lemma RewriteCutExact(s: State, rules: seq<Cmd>, n: nat)
    requires SafeInv(s) && AllWell(s) && IsSnapshot(rules, s.log) && n <= |rules|
    ensures var es := RewriteCut(rules, n);
            && Executable(s, es) && InSync(Run(s, es)) && Run(s, es).suspect == {} && Run(s, es).log == s.log
            && (Run(s, es).table == Fold(s.log) <==> Complete(rules, n))
  {
    RewriteCutRuns(s, rules, n);
    AllAppliedWork(n);
    WorkingRunsKeepTrust(s, RewriteCut(rules, n));
    CutReplayExact(rules, n);
  }

  lemma NothingToRemove(s: State)
    requires s.a.Fetched? && IsSnapshot(s.a.rules, s.log) && s.table == Fold(s.log)
    ensures Lists(s, true, [])
  {
    forall id
      ensures id !in ToRemove(s.table, s.a.rules)
    {
      LookupAfterWrites(map[], s.a.rules, id);
      NamedTouched(s.a.rules, id);
    }
  }

  /** An instance: of two upserts of one id with different contents only the first is replayed. */
  lemma BlindReplayBreaks(s: State, old': Content, new': Content)
    requires SafeInv(s) && AllWell(s) && s.log == [Upsert(1, old'), Upsert(1, new')] && old' != new'
    ensures var es := ReplayCut(2, 1);
            && Executable(s, es) && InSync(Run(s, es)) && Run(s, es).suspect == {}
            && Run(s, es).table != Fold(Run(s, es).log)
  {
    ReplayCutExact(s, 1);
    LastWriteAt(s.log, 1, 1);
    LastWriteAt(s.log[..1], 0, 1);
  }
}
