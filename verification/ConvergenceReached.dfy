/** When convergence can be reached, and which wrong tables the agent can mend by itself. */
module ConvergenceReached {
  import opened Wrappers
  import opened RuleLog
  import opened RuleNames
  import opened SortedIds
  import opened HybridSync
  import opened Convergence
  import opened ChannelRefinement

  /** Every id a reconcile reaches is as the log says. */
  ghost predicate TableRight(s: State) {
    forall id :: Reached(s.log, id) ==> Lookup(s.table, id) == Lookup(Fold(s.log), id)
  }

  function AllApplied(n: nat): seq<Effect> {
    seq(n, i => Applied)
  }

  lemma {:induction false} AppliedWrites(t: Table, cs: seq<Cmd>)
    ensures WriteAll(t, EffectiveAll(cs, AllApplied(|cs|))) == WriteAll(t, cs)
    decreases |cs|
  {
    if cs != [] {
      var all := EffectiveAll(cs, AllApplied(|cs|));
      assert all[1..] == EffectiveAll(cs[1..], AllApplied(|cs[1..]|));
      AppliedWrites(Write(t, cs[0]), cs[1..]);
    }
  }

  /** Deleting the listed rest and upserting a snapshot yields the log's state on the ids it reaches. */
  lemma SnapshotWrites(t: Table, log: seq<Cmd>, rules: seq<Cmd>, removals: seq<int>, id: int)
    requires IsSnapshot(rules, log) && (set x | x in removals) == ToRemove(t, rules) && Reached(log, id)
    ensures Lookup(WriteAll(t, Deletes(removals) + rules), id) == Lookup(Fold(log), id)
  {
    var deletes := Deletes(removals);
    LookupAfterWrites(t, deletes + rules, id);
    LookupAfterWrites(map[], rules, id);
    LastWriteConcat(deletes, rules, id);
    NamedTouched(rules, id);
    DeletesExactly(removals, id);
    if id !in Named(rules) && id in t {
      assert Fold(log) == Fold(rules) && Listable(id);
      assert id in (set k | k in t && Listable(k));
      assert id in ToRemove(t, rules);
      assert id in (set x | x in removals);
    }
  }

  /**
   One cycle of A alone brings every id it reaches right, whenever A reconciles: while the
   stored revision is behind, or when A cannot read it.
   */
  lemma CycleReaches(s: State, readable: bool, rules: seq<Cmd>) returns (es: seq<Event>)
    requires s.a.Waiting? && (readable ==> s.lastRevision != Published(s)) && IsSnapshot(rules, s.log)
    ensures Executable(s, es) && (readable ==> Undisturbed(es))
    ensures var t := Run(s, es);
            && TableRight(t)
            && Cycled(s, t, t.table, AStore(true), true)
  {
    var removals := Sorted(ToRemove(s.table, rules));
    var todo := Deletes(removals) + rules;
    CycleRuns(s, readable, rules, true, removals, AllApplied(|todo|), AStore(true));
    es := CycleEvents(readable, rules, true, removals, AllApplied(|todo|), AStore(true));
    CycleUndisturbed(rules, removals, AllApplied(|todo|));
    AppliedWrites(s.table, todo);
    forall id | Reached(s.log, id)
      ensures Lookup(WriteAll(s.table, todo), id) == Lookup(Fold(s.log), id)
    {
      SnapshotWrites(s.table, s.log, rules, removals, id);
    }
  }

  /**
   From any state in which the stored revision is behind and no command ahead of the
   cursor raises, a restart, one poll and one cycle bring both channels in sync with
   every id a reconcile reaches as the log says, without anything new from the server.
   */
  lemma ConvergenceReachable(s: State, rules: seq<Cmd>) returns (es: seq<Event>)
    requires Bounds(s) && s.lastRevision != Published(s) && IsSnapshot(rules, s.log)
    requires forall i :: s.cursor <= i < |s.log| ==> !s.log[i].Poison?
    ensures Executable(s, es) && Undisturbed(es)
    ensures Run(s, es).log == s.log && InSync(Run(s, es)) && TableRight(Run(s, es))
  {
    var restart := CatchUp(s);
    var t := Run(s, restart);
    var cycle := CycleReaches(t, true, rules);
    RunConcat(s, restart, cycle);
    es := restart + cycle;
  }

  /** A restart and one poll take B to the end of the log when no command ahead raises. */
  lemma CatchUp(s: State) returns (es: seq<Event>)
    requires Bounds(s)
    requires forall i :: s.cursor <= i < |s.log| ==> !s.log[i].Poison?
    ensures Executable(s, es) && Undisturbed(es)
    ensures var t := Run(s, es);
            && t.log == s.log && t.base == s.base && t.lastRevision == s.lastRevision
            && t.a.Waiting? && t.b.Polling? && t.cursor == |s.log|
  {
    var s1 := Step(s, Crash);
    var ahead := AllApplied(|s.log| - s.cursor);
    PollRuns(s1, true, |s.log|, ahead, BStore(true));
    var poll := PollEvents(true, |s.log|, ahead, BStore(true));
    RunCons(s, Crash, poll);
    es := [Crash] + poll;
    PollUndisturbed(|s.log|, ahead, BStore(true));
  }

  /**
   Without news from the server sync can be reached, from any state of any run, if and
   only if no command ahead of the cursor raises.
   */
  lemma SyncReachableExact(s: State, rules: seq<Cmd>)
    requires SafeInv(s) && IsSnapshot(rules, s.log)
    ensures (exists es :: Executable(s, es) && Undisturbed(es) && InSync(Run(s, es))) <==>
            forall i :: s.cursor <= i < |s.log| ==> !s.log[i].Poison?
  {
    if p: nat :| s.cursor <= p < |s.log| && s.log[p].Poison? {
      forall es | Executable(s, es) && Undisturbed(es)
        ensures !InSync(Run(s, es))
      {
        PoisonBlocksCursor(s, es, p);
      }
    } else if s.lastRevision != Published(s) {
      var es := ConvergenceReachable(s, rules);
    } else {
      var es := CatchUp(s);
    }
  }

  lemma {:induction false} PollUndisturbed(end: nat, effects: seq<Effect>, last: Event)
    requires Calm(last)
    ensures Undisturbed(BApplies(effects)) && Undisturbed(PollEvents(true, end, effects, last))
  {
    if effects != [] {
      PollUndisturbed(end, effects[1..], last);
    }
  }

  lemma {:induction false} CycleUndisturbed(rules: seq<Cmd>, removals: seq<int>, effects: seq<Effect>)
    ensures Undisturbed(AWrites(effects))
    ensures Undisturbed(CycleEvents(true, rules, true, removals, effects, AStore(true)))
  {
    if effects != [] {
      CycleUndisturbed(rules, removals, effects[1..]);
    }
  }

  // ---- what the agent can mend by itself ----------------------------------

  /** A command that can leave the id as the log's state has it; a failed upsert can leave it absent. */
  predicate CanMend(log: seq<Cmd>, c: Cmd, id: int) {
    Touches(c, id) && (Intent(c) == Lookup(Fold(log), id) || Lookup(Fold(log), id).None?)
  }

  predicate Mends(log: seq<Cmd>, from: nat, end: nat, id: int)
    requires end <= |log|
  {
    exists j: nat :: from <= j < end && CanMend(log, log[j], id)
  }

  /** B hands over nothing from `p` on: there the log ends or a command raises. */
  predicate StopsAt(log: seq<Cmd>, from: nat, p: nat) {
    && from <= p <= |log|
    && (forall i :: from <= i < p ==> !log[i].Poison?)
    && (p < |log| ==> log[p].Poison?)
  }

  /** A has nothing to do and B moves between `from` and `p`. */
  predicate OnlyB(s: State, from: nat, p: nat) {
    && StopsAt(s.log, from, p)
    && s.a.Waiting? && s.lastRevision == Published(s)
    && from <= s.cursor <= p
    && (!s.b.Polling? ==> from <= s.b.next <= p)
  }

  predicate Right(s: State, id: int) {
    Lookup(s.table, id) == Lookup(Fold(s.log), id)
  }

  lemma OnlyBStep(s: State, e: Event, from: nat, p: nat, id: int)
    requires OnlyB(s, from, p) && Enabled(s, e) && Calm(e)
    requires !Mends(s.log, from, p, id) && !Right(s, id)
    ensures OnlyB(Step(s, e), from, p) && Step(s, e).log == s.log && !Right(Step(s, e), id)
  {
    if e.BApply? && s.b.next < p {
      assert !CanMend(s.log, s.log[s.b.next], id);
    }
  }

  /** Until the server has news, a wrong id stays wrong unless a command B can still hand over mends it. */
  lemma {:induction false} WrongStaysWrong(s: State, es: seq<Event>, from: nat, p: nat, id: int)
    requires OnlyB(s, from, p) && Executable(s, es) && Undisturbed(es)
    requires !Mends(s.log, from, p, id) && !Right(s, id)
    ensures Run(s, es).log == s.log && !Right(Run(s, es), id)
    decreases |es|
  {
    if es != [] {
      OnlyBStep(s, es[0], from, p, id);
      assert forall i :: 0 <= i < |es[1..]| ==> es[1..][i] == es[i + 1];
      WrongStaysWrong(Step(s, es[0]), es[1..], from, p, id);
    }
  }

  /** The outcome under which a command can only do good. */
  function MendingEffect(log: seq<Cmd>, c: Cmd): Effect {
    if !c.Upsert? && !c.Delete? then Unchanged
    else if Intent(c) == Lookup(Fold(log), c.id) then Applied
    else if Lookup(Fold(log), c.id).None? then Erased
    else Unchanged
  }

  function MendingEffects(log: seq<Cmd>, cs: seq<Cmd>): seq<Effect> {
    seq(|cs|, i requires 0 <= i < |cs| => MendingEffect(log, cs[i]))
  }

  lemma {:induction false} MendingWrites(log: seq<Cmd>, cs: seq<Cmd>, id: int)
    ensures var w := LastWrite(EffectiveAll(cs, MendingEffects(log, cs)), id);
            && (w.Some? ==> w.value == Lookup(Fold(log), id))
            && (w.Some? <==> exists j: nat :: j < |cs| && CanMend(log, cs[j], id))
    decreases |cs|
  {
    if cs != [] {
      EffectiveTail(cs, MendingEffects(log, cs));
      assert MendingEffects(log, cs)[1..] == MendingEffects(log, cs[1..]);
      MendingWrites(log, cs[1..], id);
      forall j: nat | 0 < j < |cs|
        ensures cs[j] == cs[1..][j - 1]
      {
      }
      MendsFirstOrLater(log, cs, id);
    }
  }

  lemma MendsFirstOrLater(log: seq<Cmd>, cs: seq<Cmd>, id: int)
    requires cs != []
    ensures (exists j: nat :: j < |cs| && CanMend(log, cs[j], id)) <==>
            CanMend(log, cs[0], id) || exists j: nat :: j < |cs[1..]| && CanMend(log, cs[1..][j], id)
  {
    if j: nat :| j < |cs| && CanMend(log, cs[j], id) {
      assert j > 0 ==> cs[1..][j - 1] == cs[j];
    }
    if j: nat :| j < |cs[1..]| && CanMend(log, cs[1..][j], id) {
      assert cs[j + 1] == cs[1..][j];
    }
  }

  lemma MendedRight(s: State, p: nat, id: int)
    requires s.cursor <= p <= |s.log| && (Right(s, id) || Mends(s.log, s.cursor, p, id))
    ensures Lookup(Batched(s, s.cursor, MendingEffects(s.log, s.log[s.cursor..p])), id) == Lookup(Fold(s.log), id)
  {
    var cs := s.log[s.cursor..p];
    var effects := MendingEffects(s.log, cs);
    assert s.log[s.cursor..s.cursor + |effects|] == cs;
    LookupAfterWrites(s.table, EffectiveAll(cs, effects), id);
    MendingWrites(s.log, cs, id);
    if Mends(s.log, s.cursor, p, id) {
      var j: nat :| s.cursor <= j < p && CanMend(s.log, s.log[j], id);
      assert cs[j - s.cursor] == s.log[j];
    }
  }

  /** One poll that only does good leaves right what is right or can be mended. */
  lemma PollMends(s: State, p: nat) returns (es: seq<Event>)
    requires s.b.Polling? && StopsAt(s.log, s.cursor, p)
    ensures Executable(s, es) && Undisturbed(es) && Run(s, es).log == s.log
    ensures forall id :: Right(s, id) || Mends(s.log, s.cursor, p, id) ==> Right(Run(s, es), id)
  {
    var effects := MendingEffects(s.log, s.log[s.cursor..p]);
    PollRuns(s, true, p, effects, BStore(true));
    es := PollEvents(true, p, effects, BStore(true));
    PollUndisturbed(p, effects, BStore(true));
    forall id | Right(s, id) || Mends(s.log, s.cursor, p, id)
      ensures Right(Run(s, es), id)
    {
      MendedRight(s, p, id);
    }
  }

  /**
   What the documented repair comes to. Between polls and cycles, and as long as the store
   can be read and no merge loses a field, the agent can get every id a reconcile reaches
   right by itself if and only if the stored revision differs from the published one, or
   each wrong one is touched, by a command that can leave it right, before B reaches the
   end of the log or a command that raises.
   */
  lemma RepairExact(s: State, rules: seq<Cmd>, p: nat)
    requires Bounds(s) && s.a.Waiting? && s.b.Polling? && IsSnapshot(rules, s.log) && StopsAt(s.log, s.cursor, p)
    ensures (exists es :: Executable(s, es) && Undisturbed(es) && TableRight(Run(s, es))) <==>
            || s.lastRevision != Published(s)
            || forall id :: Reached(s.log, id) ==> Right(s, id) || Mends(s.log, s.cursor, p, id)
  {
    if s.lastRevision != Published(s) {
      var es := CycleReaches(s, true, rules);
    } else if id :| Reached(s.log, id) && !Right(s, id) && !Mends(s.log, s.cursor, p, id) {
      forall es | Executable(s, es) && Undisturbed(es)
        ensures !TableRight(Run(s, es))
      {
        WrongStaysWrong(s, es, s.cursor, p, id);
        assert !Right(Run(s, es), id);
      }
    } else {
      var es := PollMends(s, p);
      assert forall id :: Reached(s.log, id) ==> Right(Run(s, es), id);
      assert TableRight(Run(s, es));
    }
  }

  /** When no command ahead raises, an id can be mended exactly when some command ahead touches it. */
  lemma MendableAhead(log: seq<Cmd>, from: nat, id: int)
    requires from <= |log|
    ensures Mends(log, from, |log|, id) <==> LastWrite(log[from..], id).Some?
  {
    if LastWrite(log[from..], id).Some? {
      FoldLookup(log, from, id);
      LastTouch(log[from..], id);
      var j: nat :| j < |log[from..]| && Touches(log[from..][j], id) &&
                    Intent(log[from..][j]) == LastWrite(log[from..], id).value;
      assert log[from + j] == log[from..][j];
      assert CanMend(log, log[from + j], id);
    }
    if Mends(log, from, |log|, id) {
      var j: nat :| from <= j < |log| && CanMend(log, log[j], id);
      assert log[from..][j - from] == log[j];
      TouchedId(log[from..], j - from, id);
    }
  }

  lemma {:induction false} LastTouch(cs: seq<Cmd>, id: int)
    requires LastWrite(cs, id).Some?
    ensures exists j: nat :: j < |cs| && Touches(cs[j], id) && Intent(cs[j]) == LastWrite(cs, id).value
  {
    if LastWrite(cs[1..], id).Some? {
      LastTouch(cs[1..], id);
      var j: nat :| j < |cs[1..]| && Touches(cs[1..][j], id) && Intent(cs[1..][j]) == LastWrite(cs[1..], id).value;
      assert cs[j + 1] == cs[1..][j];
    } else {
      assert Touches(cs[0], id);
    }
  }
}
