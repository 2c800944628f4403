/**
 Channels A and B as one transition system over the shared rule table and the
 shared store, one event per step of either thread, with server appends, crashes,
 failed writes, lossy store merges and the local block controller in between.
 */
module HybridSync {
  import opened Wrappers
  import opened RuleLog
  import opened RuleNames

  /**
   Channel A between cycles, holding a fetched snapshot, or writing what is left of a
   reconcile whose listing named all that is there (`works`) or not.
   */
  datatype ChannelA =
    | Waiting
    | Fetched(revision: nat, rules: seq<Cmd>)
    | Writing(revision: nat, works: bool, todo: seq<Cmd>)

  /**
   Channel B between polls, waiting for the answer to a request from `next` on, or about
   to hand over `log[next]` of a batch that ends before `end`.
   */
  datatype ChannelB = Polling | Asking(next: nat) | Applying(next: nat, end: nat)

  /**
   `log` is the server's command history; its prefix of length k is published as
   revision `base + k`. The store keeps `lastRevision` and `cursor`, the length of
   the prefix the last command id names. The rest is history: `listed` tells whether
   the cycle that stored `lastRevision` had a working listing, `delivered` holds the
   log positions handed to B's handler and `attempted` every write tried, in order,
   and `suspect` the ids whose last attempted write did not leave what it meant to or
   was the local block controller's.
   */
  datatype State = State(base: nat, log: seq<Cmd>, table: Table, lastRevision: int, cursor: nat,
                         a: ChannelA, b: ChannelB, listed: bool,
                         delivered: seq<nat>, attempted: seq<Cmd>, suspect: set<int>)

  /** `readable` is false when the load at the start of a cycle or poll falls back to the defaults. */
  datatype Event =
    | Append(cmd: Cmd)
    | AFetch(readable: bool, rules: seq<Cmd>)
    | ASkip
    | AList(works: bool, removals: seq<int>)
    | AWrite(effect: Effect)
    | AStore(keepsB: bool)
    | AGiveUp
    | BAsk(readable: bool)
    | BFetch(end: nat)
    | BApply(effect: Effect)
    | BStore(keepsA: bool)
    | BGiveUp
    | Crash
    | LocalBlock(cmd: Cmd)

  const EMERGENCY_ID := 9999
  const SPECIFIC_IP_ID := 9998

  function Published(s: State): int { s.base + |s.log| }

  /** The server's answer to A: rules whose last-duplicate-wins map is the state of the whole log. */
  predicate IsSnapshot(rules: seq<Cmd>, log: seq<Cmd>) {
    && (forall i :: 0 <= i < |rules| ==> rules[i].Upsert?)
    && Fold(rules) == Fold(log)
  }

  function Named(cs: seq<Cmd>): set<int> {
    set i | 0 <= i < |cs| && (cs[i].Upsert? || cs[i].Delete?) :: cs[i].id
  }

  function Deletes(ids: seq<int>): seq<Cmd> {
    seq(|ids|, i requires 0 <= i < |ids| => Delete(ids[i]))
  }

  /** What a working listing shows to be no longer wanted. */
  function ToRemove(table: Table, rules: seq<Cmd>): set<int> {
    (set id | id in table && Listable(id)) - Named(rules)
  }

  function Mark(suspect: set<int>, c: Cmd, after: Table): set<int> {
    if !c.Upsert? && !c.Delete? then suspect
    else if Lookup(after, c.id) == Intent(c) then suspect - {c.id}
    else suspect + {c.id}
  }

  /** One attempted write by either channel. */
  function Attempt(s: State, c: Cmd, e: Effect): State {
    var after := Write(s.table, Effective(c, e));
    s.(table := after, attempted := s.attempted + [c], suspect := Mark(s.suspect, c, after))
  }

  /** A listing shows ids in range; one that works shows all of them, and perhaps ids that have no managed rule. */
  predicate Lists(s: State, works: bool, removals: seq<int>)
    requires s.a.Fetched?
  {
    && (forall id :: id in removals ==> Listable(id) && id !in Named(s.a.rules))
    && (works ==> forall id :: id in ToRemove(s.table, s.a.rules) ==> id in removals)
  }

  predicate Enabled(s: State, e: Event) {
    match e
    case Append(_) => true
    case AFetch(readable, rules) =>
      s.a.Waiting? && (readable ==> s.lastRevision != Published(s)) && IsSnapshot(rules, s.log)
    case ASkip => s.a.Waiting? && s.lastRevision == Published(s)
    case AList(works, removals) => s.a.Fetched? && Lists(s, works, removals)
    case AWrite(_) => s.a.Writing? && s.a.todo != []
    case AStore(_) => s.a.Writing? && s.a.todo == []
    case AGiveUp => !s.a.Waiting?
    case BAsk(_) => s.b.Polling?
    case BFetch(end) => s.b.Asking? && s.b.next <= end <= |s.log|
    case BApply(_) => s.b.Applying? && s.b.next < s.b.end && s.b.next < |s.log|
    case BStore(_) => s.b.Applying? && s.b.next == s.b.end
    case BGiveUp => !s.b.Polling?
    case Crash => true
    case LocalBlock(c) => (c.Upsert? || c.Delete?) && c.id in {EMERGENCY_ID, SPECIFIC_IP_ID}
  }

  function Step(s: State, e: Event): State
    requires Enabled(s, e)
  {
    match e
    case Append(c) => s.(log := s.log + [c])
    case AFetch(_, rules) => s.(a := Fetched(|s.log|, rules))
    case ASkip => s
    case AList(works, removals) => s.(a := Writing(s.a.revision, works, Deletes(removals) + s.a.rules))
    case AWrite(effect) => Attempt(s.(a := s.a.(todo := s.a.todo[1..])), s.a.todo[0], effect)
    case AStore(keepsB) =>
      s.(a := Waiting, lastRevision := s.base + s.a.revision, listed := s.a.works,
         cursor := if keepsB then s.cursor else 0)
    case AGiveUp => s.(a := Waiting)
    case BAsk(readable) => s.(b := Asking(if readable then s.cursor else 0))
    case BFetch(end) => s.(b := Applying(s.b.next, end))
    case BApply(effect) =>
      var seen := s.(delivered := s.delivered + [s.b.next]);
      if s.log[s.b.next].Poison? then seen.(b := Polling)
      else Attempt(seen.(b := s.b.(next := s.b.next + 1)), s.log[s.b.next], effect)
    case BStore(keepsA) =>
      s.(b := Polling, cursor := s.b.end, lastRevision := if keepsA then s.lastRevision else 0)
    case BGiveUp => s.(b := Polling)
    case Crash => s.(a := Waiting, b := Polling)
    case LocalBlock(c) =>
      s.(table := Write(s.table, c), attempted := s.attempted + [c], suspect := s.suspect + {c.id})
  }

  predicate Executable(s: State, es: seq<Event>)
    decreases |es|
  {
    es == [] || (Enabled(s, es[0]) && Executable(Step(s, es[0]), es[1..]))
  }

  function Run(s: State, es: seq<Event>): State
    requires Executable(s, es)
    decreases |es|
  {
    if es == [] then s else Run(Step(s, es[0]), es[1..])
  }

  /** A fresh store over any rules left behind; revisions start above the store's default. */
  predicate Init(s: State) {
    && s.base >= 1 && s.lastRevision == 0 && s.cursor == 0
    && s.a.Waiting? && s.b.Polling?
    && s.delivered == [] && s.attempted == [] && s.suspect == {}
  }

  /** Neither channel starts over because it could not read what it had stored. */
  predicate Sighted(e: Event) {
    e.BAsk? || e.AFetch? ==> e.readable
  }

  predicate SightedRun(es: seq<Event>) {
    forall i :: 0 <= i < |es| ==> Sighted(es[i])
  }

  /** B hands over again what its stored cursor says is done; only an unreadable cursor leads there. */
  predicate Replaying(s: State) {
    NextB(s) < s.cursor
  }

  /** A writes again what its stored revision says is done; only an unreadable revision leads there. */
  predicate Rewriting(s: State) {
    s.a.Writing? && s.a.todo != [] && s.lastRevision == Published(s)
  }

  /**
   The step ends work that one of the channels does again before it is complete, although
   nothing will make A reconcile this log any more.
   */
  predicate CutShort(s: State, e: Event) {
    || ((e.Crash? || e.BGiveUp?) && Replaying(s) && s.lastRevision == Published(s))
    || (e.BGiveUp? && Replaying(s) && s.a.Writing? && s.a.revision == |s.log|)
    || ((e.Crash? || e.AGiveUp?) && Rewriting(s))
  }

  predicate Uncut(s: State, es: seq<Event>)
    requires Executable(s, es)
    decreases |es|
  {
    es == [] || (!CutShort(s, es[0]) && Uncut(Step(s, es[0]), es[1..]))
  }

  // ---- the invariant ------------------------------------------------------

  /** The first log position B will hand over unless something makes it start again. */
  function NextB(s: State): nat {
    if s.b.Polling? then s.cursor else s.b.next
  }

  /** A reconcile of this log writes or removes the id, whatever the table holds. */
  predicate Covered(log: seq<Cmd>, id: int, works: bool) {
    id in Fold(log) || (Listable(id) && works)
  }

  /** The id is known to be suspect, already right, or still ahead of B. */
  predicate Settled(s: State, id: int)
    requires NextB(s) <= |s.log|
  {
    || id in s.suspect
    || Lookup(s.table, id) == Lookup(Fold(s.log), id)
    || LastWrite(s.log[NextB(s)..], id).Some?
  }

  /** A is about to write the id. */
  ghost predicate InTodo(s: State, id: int) {
    s.a.Writing? && LastWrite(s.a.todo, id).Some?
  }

  ghost predicate AllSettled(s: State, works: bool)
    requires NextB(s) <= |s.log|
  {
    forall id :: Covered(s.log, id, works) ==> Settled(s, id) || InTodo(s, id)
  }

  /** What A still has to write is as the log says. */
  ghost predicate TodoRight(s: State)
    requires s.a.Writing?
  {
    forall id :: LastWrite(s.a.todo, id).Some? ==> LastWrite(s.a.todo, id).value == Lookup(Fold(s.log), id)
  }

  /** Every position below `n` has been handed over. */
  ghost predicate HandedUpTo(delivered: seq<nat>, n: nat) {
    forall i: nat :: i < n ==> i in delivered
  }

  /** No position is handed over before all the earlier ones. */
  ghost predicate InOrder(delivered: seq<nat>) {
    forall j, i: nat :: 0 <= j < |delivered| && i < delivered[j] ==> i in delivered[..j]
  }

  predicate Bounds(s: State) {
    && s.base >= 1
    && s.lastRevision <= Published(s)
    && s.cursor <= |s.log|
    && (s.b.Asking? ==> s.b.next <= |s.log|)
    && (s.b.Applying? ==> s.b.next <= s.b.end <= |s.log|)
    && (!s.a.Waiting? ==> s.a.revision <= |s.log| && s.lastRevision <= s.base + s.a.revision)
    && (s.a.Fetched? ==> IsSnapshot(s.a.rules, s.log[..s.a.revision]))
  }

  ghost predicate Delivery(s: State) {
    && HandedUpTo(s.delivered, s.cursor)
    && HandedUpTo(s.delivered, NextB(s))
    && InOrder(s.delivered)
  }

  /** No command that raises is behind B. */
  predicate PoisonAhead(s: State) {
    forall i :: 0 <= i < |s.log| && (i < s.cursor || i < NextB(s)) ==> !s.log[i].Poison?
  }

  ghost predicate Agreement(s: State)
    requires Bounds(s)
  {
    && (s.a.Writing? && s.a.revision == |s.log| ==> TodoRight(s) && AllSettled(s, s.a.works))
    && (s.lastRevision == Published(s) ==> AllSettled(s, s.listed))
  }

  /** Holds in every run. */
  ghost predicate SafeInv(s: State) {
    Bounds(s) && Delivery(s) && PoisonAhead(s)
  }

  /** Holds in every run in which nothing done again is cut short. */
  ghost predicate Inv(s: State) {
    SafeInv(s) && Agreement(s)
  }

  lemma InitInv(s: State)
    requires Init(s)
    ensures Inv(s)
  {
  }

  lemma BoundsKept(s: State, e: Event)
    requires Bounds(s) && Enabled(s, e)
    ensures Bounds(Step(s, e))
  {
    match e
    case Append(c) =>
      if s.a.Fetched? {
        assert (s.log + [c])[..s.a.revision] == s.log[..s.a.revision];
      }
    case AFetch(_, _) => assert s.log[..|s.log|] == s.log;
    case _ =>
  }

  lemma HandingOver(delivered: seq<nat>, next: nat)
    requires HandedUpTo(delivered, next) && InOrder(delivered)
    ensures HandedUpTo(delivered + [next], next + 1) && InOrder(delivered + [next])
  {
    var after := delivered + [next];
    assert after[|delivered|] == next;
    forall j, i: nat | 0 <= j < |after| && i < after[j]
      ensures i in after[..j]
    {
      if j < |delivered| {
        assert after[..j] == delivered[..j] && after[j] == delivered[j];
      } else {
        assert after[..j] == delivered;
      }
    }
  }

  lemma DeliveryKept(s: State, e: Event)
    requires Bounds(s) && Delivery(s) && Enabled(s, e)
    ensures Delivery(Step(s, e))
  {
    if e.BApply? {
      HandingOver(s.delivered, s.b.next);
    }
  }

  /** The suffix ahead of B never loses an id, except the one whose last command B just handed over. */
  lemma SuffixGrows(log: seq<Cmd>, i: nat, j: nat, id: int)
    requires i <= j <= |log| && LastWrite(log[j..], id).Some?
    ensures LastWrite(log[i..], id).Some?
  {
    assert log[i..] == log[i..j] + log[j..];
    LastWriteConcat(log[i..j], log[j..], id);
  }

  lemma FoldLookup(cs: seq<Cmd>, i: nat, id: int)
    requires i <= |cs| && LastWrite(cs[i..], id).Some?
    ensures Lookup(Fold(cs), id) == LastWrite(cs[i..], id).value
  {
    SuffixHasLastWord(cs, i, id);
    LookupAfterWrites(map[], cs, id);
  }

  /** B handing over a command keeps every settled id settled. */
  lemma BApplySettles(s: State, e: Event, id: int)
    requires Bounds(s) && PoisonAhead(s) && Enabled(s, e) && e.BApply? && Settled(s, id)
    ensures NextB(Step(s, e)) <= |s.log| && Settled(Step(s, e), id)
  {
    var n := s.b.next;
    var c := s.log[n];
    assert s.log[n..][0] == c && s.log[n..][1..] == s.log[n + 1..];
    if c.Poison? {
      assert s.cursor <= n;
      if LastWrite(s.log[n..], id).Some? {
        SuffixGrows(s.log, s.cursor, n, id);
      }
    } else if Touches(c, id) && LastWrite(s.log[n + 1..], id).None? {
      FoldLookup(s.log, n, id);
    }
  }

  /** A writing what the log says keeps every id settled or in its hands. */
  lemma AWriteSettles(s: State, e: Event, id: int)
    requires Bounds(s) && Enabled(s, e) && e.AWrite? && TodoRight(s) && (Settled(s, id) || InTodo(s, id))
    ensures Settled(Step(s, e), id) || InTodo(Step(s, e), id)
  {
  }

  lemma AListWrites(s: State, e: Event, id: int)
    requires Bounds(s) && Enabled(s, e) && e.AList? && s.a.revision == |s.log|
    ensures var todo := Step(s, e).a.todo;
            && (LastWrite(todo, id).Some? ==> LastWrite(todo, id).value == Lookup(Fold(s.log), id))
            && (Covered(s.log, id, e.works) ==>
                  Lookup(s.table, id) == Lookup(Fold(s.log), id) || LastWrite(todo, id).Some?)
  {
    var rules := s.a.rules;
    var deletes := Deletes(e.removals);
    assert s.log[..s.a.revision] == s.log;
    LastWriteConcat(deletes, rules, id);
    LookupAfterWrites(map[], rules, id);
    NamedTouched(rules, id);
    DeletesExactly(e.removals, id);
    if LastWrite(deletes, id).None? && id !in Named(rules) && id in s.table {
      assert id !in ToRemove(s.table, rules) || !e.works;
    }
  }

  lemma {:induction false} NamedTouched(cs: seq<Cmd>, id: int)
    ensures id in Named(cs) <==> LastWrite(cs, id).Some?
    ensures LastWrite(cs, id).Some? ==> exists i :: 0 <= i < |cs| && Touches(cs[i], id)
  {
    if i :| 0 <= i < |cs| && Touches(cs[i], id) {
      TouchedId(cs, i, id);
    } else {
      UntouchedId(cs, id);
    }
  }

  /** Deleting `ids` leaves each of them, and no other id, absent. */
  lemma {:induction false} DeletesExactly(ids: seq<int>, id: int)
    ensures LastWrite(Deletes(ids), id) == if id in ids then Some(None) else None
  {
    if ids != [] {
      assert Deletes(ids)[1..] == Deletes(ids[1..]);
      DeletesExactly(ids[1..], id);
    }
  }

  lemma AListKeeps(s: State, e: Event)
    requires Bounds(s) && Agreement(s) && Enabled(s, e) && e.AList?
    ensures Bounds(Step(s, e)) && Agreement(Step(s, e))
  {
    BoundsKept(s, e);
    var t := Step(s, e);
    if s.a.revision == |s.log| {
      forall id
        ensures InTodo(t, id) ==> LastWrite(t.a.todo, id).value == Lookup(Fold(t.log), id)
        ensures Covered(t.log, id, t.a.works) ==> Settled(t, id) || InTodo(t, id)
      {
        AListWrites(s, e, id);
      }
    }
    if s.lastRevision == Published(s) {
      forall id | Covered(t.log, id, t.listed)
        ensures Settled(t, id)
      {
        assert Settled(s, id);
      }
    }
  }

  lemma AWriteKeeps(s: State, e: Event)
    requires Bounds(s) && Agreement(s) && Enabled(s, e) && e.AWrite?
    ensures Bounds(Step(s, e)) && Agreement(Step(s, e))
  {
    BoundsKept(s, e);
    var t := Step(s, e);
    if s.a.revision == |s.log| {
      forall id
        ensures InTodo(t, id) ==> InTodo(s, id) && LastWrite(t.a.todo, id) == LastWrite(s.a.todo, id)
        ensures Settled(s, id) || InTodo(s, id) ==> Settled(t, id) || InTodo(t, id)
      {
        if Settled(s, id) || InTodo(s, id) {
          AWriteSettles(s, e, id);
        }
      }
    }
  }

  /** Where neither table nor log changes, a step that lets B start earlier settles no less. */
  lemma StartsEarlier(s: State, t: State, id: int)
    requires NextB(t) <= NextB(s) <= |s.log| && Settled(s, id)
    requires t.log == s.log && t.table == s.table && s.suspect <= t.suspect
    ensures Settled(t, id)
  {
    if LastWrite(s.log[NextB(s)..], id).Some? {
      SuffixGrows(s.log, NextB(t), NextB(s), id);
    }
  }

  /** Giving up, crashing, storing and asking change neither table nor log. */
  predicate KeepsTable(e: Event) {
    e.AStore? || e.AGiveUp? || e.BAsk? || e.BFetch? || e.BStore? || e.BGiveUp? || e.Crash?
  }

  lemma RestSettles(s: State, e: Event, works: bool)
    requires SafeInv(s) && Enabled(s, e) && !CutShort(s, e) && KeepsTable(e) && AllSettled(s, works)
    requires Step(s, e).lastRevision == Published(s) || Step(s, e).a.Writing?
    requires Step(s, e).a.Writing? ==> s.a.revision == |s.log|
    requires Step(s, e).lastRevision == Published(s) && !e.AStore? ==> s.lastRevision == Published(s)
    ensures NextB(Step(s, e)) <= |s.log| && AllSettled(Step(s, e), works)
  {
    var t := Step(s, e);
    BoundsKept(s, e);
    assert NextB(t) <= NextB(s);
    forall id | Covered(t.log, id, works)
      ensures Settled(t, id) || InTodo(t, id)
    {
      assert Settled(s, id) || InTodo(s, id);
      if Settled(s, id) {
        StartsEarlier(s, t, id);
      }
    }
  }

  lemma RestKeeps(s: State, e: Event)
    requires SafeInv(s) && Agreement(s) && Enabled(s, e) && !CutShort(s, e) && KeepsTable(e)
    ensures Bounds(Step(s, e)) && Agreement(Step(s, e))
  {
    BoundsKept(s, e);
    var t := Step(s, e);
    if t.a.Writing? && t.a.revision == |t.log| {
      RestSettles(s, e, t.a.works);
    }
    if t.lastRevision == Published(t) {
      RestSettles(s, e, t.listed);
    }
  }

  lemma BApplyKeeps(s: State, e: Event)
    requires SafeInv(s) && Agreement(s) && Enabled(s, e) && e.BApply?
    ensures Bounds(Step(s, e)) && Agreement(Step(s, e))
  {
    BoundsKept(s, e);
    forall id | Settled(s, id)
      ensures Settled(Step(s, e), id)
    {
      BApplySettles(s, e, id);
    }
  }

  lemma AgreementKept(s: State, e: Event)
    requires SafeInv(s) && Agreement(s) && Enabled(s, e) && !CutShort(s, e)
    ensures Bounds(Step(s, e)) && Agreement(Step(s, e))
  {
    BoundsKept(s, e);
    match e
    case AList(_, _) => AListKeeps(s, e);
    case AWrite(_) => AWriteKeeps(s, e);
    case BApply(_) => BApplyKeeps(s, e);
    case Append(_) =>
    case AFetch(_, _) =>
    case ASkip =>
    case LocalBlock(_) =>
    case _ => RestKeeps(s, e);
  }

  lemma SafeInvKept(s: State, e: Event)
    requires SafeInv(s) && Enabled(s, e)
    ensures SafeInv(Step(s, e))
  {
    BoundsKept(s, e);
    DeliveryKept(s, e);
  }

  lemma InvKept(s: State, e: Event)
    requires Inv(s) && Enabled(s, e) && !CutShort(s, e)
    ensures Inv(Step(s, e))
  {
    SafeInvKept(s, e);
    AgreementKept(s, e);
  }

  lemma {:induction false} SafeInvAlongRun(s: State, es: seq<Event>)
    requires SafeInv(s) && Executable(s, es)
    ensures SafeInv(Run(s, es))
    decreases |es|
  {
    if es != [] {
      SafeInvKept(s, es[0]);
      SafeInvAlongRun(Step(s, es[0]), es[1..]);
    }
  }

  lemma {:induction false} InvAlongRun(s: State, es: seq<Event>)
    requires Inv(s) && Executable(s, es) && Uncut(s, es)
    ensures Inv(Run(s, es))
    decreases |es|
  {
    if es != [] {
      InvKept(s, es[0]);
      InvAlongRun(Step(s, es[0]), es[1..]);
    }
  }

  /** No channel does anything again. */
  predicate Forward(s: State) {
    !Replaying(s) && (!s.a.Waiting? ==> s.lastRevision < s.base + s.a.revision)
  }

  /** Where both channels can read their own fields nothing is done again, so nothing can be cut short. */
  lemma {:induction false} SightedIsUncut(s: State, es: seq<Event>)
    requires Bounds(s) && Forward(s) && Executable(s, es) && SightedRun(es)
    ensures Uncut(s, es)
    decreases |es|
  {
    if es != [] {
      BoundsKept(s, es[0]);
      assert Sighted(es[0]);
      assert forall i :: 0 <= i < |es[1..]| ==> es[1..][i] == es[i + 1];
      ForwardKept(s, es[0]);
      SightedIsUncut(Step(s, es[0]), es[1..]);
    }
  }

  lemma ForwardKept(s: State, e: Event)
    requires Bounds(s) && Forward(s) && Enabled(s, e) && Sighted(e)
    ensures Forward(Step(s, e)) && !CutShort(s, e)
  {
  }
}
