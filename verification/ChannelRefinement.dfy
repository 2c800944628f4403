/**
 Whole calls of the two channels' code are runs of the transition system: one poll of
 channel B and one cycle of channel A, however they end, take rules and state file where
 a run of the model takes its state.
 */
module ChannelRefinement {
  import opened Wrappers
  import opened RuleLog
  import opened RuleNames
  import opened SortedIds
  import opened FirewallApplier
  import opened Reconciliation
  import opened StateStore
  import opened CommandReceiver
  import DesiredStateSync
  import opened HybridSync
  import opened Convergence

  ghost predicate Represents(prefix: string, rules: Rules, table: Table) {
    forall id :: RuleAt(prefix, rules, id) == Lookup(table, id)
  }

  ghost predicate StoreModels(conv: Conversions, file: File, log: seq<ServerCommand>, lastRevision: int, cursor: nat) {
    && Loaded(conv, file, true)[REVISION] == Int(lastRevision)
    && Position(log, CursorText(conv, file)) == cursor
  }

  /** Both threads at rest over the same rules, store and server log. */
  ghost predicate Models(prefix: string, conv: Conversions, rules: Rules, file: File,
                         log: seq<ServerCommand>, s: State)
  {
    && s.log == Meanings(log)
    && s.a.Waiting? && s.b.Polling?
    && Represents(prefix, rules, s.table)
    && StoreModels(conv, file, log, s.lastRevision, s.cursor)
  }

  function EffectiveAll(cs: seq<Cmd>, effects: seq<Effect>): seq<Cmd>
    requires |cs| == |effects|
  {
    seq(|cs|, i requires 0 <= i < |cs| => Effective(cs[i], effects[i]))
  }

  lemma WritesRepresented(prefix: string, rules: Rules, table: Table, cs: seq<Cmd>)
    requires Represents(prefix, rules, table)
    ensures Represents(prefix, WriteNames(prefix, rules, cs), WriteAll(table, cs))
  {
    forall id
      ensures RuleAt(prefix, WriteNames(prefix, rules, cs), id) == Lookup(WriteAll(table, cs), id)
    {
      RuleAfterWrites(prefix, rules, cs, id);
      LookupAfterWrites(table, cs, id);
    }
  }

  // ---- channel B ----------------------------------------------------------

  function BApplies(effects: seq<Effect>): seq<Event> {
    if effects == [] then [] else [BApply(effects[0])] + BApplies(effects[1..])
  }

  lemma EffectiveTail(cs: seq<Cmd>, effects: seq<Effect>)
    requires |cs| == |effects| > 0
    ensures EffectiveAll(cs, effects)[1..] == EffectiveAll(cs[1..], effects[1..])
  {
  }

  /** From `s` to `t` B handed over everything before `next`, leaving this table. */
  ghost predicate Handed(s: State, t: State, table: Table, next: nat)
    requires s.b.Applying?
  {
    t == s.(b := Applying(next, s.b.end), table := table,
            delivered := t.delivered, attempted := t.attempted, suspect := t.suspect)
  }

  lemma HandedOne(s: State, e: Effect)
    requires s.b.Applying? && s.b.next < s.b.end <= |s.log| && !s.log[s.b.next].Poison?
    ensures Handed(s, Step(s, BApply(e)), Write(s.table, Effective(s.log[s.b.next], e)), s.b.next + 1)
  {
  }

  lemma WriteFirst(t: Table, cs: seq<Cmd>, effects: seq<Effect>)
    requires |cs| == |effects| > 0
    ensures WriteAll(t, EffectiveAll(cs, effects)) ==
            WriteAll(Write(t, Effective(cs[0], effects[0])), EffectiveAll(cs[1..], effects[1..]))
  {
    EffectiveTail(cs, effects);
  }

  /** The table once `effects` commands from `from` on have been handed over. */
  function Batched(s: State, from: nat, effects: seq<Effect>): Table
    requires from + |effects| <= |s.log|
  {
    WriteAll(s.table, EffectiveAll(s.log[from..from + |effects|], effects))
  }

  lemma HandedCons(s: State, u: State, t: State, effects: seq<Effect>)
    requires s.b.Applying? && effects != [] && s.b.next + |effects| <= |s.log|
    requires Handed(s, u, Write(s.table, Effective(s.log[s.b.next], effects[0])), s.b.next + 1)
    requires Handed(u, t, Batched(u, s.b.next + 1, effects[1..]), s.b.next + |effects|)
    ensures Handed(s, t, Batched(s, s.b.next, effects), s.b.next + |effects|)
  {
    var n := s.b.next;
    var ahead := s.log[n..n + |effects|];
    assert ahead[0] == s.log[n] && ahead[1..] == s.log[n + 1..n + 1 + |effects[1..]|];
    WriteFirst(s.table, ahead, effects);
  }

  lemma {:induction false} BatchRuns(s: State, effects: seq<Effect>)
    requires s.b.Applying? && s.b.next + |effects| <= s.b.end <= |s.log|
    requires forall i :: s.b.next <= i < s.b.next + |effects| ==> !s.log[i].Poison?
    ensures Executable(s, BApplies(effects))
    ensures Handed(s, Run(s, BApplies(effects)), Batched(s, s.b.next, effects), s.b.next + |effects|)
    decreases |effects|
  {
    if effects == [] {
      assert EffectiveAll(s.log[s.b.next..s.b.next], effects) == [];
    } else {
      var u := Step(s, BApply(effects[0]));
      HandedOne(s, effects[0]);
      BatchRuns(u, effects[1..]);
      RunCons(s, BApply(effects[0]), BApplies(effects[1..]));
      HandedCons(s, u, Run(u, BApplies(effects[1..])), effects);
    }
  }

  function BatchEffects(cs: seq<ServerCommand>, replies: Replies): seq<Effect> {
    seq(|cs|, i requires 0 <= i < |cs| => ReplyEffect(CommandMeaning(cs[i]), replies, i))
  }

  /** The events of one poll that hands over `effects` commands and ends in `last`. */
  function PollEvents(readable: bool, end: nat, effects: seq<Effect>, last: Event): seq<Event> {
    [BAsk(readable)] + ([BFetch(end)] + (BApplies(effects) + ([last] + [])))
  }

  /** Where B starts a poll. */
  function AskedFrom(s: State, readable: bool): nat {
    if readable then s.cursor else 0
  }

  /** The state in which a poll has handed over `effects` commands. */
  ghost predicate HandedOver(s: State, from: nat, end: nat, effects: seq<Effect>, t: State)
    requires from + |effects| <= |s.log|
  {
    Handed(s.(b := Applying(from, end)), t, Batched(s, from, effects), from + |effects|)
  }

  lemma PollSteps(s: State, readable: bool, end: nat, effects: seq<Effect>, last: Event) returns (t: State)
    requires s.b.Polling? && AskedFrom(s, readable) + |effects| <= end <= |s.log|
    requires forall i :: AskedFrom(s, readable) <= i < AskedFrom(s, readable) + |effects| ==> !s.log[i].Poison?
    ensures HandedOver(s, AskedFrom(s, readable), end, effects, t)
    ensures Enabled(t, last) ==>
              var es := PollEvents(readable, end, effects, last);
              Executable(s, es) && Run(s, es) == Step(t, last)
  {
    var s1 := Step(s, BAsk(readable));
    var s2 := Step(s1, BFetch(end));
    BatchRuns(s2, effects);
    t := Run(s2, BApplies(effects));
    if Enabled(t, last) {
      RunCons(t, last, []);
      RunConcat(s2, BApplies(effects), [last] + []);
      RunCons(s1, BFetch(end), BApplies(effects) + ([last] + []));
      RunCons(s, BAsk(readable), [BFetch(end)] + (BApplies(effects) + ([last] + [])));
    }
  }

  lemma BatchFacts(log: seq<ServerCommand>, from: nat, end: nat, replies: Replies)
    requires from <= end <= |log|
    ensures var n := FirstPoison(log[from..end]);
            && (forall i :: from <= i < from + n ==> !Meanings(log)[i].Poison?)
            && (from + n < end ==> Meanings(log)[from + n].Poison?)
            && EffectiveAll(Meanings(log)[from..from + n], BatchEffects(log[from..end][..n], replies)) ==
                 BatchTrace(log[from..end][..n], replies)
  {
    var cs := log[from..end];
    forall i | from <= i < end
      ensures Meanings(log)[i] == CommandMeaning(cs[i - from])
    {
    }
  }

  /** How a poll ends: at a raising command, with its cursor stored, or without. */
  function PollEnd(answer: Answer, mergeReadable: bool, writable: bool): Event
    requires answer.Batch?
  {
    if FirstPoison(answer.commands) < |answer.commands| then BApply(Applied)
    else if CursorUpdate(answer).Some? && writable then BStore(mergeReadable)
    else BGiveUp
  }

  /** From rest to rest B changed this table, cursor and revision. */
  ghost predicate Polled(s: State, t: State, table: Table, cursor: nat, lastRevision: int) {
    t == s.(table := table, cursor := cursor, lastRevision := lastRevision,
            delivered := t.delivered, attempted := t.attempted, suspect := t.suspect)
  }

  lemma PollEnds(s: State, from: nat, end: nat, effects: seq<Effect>, t: State, last: Event)
    requires s.b.Polling? && from + |effects| <= |s.log| && HandedOver(s, from, end, effects, t) && Enabled(t, last)
    requires (last.BApply? && t.log[t.b.next].Poison?) || last.BStore? || last.BGiveUp?
    ensures Polled(s, Step(t, last), Batched(s, from, effects),
                   if last.BStore? then end else s.cursor,
                   if last.BStore? && !last.keepsA then 0 else s.lastRevision)
  {
  }

  /** What a poll may end in once `effects` commands have been handed over. */
  predicate EndsIn(s: State, from: nat, end: nat, effects: seq<Effect>, last: Event)
    requires from + |effects| <= end <= |s.log|
  {
    match last
    case BApply(_) => from + |effects| < end && s.log[from + |effects|].Poison?
    case BStore(_) => from + |effects| == end
    case BGiveUp => true
    case _ => false
  }

  lemma PollRuns(s: State, readable: bool, end: nat, effects: seq<Effect>, last: Event)
    requires s.b.Polling? && AskedFrom(s, readable) + |effects| <= end <= |s.log|
    requires forall i :: AskedFrom(s, readable) <= i < AskedFrom(s, readable) + |effects| ==> !s.log[i].Poison?
    requires EndsIn(s, AskedFrom(s, readable), end, effects, last)
    ensures Executable(s, PollEvents(readable, end, effects, last))
    ensures Polled(s, Run(s, PollEvents(readable, end, effects, last)), Batched(s, AskedFrom(s, readable), effects),
                   if last.BStore? then end else s.cursor,
                   if last.BStore? && !last.keepsA then 0 else s.lastRevision)
  {
    var t := PollSteps(s, readable, end, effects, last);
    assert Enabled(t, last);
    PollEnds(s, AskedFrom(s, readable), end, effects, t, last);
  }

  /** The table, the cursor and the revision after a poll. */
  lemma BatchIsRun(log: seq<ServerCommand>, s: State, readable: bool, answer: Answer, end: nat, replies: Replies,
                   mergeReadable: bool, writable: bool)
    returns (es: seq<Event>)
    requires s.log == Meanings(log) && s.b.Polling? && AskedFrom(s, readable) <= end <= |log|
    requires answer.Batch? && answer.commands == log[AskedFrom(s, readable)..end]
    ensures Executable(s, es)
    ensures var cs := answer.commands;
            var stored := PollEnd(answer, mergeReadable, writable).BStore?;
            Polled(s, Run(s, es), WriteAll(s.table, BatchTrace(cs[..FirstPoison(cs)], replies)),
                   if stored then end else s.cursor, if stored && !mergeReadable then 0 else s.lastRevision)
  {
    var cs, from := answer.commands, AskedFrom(s, readable);
    var n := FirstPoison(cs);
    var effects := BatchEffects(cs[..n], replies);
    BatchFacts(log, from, end, replies);
    assert |effects| == n;
    var last := PollEnd(answer, mergeReadable, writable);
    PollRuns(s, readable, end, effects, last);
    es := PollEvents(readable, end, effects, last);
  }

  lemma BlankAcknowledgesNothing(log: seq<ServerCommand>)
    requires WellIdentified(log)
    ensures Position(log, "") == 0
  {
    if log != [] {
      assert CommandId(log[|log| - 1]) != "";
      assert WellIdentified(log[..|log| - 1]);
      BlankAcknowledgesNothing(log[..|log| - 1]);
    }
  }

  /** The file's revision survives a poll unless the update could not read it. */
  lemma RevisionAfterPoll(conv: Conversions, file: File, answer: Answer, mergeReadable: bool, writable: bool)
    requires Faithful(conv) && answer.Batch?
    ensures Loaded(conv, PolledFile(conv, file, answer, mergeReadable, writable), true)[REVISION] ==
            if PollEnd(answer, mergeReadable, writable).BStore? && !mergeReadable then Int(0)
            else Loaded(conv, file, true)[REVISION]
  {
    if PollEnd(answer, mergeReadable, writable).BStore? {
      var v := LoadedShows(conv, file, mergeReadable);
      MergeShows(conv, file, FromB(CursorUpdate(answer).value), mergeReadable, v);
    }
  }

  /**
   One poll of channel B is a run of the model, whether it is answered at all, a command
   makes it raise, its cursor cannot be read before or at the update, or cannot be written.
   */
  lemma PollIsRun(prefix: string, conv: Conversions, rules: Rules, file: File, log: seq<ServerCommand>,
                  s: State, readable: bool, answer: Answer, end: nat, replies: Replies,
                  mergeReadable: bool, writable: bool)
    returns (es: seq<Event>)
    requires Models(prefix, conv, rules, file, log, s) && Faithful(conv) && WellIdentified(log)
    requires answer.Batch? ==> Answers(log, SinceOf(conv, file, readable).GetOr(""), answer, end)
    ensures Executable(s, es)
    ensures Models(prefix, conv, PolledRules(prefix, rules, answer, replies),
                   PolledFile(conv, file, answer, mergeReadable, writable), log, Run(s, es))
  {
    if !answer.Batch? {
      return [];
    }
    BlankAcknowledgesNothing(log);
    es := BatchIsRun(log, s, readable, answer, end, replies, mergeReadable, writable);
    var n := FirstPoison(answer.commands);
    WritesRepresented(prefix, rules, s.table, BatchTrace(answer.commands[..n], replies));
    NextSinceFollowsBatch(conv, file, log, answer, end, readable, mergeReadable, writable);
    RevisionAfterPoll(conv, file, answer, mergeReadable, writable);
  }

  // ---- channel A ----------------------------------------------------------

  function AWrites(effects: seq<Effect>): seq<Event> {
    if effects == [] then [] else [AWrite(effects[0])] + AWrites(effects[1..])
  }

  /** The first writes of a reconcile, or all of them. */
  lemma {:induction false} AWritesRun(s: State, effects: seq<Effect>)
    requires s.a.Writing? && |effects| <= |s.a.todo|
    ensures Executable(s, AWrites(effects))
    ensures var t := Run(s, AWrites(effects));
            t == s.(a := Writing(s.a.revision, s.a.works, s.a.todo[|effects|..]),
                    attempted := t.attempted, suspect := t.suspect,
                    table := WriteAll(s.table, EffectiveAll(s.a.todo[..|effects|], effects)))
    decreases |effects|
  {
    var todo, n := s.a.todo, |effects|;
    if effects == [] {
      assert EffectiveAll(todo[..n], effects) == [] && todo[n..] == todo;
    } else {
      var u := Step(s, AWrite(effects[0]));
      AWritesRun(u, effects[1..]);
      RunCons(s, AWrite(effects[0]), AWrites(effects[1..]));
      assert todo[..n][0] == todo[0] && todo[..n][1..] == todo[1..][..n - 1] && todo[1..][n - 1..] == todo[n..];
      WriteFirst(s.table, todo[..n], effects);
    }
  }

  function RemovalEffects(ids: seq<int>, removing: int -> RemoveReply): seq<Effect> {
    seq(|ids|, i requires 0 <= i < |ids| => RemoveEffect(removing(ids[i])))
  }

  function UpsertEffects(rules: seq<Rule>, creating: nat -> UpsertReply): seq<Effect> {
    seq(|rules|, i requires 0 <= i < |rules| => UpsertEffect(rules[i].content, creating(i)))
  }

  /** A listing of this prefix that answers shows every managed rule in range. */
  predicate ListingWorks(prefix: string, listing: Listing) {
    listing.Complete? && OneSlash(prefix)
  }

  lemma ListedAreModelled(prefix: string, rules: Rules, s: State, entries: seq<Entry>, listing: Listing)
    requires Represents(prefix, rules, s.table)
    requires s.a.Fetched? && s.a.rules == Intents(Parsed(entries))
    ensures Lists(s, ListingWorks(prefix, listing), Removals(prefix, rules, entries, listing))
  {
    var parsed := Parsed(entries);
    forall id
      ensures id in Named(Intents(parsed)) <==> id in Ids(parsed)
      ensures id in ListedIds(prefix, rules.Keys) ==> Listable(id)
      ensures id in Removals(prefix, rules, entries, listing) ==>
                id in ListedIds(prefix, rules.Keys) && id !in Ids(parsed)
    {
      NamedTouched(Intents(parsed), id);
      WantedIsDesired(parsed, id);
      InRemovals(prefix, rules, entries, listing, id);
    }
    if ListingWorks(prefix, listing) {
      forall id | id in ToRemove(s.table, s.a.rules)
        ensures id in Removals(prefix, rules, entries, listing)
      {
        assert RuleAt(prefix, rules, id) == Lookup(s.table, id);
        ListedWhenThere(prefix, rules, id);
        InRemovals(prefix, rules, entries, listing, id);
      }
    }
  }

  lemma TraceEffects(ids: seq<int>, rules: seq<Rule>, shell: Shell)
    ensures EffectiveAll(Deletes(ids) + Intents(rules),
                         RemovalEffects(ids, shell.removing) + UpsertEffects(rules, shell.creating)) ==
            RemovalTrace(ids, shell.removing) + UpsertTrace(rules, shell.creating)
  {
    var cs := Deletes(ids) + Intents(rules);
    var effects := RemovalEffects(ids, shell.removing) + UpsertEffects(rules, shell.creating);
    forall i | 0 <= i < |cs|
      ensures EffectiveAll(cs, effects)[i] ==
              (RemovalTrace(ids, shell.removing) + UpsertTrace(rules, shell.creating))[i]
    {
      if i >= |ids| {
        UpsertAt(rules, shell.creating, i - |ids|);
      }
    }
  }

  /** The events of one reconcile that writes with these effects and ends in `last`. */
  function CycleEvents(readable: bool, rules: seq<Cmd>, works: bool, removals: seq<int>, effects: seq<Effect>,
                       last: Event): seq<Event>
  {
    [AFetch(readable, rules)] + ([AList(works, removals)] + (AWrites(effects) + ([last] + [])))
  }

  /** From rest to rest A changed this table, revision and cursor. */
  ghost predicate Cycled(s: State, t: State, table: Table, last: Event, works: bool)
    requires last.AStore? || last.AGiveUp?
  {
    t == s.(lastRevision := if last.AStore? then Published(s) else s.lastRevision,
            listed := if last.AStore? then works else s.listed,
            cursor := if last.AStore? && !last.keepsB then 0 else s.cursor,
            attempted := t.attempted, suspect := t.suspect, table := table)
  }

  lemma CycleEnds(s: State, rules: seq<Cmd>, works: bool, t: State, last: Event)
    requires s.a.Waiting? && (last.AStore? || last.AGiveUp?)
    requires t == s.(a := Writing(|s.log|, works, []), attempted := t.attempted, suspect := t.suspect, table := t.table)
    ensures Enabled(t, last) && Cycled(s, Step(t, last), t.table, last, works)
  {
  }

  lemma CycleRuns(s: State, readable: bool, rules: seq<Cmd>, works: bool, removals: seq<int>, effects: seq<Effect>,
                  last: Event)
    requires Enabled(s, AFetch(readable, rules)) && Lists(Step(s, AFetch(readable, rules)), works, removals)
    requires |effects| == |Deletes(removals) + rules|
    requires last.AStore? || last.AGiveUp?
    ensures var es := CycleEvents(readable, rules, works, removals, effects, last);
            && Executable(s, es)
            && Cycled(s, Run(s, es), WriteAll(s.table, EffectiveAll(Deletes(removals) + rules, effects)), last, works)
  {
    var s1 := Step(s, AFetch(readable, rules));
    var s2 := Step(s1, AList(works, removals));
    AWritesRun(s2, effects);
    assert s2.a.todo[..|effects|] == s2.a.todo;
    var s3 := Run(s2, AWrites(effects));
    CycleEnds(s, rules, works, s3, last);
    RunCons(s3, last, []);
    RunConcat(s2, AWrites(effects), [last] + []);
    RunCons(s1, AList(works, removals), AWrites(effects) + ([last] + []));
    RunCons(s, AFetch(readable, rules), [AList(works, removals)] + (AWrites(effects) + ([last] + [])));
  }

  function NoEffect(n: nat): seq<Effect> {
    seq(n, i => Unchanged)
  }

  lemma {:induction false} NothingWritten(t: Table, cs: seq<Cmd>)
    ensures WriteAll(t, EffectiveAll(cs, NoEffect(|cs|))) == t
    decreases |cs|
  {
    if cs != [] {
      assert EffectiveAll(cs, NoEffect(|cs|))[1..] == EffectiveAll(cs[1..], NoEffect(|cs[1..]|));
      NothingWritten(t, cs[1..]);
    }
  }

  /** The writes of a reconcile, on a system it supports or not, as a run up to its end. */
  lemma ReconcileIsRun(prefix: string, supported: bool, rules: Rules, s: State, readable: bool,
                       entries: seq<Entry>, shell: Shell, last: Event)
    returns (es: seq<Event>)
    requires Represents(prefix, rules, s.table)
    requires Enabled(s, AFetch(readable, Intents(Parsed(entries)))) && (last.AStore? || last.AGiveUp?)
    ensures Executable(s, es)
    ensures var t := Run(s, es);
            && Represents(prefix, DesiredStateSync.CycleResult(prefix, supported, rules, entries, shell).rules, t.table)
            && Cycled(s, t, t.table, last, supported && ListingWorks(prefix, shell.listing))
  {
    var parsed := Parsed(entries);
    var s1 := Step(s, AFetch(readable, Intents(parsed)));
    if supported {
      var removals := Removals(prefix, rules, entries, shell.listing);
      var effects := RemovalEffects(removals, shell.removing) + UpsertEffects(parsed, shell.creating);
      ListedAreModelled(prefix, rules, s1, entries, shell.listing);
      CycleRuns(s, readable, Intents(parsed), ListingWorks(prefix, shell.listing), removals, effects, last);
      TraceEffects(removals, parsed, shell);
      WritesRepresented(prefix, rules, s.table, Trace(prefix, rules, entries, shell));
      es := CycleEvents(readable, Intents(parsed), ListingWorks(prefix, shell.listing), removals, effects, last);
    } else {
      var cs := Deletes([]) + Intents(parsed);
      assert Lists(s1, false, []);
      CycleRuns(s, readable, Intents(parsed), false, [], NoEffect(|cs|), last);
      NothingWritten(s.table, cs);
      es := CycleEvents(readable, Intents(parsed), false, [], NoEffect(|cs|), last);
    }
  }

  /** A failed read at the update loses the cursor, not the revision just stored. */
  lemma FileAfterCycle(conv: Conversions, file: File, log: seq<ServerCommand>, revision: int, ids: seq<string>,
                       readable: bool, lastRevision: int, cursor: nat)
    requires Faithful(conv) && WellIdentified(log) && StoreModels(conv, file, log, lastRevision, cursor)
    ensures var merged := Merged(conv, file, Items(FromA(revision, ids)), readable);
            merged.Some? &&
            StoreModels(conv, Holding(merged.value), log, revision, if readable then cursor else 0)
  {
    BlankAcknowledgesNothing(log);
    var v := LoadedShows(conv, file, readable);
    MergeShows(conv, file, FromA(revision, ids), readable, v);
  }

  /** The file after a cycle that reconciles: unchanged, or with the new revision. */
  lemma CycledFileModels(prefix: string, supported: bool, conv: Conversions, rules: Rules, file: File,
                         log: seq<ServerCommand>, answer: DesiredStateSync.Answer, shell: Shell,
                         readable: bool, mergeReadable: bool, writable: bool, lastRevision: int, cursor: nat)
    requires Faithful(conv) && WellIdentified(log) && StoreModels(conv, file, log, lastRevision, cursor)
    requires !DesiredStateSync.Unanswered(answer) && !DesiredStateSync.Skips(conv, file, answer, readable)
    ensures StoreModels(conv, DesiredStateSync.CycledFile(conv, prefix, supported, rules, file, answer, shell,
                                                          readable, mergeReadable, writable), log,
                        if writable then answer.revision.value else lastRevision,
                        if writable && !mergeReadable then 0 else cursor)
  {
    var result := DesiredStateSync.CycleResult(prefix, supported, rules, DesiredStateSync.EntriesOf(answer), shell);
    FileAfterCycle(conv, file, log, answer.revision.value, result.ruleIds, mergeReadable, lastRevision, cursor);
  }

  /** What the code parses out of an honest snapshot is the model's. */
  lemma ShownIsSnapshot(entries: seq<Entry>, log: seq<Cmd>)
    ensures IsSnapshot(Intents(Parsed(entries)), log) <==> ShowsTable(entries, Fold(log))
  {
    forall id
      ensures Lookup(Fold(Intents(Parsed(entries))), id) == SnapshotRule(entries, id)
    {
      SnapshotParsed(entries, id);
    }
    if ShowsTable(entries, Fold(log)) {
      TablesEqual(Fold(Intents(Parsed(entries))), Fold(log));
    }
  }

  /**
   One cycle of channel A is a run of the model: skipped or unanswered, with a listing
   that breaks or misses rules, with any write failing, on a system it does not support,
   and with a store that cannot be read at the start, or read or written at the end.
   */
  lemma CycleIsRun(prefix: string, supported: bool, conv: Conversions, rules: Rules, file: File,
                   log: seq<ServerCommand>, s: State, answer: DesiredStateSync.Answer, shell: Shell,
                   readable: bool, mergeReadable: bool, writable: bool)
    returns (es: seq<Event>)
    requires Models(prefix, conv, rules, file, log, s) && Faithful(conv) && WellIdentified(log) && s.base >= 1
    requires !DesiredStateSync.Unanswered(answer) ==>
               answer.revision.value == Published(s) &&
               ShowsTable(DesiredStateSync.EntriesOf(answer), Fold(s.log))
    ensures Executable(s, es)
    ensures Models(prefix, conv,
                   DesiredStateSync.CycledRules(conv, prefix, supported, rules, file, answer, shell, readable),
                   DesiredStateSync.CycledFile(conv, prefix, supported, rules, file, answer, shell,
                                               readable, mergeReadable, writable),
                   log, Run(s, es))
  {
    if DesiredStateSync.Unanswered(answer) || DesiredStateSync.Skips(conv, file, answer, readable) {
      es := [];
    } else {
      var entries := DesiredStateSync.EntriesOf(answer);
      CycledFileModels(prefix, supported, conv, rules, file, log, answer, shell, readable, mergeReadable, writable,
                       s.lastRevision, s.cursor);
      ShownIsSnapshot(entries, s.log);
      assert Enabled(s, AFetch(readable, Intents(Parsed(entries))));
      es := ReconcileIsRun(prefix, supported, rules, s, readable, entries, shell,
                           if writable then AStore(mergeReadable) else AGiveUp);
    }
  }
}
