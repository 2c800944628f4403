/**
 The code of both channels, step by step: each load, request, listing, single removal or
 upsert, handed-over command and update of the state file is a step of its own. Every
 interleaving of these steps is a run of the transition system.
 */
module Interleavings {
  import opened Wrappers
  import opened RuleLog
  import opened RuleNames
  import opened FirewallApplier
  import opened Reconciliation
  import opened StateStore
  import opened CommandReceiver
  import DesiredStateSync
  import opened HybridSync
  import opened Convergence
  import opened ChannelRefinement

  /** What never changes while the agent runs, and the revision the server gave to the empty log. */
  datatype Config = Config(prefix: string, supported: bool, conv: Conversions, base: nat)

  /** Where channel A's cycle stands; `todo` are the calls `reconcile` still has to make. */
  datatype CycleAt =
    | NoCycle
    | Loaded(last: int, readable: bool)
    | Holding(revision: int, entries: seq<Entry>)
    | Reconciling(revision: int, works: bool, todo: seq<Cmd>)

  /** Where channel B's poll stands; `from` is the position of the batch in the server's log. */
  datatype PollAt =
    | NoPoll
    | Requested(since: string)
    | HandingOver(answer: Answer, from: nat, handed: nat)

  datatype Agent = Agent(rules: Rules, file: File, log: seq<ServerCommand>, cycle: CycleAt, poll: PollAt)

  datatype CodeStep =
    | NewCommand(command: ServerCommand)
    | Load(readable: bool)
    | Fetch(snapshot: DesiredStateSync.Answer)
    | List(listing: Listing)
    | WriteRule(removing: RemoveReply, creating: UpsertReply)
    | StoreRevision(relisting: Listing, readable: bool, writable: bool)
    | EndCycle
    | Request(cursorReadable: bool)
    | Receive(answer: Answer, end: nat)
    | HandOver(removing: RemoveReply, creating: UpsertReply)
    | StoreCursor(readable: bool, writable: bool)
    | EndPoll
    | Restart
    | Block(rule: Rule, creating: UpsertReply)

  predicate HasNext(agent: Agent) {
    agent.poll.HandingOver? && agent.poll.answer.Batch? && agent.poll.handed < |agent.poll.answer.commands|
  }

  predicate HasHandedAll(agent: Agent) {
    agent.poll.HandingOver? && agent.poll.answer.Batch? && agent.poll.handed == |agent.poll.answer.commands|
  }

  function NextMeaning(agent: Agent): Cmd
    requires HasNext(agent)
  {
    CommandMeaning(agent.poll.answer.commands[agent.poll.handed])
  }

  /** Every text the agent compares with command ids. */
  predicate Holds(cfg: Config, agent: Agent, text: string) {
    || text == CursorText(cfg.conv, agent.file)
    || (agent.poll.Requested? && text == agent.poll.since)
    || (agent.poll.HandingOver? && agent.poll.answer.Batch? &&
        CursorUpdate(agent.poll.answer) == Some(text))
  }

  /** The server names commands afresh, publishes snapshots of its log, and answers from the cursor on. */
  ghost predicate Possible(cfg: Config, agent: Agent, e: CodeStep) {
    match e
    case NewCommand(c) => WellIdentified(agent.log + [c]) && !Holds(cfg, agent, CommandId(c))
    case Load(_) => agent.cycle.NoCycle?
    case Fetch(snapshot) =>
      agent.cycle.Loaded? &&
      (DesiredStateSync.Unanswered(snapshot) ||
       (snapshot.revision.value == cfg.base + |agent.log| &&
        ShowsTable(DesiredStateSync.EntriesOf(snapshot), Fold(Meanings(agent.log)))))
    case List(_) => agent.cycle.Holding?
    case WriteRule(_, _) => agent.cycle.Reconciling? && agent.cycle.todo != []
    case StoreRevision(_, _, _) => agent.cycle.Reconciling? && agent.cycle.todo == []
    case Request(_) => agent.poll.NoPoll?
    case Receive(answer, end) =>
      agent.poll.Requested? && (answer.Batch? ==> Answers(agent.log, agent.poll.since, answer, end))
    case HandOver(_, _) => HasNext(agent)
    case StoreCursor(_, _) => HasHandedAll(agent)
    case Block(rule, _) => rule.id in {EMERGENCY_ID, SPECIFIC_IP_ID}
    case _ => true
  }

  /** The effect of the next call of a reconcile. */
  function CallEffect(c: Cmd, removing: RemoveReply, creating: UpsertReply): Effect {
    MeaningEffect(c, removing, creating)
  }

  function Updated(conv: Conversions, file: File, u: Update, readable: bool, writable: bool): File {
    var merged := Merged(conv, file, Items(u), readable);
    if writable && merged.Some? then File.Holding(merged.value) else file
  }

  /** One `apply_b_command` call; an exception ends the poll. */
  function HandedOverOne(cfg: Config, agent: Agent, removing: RemoveReply, creating: UpsertReply): Agent
    requires HasNext(agent)
  {
    var m := NextMeaning(agent);
    if m.Poison? then agent.(poll := NoPoll)
    else agent.(rules := WriteName(cfg.prefix, agent.rules, Effective(m, MeaningEffect(m, removing, creating))),
                poll := agent.poll.(handed := agent.poll.handed + 1))
  }

  function CursorStored(cfg: Config, agent: Agent, readable: bool, writable: bool): Agent
    requires HasHandedAll(agent)
  {
    var update := CursorUpdate(agent.poll.answer);
    agent.(file := if update.None? then agent.file
                   else Updated(cfg.conv, agent.file, FromB(update.value), readable, writable),
           poll := NoPoll)
  }

  function RevisionStored(cfg: Config, agent: Agent, relisting: Listing, readable: bool, writable: bool): Agent
    requires agent.cycle.Reconciling?
  {
    var ids := if cfg.supported then Decimals(ListedNow(cfg.prefix, agent.rules, relisting)) else [];
    agent.(file := Updated(cfg.conv, agent.file, FromA(agent.cycle.revision, ids), readable, writable),
           cycle := NoCycle)
  }

  /** The calls a reconcile will make after this listing; none on a system it does not support. */
  function Calls(cfg: Config, rules: Rules, entries: seq<Entry>, listing: Listing): seq<Cmd> {
    if cfg.supported then Deletes(Removals(cfg.prefix, rules, entries, listing)) + Intents(Parsed(entries)) else []
  }

  function Next(cfg: Config, agent: Agent, e: CodeStep): Agent
    requires Possible(cfg, agent, e)
  {
    match e
    case NewCommand(c) => agent.(log := agent.log + [c])
    case Load(readable) =>
      agent.(cycle := Loaded(StateStore.Loaded(cfg.conv, agent.file, readable)[REVISION].n, readable))
    case Fetch(snapshot) =>
      if DesiredStateSync.Unanswered(snapshot) || snapshot.revision.value == agent.cycle.last
      then agent.(cycle := NoCycle)
      else agent.(cycle := CycleAt.Holding(snapshot.revision.value, DesiredStateSync.EntriesOf(snapshot)))
    case List(listing) =>
      agent.(cycle := Reconciling(agent.cycle.revision, cfg.supported && ListingWorks(cfg.prefix, listing),
                                  Calls(cfg, agent.rules, agent.cycle.entries, listing)))
    case WriteRule(removing, creating) =>
      var c := agent.cycle.todo[0];
      agent.(rules := WriteName(cfg.prefix, agent.rules, Effective(c, CallEffect(c, removing, creating))),
             cycle := agent.cycle.(todo := agent.cycle.todo[1..]))
    case StoreRevision(relisting, readable, writable) =>
      RevisionStored(cfg, agent, relisting, readable, writable)
    case EndCycle => agent.(cycle := NoCycle)
    case Request(readable) => agent.(poll := Requested(SinceOf(cfg.conv, agent.file, readable).GetOr("")))
    case Receive(answer, end) =>
      if answer.Batch? then agent.(poll := HandingOver(answer, Position(agent.log, agent.poll.since), 0))
      else agent.(poll := NoPoll)
    case HandOver(removing, creating) => HandedOverOne(cfg, agent, removing, creating)
    case StoreCursor(readable, writable) => CursorStored(cfg, agent, readable, writable)
    case EndPoll => agent.(poll := NoPoll)
    case Restart => agent.(cycle := NoCycle, poll := NoPoll)
    case Block(rule, creating) =>
      agent.(rules := WriteName(cfg.prefix, agent.rules,
                                Effective(Upsert(rule.id, rule.content), UpsertEffect(rule.content, creating))))
  }

  // ---- the simulation -----------------------------------------------------

  ghost predicate CycleModels(base: nat, cycle: CycleAt, a: ChannelA, lastRevision: int) {
    match cycle
    case NoCycle => a.Waiting?
    case Loaded(last, readable) =>
      a.Waiting? && (readable ==> lastRevision == last || lastRevision == 0) && (!readable ==> last == 0)
    case Holding(revision, entries) =>
      a.Fetched? && revision == base + a.revision && a.rules == Intents(Parsed(entries))
    case Reconciling(revision, works, todo) =>
      a.Writing? && revision == base + a.revision && works == a.works && todo == a.todo
  }

  /** The batch is the stretch of the log that starts at `from`, and its cursor names the end. */
  ghost predicate BatchModels(log: seq<ServerCommand>, answer: Answer, from: nat) {
    && answer.Batch? && from + |answer.commands| <= |log|
    && answer.commands == log[from..from + |answer.commands|]
    && (CursorUpdate(answer).Some? ==>
          Strip(CursorUpdate(answer).value) == CursorUpdate(answer).value &&
          Position(log, CursorUpdate(answer).value) == from + |answer.commands|)
  }

  ghost predicate PollModels(log: seq<ServerCommand>, poll: PollAt, b: ChannelB) {
    match poll
    case NoPoll => b.Polling?
    case Requested(since) => Strip(since) == since && b == Asking(Position(log, since))
    case HandingOver(answer, from, handed) =>
      && BatchModels(log, answer, from) && handed <= |answer.commands|
      && b == Applying(from + handed, from + |answer.commands|)
  }

  ghost predicate Simulates(cfg: Config, agent: Agent, s: State) {
    && Faithful(cfg.conv) && cfg.base >= 1 && s.base == cfg.base
    && WellIdentified(agent.log) && s.log == Meanings(agent.log)
    && Represents(cfg.prefix, agent.rules, s.table)
    && StoreModels(cfg.conv, agent.file, agent.log, s.lastRevision, s.cursor)
    && CycleModels(cfg.base, agent.cycle, s.a, s.lastRevision) && PollModels(agent.log, agent.poll, s.b)
  }

  lemma PositionKept(log: seq<ServerCommand>, c: ServerCommand, text: string)
    requires CommandId(c) != text
    ensures Position(log + [c], text) == Position(log, text)
  {
    assert (log + [c])[..|log|] == log;
  }

  lemma PollModelsKept(cfg: Config, agent: Agent, c: ServerCommand, b: ChannelB)
    requires PollModels(agent.log, agent.poll, b) && !Holds(cfg, agent, CommandId(c))
    ensures PollModels(agent.log + [c], agent.poll, b)
  {
    match agent.poll
    case NoPoll =>
    case Requested(since) => PositionKept(agent.log, c, since);
    case HandingOver(answer, from, handed) =>
      var end := from + |answer.commands|;
      assert (agent.log + [c])[from..end] == agent.log[from..end];
      if CursorUpdate(answer).Some? {
        PositionKept(agent.log, c, CursorUpdate(answer).value);
      }
  }

  lemma NewCommandSimulated(cfg: Config, agent: Agent, e: CodeStep, s: State)
    requires Simulates(cfg, agent, s) && Possible(cfg, agent, e) && e.NewCommand?
    ensures Simulates(cfg, Next(cfg, agent, e), Step(s, Append(CommandMeaning(e.command))))
  {
    assert Meanings(agent.log + [e.command]) == Meanings(agent.log) + [CommandMeaning(e.command)];
    PositionKept(agent.log, e.command, CursorText(cfg.conv, agent.file));
    PollModelsKept(cfg, agent, e.command, s.b);
  }

  lemma OneWrite(prefix: string, rules: Rules, table: Table, c: Cmd)
    requires Represents(prefix, rules, table)
    ensures Represents(prefix, WriteName(prefix, rules, c), Write(table, c))
  {
    assert WriteNames(prefix, rules, [c]) == WriteName(prefix, rules, c) by {
      assert [c][..0] == [];
    }
    assert WriteAll(table, [c]) == Write(table, c) by {
      assert [c][1..] == [];
    }
    WritesRepresented(prefix, rules, table, [c]);
  }

  lemma WriteRuleSimulated(cfg: Config, agent: Agent, e: CodeStep, s: State)
    requires Simulates(cfg, agent, s) && Possible(cfg, agent, e) && e.WriteRule?
    ensures var event := AWrite(CallEffect(agent.cycle.todo[0], e.removing, e.creating));
            Enabled(s, event) && Simulates(cfg, Next(cfg, agent, e), Step(s, event))
  {
    var c := agent.cycle.todo[0];
    OneWrite(cfg.prefix, agent.rules, s.table, Effective(c, CallEffect(c, e.removing, e.creating)));
  }

  lemma NextCommand(log: seq<ServerCommand>, answer: Answer, from: nat, handed: nat)
    requires BatchModels(log, answer, from) && handed < |answer.commands|
    ensures from + handed < |log| && Meanings(log)[from + handed] == CommandMeaning(answer.commands[handed])
  {
    assert answer.commands[handed] == log[from + handed];
  }

  /** Steps of a poll that leave store, cycle and log alone. */
  lemma PollOnly(cfg: Config, agent: Agent, agent': Agent, s: State, s': State)
    requires Simulates(cfg, agent, s)
    requires agent' == agent.(rules := agent'.rules, poll := agent'.poll)
    requires s' == s.(table := s'.table, b := s'.b,
                      delivered := s'.delivered, attempted := s'.attempted, suspect := s'.suspect)
    requires Represents(cfg.prefix, agent'.rules, s'.table) && PollModels(agent.log, agent'.poll, s'.b)
    ensures Simulates(cfg, agent', s')
  {
  }

  lemma OneHandedOver(prefix: string, rules: Rules, log: seq<ServerCommand>, s: State,
                      answer: Answer, from: nat, handed: nat, m: Cmd, effect: Effect)
    requires Represents(prefix, rules, s.table) && s.log == Meanings(log)
    requires PollModels(log, HandingOver(answer, from, handed), s.b)
    requires handed < |answer.commands| && m == CommandMeaning(answer.commands[handed]) && !m.Poison?
    ensures Enabled(s, BApply(effect))
    ensures var t := Step(s, BApply(effect));
            && t == s.(table := t.table, b := t.b,
                       delivered := t.delivered, attempted := t.attempted, suspect := t.suspect)
            && Represents(prefix, WriteName(prefix, rules, Effective(m, effect)), t.table)
            && PollModels(log, HandingOver(answer, from, handed + 1), t.b)
  {
    NextCommand(log, answer, from, handed);
    HandedOne(s, effect);
    OneWrite(prefix, rules, s.table, Effective(m, effect));
  }

  lemma OneRaised(log: seq<ServerCommand>, s: State, answer: Answer, from: nat, handed: nat, effect: Effect)
    requires s.log == Meanings(log) && PollModels(log, HandingOver(answer, from, handed), s.b)
    requires handed < |answer.commands| && CommandMeaning(answer.commands[handed]).Poison?
    ensures Enabled(s, BApply(effect))
    ensures var t := Step(s, BApply(effect)); t == s.(b := Polling, delivered := t.delivered)
  {
    NextCommand(log, answer, from, handed);
  }

  lemma RaisingHandOver(cfg: Config, agent: Agent, s: State, effect: Effect)
    requires Simulates(cfg, agent, s) && HasNext(agent) && NextMeaning(agent).Poison?
    ensures Enabled(s, BApply(effect)) && Simulates(cfg, agent.(poll := NoPoll), Step(s, BApply(effect)))
  {
    OneRaised(agent.log, s, agent.poll.answer, agent.poll.from, agent.poll.handed, effect);
    PollOnly(cfg, agent, agent.(poll := NoPoll), s, Step(s, BApply(effect)));
  }

  lemma WritingHandOver(cfg: Config, agent: Agent, s: State, m: Cmd, effect: Effect)
    requires Simulates(cfg, agent, s) && HasNext(agent) && m == NextMeaning(agent) && !m.Poison?
    ensures Enabled(s, BApply(effect))
    ensures Simulates(cfg, agent.(rules := WriteName(cfg.prefix, agent.rules, Effective(m, effect)),
                                  poll := agent.poll.(handed := agent.poll.handed + 1)), Step(s, BApply(effect)))
  {
    var poll := agent.poll;
    OneHandedOver(cfg.prefix, agent.rules, agent.log, s, poll.answer, poll.from, poll.handed, m, effect);
    var agent' := agent.(rules := WriteName(cfg.prefix, agent.rules, Effective(m, effect)),
                         poll := poll.(handed := poll.handed + 1));
    PollOnly(cfg, agent, agent', s, Step(s, BApply(effect)));
  }

  lemma HandOverSimulated(cfg: Config, agent: Agent, s: State, removing: RemoveReply, creating: UpsertReply)
    requires Simulates(cfg, agent, s) && HasNext(agent)
    ensures var event := BApply(MeaningEffect(NextMeaning(agent), removing, creating));
            Enabled(s, event) && Simulates(cfg, HandedOverOne(cfg, agent, removing, creating), Step(s, event))
  {
    var m := NextMeaning(agent);
    if m.Poison? {
      RaisingHandOver(cfg, agent, s, MeaningEffect(m, removing, creating));
    } else {
      WritingHandOver(cfg, agent, s, m, MeaningEffect(m, removing, creating));
    }
  }

  lemma RequestSimulated(cfg: Config, agent: Agent, e: CodeStep, s: State)
    requires Simulates(cfg, agent, s) && Possible(cfg, agent, e) && e.Request?
    ensures Enabled(s, BAsk(e.cursorReadable)) && Simulates(cfg, Next(cfg, agent, e), Step(s, BAsk(e.cursorReadable)))
  {
    StripIdempotent(StateStore.Loaded(cfg.conv, agent.file, e.cursorReadable)[COMMAND_ID].s);
    BlankAcknowledgesNothing(agent.log);
  }

  lemma ReceivedBatch(log: seq<ServerCommand>, since: string, answer: Answer, end: nat)
    requires WellIdentified(log) && Strip(since) == since && Answers(log, since, answer, end)
    ensures BatchModels(log, answer, Position(log, since)) && Position(log, since) + |answer.commands| == end
  {
    CursorAcknowledgesBatch(log, since, answer, end);
  }

  lemma BatchReceived(cfg: Config, agent: Agent, s: State, answer: Answer, end: nat)
    requires Simulates(cfg, agent, s) && agent.poll.Requested? && Answers(agent.log, agent.poll.since, answer, end)
    ensures Enabled(s, BFetch(end))
    ensures Simulates(cfg, agent.(poll := HandingOver(answer, Position(agent.log, agent.poll.since), 0)),
                      Step(s, BFetch(end)))
  {
    ReceivedBatch(agent.log, agent.poll.since, answer, end);
    var agent' := agent.(poll := HandingOver(answer, Position(agent.log, agent.poll.since), 0));
    PollOnly(cfg, agent, agent', s, Step(s, BFetch(end)));
  }

  /** How an update that works or not shows in the model. */
  lemma CursorFile(conv: Conversions, file: File, log: seq<ServerCommand>, cursor: string, readable: bool,
                   lastRevision: int, position: nat)
    requires Faithful(conv) && StoreModels(conv, file, log, lastRevision, position) && Strip(cursor) == cursor
    ensures StoreModels(conv, Updated(conv, file, FromB(cursor), readable, true), log,
                        if readable then lastRevision else 0, Position(log, cursor))
  {
    StoredCursorLoads(conv, file, cursor, readable);
    var v := LoadedShows(conv, file, readable);
    MergeShows(conv, file, FromB(cursor), readable, v);
  }

  lemma StoreCursorSimulated(cfg: Config, agent: Agent, s: State, readable: bool, writable: bool)
    requires Simulates(cfg, agent, s) && HasHandedAll(agent)
    ensures var event := if CursorUpdate(agent.poll.answer).Some? && writable then BStore(readable) else BGiveUp;
            Enabled(s, event) && Simulates(cfg, CursorStored(cfg, agent, readable, writable), Step(s, event))
  {
    var update := CursorUpdate(agent.poll.answer);
    if update.Some? && writable {
      CursorFile(cfg.conv, agent.file, agent.log, update.value, readable, s.lastRevision, s.cursor);
    }
  }

  lemma StoreRevisionSimulated(cfg: Config, agent: Agent, s: State, relisting: Listing, readable: bool, writable: bool)
    requires Simulates(cfg, agent, s) && agent.cycle.Reconciling? && agent.cycle.todo == []
    ensures var event := if writable then AStore(readable) else AGiveUp;
            && Enabled(s, event)
            && Simulates(cfg, RevisionStored(cfg, agent, relisting, readable, writable), Step(s, event))
  {
    var ids := if cfg.supported then Decimals(ListedNow(cfg.prefix, agent.rules, relisting)) else [];
    FileAfterCycle(cfg.conv, agent.file, agent.log, agent.cycle.revision, ids, readable, s.lastRevision, s.cursor);
  }

  /** A listing, and on a system without support the writes that are never made. */
  lemma ListSimulated(cfg: Config, agent: Agent, e: CodeStep, s: State) returns (es: seq<Event>)
    requires Simulates(cfg, agent, s) && Possible(cfg, agent, e) && e.List?
    ensures Executable(s, es) && Simulates(cfg, Next(cfg, agent, e), Run(s, es))
  {
    if cfg.supported {
      ListedAreModelled(cfg.prefix, agent.rules, s, agent.cycle.entries, e.listing);
      var event := AList(ListingWorks(cfg.prefix, e.listing),
                         Removals(cfg.prefix, agent.rules, agent.cycle.entries, e.listing));
      RunCons(s, event, []);
      es := [event] + [];
    } else {
      var s1 := Step(s, AList(false, []));
      var effects := NoEffect(|s1.a.todo|);
      AWritesRun(s1, effects);
      assert s1.a.todo[..|effects|] == s1.a.todo && s1.a.todo[|effects|..] == [];
      NothingWritten(s.table, s1.a.todo);
      RunCons(s, AList(false, []), AWrites(effects));
      es := [AList(false, [])] + AWrites(effects);
    }
  }

  lemma FetchSimulated(cfg: Config, agent: Agent, e: CodeStep, s: State) returns (es: seq<Event>)
    requires Simulates(cfg, agent, s) && Possible(cfg, agent, e) && e.Fetch?
    ensures Executable(s, es) && Simulates(cfg, Next(cfg, agent, e), Run(s, es))
  {
    if DesiredStateSync.Unanswered(e.snapshot) || e.snapshot.revision.value == agent.cycle.last {
      es := [];
    } else {
      var event := AFetch(agent.cycle.readable, Intents(Parsed(DesiredStateSync.EntriesOf(e.snapshot))));
      ShownIsSnapshot(DesiredStateSync.EntriesOf(e.snapshot), Meanings(agent.log));
      assert Enabled(s, event);
      RunCons(s, event, []);
      es := [event] + [];
    }
  }

  /** The local block controller's write, as far as it has an effect. */
  lemma BlockSimulated(cfg: Config, agent: Agent, e: CodeStep, s: State) returns (es: seq<Event>)
    requires Simulates(cfg, agent, s) && Possible(cfg, agent, e) && e.Block?
    ensures Executable(s, es) && Simulates(cfg, Next(cfg, agent, e), Run(s, es))
  {
    var c := Effective(Upsert(e.rule.id, e.rule.content), UpsertEffect(e.rule.content, e.creating));
    OneWrite(cfg.prefix, agent.rules, s.table, c);
    if c.Inert? {
      es := [];
    } else {
      RunCons(s, LocalBlock(c), []);
      es := [LocalBlock(c)] + [];
    }
  }

  lemma One(s: State, event: Event) returns (es: seq<Event>)
    requires Enabled(s, event)
    ensures Executable(s, es) && Run(s, es) == Step(s, event)
  {
    RunCons(s, event, []);
    es := [event] + [];
  }

  predicate OfCycle(e: CodeStep) {
    e.Load? || e.Fetch? || e.List? || e.WriteRule? || e.StoreRevision?
  }

  lemma CycleStepSimulated(cfg: Config, agent: Agent, e: CodeStep, s: State) returns (es: seq<Event>)
    requires Simulates(cfg, agent, s) && Possible(cfg, agent, e) && OfCycle(e)
    ensures Executable(s, es) && Simulates(cfg, Next(cfg, agent, e), Run(s, es))
  {
    match e
    case Load(_) => es := [];
    case Fetch(_) => es := FetchSimulated(cfg, agent, e, s);
    case List(_) => es := ListSimulated(cfg, agent, e, s);
    case WriteRule(removing, creating) =>
      WriteRuleSimulated(cfg, agent, e, s);
      es := One(s, AWrite(CallEffect(agent.cycle.todo[0], removing, creating)));
    case StoreRevision(_, readable, writable) =>
      StoreRevisionSimulated(cfg, agent, s, e.relisting, readable, writable);
      es := One(s, if writable then AStore(readable) else AGiveUp);
  }

  predicate OfPoll(e: CodeStep) {
    e.Request? || e.Receive? || e.HandOver? || e.StoreCursor?
  }

  lemma PollStepSimulated(cfg: Config, agent: Agent, e: CodeStep, s: State) returns (es: seq<Event>)
    requires Simulates(cfg, agent, s) && Possible(cfg, agent, e) && OfPoll(e)
    ensures Executable(s, es) && Simulates(cfg, Next(cfg, agent, e), Run(s, es))
  {
    match e
    case Request(readable) =>
      RequestSimulated(cfg, agent, e, s);
      es := One(s, BAsk(readable));
    case Receive(answer, end) =>
      if answer.Batch? {
        BatchReceived(cfg, agent, s, answer, end);
      } else {
        PollOnly(cfg, agent, agent.(poll := NoPoll), s, Step(s, BGiveUp));
      }
      es := One(s, if answer.Batch? then BFetch(end) else BGiveUp);
    case HandOver(removing, creating) =>
      HandOverSimulated(cfg, agent, s, removing, creating);
      es := One(s, BApply(MeaningEffect(NextMeaning(agent), removing, creating)));
    case StoreCursor(readable, writable) =>
      StoreCursorSimulated(cfg, agent, s, readable, writable);
      es := One(s, if CursorUpdate(agent.poll.answer).Some? && writable then BStore(readable) else BGiveUp);
  }

  /** Each step of the code is matched by steps of the model. */
  lemma StepSimulated(cfg: Config, agent: Agent, e: CodeStep, s: State) returns (es: seq<Event>)
    requires Simulates(cfg, agent, s) && Possible(cfg, agent, e)
    ensures Executable(s, es) && Simulates(cfg, Next(cfg, agent, e), Run(s, es))
  {
    if OfCycle(e) {
      es := CycleStepSimulated(cfg, agent, e, s);
    } else if OfPoll(e) {
      es := PollStepSimulated(cfg, agent, e, s);
    } else if e.NewCommand? {
      NewCommandSimulated(cfg, agent, e, s);
      es := One(s, Append(CommandMeaning(e.command)));
    } else if e.Block? {
      es := BlockSimulated(cfg, agent, e, s);
    } else {
      es := EndSimulated(cfg, agent, e, s);
    }
  }

  lemma EndSimulated(cfg: Config, agent: Agent, e: CodeStep, s: State) returns (es: seq<Event>)
    requires Simulates(cfg, agent, s) && Possible(cfg, agent, e) && (e.EndCycle? || e.EndPoll? || e.Restart?)
    ensures Executable(s, es) && Simulates(cfg, Next(cfg, agent, e), Run(s, es))
  {
    if e.Restart? {
      es := One(s, Crash);
    } else if e.EndCycle? && !s.a.Waiting? {
      es := One(s, AGiveUp);
    } else if e.EndPoll? && !s.b.Polling? {
      es := One(s, BGiveUp);
    } else {
      es := [];
    }
  }

  ghost predicate CodeRun(cfg: Config, agent: Agent, steps: seq<CodeStep>)
    decreases |steps|
  {
    steps == [] || (Possible(cfg, agent, steps[0]) && CodeRun(cfg, Next(cfg, agent, steps[0]), steps[1..]))
  }

  ghost function After(cfg: Config, agent: Agent, steps: seq<CodeStep>): Agent
    requires CodeRun(cfg, agent, steps)
    decreases |steps|
  {
    if steps == [] then agent else After(cfg, Next(cfg, agent, steps[0]), steps[1..])
  }

  /**
   Every interleaving of the code's steps, a half-done reconcile with polls in between
   included, is a run of the transition system that ends in a corresponding state.
   */
  lemma {:induction false} InterleavingIsRun(cfg: Config, agent: Agent, steps: seq<CodeStep>, s: State)
    returns (es: seq<Event>)
    requires Simulates(cfg, agent, s) && CodeRun(cfg, agent, steps)
    ensures Executable(s, es) && Simulates(cfg, After(cfg, agent, steps), Run(s, es))
    decreases |steps|
  {
    es := [];
    if steps != [] {
      var first := StepSimulated(cfg, agent, steps[0], s);
      var rest := InterleavingIsRun(cfg, Next(cfg, agent, steps[0]), steps[1..], Run(s, first));
      RunConcat(s, first, rest);
      es := first + rest;
    }
  }
}
