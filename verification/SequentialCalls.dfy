/**
 A whole poll and a whole cycle, as the methods of the two channels specify them, are
 their steps taken one after the other without any step of the other channel in between.
 */
module SequentialCalls {
  import opened Wrappers
  import opened RuleLog
  import opened FirewallApplier
  import opened Reconciliation
  import opened StateStore
  import opened CommandReceiver
  import DesiredStateSync
  import opened HybridSync
  import opened ChannelRefinement
  import opened Interleavings

  lemma CodeCons(cfg: Config, agent: Agent, e: CodeStep, steps: seq<CodeStep>)
    requires Possible(cfg, agent, e) && CodeRun(cfg, Next(cfg, agent, e), steps)
    ensures CodeRun(cfg, agent, [e] + steps) && After(cfg, agent, [e] + steps) == After(cfg, Next(cfg, agent, e), steps)
  {
    assert ([e] + steps)[1..] == steps;
  }

  lemma WriteNamesFirst(prefix: string, rules: Rules, cs: seq<Cmd>)
    requires cs != []
    ensures WriteNames(prefix, rules, cs) == WriteNames(prefix, WriteName(prefix, rules, cs[0]), cs[1..])
  {
    assert cs == [cs[0]] + cs[1..] && [cs[0]][..0] == [];
    WriteNamesConcat(prefix, rules, [cs[0]], cs[1..]);
    assert WriteNames(prefix, rules, [cs[0]]) == WriteName(prefix, rules, cs[0]);
  }

  // ---- channel B ----------------------------------------------------------

  /** The agent once the commands up to `n` have been handed over. */
  function HandedUpTo(cfg: Config, agent: Agent, n: nat, trace: seq<Cmd>): Agent
    requires agent.poll.HandingOver? && agent.poll.handed <= n <= |trace|
  {
    agent.(rules := WriteNames(cfg.prefix, agent.rules, trace[agent.poll.handed..n]),
           poll := agent.poll.(handed := n))
  }

  lemma OneOfBatch(cfg: Config, agent: Agent, replies: Replies, n: nat, trace: seq<Cmd>)
    requires HasNext(agent) && agent.poll.handed < n <= |agent.poll.answer.commands| && !NextMeaning(agent).Poison?
    requires trace == BatchTrace(agent.poll.answer.commands[..n], replies)
    ensures var h := agent.poll.handed;
            var agent' := HandedOverOne(cfg, agent, replies.removing(h), replies.creating(h));
            && agent'.poll == agent.poll.(handed := h + 1)
            && HandedUpTo(cfg, agent', n, trace) == HandedUpTo(cfg, agent, n, trace)
  {
    var h := agent.poll.handed;
    assert trace[h..n][0] == trace[h] && trace[h..n][1..] == trace[h + 1..n];
    WriteNamesFirst(cfg.prefix, agent.rules, trace[h..n]);
  }

  /** Handing over the commands up to `n`, none of which raises, and going on from there. */
  lemma {:induction false} BatchHandedOver(cfg: Config, agent: Agent, replies: Replies, n: nat, trace: seq<Cmd>,
                                           tail: seq<CodeStep>)
    returns (steps: seq<CodeStep>)
    requires agent.poll.HandingOver? && agent.poll.answer.Batch?
    requires agent.poll.handed <= n <= |agent.poll.answer.commands|
    requires forall i :: 0 <= i < n ==> !CommandMeaning(agent.poll.answer.commands[i]).Poison?
    requires trace == BatchTrace(agent.poll.answer.commands[..n], replies)
    requires CodeRun(cfg, HandedUpTo(cfg, agent, n, trace), tail)
    ensures CodeRun(cfg, agent, steps)
    ensures After(cfg, agent, steps) == After(cfg, HandedUpTo(cfg, agent, n, trace), tail)
    decreases n - agent.poll.handed
  {
    var h := agent.poll.handed;
    if h == n {
      assert trace[n..n] == [] && HandedUpTo(cfg, agent, n, trace) == agent;
      steps := tail;
    } else {
      var e := HandOver(replies.removing(h), replies.creating(h));
      var agent' := HandedOverOne(cfg, agent, replies.removing(h), replies.creating(h));
      OneOfBatch(cfg, agent, replies, n, trace);
      var rest := BatchHandedOver(cfg, agent', replies, n, trace, tail);
      CodeCons(cfg, agent, e, rest);
      steps := [e] + rest;
    }
  }

  /** The last step of a poll: the command that raises, or the cursor. */
  function PollEndStep(answer: Answer, replies: Replies, mergeReadable: bool, writable: bool): CodeStep
    requires answer.Batch?
  {
    var n := FirstPoison(answer.commands);
    if n < |answer.commands| then HandOver(replies.removing(n), replies.creating(n))
    else StoreCursor(mergeReadable, writable)
  }

  lemma LastPollStep(cfg: Config, agent: Agent, replies: Replies, mergeReadable: bool, writable: bool)
    requires agent.poll.HandingOver? && agent.poll.answer.Batch?
    requires agent.poll.handed == FirstPoison(agent.poll.answer.commands)
    ensures var e := PollEndStep(agent.poll.answer, replies, mergeReadable, writable);
            && Possible(cfg, agent, e)
            && Next(cfg, agent, e) ==
               agent.(file := PolledFile(cfg.conv, agent.file, agent.poll.answer, mergeReadable, writable),
                      poll := NoPoll)
  {
  }

  /** One poll, as `PollOnce` specifies it, is its steps one after the other. */
  lemma PollIsSteps(cfg: Config, agent: Agent, readable: bool, answer: Answer, end: nat, replies: Replies,
                    mergeReadable: bool, writable: bool)
    returns (steps: seq<CodeStep>)
    requires agent.poll.NoPoll? && answer.Batch?
    requires Answers(agent.log, SinceOf(cfg.conv, agent.file, readable).GetOr(""), answer, end)
    ensures CodeRun(cfg, agent, steps)
    ensures After(cfg, agent, steps) ==
            agent.(rules := PolledRules(cfg.prefix, agent.rules, answer, replies),
                   file := PolledFile(cfg.conv, agent.file, answer, mergeReadable, writable))
  {
    var n := FirstPoison(answer.commands);
    var trace := BatchTrace(answer.commands[..n], replies);
    var agent1 := Next(cfg, agent, Request(readable));
    var agent2 := Next(cfg, agent1, Receive(answer, end));
    assert trace[0..n] == trace;
    var agent3 := HandedUpTo(cfg, agent2, n, trace);
    var e := PollEndStep(answer, replies, mergeReadable, writable);
    LastPollStep(cfg, agent3, replies, mergeReadable, writable);
    CodeCons(cfg, agent3, e, []);
    var rest := BatchHandedOver(cfg, agent2, replies, n, trace, [e] + []);
    CodeCons(cfg, agent1, Receive(answer, end), rest);
    CodeCons(cfg, agent, Request(readable), [Receive(answer, end)] + rest);
    steps := [Request(readable)] + ([Receive(answer, end)] + rest);
  }

  // ---- channel A ----------------------------------------------------------

  /** The replies that give the i-th call of a reconcile its effect. */
  function RemovalReply(removals: seq<int>, shell: Shell, i: nat): RemoveReply {
    shell.removing(if i < |removals| then removals[i] else 0)
  }

  function CreationReply(removals: seq<int>, shell: Shell, i: nat): UpsertReply {
    shell.creating(if i < |removals| then 0 else i - |removals|)
  }

  /** The agent once a reconcile has made its calls from the i-th on. */
  function AllWritten(cfg: Config, agent: Agent, trace: seq<Cmd>, i: nat): Agent
    requires agent.cycle.Reconciling? && i <= |trace|
  {
    agent.(rules := WriteNames(cfg.prefix, agent.rules, trace[i..]), cycle := agent.cycle.(todo := []))
  }

  lemma {:induction false} RulesWritten(cfg: Config, agent: Agent, removals: seq<int>, shell: Shell,
                                        all: seq<Cmd>, trace: seq<Cmd>, i: nat, tail: seq<CodeStep>)
    returns (steps: seq<CodeStep>)
    requires agent.cycle.Reconciling? && |trace| == |all| && i <= |all| && agent.cycle.todo == all[i..]
    requires forall j: nat :: j < |all| ==>
               trace[j] == Effective(all[j], CallEffect(all[j], RemovalReply(removals, shell, j),
                                                        CreationReply(removals, shell, j)))
    requires CodeRun(cfg, AllWritten(cfg, agent, trace, i), tail)
    ensures CodeRun(cfg, agent, steps)
    ensures After(cfg, agent, steps) == After(cfg, AllWritten(cfg, agent, trace, i), tail)
    decreases |all| - i
  {
    if i == |all| {
      assert AllWritten(cfg, agent, trace, i) == agent;
      steps := tail;
    } else {
      var e := WriteRule(RemovalReply(removals, shell, i), CreationReply(removals, shell, i));
      assert all[i..][0] == all[i] && all[i..][1..] == all[i + 1..];
      var agent' := Next(cfg, agent, e);
      assert trace[i..][0] == trace[i] && trace[i..][1..] == trace[i + 1..];
      WriteNamesFirst(cfg.prefix, agent.rules, trace[i..]);
      assert AllWritten(cfg, agent', trace, i + 1) == AllWritten(cfg, agent, trace, i);
      var rest := RulesWritten(cfg, agent', removals, shell, all, trace, i + 1, tail);
      CodeCons(cfg, agent, e, rest);
      steps := [e] + rest;
    }
  }

  lemma TraceCalls(removals: seq<int>, wanted: seq<Rule>, shell: Shell, j: nat)
    requires j < |removals| + |wanted|
    ensures var all := Deletes(removals) + Intents(wanted);
            (RemovalTrace(removals, shell.removing) + UpsertTrace(wanted, shell.creating))[j] ==
            Effective(all[j], CallEffect(all[j], RemovalReply(removals, shell, j), CreationReply(removals, shell, j)))
  {
    if j >= |removals| {
      UpsertAt(wanted, shell.creating, j - |removals|);
    }
  }

  /** The agent once a reconcile of the snapshot it holds has made all its calls. */
  function ReconcileDone(cfg: Config, agent: Agent, shell: Shell): Agent
    requires agent.cycle.Holding?
  {
    var result := DesiredStateSync.CycleResult(cfg.prefix, cfg.supported, agent.rules, agent.cycle.entries, shell);
    agent.(rules := result.rules,
           cycle := Reconciling(agent.cycle.revision, cfg.supported && ListingWorks(cfg.prefix, shell.listing), []))
  }

  /** The calls of a reconcile, from its listing on. */
  lemma ReconcileIsSteps(cfg: Config, agent: Agent, shell: Shell, tail: seq<CodeStep>) returns (steps: seq<CodeStep>)
    requires agent.cycle.Holding? && CodeRun(cfg, ReconcileDone(cfg, agent, shell), tail)
    ensures CodeRun(cfg, agent, steps)
    ensures After(cfg, agent, steps) == After(cfg, ReconcileDone(cfg, agent, shell), tail)
  {
    var entries := agent.cycle.entries;
    var agent1 := Next(cfg, agent, CodeStep.List(shell.listing));
    var rest := tail;
    if cfg.supported {
      var removals := Removals(cfg.prefix, agent.rules, entries, shell.listing);
      var trace := Trace(cfg.prefix, agent.rules, entries, shell);
      var all := Deletes(removals) + Intents(Parsed(entries));
      forall j: nat | j < |all|
        ensures trace[j] == Effective(all[j], CallEffect(all[j], RemovalReply(removals, shell, j),
                                                         CreationReply(removals, shell, j)))
      {
        TraceCalls(removals, Parsed(entries), shell, j);
      }
      assert all[0..] == all && trace[0..] == trace;
      assert AllWritten(cfg, agent1, trace, 0) == ReconcileDone(cfg, agent, shell);
      rest := RulesWritten(cfg, agent1, removals, shell, all, trace, 0, tail);
    }
    CodeCons(cfg, agent, CodeStep.List(shell.listing), rest);
    steps := [CodeStep.List(shell.listing)] + rest;
  }

  /** A cycle that reconciles, from its listing to its update. */
  lemma ReconcilingSteps(cfg: Config, agent: Agent, shell: Shell, readable: bool, writable: bool)
    returns (steps: seq<CodeStep>)
    requires agent.cycle.Holding?
    ensures CodeRun(cfg, agent, steps)
    ensures var result := DesiredStateSync.CycleResult(cfg.prefix, cfg.supported, agent.rules, agent.cycle.entries,
                                                       shell);
            var u := FromA(agent.cycle.revision, result.ruleIds);
            After(cfg, agent, steps) ==
            agent.(rules := result.rules, file := Interleavings.Updated(cfg.conv, agent.file, u, readable, writable),
                   cycle := NoCycle)
  {
    var agent' := ReconcileDone(cfg, agent, shell);
    var e := StoreRevision(shell.relisting, readable, writable);
    CodeCons(cfg, agent', e, []);
    steps := ReconcileIsSteps(cfg, agent, shell, [e] + []);
  }

  /** The snapshot a cycle goes on with, unless it is skipped or missing. */
  function Fetched(cfg: Config, agent: Agent, snapshot: DesiredStateSync.Answer, readable: bool): Agent {
    if DesiredStateSync.Unanswered(snapshot) || DesiredStateSync.Skips(cfg.conv, agent.file, snapshot, readable)
    then agent.(cycle := NoCycle)
    else agent.(cycle := CycleAt.Holding(snapshot.revision.value, DesiredStateSync.EntriesOf(snapshot)))
  }

  lemma FetchedNext(cfg: Config, agent: Agent, snapshot: DesiredStateSync.Answer, readable: bool)
    requires agent.cycle.NoCycle? && Possible(cfg, Next(cfg, agent, Load(readable)), Fetch(snapshot))
    ensures Next(cfg, Next(cfg, agent, Load(readable)), Fetch(snapshot)) == Fetched(cfg, agent, snapshot, readable)
  {
  }

  lemma CycleRest(cfg: Config, agent: Agent, snapshot: DesiredStateSync.Answer, shell: Shell,
                  readable: bool, mergeReadable: bool, writable: bool)
    returns (steps: seq<CodeStep>)
    requires agent.cycle.NoCycle?
    ensures var agent' := Fetched(cfg, agent, snapshot, readable);
            CodeRun(cfg, agent', steps) && After(cfg, agent', steps) ==
            agent.(rules := DesiredStateSync.CycledRules(cfg.conv, cfg.prefix, cfg.supported, agent.rules, agent.file,
                                                         snapshot, shell, readable),
                   file := DesiredStateSync.CycledFile(cfg.conv, cfg.prefix, cfg.supported, agent.rules, agent.file,
                                                       snapshot, shell, readable, mergeReadable, writable))
  {
    steps := [];
    var agent' := Fetched(cfg, agent, snapshot, readable);
    if agent'.cycle.Holding? {
      steps := ReconcilingSteps(cfg, agent', shell, mergeReadable, writable);
    }
  }

  /** One cycle, as `SyncCycle` specifies it, is its steps one after the other. */
  lemma CycleIsSteps(cfg: Config, agent: Agent, snapshot: DesiredStateSync.Answer, shell: Shell,
                     readable: bool, mergeReadable: bool, writable: bool)
    returns (steps: seq<CodeStep>)
    requires agent.cycle.NoCycle?
    requires Possible(cfg, Next(cfg, agent, Load(readable)), Fetch(snapshot))
    ensures CodeRun(cfg, agent, steps)
    ensures After(cfg, agent, steps) ==
            agent.(rules := DesiredStateSync.CycledRules(cfg.conv, cfg.prefix, cfg.supported, agent.rules, agent.file,
                                                         snapshot, shell, readable),
                   file := DesiredStateSync.CycledFile(cfg.conv, cfg.prefix, cfg.supported, agent.rules, agent.file,
                                                       snapshot, shell, readable, mergeReadable, writable))
  {
    var agent1 := Next(cfg, agent, Load(readable));
    FetchedNext(cfg, agent, snapshot, readable);
    var rest := CycleRest(cfg, agent, snapshot, shell, readable, mergeReadable, writable);
    CodeCons(cfg, agent1, Fetch(snapshot), rest);
    CodeCons(cfg, agent, Load(readable), [Fetch(snapshot)] + rest);
    steps := [Load(readable)] + ([Fetch(snapshot)] + rest);
  }
}
