/**
 What a poll of channel B does to the rules and what the server's log stands for, read off
 the commands themselves: which of them set, drop or name an id, and which raise.
 */
module PollOutcome {
  import opened Wrappers
  import opened RuleLog
  import opened RuleNames
  import opened FirewallApplier
  import opened Reconciliation
  import opened CommandReceiver

  predicate IsUpsert(c: ServerCommand) {
    c.Firewall? && c.cmd.UpsertRule?
  }

  /** The rule under the payload's `rule` counts only when the payload has no `ruleId` of its own. */
  predicate Nested(c: ServerCommand) {
    IsUpsert(c) && c.cmd.payload.fields.ruleId.Missing? && c.cmd.payload.nested.Some?
  }

  predicate Sets(c: ServerCommand, id: int, content: Content) {
    || (IsUpsert(c) && c.cmd.payload.fields == RawRule(Number(id), content))
    || (Nested(c) && c.cmd.payload.nested.value == RawRule(Number(id), content))
  }

  predicate Drops(c: ServerCommand, id: int) {
    c.Firewall? && c.cmd.DeleteRule? && c.cmd.payload.fields.ruleId == Number(id)
  }

  predicate Names(c: ServerCommand, id: int) {
    || Drops(c, id)
    || (IsUpsert(c) && c.cmd.payload.fields.ruleId == Number(id))
    || (Nested(c) && c.cmd.payload.nested.value.ruleId == Number(id))
  }

  /** The id an upsert goes by is null or no integer. */
  predicate Raises(c: ServerCommand) {
    || (IsUpsert(c) && c.cmd.payload.fields.ruleId in {IdField.Null, IdField.Malformed})
    || (Nested(c) && c.cmd.payload.nested.value.ruleId in {IdField.Null, IdField.Malformed})
  }

  /** A name counts exactly when the command sets or drops it. */
  lemma NamedIsWritten(c: ServerCommand, id: int)
    ensures Names(c, id) <==> Drops(c, id) || exists content :: Sets(c, id, content)
    ensures !(Drops(c, id) && exists content :: Sets(c, id, content))
  {
    if IsUpsert(c) && c.cmd.payload.fields.ruleId == Number(id) {
      assert Sets(c, id, c.cmd.payload.fields.content);
    } else if Nested(c) && c.cmd.payload.nested.value.ruleId == Number(id) {
      assert Sets(c, id, c.cmd.payload.nested.value.content);
    }
  }

  lemma MeaningExactly(c: ServerCommand, id: int, content: Content)
    ensures CommandMeaning(c) == Upsert(id, content) <==> Sets(c, id, content)
    ensures CommandMeaning(c) == Delete(id) <==> Drops(c, id)
    ensures Touches(CommandMeaning(c), id) <==> Names(c, id)
    ensures CommandMeaning(c) == Poison <==> Raises(c)
  {
  }

  // ---- the log ------------------------------------------------------------

  /** The log leaves an id as its last command that names it says. */
  lemma LogState(log: seq<ServerCommand>, i: nat, id: int, content: Content)
    requires i < |log| && forall j :: i < j < |log| ==> !Names(log[j], id)
    ensures Sets(log[i], id, content) ==> Lookup(Fold(Meanings(log)), id) == Some(content)
    ensures Drops(log[i], id) ==> Lookup(Fold(Meanings(log)), id) == None
  {
    var cs := Meanings(log);
    MeaningExactly(log[i], id, content);
    forall j | i < j < |cs|
      ensures !Touches(cs[j], id)
    {
      MeaningExactly(log[j], id, content);
    }
    if Touches(cs[i], id) {
      LastWriteAt(cs, i, id);
    }
    LookupAfterWrites(map[], cs, id);
  }

  /** A log none of whose commands names an id has no rule for it. */
  lemma UnnamedInLog(log: seq<ServerCommand>, id: int)
    requires forall j :: 0 <= j < |log| ==> !Names(log[j], id)
    ensures id !in Fold(Meanings(log))
  {
    var cs := Meanings(log);
    forall j | 0 <= j < |cs|
      ensures !Touches(cs[j], id)
    {
      assert Touches(CommandMeaning(log[j]), id) <==> Names(log[j], id);
    }
    UntouchedId(cs, id);
    LookupAfterWrites(map[], cs, id);
  }

  // ---- one poll -----------------------------------------------------------

  /** The commands handed over are those before the first that raises. */
  lemma HandedUntilRaise(cs: seq<ServerCommand>)
    ensures forall i :: 0 <= i < FirstPoison(cs) ==> !Raises(cs[i])
    ensures FirstPoison(cs) < |cs| ==> Raises(cs[FirstPoison(cs)])
  {
    forall i | 0 <= i < FirstPoison(cs)
      ensures !Raises(cs[i])
    {
      assert CommandMeaning(cs[i]) == Poison <==> Raises(cs[i]);
    }
  }

  /** The handler of the i-th command left its rule as it was. */
  predicate NoEffectAt(cs: seq<ServerCommand>, replies: Replies, i: nat, id: int)
    requires i < |cs|
  {
    || !Names(cs[i], id)
    || (Drops(cs[i], id) && !replies.removing(i).gone)
    || (IsUpsert(cs[i]) &&
        var rule := if Nested(cs[i]) then cs[i].cmd.payload.nested.value else cs[i].cmd.payload.fields;
        !AddressesAccepted(rule.content.remoteAddresses) || replies.creating(i).NotRun?)
  }

  lemma EffectAt(cs: seq<ServerCommand>, replies: Replies, i: nat, id: int)
    requires i < |cs|
    ensures Touches(BatchTrace(cs, replies)[i], id) <==> !NoEffectAt(cs, replies, i, id)
  {
  }

  /**
   A poll leaves an id as the last command, before the first that raises, whose handler had
   an effect on it: an upsert with its content, or without a rule when the creation failed
   after the removal, and a deletion that worked without one.
   */
  lemma PollDecides(prefix: string, rules: Rules, answer: Answer, replies: Replies, i: nat, id: int)
    requires answer.Batch? && i < FirstPoison(answer.commands) && !NoEffectAt(answer.commands, replies, i, id)
    requires forall j :: i < j < FirstPoison(answer.commands) ==> NoEffectAt(answer.commands, replies, j, id)
    ensures forall content :: Sets(answer.commands[i], id, content) ==>
              RuleAt(prefix, PolledRules(prefix, rules, answer, replies), id) ==
              if replies.creating(i).CreateFailed? then None else Some(content)
    ensures Drops(answer.commands[i], id) ==>
              RuleAt(prefix, PolledRules(prefix, rules, answer, replies), id) == None
  {
    var n := FirstPoison(answer.commands);
    var cs := answer.commands[..n];
    var trace := BatchTrace(cs, replies);
    EffectAt(cs, replies, i, id);
    forall j | i < j < |trace|
      ensures !Touches(trace[j], id)
    {
      EffectAt(cs, replies, j, id);
      assert NoEffectAt(answer.commands, replies, j, id);
    }
    LastWriteAt(trace, i, id);
    RuleAfterWrites(prefix, rules, trace, id);
  }

  /** An id on which no handler of the poll had an effect keeps its rule. */
  lemma PollKeeps(prefix: string, rules: Rules, answer: Answer, replies: Replies, id: int)
    requires answer.Batch? ==>
               forall j :: 0 <= j < FirstPoison(answer.commands) ==> NoEffectAt(answer.commands, replies, j, id)
    ensures RuleAt(prefix, PolledRules(prefix, rules, answer, replies), id) == RuleAt(prefix, rules, id)
  {
    if answer.Batch? {
      var cs := answer.commands[..FirstPoison(answer.commands)];
      var trace := BatchTrace(cs, replies);
      forall j | 0 <= j < |trace|
        ensures !Touches(trace[j], id)
      {
        EffectAt(cs, replies, j, id);
        assert NoEffectAt(answer.commands, replies, j, id);
      }
      UntouchedId(trace, id);
      RuleAfterWrites(prefix, rules, trace, id);
    }
  }
}
