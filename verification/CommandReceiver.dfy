/** `FirewallCommandReceiver`: one long poll of channel B, from the server's answer to the stored cursor. */
module CommandReceiver {
  import opened Wrappers
  import opened RuleLog
  import opened RuleNames
  import opened FirewallApplier
  import opened StateStore

  /** `commandId` is "" when the field is missing or falsy. */
  datatype ServerCommand =
    | NotACommand
    | KillProcess(commandId: string)
    | Firewall(commandId: string, cmd: BCommand)

  /**
   `FetchRaised` is an exception while waiting, `Malformed` JSON of another shape, and
   `Batch([], _)` also stands for a `commands` field that is not a list.
   */
  datatype Answer =
    | NoAnswer
    | FetchRaised
    | Malformed
    | Batch(commands: seq<ServerCommand>, lastCommandId: Option<string>)

  datatype Replies = Replies(removing: nat -> RemoveReply, creating: nat -> UpsertReply)

  function CommandId(c: ServerCommand): string {
    if c.NotACommand? then "" else c.commandId
  }

  function CommandMeaning(c: ServerCommand): Cmd {
    if c.Firewall? then Meaning(c.cmd) else Inert
  }

  function Meanings(cs: seq<ServerCommand>): seq<Cmd> {
    seq(|cs|, i requires 0 <= i < |cs| => CommandMeaning(cs[i]))
  }

  /** The index of the first command whose handler raises, or the length when none does. */
  function FirstPoison(cs: seq<ServerCommand>): (n: nat)
    ensures n <= |cs|
    ensures forall i :: 0 <= i < n ==> !CommandMeaning(cs[i]).Poison?
    ensures n < |cs| ==> CommandMeaning(cs[n]).Poison?
  {
    if cs == [] || CommandMeaning(cs[0]).Poison? then 0 else 1 + FirstPoison(cs[1..])
  }

  function ReplyEffect(c: Cmd, replies: Replies, i: nat): Effect {
    MeaningEffect(c, replies.removing(i), replies.creating(i))
  }

  /** The writes handing over `cs` amounts to. */
  function BatchTrace(cs: seq<ServerCommand>, replies: Replies): seq<Cmd> {
    seq(|cs|, i requires 0 <= i < |cs| =>
      Effective(CommandMeaning(cs[i]), ReplyEffect(CommandMeaning(cs[i]), replies, i)))
  }

  /** The cursor an answer asks to store, if any. */
  function CursorUpdate(answer: Answer): Option<string>
    requires answer.Batch?
  {
    if answer.lastCommandId.Some? && Strip(answer.lastCommandId.value) != ""
    then Some(Strip(answer.lastCommandId.value))
    else if answer.commands != [] && CommandId(answer.commands[|answer.commands| - 1]) != ""
    then Some(CommandId(answer.commands[|answer.commands| - 1]))
    else None
  }

  /** `handed` counts the commands given to their handlers, the raising one included. */
  datatype PollResult = Unanswered | Raised(handed: nat) | Done(handed: nat)

  /** The `since` of the next request. */
  function SinceOf(conv: Conversions, file: File, readable: bool): Option<string> {
    var text := Strip(Loaded(conv, file, readable)[COMMAND_ID].s);
    if text == "" then None else Some(text)
  }

  function PolledRules(prefix: string, rules: Rules, answer: Answer, replies: Replies): Rules {
    if !answer.Batch? then rules
    else WriteNames(prefix, rules, BatchTrace(answer.commands[..FirstPoison(answer.commands)], replies))
  }

  /** The file changes only when the whole batch was handed over, a cursor came with it and the update worked. */
  function PolledFile(conv: Conversions, file: File, answer: Answer, readable: bool, writable: bool): File {
    if !answer.Batch? || FirstPoison(answer.commands) < |answer.commands| || CursorUpdate(answer).None? || !writable
    then file
    else
      var merged := Merged(conv, file, Items(FromB(CursorUpdate(answer).value)), readable);
      if merged.Some? then Holding(merged.value) else file
  }

  /** The cursor that came with the batch could not be stored. */
  predicate StoreRaises(conv: Conversions, file: File, answer: Answer, readable: bool, writable: bool)
    requires answer.Batch?
  {
    CursorUpdate(answer).Some? &&
    (!writable || Merged(conv, file, Items(FromB(CursorUpdate(answer).value)), readable).None?)
  }

  function Power(n: nat): nat {
    if n == 0 then 1 else 2 * Power(n - 1)
  }

  /** Seconds to wait after the given number of errors in a row. */
  function ErrorPause(streak: nat): real {
    var p := Power(if streak < 5 then streak else 5) as real;
    if p < 60.0 then p else 60.0
  }

  /** The pause doubles from two seconds up to 32 after five errors in a row, so its cap of 60 never applies. */
  lemma ErrorPauseBounds(streak: nat)
    requires streak >= 1
    ensures 2.0 <= ErrorPause(streak) <= 32.0
    ensures ErrorPause(streak) == if streak > 5 then 32.0 else [2.0, 4.0, 8.0, 16.0, 32.0][streak - 1]
  {
    assert Power(5) == 2 * Power(4) == 4 * Power(3) == 8 * Power(2) == 16 * Power(1) == 32;
  }

  class FirewallCommandReceiver {
    const applier: WindowsFirewallApplier
    const store: LocalStateStore
    const missingBackoff: real
    var errStreak: nat

    constructor (applier: WindowsFirewallApplier, store: LocalStateStore, endpointMissingBackoff: real)
      ensures this.applier == applier && this.store == store && errStreak == 0
      ensures missingBackoff >= 5.0 && missingBackoff >= endpointMissingBackoff
      ensures missingBackoff == 5.0 || missingBackoff == endpointMissingBackoff
    {
      this.applier, this.store, errStreak := applier, store, 0;
      missingBackoff := if endpointMissingBackoff > 5.0 then endpointMissingBackoff else 5.0;
    }

    /** None when nothing but spaces is stored; otherwise trimmed text that trimming again leaves alone. */
    method Since(readable: bool) returns (cursor: Option<string>)
      ensures cursor.Some? ==> cursor.value != "" && Strip(cursor.value) == cursor.value
      ensures cursor == SinceOf(store.conv, store.file, readable)
    {
      var st := store.Load(readable);
      var text := Strip(st[COMMAND_ID].s);
      StripIdempotent(st[COMMAND_ID].s);
      cursor := if text == "" then None else Some(text);
    }

    method HandOver(cs: seq<ServerCommand>, replies: Replies) returns (handed: nat, raised: bool)
      modifies applier`rules
      ensures var n := FirstPoison(cs);
              && raised == (n < |cs|)
              && handed == (if raised then n + 1 else |cs|)
              && applier.rules == WriteNames(applier.prefix, old(applier.rules), BatchTrace(cs[..n], replies))
    {
      handed, raised := 0, false;
      ghost var n := FirstPoison(cs);
      ghost var trace := BatchTrace(cs[..n], replies);
      while handed < |cs|
        invariant handed <= n
        invariant applier.rules == WriteNames(applier.prefix, old(applier.rules), trace[..handed])
      {
        if cs[handed].Firewall? {
          var errors: seq<Error>;
          raised, errors := applier.ApplyBCommand(cs[handed].cmd, replies.removing(handed),
                                                  replies.creating(handed), false);
          if raised {
            assert trace[..n] == trace;
            return handed + 1, true;
          }
        }
        assert handed < n;
        assert trace[..handed + 1][..handed] == trace[..handed];
        handed := handed + 1;
      }
      assert trace[..n] == trace;
    }

    method StoreCursor(answer: Answer, readable: bool, writable: bool) returns (raised: bool)
      requires answer.Batch? && FirstPoison(answer.commands) == |answer.commands|
      modifies store`file
      ensures store.file == PolledFile(store.conv, old(store.file), answer, readable, writable)
      ensures raised == StoreRaises(store.conv, old(store.file), answer, readable, writable)
    {
      raised := false;
      var commands := answer.commands;
      if answer.lastCommandId.Some? && Strip(answer.lastCommandId.value) != "" {
        raised := store.MergeUpdate(Items(FromB(Strip(answer.lastCommandId.value))), readable, writable);
      } else if commands != [] && CommandId(commands[|commands| - 1]) != "" {
        raised := store.MergeUpdate(Items(FromB(CommandId(commands[|commands| - 1]))), readable, writable);
      }
    }

    method TakeBatch(answer: Answer, replies: Replies, readable: bool, writable: bool)
      returns (handed: nat, raised: bool)
      requires answer.Batch?
      modifies applier`rules, store`file
      ensures applier.rules == PolledRules(applier.prefix, old(applier.rules), answer, replies)
      ensures store.file == PolledFile(store.conv, old(store.file), answer, readable, writable)
      ensures var n := FirstPoison(answer.commands);
              && raised == (n < |answer.commands| ||
                            StoreRaises(store.conv, old(store.file), answer, readable, writable))
              && handed == if n < |answer.commands| then n + 1 else n
    {
      handed, raised := HandOver(answer.commands, replies);
      if !raised {
        raised := StoreCursor(answer, readable, writable);
      }
    }

    /**
     One turn of the loop. Every command before the first raising one is handed over in
     order; the cursor moves only after the whole batch, and an exception leaves the store
     alone. `server` answers the cursor sent; `pause` is how long the loop then sleeps.
     */
    method PollOnce(server: Option<string> -> Answer, replies: Replies,
                    readable: bool, mergeReadable: bool, writable: bool)
      returns (result: PollResult, pause: real)
      modifies this`errStreak, applier`rules, store`file
      ensures var answer := server(SinceOf(store.conv, old(store.file), readable));
              && applier.rules == PolledRules(applier.prefix, old(applier.rules), answer, replies)
              && store.file == PolledFile(store.conv, old(store.file), answer, mergeReadable, writable)
              && match answer
                 case NoAnswer => result == Unanswered && errStreak == old(errStreak) + 1 && pause == missingBackoff
                 case FetchRaised => result == Raised(0) && errStreak == old(errStreak) + 1
                 case Malformed => result == Raised(0) && errStreak == 1
                 case Batch(commands, _) =>
                   var n := FirstPoison(commands);
                   if n < |commands| then result == Raised(n + 1) && errStreak == 1
                   else if StoreRaises(store.conv, old(store.file), answer, mergeReadable, writable) then
                     result == Raised(n) && errStreak == 1
                   else result == Done(n) && errStreak == 0 && pause == if n == 0 then 0.25 else 0.0
      ensures result.Raised? ==> errStreak >= 1 && pause == ErrorPause(errStreak)
    {
      var since := Since(readable);
      var answer := server(since);
      if answer.NoAnswer? {
        errStreak := errStreak + 1;
        return Unanswered, missingBackoff;
      }
      if answer.FetchRaised? {
        errStreak := errStreak + 1;
        return Raised(0), ErrorPause(errStreak);
      }
      errStreak := 0;
      if answer.Malformed? {
        errStreak := errStreak + 1;
        return Raised(0), ErrorPause(errStreak);
      }
      var handed, raised := TakeBatch(answer, replies, mergeReadable, writable);
      if raised {
        errStreak := errStreak + 1;
        return Raised(handed), ErrorPause(errStreak);
      }
      result, pause := Done(handed), if answer.commands == [] then 0.25 else 0.0;
    }
  }

  // ---- the server's side of the cursor ------------------------------------

  /** Ids are non-blank, carry no surrounding spaces and are not reused. */
  ghost predicate WellIdentified(log: seq<ServerCommand>) {
    && (forall i :: 0 <= i < |log| ==> CommandId(log[i]) != "" && Strip(CommandId(log[i])) == CommandId(log[i]))
    && (forall i, j :: 0 <= i < j < |log| ==> CommandId(log[i]) != CommandId(log[j]))
  }

  /** How much of the log a cursor acknowledges; an unknown cursor acknowledges nothing. */
  function Position(log: seq<ServerCommand>, cursor: string): (n: nat)
    ensures n <= |log|
  {
    if log == [] then 0
    else if CommandId(log[|log| - 1]) == cursor then |log|
    else Position(log[..|log| - 1], cursor)
  }

  /** Commands after the cursor, in order; `lastCommandId` names the last of them or is left out. */
  ghost predicate Answers(log: seq<ServerCommand>, cursor: string, answer: Answer, end: nat) {
    && answer.Batch?
    && Position(log, cursor) <= end <= |log|
    && answer.commands == log[Position(log, cursor)..end]
    && (answer.lastCommandId.None? ||
        (if end > Position(log, cursor) then answer.lastCommandId == Some(CommandId(log[end - 1]))
         else answer.lastCommandId == Some(cursor)))
  }

  lemma {:induction false} PositionOfId(log: seq<ServerCommand>, i: nat)
    requires WellIdentified(log) && i < |log|
    ensures Position(log, CommandId(log[i])) == i + 1
  {
    if i < |log| - 1 {
      assert WellIdentified(log[..|log| - 1]);
      PositionOfId(log[..|log| - 1], i);
    }
  }

  lemma UpdateNamesLast(log: seq<ServerCommand>, cursor: string, answer: Answer, end: nat)
    requires WellIdentified(log) && Answers(log, cursor, answer, end) && end > Position(log, cursor)
    ensures CursorUpdate(answer) == Some(CommandId(log[end - 1]))
  {
    assert answer.commands[|answer.commands| - 1] == log[end - 1];
  }

  /** After a batch the stored cursor acknowledges exactly the commands up to the end of the batch. */
  lemma CursorAcknowledgesBatch(log: seq<ServerCommand>, cursor: string, answer: Answer, end: nat)
    requires WellIdentified(log) && Strip(cursor) == cursor && Answers(log, cursor, answer, end)
    ensures Position(log, CursorUpdate(answer).GetOr(cursor)) == end
    ensures Strip(CursorUpdate(answer).GetOr(cursor)) == CursorUpdate(answer).GetOr(cursor)
  {
    if end > Position(log, cursor) {
      UpdateNamesLast(log, cursor, answer, end);
      PositionOfId(log, end - 1);
    } else {
      assert answer.commands == [];
      assert CursorUpdate(answer).GetOr(cursor) == cursor;
    }
  }

  /** The text whose position in the log a stored state acknowledges. */
  function CursorText(conv: Conversions, file: File): string {
    SinceOf(conv, file, true).GetOr("")
  }

  /**
   The next request asks for exactly what follows the batch: after a poll whose cursor
   could be stored the file acknowledges the end of the batch, otherwise what it did before.
   `readable` is about the load before the request, `mergeReadable` about the update.
   */
  lemma NextSinceFollowsBatch(conv: Conversions, file: File, log: seq<ServerCommand>, answer: Answer, end: nat,
                              readable: bool, mergeReadable: bool, writable: bool)
    requires Faithful(conv) && WellIdentified(log)
    requires Answers(log, SinceOf(conv, file, readable).GetOr(""), answer, end)
    ensures var stored := FirstPoison(answer.commands) == |answer.commands| && CursorUpdate(answer).Some? && writable;
            Position(log, CursorText(conv, PolledFile(conv, file, answer, mergeReadable, writable))) ==
            if stored then end else Position(log, CursorText(conv, file))
    ensures readable && CursorUpdate(answer).None? ==> end == Position(log, CursorText(conv, file))
  {
    var since := SinceOf(conv, file, readable).GetOr("");
    StripIdempotent(Loaded(conv, file, readable)[COMMAND_ID].s);
    CursorAcknowledgesBatch(log, since, answer, end);
    if CursorUpdate(answer).Some? {
      StoredCursorLoads(conv, file, CursorUpdate(answer).value, mergeReadable);
    }
  }

  /**
   The cursor stored after a whole batch is the trimmed `lastCommandId`, or, when that is
   missing or blank, the id of the last command; without either the stored cursor stays.
   */
  lemma CursorStored(conv: Conversions, file: File, answer: Answer, readable: bool)
    requires Faithful(conv) && answer.Batch? && FirstPoison(answer.commands) == |answer.commands|
    ensures var named := answer.lastCommandId.GetOr("");
            var cs := answer.commands;
            var lastId := if cs == [] || cs[|cs| - 1].NotACommand? then "" else cs[|cs| - 1].commandId;
            var after := PolledFile(conv, file, answer, readable, true);
            if Strip(named) != "" then CursorText(conv, after) == Strip(named)
            else if lastId != "" then CursorText(conv, after) == Strip(lastId)
            else after == file
  {
    WholeBatchStores(conv, file, answer, readable);
    StripIdempotent(answer.lastCommandId.GetOr(""));
  }

  lemma WholeBatchStores(conv: Conversions, file: File, answer: Answer, readable: bool)
    requires Faithful(conv) && answer.Batch? && FirstPoison(answer.commands) == |answer.commands|
    ensures var after := PolledFile(conv, file, answer, readable, true);
            if CursorUpdate(answer).Some? then CursorText(conv, after) == Strip(CursorUpdate(answer).value)
            else after == file
  {
    if CursorUpdate(answer).Some? {
      StoredCursorLoads(conv, file, CursorUpdate(answer).value, readable);
    }
  }

  lemma StoredCursorLoads(conv: Conversions, file: File, cursor: string, readable: bool)
    requires Faithful(conv)
    ensures var merged := Merged(conv, file, Items(FromB(cursor)), readable);
            merged.Some? && CursorText(conv, Holding(merged.value)) == Strip(cursor)
  {
    var v := LoadedShows(conv, file, readable);
    MergeShows(conv, file, FromB(cursor), readable, v);
  }
}
