/** `FirewallDesiredStateSync`: one cycle of channel A. */
module DesiredStateSync {
  import opened Wrappers
  import opened RuleLog
  import opened FirewallApplier
  import opened StateStore

  /** `revision` is None when `int` raises on it; a missing revision counts as 0. */
  datatype Answer = NoSnapshot | Snapshot(revision: Option<int>, rules: Option<seq<Entry>>)

  function EntriesOf(answer: Answer): seq<Entry>
    requires answer.Snapshot?
  {
    answer.rules.GetOr([])
  }

  function ReconcileItems(revision: int, ruleIds: seq<string>): seq<(string, Json)> {
    Items(FromA(revision, ruleIds))
  }

  datatype Result = Result(rules: Rules, errors: seq<Error>, ruleIds: seq<string>)

  /** What `Reconcile` leaves behind and returns. */
  function CycleResult(prefix: string, supported: bool, rules: Rules, entries: seq<Entry>, shell: Shell): Result {
    if !supported then Result(rules, [UnsupportedSystem], [])
    else
      var after := Reconciled(prefix, rules, entries, shell);
      Result(after, ReconcileErrors(prefix, rules, entries, shell),
             Decimals(ListedNow(prefix, after, shell.relisting)))
  }

  /** What the server is told after a cycle has stored its revision. */
  datatype Report = Report(revision: int, errors: seq<Error>, ruleIds: seq<string>)

  /** The cycle ends before it touches anything. */
  predicate Unanswered(answer: Answer) {
    answer.NoSnapshot? || answer.revision.None?
  }

  predicate Skips(conv: Conversions, file: File, answer: Answer, readable: bool) {
    !Unanswered(answer) && Loaded(conv, file, readable)[REVISION] == Int(answer.revision.value)
  }

  /** What the cycle's update would store. */
  function CycleMerged(conv: Conversions, file: File, answer: Answer, result: Result, readable: bool): Option<Dict>
    requires !Unanswered(answer)
  {
    Merged(conv, file, ReconcileItems(answer.revision.value, result.ruleIds), readable)
  }

  function CycledRules(conv: Conversions, prefix: string, supported: bool, rules: Rules, file: File,
                       answer: Answer, shell: Shell, readable: bool): Rules {
    if Unanswered(answer) || Skips(conv, file, answer, readable) then rules
    else CycleResult(prefix, supported, rules, EntriesOf(answer), shell).rules
  }

  /** The revision is stored after every reconcile, errors or not, if the update works. */
  function CycledFile(conv: Conversions, prefix: string, supported: bool, rules: Rules, file: File,
                      answer: Answer, shell: Shell, readable: bool, mergeReadable: bool, writable: bool): File {
    if Unanswered(answer) || Skips(conv, file, answer, readable) || !writable then file
    else
      var result := CycleResult(prefix, supported, rules, EntriesOf(answer), shell);
      var merged := CycleMerged(conv, file, answer, result, mergeReadable);
      if merged.Some? then Holding(merged.value) else file
  }

  /**
   A cycle with something to do stores the server's revision, higher or lower, and the rule
   ids it found, whatever the reconcile reported; it keeps the cursor of channel B if the
   store can be read for the update.
   */
  lemma CycleStores(conv: Conversions, prefix: string, supported: bool, rules: Rules, file: File, answer: Answer,
                    shell: Shell, readable: bool, mergeReadable: bool)
    requires Faithful(conv) && answer.Snapshot? && answer.revision.Some?
    requires Loaded(conv, file, readable)["last_revision"] != Int(answer.revision.value)
    ensures var after := Loaded(conv, CycledFile(conv, prefix, supported, rules, file, answer, shell, readable,
                                                 mergeReadable, true), true);
            && after["last_revision"] == Int(answer.revision.value)
            && after["local_rule_ids"] ==
               List(Texts(CycleResult(prefix, supported, rules, EntriesOf(answer), shell).ruleIds))
            && after["last_command_id"] == Loaded(conv, file, mergeReadable)["last_command_id"]
  {
    var result := CycleResult(prefix, supported, rules, EntriesOf(answer), shell);
    var v := LoadedShows(conv, file, mergeReadable);
    MergeShows(conv, file, FromA(answer.revision.value, result.ruleIds), mergeReadable, v);
  }

  class FirewallDesiredStateSync {
    const applier: WindowsFirewallApplier
    const store: LocalStateStore
    const reportStatus: bool
    var failStreak: nat

    constructor (applier: WindowsFirewallApplier, store: LocalStateStore, reportStatus: bool)
      ensures this.applier == applier && this.store == store && this.reportStatus == reportStatus && failStreak == 0
    {
      this.applier, this.store, this.reportStatus, failStreak := applier, store, reportStatus, 0;
    }

    /** The reconcile and the update of a cycle that has something to do. */
    method ReconcileAndStore(answer: Answer, shell: Shell, mergeReadable: bool, writable: bool)
      returns (stored: bool, result: Result)
      requires !Unanswered(answer)
      modifies applier`rules, store`file
      ensures result == CycleResult(applier.prefix, applier.supported, old(applier.rules), EntriesOf(answer), shell)
      ensures applier.rules == result.rules
      ensures var merged := CycleMerged(store.conv, old(store.file), answer, result, mergeReadable);
              && stored == (writable && merged.Some?)
              && store.file == if stored then Holding(merged.value) else old(store.file)
    {
      var errors, ids := applier.Reconcile(answer.rules, shell);
      result := Result(applier.rules, errors, ids);
      var raised := store.MergeUpdate(ReconcileItems(answer.revision.value, ids), mergeReadable, writable);
      stored := !raised;
    }

    /**
     An equal revision is skipped, any other one, lower ones included, is reconciled
     and stored even when the reconcile reported errors. A status report that raises
     makes the cycle count as failed although its revision is stored.
     */
    method SyncCycle(answer: Answer, shell: Shell, readable: bool, mergeReadable: bool, writable: bool,
                     reportRaises: bool)
      returns (ok: bool, report: Option<Report>)
      modifies this`failStreak, applier`rules, store`file
      ensures answer.NoSnapshot? || answer.revision.None? ==>
                !ok && report.None? && applier.rules == old(applier.rules) && store.file == old(store.file)
      ensures answer.Snapshot? && answer.revision.Some? ==>
                var last := Loaded(store.conv, old(store.file), readable)["last_revision"];
                if last == Int(answer.revision.value) then
                  ok && report.None? && applier.rules == old(applier.rules) && store.file == old(store.file)
                else
                  && (applier.supported ==>
                        applier.rules == Reconciled(applier.prefix, old(applier.rules), answer.rules.GetOr([]), shell))
                  && (!applier.supported ==> applier.rules == old(applier.rules))
                  && (report.Some? ==> report.value.revision == answer.revision.value)
      ensures applier.rules == CycledRules(store.conv, applier.prefix, applier.supported, old(applier.rules),
                                           old(store.file), answer, shell, readable)
      ensures store.file == CycledFile(store.conv, applier.prefix, applier.supported, old(applier.rules),
                                       old(store.file), answer, shell, readable, mergeReadable, writable)
      ensures !Unanswered(answer) && Skips(store.conv, old(store.file), answer, readable) ==>
                ok && failStreak == 0 && report.None?
      ensures Unanswered(answer) ==> !ok && failStreak == old(failStreak) + 1 && report.None?
      ensures !Unanswered(answer) && !Skips(store.conv, old(store.file), answer, readable) ==>
                var result := CycleResult(applier.prefix, applier.supported, old(applier.rules),
                                          EntriesOf(answer), shell);
                var stored := writable &&
                              CycleMerged(store.conv, old(store.file), answer, result, mergeReadable).Some?;
                var reported := stored && reportStatus;
                && report == (if reported then Some(Report(answer.revision.value, result.errors, result.ruleIds))
                              else None)
                && ok == (stored && !(reported && reportRaises) && result.errors == [])
                && failStreak == if stored && !(reported && reportRaises) then 0 else old(failStreak) + 1
    {
      report := None;
      var state := store.Load(readable);
      var lastRevision := state[REVISION].n;
      if answer.NoSnapshot? || answer.revision.None? {
        failStreak := failStreak + 1;
        return false, None;
      }
      if answer.revision.value == lastRevision {
        failStreak := 0;
        return true, None;
      }
      var stored, result := ReconcileAndStore(answer, shell, mergeReadable, writable);
      if !stored {
        failStreak := failStreak + 1;
        return false, None;
      }
      if reportStatus {
        report := Some(Report(answer.revision.value, result.errors, result.ruleIds));
        if reportRaises {
          failStreak := failStreak + 1;
          return false, report;
        }
      }
      failStreak := 0;
      ok := result.errors == [];
    }
  }
}
