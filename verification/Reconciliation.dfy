/**
 What one reconcile achieves under any pattern of failures, when it reaches the
 snapshot exactly, and which rules no channel can ever touch.
 */
module Reconciliation {
  import opened Wrappers
  import opened RuleLog
  import opened RuleNames
  import opened SortedIds
  import opened FirewallApplier

  /** The write really performed for the i-th desired rule. */
  function UpsertOutcome(rules: seq<Rule>, creating: nat -> UpsertReply, i: nat): Effect
    requires i < |rules|
  {
    UpsertEffect(rules[i].content, creating(i))
  }

  ghost predicate ForeignName(prefix: string, name: string) {
    forall id :: name != DisplayName(prefix, id)
  }

  /** The reconcile reports no error, which neither a removal nor the listing needs to have worked for. */
  ghost predicate Clean(prefix: string, rules: Rules, entries: seq<Entry>, shell: Shell) {
    ReconcileErrors(prefix, rules, entries, shell) == []
  }

  /** The id, if listed, really goes. */
  predicate Removes(shell: Shell, id: int) {
    shell.listing.Complete? && shell.removing(id).gone
  }

  // ---- the snapshot, entry by entry ---------------------------------------

  predicate Numbers(e: Entry, id: int) {
    e.Dict? && e.rule.ruleId == Number(id)
  }

  predicate IsNumbered(e: Entry) {
    e.Dict? && e.rule.ruleId.Number?
  }

  /** How many entries before the i-th carry an id. */
  ghost function NumberedBefore(entries: seq<Entry>, i: nat): nat
    requires i <= |entries|
  {
    |set j | 0 <= j < i && IsNumbered(entries[j])|
  }

  /** What the snapshot says of an id: its last entry of that number wins. */
  function SnapshotRule(entries: seq<Entry>, id: int): Option<Content> {
    if entries == [] then None
    else if Numbers(entries[|entries| - 1], id) then Some(entries[|entries| - 1].rule.content)
    else SnapshotRule(entries[..|entries| - 1], id)
  }

  /** The snapshot's rules, each under the number of its last entry, are this table. */
  ghost predicate ShowsTable(entries: seq<Entry>, table: Table) {
    forall id :: SnapshotRule(entries, id) == Lookup(table, id)
  }

  lemma {:induction false} LastEntryWins(entries: seq<Entry>, i: nat, id: int)
    requires i < |entries| && Numbers(entries[i], id)
    requires forall j :: i < j < |entries| ==> !Numbers(entries[j], id)
    ensures SnapshotRule(entries, id) == Some(entries[i].rule.content)
  {
    var k := |entries| - 1;
    if i < k {
      assert !Numbers(entries[k], id);
      LastEntryWins(entries[..k], i, id);
    }
  }

  lemma {:induction false} UnnumberedId(entries: seq<Entry>, id: int)
    ensures SnapshotRule(entries, id).None? <==> forall i :: 0 <= i < |entries| ==> !Numbers(entries[i], id)
  {
    if entries != [] {
      UnnumberedId(entries[..|entries| - 1], id);
      assert forall i :: 0 <= i < |entries| - 1 ==> entries[..|entries| - 1][i] == entries[i];
    }
  }

  lemma NumberedStep(entries: seq<Entry>, i: nat)
    requires i < |entries|
    ensures NumberedBefore(entries, i + 1) == NumberedBefore(entries, i) + if IsNumbered(entries[i]) then 1 else 0
  {
    var before := set j | 0 <= j < i && IsNumbered(entries[j]);
    var upTo := set j | 0 <= j < i + 1 && IsNumbered(entries[j]);
    assert upTo == if IsNumbered(entries[i]) then before + {i} else before;
  }

  lemma {:induction false} NumberedRises(entries: seq<Entry>, i: nat, j: nat)
    requires i <= j <= |entries|
    ensures NumberedBefore(entries, i) <= NumberedBefore(entries, j)
    decreases j - i
  {
    if i < j {
      NumberedStep(entries, i);
      NumberedRises(entries, i + 1, j);
    }
  }

  lemma NumberedInit(entries: seq<Entry>, i: nat)
    requires i < |entries|
    ensures NumberedBefore(entries[..|entries| - 1], i) == NumberedBefore(entries, i)
  {
    var k := |entries| - 1;
    assert (set j | 0 <= j < i && IsNumbered(entries[..k][j])) == (set j | 0 <= j < i && IsNumbered(entries[j]));
  }

  lemma {:induction false} ParsedCount(entries: seq<Entry>)
    ensures |Parsed(entries)| == NumberedBefore(entries, |entries|)
  {
    if entries != [] {
      ParsedCount(entries[..|entries| - 1]);
      NumberedInit(entries, |entries| - 1);
      NumberedStep(entries, |entries| - 1);
    }
  }

  /** Every numbered entry is parsed, behind those before it. */
  lemma {:induction false} EntryParsed(entries: seq<Entry>, i: nat)
    requires i < |entries| && IsNumbered(entries[i])
    ensures NumberedBefore(entries, i) < |Parsed(entries)|
    ensures Parsed(entries)[NumberedBefore(entries, i)] == Rule(entries[i].rule.ruleId.n, entries[i].rule.content)
  {
    var k := |entries| - 1;
    NumberedInit(entries, i);
    if i == k {
      ParsedCount(entries[..k]);
    } else {
      EntryParsed(entries[..k], i);
    }
  }

  /** Every parsed rule is some numbered entry. */
  lemma {:induction false} ParsedEntry(entries: seq<Entry>, k: nat) returns (i: nat)
    requires k < |Parsed(entries)|
    ensures i < |entries| && IsNumbered(entries[i]) && NumberedBefore(entries, i) == k
    ensures Parsed(entries)[k] == Rule(entries[i].rule.ruleId.n, entries[i].rule.content)
  {
    var last := |entries| - 1;
    if k < |Parsed(entries[..last])| {
      i := ParsedEntry(entries[..last], k);
      NumberedInit(entries, i);
    } else {
      i := last;
      ParsedCount(entries[..last]);
      NumberedInit(entries, last);
    }
  }

  lemma {:induction false} SnapshotParsed(entries: seq<Entry>, id: int)
    ensures id in Ids(Parsed(entries)) <==> SnapshotRule(entries, id).Some?
    ensures Lookup(Fold(Intents(Parsed(entries))), id) == SnapshotRule(entries, id)
  {
    var parsed := Parsed(entries);
    LookupAfterWrites(map[], Intents(parsed), id);
    WantedIsDesired(parsed, id);
    if entries != [] {
      var init := entries[..|entries| - 1];
      SnapshotParsed(init, id);
      WantedIsDesired(Parsed(init), id);
      LookupAfterWrites(map[], Intents(Parsed(init)), id);
      if IsNumbered(entries[|entries| - 1]) {
        var r := Rule(entries[|entries| - 1].rule.ruleId.n, entries[|entries| - 1].rule.content);
        IdsOfAppend(Parsed(init), r);
        assert Intents(parsed) == Intents(Parsed(init)) + [Upsert(r.id, r.content)];
        LastWriteConcat(Intents(Parsed(init)), [Upsert(r.id, r.content)], id);
        assert [Upsert(r.id, r.content)][1..] == [];
      } else {
        assert parsed == Parsed(init);
      }
    }
  }

  predicate BadId(e: Entry) {
    e.Dict? && e.rule.ruleId in {Null, Malformed}
  }

  ghost function BadEntries(entries: seq<Entry>): set<nat> {
    set i | 0 <= i < |entries| && BadId(entries[i])
  }

  lemma BadEntriesStep(entries: seq<Entry>)
    requires entries != []
    ensures var k := |entries| - 1;
            && BadEntries(entries) == BadEntries(entries[..k]) + (if BadId(entries[k]) then {k} else {})
            && k !in BadEntries(entries[..k])
  {
  }

  /** One error per entry whose `ruleId` is null or no integer. */
  lemma {:induction false} ParseErrorsExact(entries: seq<Entry>)
    ensures |ParseErrors(entries)| == |BadEntries(entries)|
    ensures forall k :: 0 <= k < |ParseErrors(entries)| ==> ParseErrors(entries)[k] == BadRuleId
  {
    if entries != [] {
      BadEntriesStep(entries);
      ParseErrorsExact(entries[..|entries| - 1]);
    }
  }

  // ---- writes at the level of names ---------------------------------------

  lemma RuleAfterWrite(prefix: string, rules: Rules, c: Cmd, id: int)
    ensures RuleAt(prefix, WriteName(prefix, rules, c), id) ==
            Overlay(LastWrite([c], id), RuleAt(prefix, rules, id))
  {
    assert [c][1..] == [];
    if c.Upsert? || c.Delete? {
      DisplayNameInjective(prefix, c.id, id);
    }
  }

  /** Of two batches of writes the second has the last word. */
  lemma WritesChain(rule: Option<Content>, first: Option<Option<Content>>, second: Option<Option<Content>>)
    ensures Overlay(second, Overlay(first, rule)) == Overlay(if second.Some? then second else first, rule)
  {
  }

  lemma {:induction false} RuleAfterWrites(prefix: string, rules: Rules, cs: seq<Cmd>, id: int)
    ensures RuleAt(prefix, WriteNames(prefix, rules, cs), id) ==
            Overlay(LastWrite(cs, id), RuleAt(prefix, rules, id))
  {
    if cs != [] {
      var k := |cs| - 1;
      var init, last := cs[..k], cs[k];
      RuleAfterWrites(prefix, rules, init, id);
      RuleAfterWrite(prefix, WriteNames(prefix, rules, init), last, id);
      assert cs == init + [last];
      LastWriteConcat(init, [last], id);
      WritesChain(RuleAt(prefix, rules, id), LastWrite(init, id), LastWrite([last], id));
    }
  }

  /**
   Isolation: no sequence of writes, and so no run of reconciles and channel B
   commands, creates, changes or removes a rule whose name was not printed for an id.
   */
  lemma {:induction false} ForeignRulesUntouched(prefix: string, rules: Rules, cs: seq<Cmd>, name: string)
    requires ForeignName(prefix, name)
    ensures name in WriteNames(prefix, rules, cs) <==> name in rules
    ensures name in rules ==> WriteNames(prefix, rules, cs)[name] == rules[name]
  {
    if cs != [] {
      ForeignRulesUntouched(prefix, rules, cs[..|cs| - 1], name);
    }
  }

  // ---- one reconcile, id by id --------------------------------------------

  lemma RemovalTraceAt(ids: seq<int>, removing: int -> RemoveReply, id: int)
    requires forall i, j :: 0 <= i < j < |ids| ==> ids[i] < ids[j]
    ensures LastWrite(RemovalTrace(ids, removing), id) ==
            if id in ids && removing(id).gone then Some(None) else None
  {
    var trace := RemovalTrace(ids, removing);
    if id in ids && removing(id).gone {
      var i :| 0 <= i < |ids| && ids[i] == id;
      LastWriteAt(trace, i, id);
    } else {
      UntouchedId(trace, id);
    }
  }

  lemma UpsertAt(rules: seq<Rule>, creating: nat -> UpsertReply, i: nat)
    requires i < |rules|
    ensures UpsertTrace(rules, creating)[i] ==
            Effective(Upsert(rules[i].id, rules[i].content), UpsertOutcome(rules, creating, i))
  {
  }

  lemma NoUpsertTouches(rules: seq<Rule>, creating: nat -> UpsertReply, id: int)
    requires forall i :: 0 <= i < |rules| && rules[i].id == id ==> UpsertOutcome(rules, creating, i).Unchanged?
    ensures LastWrite(UpsertTrace(rules, creating), id).None?
  {
    var trace := UpsertTrace(rules, creating);
    forall i | 0 <= i < |trace|
      ensures !Touches(trace[i], id)
    {
      UpsertAt(rules, creating, i);
      assert rules[i].id == id ==> UpsertOutcome(rules, creating, i).Unchanged?;
    }
    UntouchedId(trace, id);
  }

  /** The upsert of the i-th entry is refused or never runs, so it changes nothing. */
  ghost predicate Skipped(entries: seq<Entry>, creating: nat -> UpsertReply, i: nat)
    requires i < |entries| && IsNumbered(entries[i])
  {
    || !AddressesAccepted(entries[i].rule.content.remoteAddresses)
    || creating(NumberedBefore(entries, i)).NotRun?
  }

  /** The upsert of the i-th entry succeeds. */
  ghost predicate CreatedEntry(entries: seq<Entry>, creating: nat -> UpsertReply, i: nat)
    requires i < |entries| && IsNumbered(entries[i])
  {
    && AddressesAccepted(entries[i].rule.content.remoteAddresses)
    && creating(NumberedBefore(entries, i)) == Created
  }

  lemma SkippedUnchanged(entries: seq<Entry>, creating: nat -> UpsertReply, id: int, k: nat) returns (i: nat)
    requires k < |Parsed(entries)| && Parsed(entries)[k].id == id
    ensures i < |entries| && Numbers(entries[i], id) && NumberedBefore(entries, i) == k
    ensures UpsertOutcome(Parsed(entries), creating, k).Unchanged? <==> Skipped(entries, creating, i)
  {
    i := ParsedEntry(entries, k);
  }

  lemma InRemovals(prefix: string, rules: Rules, entries: seq<Entry>, listing: Listing, id: int)
    ensures id in Removals(prefix, rules, entries, listing) <==>
            listing.Complete? && id in ListedIds(prefix, rules.Keys) && id !in Ids(Parsed(entries))
  {
  }

  /** No id that some entry of the snapshot carries is ever removed; a listed one that none carries is. */
  lemma NamedIdsStay(prefix: string, rules: Rules, entries: seq<Entry>, listing: Listing, id: int)
    ensures id in Removals(prefix, rules, entries, listing) <==>
            && listing.Complete?
            && (exists n :: n in rules.Keys && IsListed(prefix, n) && ListedId(prefix, n) == id)
            && forall i :: 0 <= i < |entries| ==> !Numbers(entries[i], id)
  {
    InRemovals(prefix, rules, entries, listing, id);
    SnapshotParsed(entries, id);
    UnnumberedId(entries, id);
  }

  /** An id the snapshot does not name goes exactly when it was listed and its removal took effect. */
  lemma UndesiredId(prefix: string, rules: Rules, entries: seq<Entry>, shell: Shell, id: int)
    requires SnapshotRule(entries, id).None?
    ensures RuleAt(prefix, Reconciled(prefix, rules, entries, shell), id) ==
            if id in ListedIds(prefix, rules.Keys) && Removes(shell, id)
            then None else RuleAt(prefix, rules, id)
  {
    var parsed := Parsed(entries);
    SnapshotParsed(entries, id);
    var removals := Removals(prefix, rules, entries, shell.listing);
    RemovalTraceAt(removals, shell.removing, id);
    forall i | 0 <= i < |parsed|
      ensures parsed[i].id != id
    {
      assert parsed[i].id in Ids(parsed);
    }
    NoUpsertTouches(parsed, shell.creating, id);
    LastWriteConcat(RemovalTrace(removals, shell.removing), UpsertTrace(parsed, shell.creating), id);
    RuleAfterWrites(prefix, rules, Trace(prefix, rules, entries, shell), id);
    InRemovals(prefix, rules, entries, shell.listing, id);
  }

  /**
   A desired id ends as the last upsert that had an effect left it: its content
   when that upsert created the rule, absent when it failed in rule creation.
   */
  lemma DesiredId(prefix: string, rules: Rules, entries: seq<Entry>, shell: Shell, i: nat)
    requires i < |Parsed(entries)| && !UpsertOutcome(Parsed(entries), shell.creating, i).Unchanged?
    requires forall j :: i < j < |Parsed(entries)| && Parsed(entries)[j].id == Parsed(entries)[i].id ==>
               UpsertOutcome(Parsed(entries), shell.creating, j).Unchanged?
    ensures RuleAt(prefix, Reconciled(prefix, rules, entries, shell), Parsed(entries)[i].id) ==
            if UpsertOutcome(Parsed(entries), shell.creating, i).Applied?
            then Some(Parsed(entries)[i].content) else None
  {
    var parsed := Parsed(entries);
    var id := parsed[i].id;
    var upserts := UpsertTrace(parsed, shell.creating);
    forall j | i < j < |upserts|
      ensures !Touches(upserts[j], id)
    {
      UpsertAt(parsed, shell.creating, j);
      assert parsed[j].id == id ==> UpsertOutcome(parsed, shell.creating, j).Unchanged?;
    }
    UpsertAt(parsed, shell.creating, i);
    LastWriteAt(upserts, i, id);
    LastWriteConcat(RemovalTrace(Removals(prefix, rules, entries, shell.listing), shell.removing), upserts, id);
    RuleAfterWrites(prefix, rules, Trace(prefix, rules, entries, shell), id);
  }

  /** A desired id whose every upsert was refused or never ran keeps the rule it had. */
  lemma DesiredIdRefused(prefix: string, rules: Rules, entries: seq<Entry>, shell: Shell, id: int)
    requires id in Ids(Parsed(entries))
    requires forall i :: 0 <= i < |Parsed(entries)| && Parsed(entries)[i].id == id ==>
               UpsertOutcome(Parsed(entries), shell.creating, i).Unchanged?
    ensures RuleAt(prefix, Reconciled(prefix, rules, entries, shell), id) == RuleAt(prefix, rules, id)
  {
    var removals := Removals(prefix, rules, entries, shell.listing);
    InRemovals(prefix, rules, entries, shell.listing, id);
    RemovalTraceAt(removals, shell.removing, id);
    NoUpsertTouches(Parsed(entries), shell.creating, id);
    LastWriteConcat(RemovalTrace(removals, shell.removing), UpsertTrace(Parsed(entries), shell.creating), id);
    RuleAfterWrites(prefix, rules, Trace(prefix, rules, entries, shell), id);
  }

  /**
   The last entry of an id whose upsert was not skipped decides the rule: its content,
   or none when the creation failed after the old rule had been removed.
   */
  lemma EntryDecides(prefix: string, rules: Rules, entries: seq<Entry>, shell: Shell, id: int, i: nat)
    requires i < |entries| && Numbers(entries[i], id) && !Skipped(entries, shell.creating, i)
    requires forall j :: i < j < |entries| && Numbers(entries[j], id) ==> Skipped(entries, shell.creating, j)
    ensures RuleAt(prefix, Reconciled(prefix, rules, entries, shell), id) ==
            if shell.creating(NumberedBefore(entries, i)).CreateFailed? then None
            else Some(entries[i].rule.content)
  {
    var k := NumberedBefore(entries, i);
    EntryParsed(entries, i);
    forall m | k < m < |Parsed(entries)| && Parsed(entries)[m].id == id
      ensures UpsertOutcome(Parsed(entries), shell.creating, m).Unchanged?
    {
      var j := SkippedUnchanged(entries, shell.creating, id, m);
      if j <= i {
        NumberedRises(entries, j, i);
      }
    }
    DesiredId(prefix, rules, entries, shell, k);
  }

  /** The plain case: the last entry of an id, with accepted addresses, is created. */
  lemma EntryReconciled(prefix: string, rules: Rules, entries: seq<Entry>, shell: Shell, i: nat, id: int, c: Content)
    requires i < |entries| && entries[i] == Dict(RawRule(Number(id), c))
    requires forall j :: i < j < |entries| ==> !Numbers(entries[j], id)
    requires AddressesAccepted(c.remoteAddresses) && shell.creating(NumberedBefore(entries, i)) == Created
    ensures RuleAt(prefix, Reconciled(prefix, rules, entries, shell), id) == Some(c)
  {
    EntryDecides(prefix, rules, entries, shell, id, i);
  }

  /** An id that is named, but only by skipped entries, keeps the rule it had. */
  lemma EntriesSkipped(prefix: string, rules: Rules, entries: seq<Entry>, shell: Shell, id: int)
    requires exists i :: 0 <= i < |entries| && Numbers(entries[i], id)
    requires forall i :: 0 <= i < |entries| && Numbers(entries[i], id) ==> Skipped(entries, shell.creating, i)
    ensures RuleAt(prefix, Reconciled(prefix, rules, entries, shell), id) == RuleAt(prefix, rules, id)
  {
    UnnumberedId(entries, id);
    SnapshotParsed(entries, id);
    forall k | 0 <= k < |Parsed(entries)| && Parsed(entries)[k].id == id
      ensures UpsertOutcome(Parsed(entries), shell.creating, k).Unchanged?
    {
      var _ := SkippedUnchanged(entries, shell.creating, id, k);
    }
    DesiredIdRefused(prefix, rules, entries, shell, id);
  }

  // ---- a reconcile without errors -----------------------------------------

  lemma {:induction false} NoRemovalErrors(ids: seq<int>, removing: int -> RemoveReply)
    ensures RemovalErrors(ids, removing) == [] <==> forall id :: id in ids ==> !removing(id).reported
  {
    if ids != [] {
      var k := |ids| - 1;
      NoRemovalErrors(ids[..k], removing);
      assert ids == ids[..k] + [ids[k]];
    }
  }

  lemma {:induction false} NoUpsertErrors(rules: seq<Rule>, creating: nat -> UpsertReply)
    ensures UpsertErrors(rules, creating) == [] <==>
            forall i :: 0 <= i < |rules| ==> !UpsertReports(rules[i].content, creating(i))
  {
    if rules != [] {
      var k := |rules| - 1;
      NoUpsertErrors(rules[..k], creating);
      assert forall i :: 0 <= i < k ==> rules[..k][i] == rules[i];
    }
  }

  /**
   A reconcile reports no error if and only if no entry has a null or unreadable id, the
   listing did not complain, no removal of a listed undesired id reported a failure, every
   numbered entry had accepted addresses and was created in time, and the profiles were enabled.
   */
  lemma CleanExactly(prefix: string, rules: Rules, entries: seq<Entry>, shell: Shell)
    ensures Clean(prefix, rules, entries, shell) <==>
            && (forall i :: 0 <= i < |entries| ==> !BadId(entries[i]))
            && shell.listing.complaints == []
            && (forall id :: SnapshotRule(entries, id).None? && id in ListedIds(prefix, rules.Keys) ==>
                  !(shell.listing.Complete? && shell.removing(id).reported))
            && (forall i :: 0 <= i < |entries| && IsNumbered(entries[i]) ==> CreatedEntry(entries, shell.creating, i))
            && !shell.profilesFail
  {
    NoParseErrors(entries);
    NoRemovalErrors(Removals(prefix, rules, entries, shell.listing), shell.removing);
    NoUpsertErrors(Parsed(entries), shell.creating);
    EntriesCreated(entries, shell.creating);
    forall id
      ensures id in Removals(prefix, rules, entries, shell.listing) <==>
              shell.listing.Complete? && id in ListedIds(prefix, rules.Keys) && SnapshotRule(entries, id).None?
    {
      InRemovals(prefix, rules, entries, shell.listing, id);
      SnapshotParsed(entries, id);
    }
  }

  lemma {:induction false} RemovalErrorsExact(ids: seq<int>, removing: int -> RemoveReply, e: Error)
    ensures e in RemovalErrors(ids, removing) <==> e.RemoveError? && e.id in ids && removing(e.id).reported
  {
    if ids != [] {
      var k := |ids| - 1;
      RemovalErrorsExact(ids[..k], removing, e);
      assert ids == ids[..k] + [ids[k]];
    }
  }

  lemma {:induction false} UpsertErrorsExact(rules: seq<Rule>, creating: nat -> UpsertReply, e: Error)
    ensures e in UpsertErrors(rules, creating) <==>
            e.UpsertError? &&
            exists k :: 0 <= k < |rules| && rules[k].id == e.id && UpsertReports(rules[k].content, creating(k))
  {
    if rules != [] {
      var k := |rules| - 1;
      UpsertErrorsExact(rules[..k], creating, e);
      assert forall i :: 0 <= i < k ==> rules[..k][i] == rules[i];
    }
  }

  /** A reconcile reports exactly what went wrong, each failed removal and upsert under its id. */
  lemma ErrorsNameFailures(prefix: string, rules: Rules, entries: seq<Entry>, shell: Shell, e: Error)
    ensures e in ReconcileErrors(prefix, rules, entries, shell) <==>
            || (e.BadRuleId? && exists i :: 0 <= i < |entries| && BadId(entries[i]))
            || (e.ListingError? && e.text in shell.listing.complaints)
            || (e.RemoveError? && shell.listing.Complete? && e.id in ListedIds(prefix, rules.Keys) &&
                SnapshotRule(entries, e.id).None? && shell.removing(e.id).reported)
            || (e.UpsertError? &&
                exists i :: 0 <= i < |entries| && Numbers(entries[i], e.id) &&
                            !CreatedEntry(entries, shell.creating, i))
            || (e.ProfileError? && shell.profilesFail)
  {
    var removals := Removals(prefix, rules, entries, shell.listing);
    NoParseErrors(entries);
    ParseErrorsExact(entries);
    RemovalErrorsExact(removals, shell.removing, e);
    UpsertErrorsExact(Parsed(entries), shell.creating, e);
    ListingErrorsExact(shell.listing.complaints, e);
    if e.RemoveError? {
      InRemovals(prefix, rules, entries, shell.listing, e.id);
      SnapshotParsed(entries, e.id);
    } else if e.UpsertError? {
      FailedUpsert(entries, shell.creating, e.id);
    } else if e.BadRuleId? && ParseErrors(entries) != [] {
      assert ParseErrors(entries)[0] == BadRuleId;
    }
    ErrorParts(prefix, rules, entries, shell, e);
  }

  lemma ErrorParts(prefix: string, rules: Rules, entries: seq<Entry>, shell: Shell, e: Error)
    ensures e in ReconcileErrors(prefix, rules, entries, shell) <==>
            || e in ParseErrors(entries) || e in ListingErrors(shell.listing.complaints)
            || e in RemovalErrors(Removals(prefix, rules, entries, shell.listing), shell.removing)
            || e in UpsertErrors(Parsed(entries), shell.creating)
            || (shell.profilesFail && e == ProfileError)
  {
  }

  lemma ListingErrorsExact(complaints: seq<string>, e: Error)
    ensures e in ListingErrors(complaints) <==> e.ListingError? && e.text in complaints
  {
    if e.ListingError? && e.text in complaints {
      var i :| 0 <= i < |complaints| && complaints[i] == e.text;
      assert ListingErrors(complaints)[i] == e;
    }
  }

  lemma FailedUpsert(entries: seq<Entry>, creating: nat -> UpsertReply, id: int)
    ensures (exists k :: 0 <= k < |Parsed(entries)| && Parsed(entries)[k].id == id &&
                         UpsertReports(Parsed(entries)[k].content, creating(k)))
            <==>
            (exists i :: 0 <= i < |entries| && Numbers(entries[i], id) && !CreatedEntry(entries, creating, i))
  {
    if i :| 0 <= i < |entries| && Numbers(entries[i], id) && !CreatedEntry(entries, creating, i) {
      EntryParsed(entries, i);
      var k := NumberedBefore(entries, i);
      assert Parsed(entries)[k].id == id && UpsertReports(Parsed(entries)[k].content, creating(k));
    }
    if k :| 0 <= k < |Parsed(entries)| && Parsed(entries)[k].id == id &&
            UpsertReports(Parsed(entries)[k].content, creating(k)) {
      var i := ParsedEntry(entries, k);
      assert Numbers(entries[i], id) && !CreatedEntry(entries, creating, i);
    }
  }

  lemma NoParseErrors(entries: seq<Entry>)
    ensures ParseErrors(entries) == [] <==> forall i :: 0 <= i < |entries| ==> !BadId(entries[i])
  {
    ParseErrorsExact(entries);
    assert BadEntries(entries) == {} <==> forall i :: 0 <= i < |entries| ==> i !in BadEntries(entries);
  }

  lemma EntriesCreated(entries: seq<Entry>, creating: nat -> UpsertReply)
    ensures (forall k :: 0 <= k < |Parsed(entries)| ==> !UpsertReports(Parsed(entries)[k].content, creating(k)))
            <==>
            (forall i :: 0 <= i < |entries| && IsNumbered(entries[i]) ==> CreatedEntry(entries, creating, i))
  {
    var parsed := Parsed(entries);
    if forall k :: 0 <= k < |parsed| ==> !UpsertReports(parsed[k].content, creating(k)) {
      forall i | 0 <= i < |entries| && IsNumbered(entries[i])
        ensures CreatedEntry(entries, creating, i)
      {
        EntryParsed(entries, i);
        assert !UpsertReports(parsed[NumberedBefore(entries, i)].content, creating(NumberedBefore(entries, i)));
      }
    }
    if forall i :: 0 <= i < |entries| && IsNumbered(entries[i]) ==> CreatedEntry(entries, creating, i) {
      forall k | 0 <= k < |parsed|
        ensures !UpsertReports(parsed[k].content, creating(k))
      {
        var i := ParsedEntry(entries, k);
        assert CreatedEntry(entries, creating, i);
      }
    }
  }

  /** Without errors every desired rule was created. */
  lemma CleanUpserts(prefix: string, rules: Rules, entries: seq<Entry>, shell: Shell)
    requires Clean(prefix, rules, entries, shell)
    ensures UpsertTrace(Parsed(entries), shell.creating) == Intents(Parsed(entries))
  {
    var parsed := Parsed(entries);
    assert UpsertErrors(parsed, shell.creating) == [];
    NoUpsertErrors(parsed, shell.creating);
    forall i | 0 <= i < |parsed|
      ensures UpsertTrace(parsed, shell.creating)[i] == Intents(parsed)[i]
    {
      UpsertAt(parsed, shell.creating, i);
      assert !UpsertReports(parsed[i].content, shell.creating(i));
    }
  }

  lemma WantedIsDesired(rules: seq<Rule>, id: int)
    ensures Lookup(Fold(Intents(rules)), id).Some? <==> id in Ids(rules)
    ensures LastWrite(Intents(rules), id) ==
            if id in Ids(rules) then Some(Lookup(Fold(Intents(rules)), id)) else None
  {
    var cs := Intents(rules);
    LookupAfterWrites(map[], cs, id);
    if id in Ids(rules) {
      var i :| 0 <= i < |rules| && rules[i].id == id;
      TouchedId(cs, i, id);
      UpsertsLeaveContent(cs, id);
    } else {
      forall i | 0 <= i < |cs|
        ensures !Touches(cs[i], id)
      {
        assert rules[i].id in Ids(rules);
      }
      UntouchedId(cs, id);
    }
  }

  /**
   Without errors a desired id ends as the snapshot says, the last duplicate winning;
   any other id goes exactly when it is listed and its removal worked.
   */
  lemma CleanReconcileById(prefix: string, rules: Rules, entries: seq<Entry>, shell: Shell, id: int)
    requires Clean(prefix, rules, entries, shell)
    ensures RuleAt(prefix, Reconciled(prefix, rules, entries, shell), id) ==
            if SnapshotRule(entries, id).Some? then SnapshotRule(entries, id)
            else if id in ListedIds(prefix, rules.Keys) && Removes(shell, id) then None
            else RuleAt(prefix, rules, id)
  {
    SnapshotParsed(entries, id);
    if SnapshotRule(entries, id).None? {
      UndesiredId(prefix, rules, entries, shell, id);
    } else {
      CleanUpserts(prefix, rules, entries, shell);
      WantedIsDesired(Parsed(entries), id);
      LastWriteConcat(RemovalTrace(Removals(prefix, rules, entries, shell.listing), shell.removing),
                      UpsertTrace(Parsed(entries), shell.creating), id);
      RuleAfterWrites(prefix, rules, Trace(prefix, rules, entries, shell), id);
    }
  }

  lemma ListedWhenThere(prefix: string, rules: Rules, id: int)
    requires OneSlash(prefix)
    ensures RuleAt(prefix, rules, id).Some? ==> (id in ListedIds(prefix, rules.Keys) <==> Listable(id))
    ensures id in ListedIds(prefix, rules.Keys) ==> Listable(id)
  {
    PrintedNameListed(prefix, id);
    if RuleAt(prefix, rules, id).Some? && Listable(id) {
      assert DisplayName(prefix, id) in rules.Keys;
    }
  }

  /**
   A reconcile without errors makes the managed rules equal the snapshot if and only
   if every rule outside the snapshot has an id the listing can see, the listing
   answered, and the removal of that id worked.
   */
  lemma CleanReconcileExact(prefix: string, rules: Rules, entries: seq<Entry>, shell: Shell)
    requires OneSlash(prefix) && Clean(prefix, rules, entries, shell)
    ensures (forall id :: RuleAt(prefix, Reconciled(prefix, rules, entries, shell), id) ==
                          SnapshotRule(entries, id))
            <==>
            (forall id :: RuleAt(prefix, rules, id).Some? && SnapshotRule(entries, id).None? ==>
                            Listable(id) && Removes(shell, id))
  {
    var after := Reconciled(prefix, rules, entries, shell);
    forall id
      ensures RuleAt(prefix, after, id) == SnapshotRule(entries, id) <==>
              (RuleAt(prefix, rules, id).Some? && SnapshotRule(entries, id).None? ==>
                 Listable(id) && Removes(shell, id))
    {
      CleanReconcileById(prefix, rules, entries, shell, id);
      ListedWhenThere(prefix, rules, id);
    }
  }

  predicate SameRule(prefix: string, before: Rules, after: Rules, id: int) {
    RuleAt(prefix, after, id) == RuleAt(prefix, before, id)
  }

  /** Writes that leave every managed rule alone leave the whole firewall alone. */
  lemma SameManagedSameRules(prefix: string, before: Rules, after: Rules, cs: seq<Cmd>)
    requires after == WriteNames(prefix, before, cs)
    ensures after == before <==> forall id :: SameRule(prefix, before, after, id)
  {
    if forall id :: SameRule(prefix, before, after, id) {
      forall name
        ensures name in before <==> name in after
        ensures name in before && name in after ==> before[name] == after[name]
      {
        if ForeignName(prefix, name) {
          ForeignRulesUntouched(prefix, before, cs, name);
        } else {
          var id :| name == DisplayName(prefix, id);
          assert SameRule(prefix, before, after, id);
        }
      }
    }
  }

  lemma SameManagedIdle(prefix: string, rules: Rules, entries: seq<Entry>, shell: Shell)
    ensures var after := Reconciled(prefix, rules, entries, shell);
            after == rules <==> forall id :: SameRule(prefix, rules, after, id)
  {
    SameManagedSameRules(prefix, rules, Reconciled(prefix, rules, entries, shell),
                         Trace(prefix, rules, entries, shell));
  }

  /** The second of two reconciles changes the rule of an id: the first left it behind and the second does not. */
  predicate RemovedLate(prefix: string, rules: Rules, entries: seq<Entry>, first: Shell, second: Shell, id: int) {
    && RuleAt(prefix, rules, id).Some? && Listable(id) && SnapshotRule(entries, id).None?
    && !Removes(first, id) && Removes(second, id)
  }

  lemma SecondReconcileById(prefix: string, rules: Rules, entries: seq<Entry>, first: Shell, second: Shell, id: int)
    requires OneSlash(prefix)
    requires Clean(prefix, rules, entries, first)
    requires Clean(prefix, Reconciled(prefix, rules, entries, first), entries, second)
    ensures var once := Reconciled(prefix, rules, entries, first);
            SameRule(prefix, once, Reconciled(prefix, once, entries, second), id) <==>
            !RemovedLate(prefix, rules, entries, first, second, id)
  {
    var once := Reconciled(prefix, rules, entries, first);
    CleanReconcileById(prefix, rules, entries, first, id);
    CleanReconcileById(prefix, once, entries, second, id);
    ListedWhenThere(prefix, rules, id);
    ListedWhenThere(prefix, once, id);
  }

  /**
   A second reconcile of the same snapshot, both without errors, changes no rule of the
   firewall if and only if it removes no id whose removal silently failed before.
   */
  lemma SecondReconcileIdle(prefix: string, rules: Rules, entries: seq<Entry>, first: Shell, second: Shell)
    requires OneSlash(prefix)
    requires Clean(prefix, rules, entries, first)
    requires Clean(prefix, Reconciled(prefix, rules, entries, first), entries, second)
    ensures Reconciled(prefix, Reconciled(prefix, rules, entries, first), entries, second) ==
            Reconciled(prefix, rules, entries, first)
            <==>
            forall id :: !RemovedLate(prefix, rules, entries, first, second, id)
  {
    var once := Reconciled(prefix, rules, entries, first);
    var twice := Reconciled(prefix, once, entries, second);
    if twice == once {
      forall id
        ensures !RemovedLate(prefix, rules, entries, first, second, id)
      {
        SecondReconcileById(prefix, rules, entries, first, second, id);
      }
    }
    if forall id :: !RemovedLate(prefix, rules, entries, first, second, id) {
      forall id
        ensures SameRule(prefix, once, twice, id)
      {
        SecondReconcileById(prefix, rules, entries, first, second, id);
      }
      SameManagedIdle(prefix, once, entries, second);
    }
  }

  /** Replies under which one removal fails without saying so, and everything else works. */
  function SilentShell(gone: bool): Shell {
    Shell(Complete([]), _ => RemoveReply(gone, false), _ => Created, false, Complete([]))
  }

  /**
   An exit code other than 0 with a blank standard error counts as success, so a
   removal can fail unreported: the reconcile has no errors and the rule is still there.
   A later reconcile of the same snapshot, again without errors, then changes it.
   */
  lemma SilentRemovalFailure(prefix: string, id: int, content: Content)
    requires OneSlash(prefix) && Listable(id)
    ensures var rules := map[DisplayName(prefix, id) := content];
            var once := Reconciled(prefix, rules, [], SilentShell(false));
            && Clean(prefix, rules, [], SilentShell(false))
            && RuleAt(prefix, once, id) == Some(content)
            && Clean(prefix, once, [], SilentShell(true))
            && Reconciled(prefix, once, [], SilentShell(true)) != once
  {
    var rules := map[DisplayName(prefix, id) := content];
    var once := Reconciled(prefix, rules, [], SilentShell(false));
    NoRemovalErrors(Removals(prefix, rules, [], Complete([])), SilentShell(false).removing);
    NoRemovalErrors(Removals(prefix, once, [], Complete([])), SilentShell(true).removing);
    UndesiredId(prefix, rules, [], SilentShell(false), id);
    assert RemovedLate(prefix, rules, [], SilentShell(false), SilentShell(true), id);
    SecondReconcileIdle(prefix, rules, [], SilentShell(false), SilentShell(true));
  }

  /** Some rule spells the id with leading zeros. */
  ghost predicate Aliased(prefix: string, rules: Rules, id: int) {
    exists n :: n in rules.Keys && IsListed(prefix, n) && ListedId(prefix, n) == id && n != DisplayName(prefix, id)
  }

  lemma ListedIdsSplit(prefix: string, rules: Rules, id: int)
    requires OneSlash(prefix)
    ensures id in ListedIds(prefix, rules.Keys) <==>
            (RuleAt(prefix, rules, id).Some? && Listable(id)) || Aliased(prefix, rules, id)
  {
    ListedWhenThere(prefix, rules, id);
    if id in ListedIds(prefix, rules.Keys) && !Aliased(prefix, rules, id) {
      var n :| n in rules.Keys && IsListed(prefix, n) && ListedId(prefix, n) == id;
      assert n == DisplayName(prefix, id);
    }
  }

  lemma AliasesStay(prefix: string, rules: Rules, cs: seq<Cmd>, id: int)
    requires OneSlash(prefix)
    ensures Aliased(prefix, WriteNames(prefix, rules, cs), id) <==> Aliased(prefix, rules, id)
  {
    var after := WriteNames(prefix, rules, cs);
    forall n | IsListed(prefix, n) && ListedId(prefix, n) == id && n != DisplayName(prefix, id)
      ensures n in rules.Keys <==> n in after.Keys
    {
      AliasIsForeign(prefix, n);
      ForeignRulesUntouched(prefix, rules, cs, n);
    }
  }

  lemma DecimalsListed(ids: seq<int>, id: int)
    ensures |Decimals(ids)| == |ids| && forall i :: 0 <= i < |ids| ==> Decimals(ids)[i] == Decimal(ids[i])
    ensures Decimal(id) in Decimals(ids) <==> id in ids
  {
    if id in ids {
      var i :| 0 <= i < |ids| && ids[i] == id;
      assert Decimals(ids)[i] == Decimal(id);
    }
    if Decimal(id) in Decimals(ids) {
      var i :| 0 <= i < |Decimals(ids)| && Decimals(ids)[i] == Decimal(id);
      DecimalInjective(ids[i], id);
    }
  }

  /**
   The ids stored, in decimal, after a reconcile without errors: none when the last
   listing fails; otherwise the listable desired ones, those whose removal silently
   failed, and those a foreign rule spells with leading zeros.
   */
  lemma StoredIdsExact(prefix: string, rules: Rules, entries: seq<Entry>, shell: Shell, id: int)
    requires OneSlash(prefix) && Clean(prefix, rules, entries, shell)
    ensures Decimal(id) in Decimals(ListedNow(prefix, Reconciled(prefix, rules, entries, shell), shell.relisting)) <==>
            && shell.relisting.Complete?
            && (|| (Listable(id) && SnapshotRule(entries, id).Some?)
                || (Listable(id) && RuleAt(prefix, rules, id).Some? && !Removes(shell, id))
                || Aliased(prefix, rules, id))
  {
    DecimalsListed(ListedNow(prefix, Reconciled(prefix, rules, entries, shell), shell.relisting), id);
    ListedIdsSplit(prefix, Reconciled(prefix, rules, entries, shell), id);
    AliasesStay(prefix, rules, Trace(prefix, rules, entries, shell), id);
    CleanReconcileById(prefix, rules, entries, shell, id);
    ListedWhenThere(prefix, rules, id);
  }

  lemma AliasIsForeign(prefix: string, name: string)
    requires OneSlash(prefix) && IsListed(prefix, name)
    requires name != DisplayName(prefix, ListedId(prefix, name))
    ensures ForeignName(prefix, name)
  {
    forall id
      ensures name != DisplayName(prefix, id)
    {
      if name == DisplayName(prefix, id) {
        OneSlashName(prefix, id);
        assert name[|prefix|..] == Decimal(id);
        DecimalInjective(id, id);
        DigitsRoundTrip(id);
      }
    }
  }
}
