/**
 `WindowsFirewallApplier`: reconciling a snapshot and applying one channel B
 command, over a table of firewall rules keyed by display name. What PowerShell
 answers is an input; every combination of answers is covered.
 */
module FirewallApplier {
  import opened Wrappers
  import opened RuleLog
  import opened RuleNames
  import opened SortedIds

  type Rules = map<string, Content>

  /** A `ruleId` field as it arrives: absent, null, not an integer for `int`, or an integer. */
  datatype IdField = Missing | Null | Malformed | Number(n: int)

  datatype RawRule = RawRule(ruleId: IdField, content: Content)

  /** An element of the snapshot's `rules`. */
  datatype Entry = NotADict | Dict(rule: RawRule)

  datatype Rule = Rule(id: int, content: Content)

  datatype Payload = Payload(fields: RawRule, nested: Option<RawRule>)

  /** A channel B command after its action string has been normalised. */
  datatype BCommand =
    | Noop
    | DeleteRule(payload: Payload)
    | UpsertRule(payload: Payload)
    | EnableProfile
    | UnknownAction

  /** `reported`: the exit code is not 0 and standard error is not blank. */
  datatype RemoveReply = RemoveReply(gone: bool, reported: bool)

  /** `CreatedLate`: the rule is there although the call timed out. */
  datatype UpsertReply = Created | CreateFailed | NotRun | CreatedLate

  /** A broken listing comes back empty. */
  datatype Listing = Complete(complaints: seq<string>) | Broken(complaints: seq<string>)

  /** All answers one reconcile can get: per id removed, per index upserted. */
  datatype Shell = Shell(listing: Listing, removing: int -> RemoveReply,
                         creating: nat -> UpsertReply, profilesFail: bool, relisting: Listing)

  datatype Error =
    | UnsupportedSystem
    | BadRuleId
    | ListingError(text: string)
    | RemoveError(id: int)
    | UpsertError(id: int)
    | ProfileError
    | CommandError

  // ---- single operations --------------------------------------------------

  predicate AddressChar(c: char) {
    'A' <= c <= 'Z' || 'a' <= c <= 'z' || IsDigit(c) || c in ":.-_/%"
  }

  /** The validation of already trimmed, non-blank addresses. */
  predicate AddressesAccepted(addresses: seq<string>) {
    && addresses != []
    && forall i :: 0 <= i < |addresses| ==>
         addresses[i] != "" && forall j :: 0 <= j < |addresses[i]| ==> AddressChar(addresses[i][j])
  }

  /** A list is accepted when it is not empty, and no address is, and none has a character outside the alphabet. */
  lemma AcceptedExactly(addresses: seq<string>)
    ensures AddressesAccepted(addresses) <==>
            && |addresses| > 0 && "" !in addresses
            && forall a, c :: a in addresses && c in a ==>
                 'A' <= c <= 'Z' || 'a' <= c <= 'z' || '0' <= c <= '9' || c in {':', '.', '-', '_', '/', '%'}
  {
    forall i, j | 0 <= i < |addresses| && 0 <= j < |addresses[i]|
      ensures addresses[i] in addresses && addresses[i][j] in addresses[i]
    {
    }
    if AddressesAccepted(addresses) {
      forall a, c | a in addresses && c in a
        ensures AddressChar(c)
      {
        var i :| 0 <= i < |addresses| && addresses[i] == a;
        var j :| 0 <= j < |a| && a[j] == c;
      }
    }
  }

  function UpsertEffect(content: Content, reply: UpsertReply): Effect {
    if !AddressesAccepted(content.remoteAddresses) then Unchanged
    else match reply
      case Created => Applied
      case CreatedLate => Applied
      case CreateFailed => Erased
      case NotRun => Unchanged
  }

  predicate UpsertReports(content: Content, reply: UpsertReply) {
    !AddressesAccepted(content.remoteAddresses) || reply != Created
  }

  function RemoveEffect(reply: RemoveReply): Effect {
    if reply.gone then Applied else Unchanged
  }

  function RuleAt(prefix: string, rules: Rules, id: int): Option<Content> {
    var name := DisplayName(prefix, id);
    if name in rules then Some(rules[name]) else None
  }

  function WriteName(prefix: string, rules: Rules, c: Cmd): Rules {
    match c
    case Upsert(id, content) => rules[DisplayName(prefix, id) := content]
    case Delete(id) => rules - {DisplayName(prefix, id)}
    case _ => rules
  }

  function WriteNames(prefix: string, rules: Rules, cs: seq<Cmd>): Rules {
    if cs == [] then rules
    else WriteName(prefix, WriteNames(prefix, rules, cs[..|cs| - 1]), cs[|cs| - 1])
  }

  /** The command a channel B message amounts to; `int` raises on a bad id in an upsert only. */
  function Meaning(cmd: BCommand): Cmd {
    match cmd
    case DeleteRule(p) =>
      if p.fields.ruleId.Number? then Delete(p.fields.ruleId.n) else Inert
    case UpsertRule(p) =>
      var rule := if p.fields.ruleId.Missing? && p.nested.Some? then p.nested.value else p.fields;
      (match rule.ruleId
       case Number(n) => Upsert(n, rule.content)
       case Missing => Inert
       case _ => Poison)
    case _ => Inert
  }

  function MeaningEffect(c: Cmd, removing: RemoveReply, creating: UpsertReply): Effect {
    match c
    case Upsert(_, content) => UpsertEffect(content, creating)
    case Delete(_) => RemoveEffect(removing)
    case _ => Unchanged
  }

  // ---- one reconcile as a trace of writes ---------------------------------

  function Parsed(entries: seq<Entry>): seq<Rule> {
    if entries == [] then []
    else
      var e := entries[|entries| - 1];
      Parsed(entries[..|entries| - 1]) +
      if e.Dict? && e.rule.ruleId.Number? then [Rule(e.rule.ruleId.n, e.rule.content)] else []
  }

  function ParseErrors(entries: seq<Entry>): seq<Error> {
    if entries == [] then []
    else
      var e := entries[|entries| - 1];
      ParseErrors(entries[..|entries| - 1]) +
      if e.Dict? && (e.rule.ruleId.Malformed? || e.rule.ruleId.Null?) then [BadRuleId] else []
  }

  function Ids(rules: seq<Rule>): set<int> {
    set i | 0 <= i < |rules| :: rules[i].id
  }

  function Intents(rules: seq<Rule>): seq<Cmd> {
    seq(|rules|, i requires 0 <= i < |rules| => Upsert(rules[i].id, rules[i].content))
  }

  function ListedNow(prefix: string, rules: Rules, listing: Listing): seq<int> {
    if listing.Complete? then Sorted(ListedIds(prefix, rules.Keys)) else []
  }

  function Removals(prefix: string, rules: Rules, entries: seq<Entry>, listing: Listing): seq<int> {
    Sorted((set id | id in ListedNow(prefix, rules, listing)) - Ids(Parsed(entries)))
  }

  function RemovalTrace(ids: seq<int>, removing: int -> RemoveReply): seq<Cmd> {
    seq(|ids|, i requires 0 <= i < |ids| => Effective(Delete(ids[i]), RemoveEffect(removing(ids[i]))))
  }

  function UpsertTrace(rules: seq<Rule>, creating: nat -> UpsertReply): seq<Cmd> {
    seq(|rules|, i requires 0 <= i < |rules| =>
      Effective(Upsert(rules[i].id, rules[i].content), UpsertEffect(rules[i].content, creating(i))))
  }

  function Trace(prefix: string, rules: Rules, entries: seq<Entry>, shell: Shell): seq<Cmd> {
    RemovalTrace(Removals(prefix, rules, entries, shell.listing), shell.removing) +
    UpsertTrace(Parsed(entries), shell.creating)
  }

  function Reconciled(prefix: string, rules: Rules, entries: seq<Entry>, shell: Shell): Rules {
    WriteNames(prefix, rules, Trace(prefix, rules, entries, shell))
  }

  function ListingErrors(complaints: seq<string>): seq<Error> {
    seq(|complaints|, i requires 0 <= i < |complaints| => ListingError(complaints[i]))
  }

  function RemovalErrors(ids: seq<int>, removing: int -> RemoveReply): seq<Error> {
    if ids == [] then []
    else
      var id := ids[|ids| - 1];
      RemovalErrors(ids[..|ids| - 1], removing) + if removing(id).reported then [RemoveError(id)] else []
  }

  function UpsertErrors(rules: seq<Rule>, creating: nat -> UpsertReply): seq<Error> {
    if rules == [] then []
    else
      var k := |rules| - 1;
      UpsertErrors(rules[..k], creating) +
      if UpsertReports(rules[k].content, creating(k)) then [UpsertError(rules[k].id)] else []
  }

  function ReconcileErrors(prefix: string, rules: Rules, entries: seq<Entry>, shell: Shell): seq<Error> {
    ParseErrors(entries) + ListingErrors(shell.listing.complaints) +
    RemovalErrors(Removals(prefix, rules, entries, shell.listing), shell.removing) +
    UpsertErrors(Parsed(entries), shell.creating) +
    if shell.profilesFail then [ProfileError] else []
  }

  function Decimals(ids: seq<int>): seq<string> {
    seq(|ids|, i requires 0 <= i < |ids| => Decimal(ids[i]))
  }

  lemma IdsOfAppend(rules: seq<Rule>, r: Rule)
    ensures Ids(rules + [r]) == Ids(rules) + {r.id}
  {
    var all := rules + [r];
    assert forall i :: 0 <= i < |rules| ==> all[i] == rules[i];
    assert all[|rules|] == r;
  }

  lemma {:induction false} WriteNamesConcat(prefix: string, rules: Rules, cs: seq<Cmd>, ds: seq<Cmd>)
    ensures WriteNames(prefix, rules, cs + ds) == WriteNames(prefix, WriteNames(prefix, rules, cs), ds)
  {
    if ds == [] {
      assert cs + ds == cs;
    } else {
      assert (cs + ds)[..|cs + ds| - 1] == cs + ds[..|ds| - 1];
      WriteNamesConcat(prefix, rules, cs, ds[..|ds| - 1]);
    }
  }

  class WindowsFirewallApplier {
    const prefix: string
    const supported: bool
    var rules: Rules

    constructor (configured: string, supported: bool, rules: Rules)
      ensures prefix == NormalPrefix(configured) && this.supported == supported && this.rules == rules
      ensures prefix != "" && prefix[|prefix| - 1] == '/'
      ensures OneSlash(prefix) <==> !EndsInTwoSlashes(Strip(configured))
      ensures forall id :: DisplayName(prefix, id) == DisplayName(Strip(configured), id)
    {
      NormalPrefixOneSlash(configured);
      this.prefix := NormalPrefix(configured);
      this.supported := supported;
      this.rules := rules;
    }

    method ListManagedRuleIds(listing: Listing) returns (ids: seq<int>, errors: seq<Error>)
      ensures forall i, j :: 0 <= i < j < |ids| ==> ids[i] < ids[j]
      ensures forall id :: id in ids ==> Listable(id)
      ensures forall id :: id in ids <==>
                supported && listing.Complete? &&
                exists n :: n in rules && IsListed(prefix, n) && ListedId(prefix, n) == id
      ensures errors == [] <==> supported && listing.complaints == []
      ensures ids == (if supported then ListedNow(prefix, rules, listing) else [])
      ensures errors == if supported then ListingErrors(listing.complaints) else [UnsupportedSystem]
    {
      if !supported {
        return [], [UnsupportedSystem];
      }
      ids := ListedNow(prefix, rules, listing);
      errors := ListingErrors(listing.complaints);
    }

    method RemoveRule(id: int, reply: RemoveReply) returns (failed: bool)
      modifies this`rules
      ensures rules == if reply.gone then old(rules) - {DisplayName(prefix, id)} else old(rules)
      ensures rules == WriteName(prefix, old(rules), Effective(Delete(id), RemoveEffect(reply)))
      ensures failed == reply.reported
    {
      if reply.gone {
        rules := rules - {DisplayName(prefix, id)};
      }
      failed := reply.reported;
    }

    /** The old rule is removed first, so a failed creation leaves none. */
    method UpsertRule(rule: Rule, reply: UpsertReply) returns (failed: bool)
      modifies this`rules
      ensures !AddressesAccepted(rule.content.remoteAddresses) || reply == NotRun ==> failed && rules == old(rules)
      ensures AddressesAccepted(rule.content.remoteAddresses) && reply == CreateFailed ==>
                failed && rules == old(rules) - {DisplayName(prefix, rule.id)}
      ensures AddressesAccepted(rule.content.remoteAddresses) && reply in {Created, CreatedLate} ==>
                && (failed <==> reply == CreatedLate)
                && rules == old(rules)[DisplayName(prefix, rule.id) := rule.content]
      ensures rules == WriteName(prefix, old(rules),
                                 Effective(Upsert(rule.id, rule.content), UpsertEffect(rule.content, reply)))
      ensures failed == UpsertReports(rule.content, reply)
    {
      var name := DisplayName(prefix, rule.id);
      if !AddressesAccepted(rule.content.remoteAddresses) {
        return true;
      }
      if reply == NotRun {
        return true;
      }
      rules := rules - {name};
      if reply == CreateFailed {
        return true;
      }
      rules := rules[name := rule.content];
      assert rules == old(rules)[name := rule.content];
      failed := reply == CreatedLate;
    }

    /** `raised`: the call ended in an exception and returned no list. */
    method ApplyBCommand(cmd: BCommand, removing: RemoveReply, creating: UpsertReply, profilesFail: bool)
      returns (raised: bool, errors: seq<Error>)
      modifies this`rules
      ensures cmd.DeleteRule? ==>
                var id := cmd.payload.fields.ruleId;
                if id.Number? then
                  && RuleAt(prefix, rules, id.n) == (if removing.gone then None else RuleAt(prefix, old(rules), id.n))
                  && rules - {DisplayName(prefix, id.n)} == old(rules) - {DisplayName(prefix, id.n)}
                  && errors == (if removing.reported then [RemoveError(id.n)] else [])
                else rules == old(rules) && errors == [CommandError]
      ensures cmd.UpsertRule? ==>
                var p := cmd.payload;
                var rule := if p.fields.ruleId.Missing? && p.nested.Some? then p.nested.value else p.fields;
                match rule.ruleId
                case Number(n) =>
                  && errors == (if creating.Created? && AddressesAccepted(rule.content.remoteAddresses)
                                then [] else [UpsertError(n)])
                  && rules - {DisplayName(prefix, n)} == old(rules) - {DisplayName(prefix, n)}
                  && RuleAt(prefix, rules, n) ==
                     if !AddressesAccepted(rule.content.remoteAddresses) || creating.NotRun?
                     then RuleAt(prefix, old(rules), n)
                     else if creating.CreateFailed? then None
                     else Some(rule.content)
                case Missing => rules == old(rules) && !raised && errors == [CommandError]
                case _ => rules == old(rules) && raised && errors == []
      ensures cmd.Noop? || cmd.EnableProfile? || cmd.UnknownAction? ==>
                && rules == old(rules)
                && errors == if cmd.UnknownAction? then [CommandError]
                             else if cmd.EnableProfile? && profilesFail then [ProfileError] else []
      ensures raised ==> cmd.UpsertRule?
      ensures raised <==> Meaning(cmd).Poison?
      ensures rules == WriteName(prefix, old(rules),
                                 Effective(Meaning(cmd), MeaningEffect(Meaning(cmd), removing, creating)))
      ensures Meaning(cmd).Delete? ==> (errors != [] <==> removing.reported)
      ensures Meaning(cmd).Upsert? ==> (errors != [] <==> UpsertReports(Meaning(cmd).content, creating))
    {
      raised, errors := false, [];
      match cmd
      case Noop =>
      case DeleteRule(p) =>
        if !p.fields.ruleId.Number? {
          errors := [CommandError];
        } else {
          var failed := RemoveRule(p.fields.ruleId.n, removing);
          errors := if failed then [RemoveError(p.fields.ruleId.n)] else [];
        }
      case UpsertRule(p) =>
        var rule := p.fields;
        if rule.ruleId.Missing? && p.nested.Some? {
          rule := p.nested.value;
        }
        if rule.ruleId.Missing? {
          errors := [CommandError];
        } else if !rule.ruleId.Number? {
          raised := true;
        } else {
          var failed := UpsertRule(Rule(rule.ruleId.n, rule.content), creating);
          errors := if failed then [UpsertError(rule.ruleId.n)] else [];
        }
      case EnableProfile =>
        errors := if profilesFail then [ProfileError] else [];
      case UnknownAction =>
        errors := [CommandError];
    }

    method ParseSnapshot(entries: seq<Entry>)
      returns (desired: set<int>, parsed: seq<Rule>, errors: seq<Error>)
      ensures desired == Ids(parsed) && parsed == Parsed(entries) && errors == ParseErrors(entries)
    {
      desired, parsed, errors := {}, [], [];
      for i := 0 to |entries|
        invariant parsed == Parsed(entries[..i]) && desired == Ids(parsed)
        invariant errors == ParseErrors(entries[..i])
      {
        assert entries[..i + 1][..i] == entries[..i];
        if entries[i].Dict? {
          match entries[i].rule.ruleId
          case Missing =>
          case Number(n) =>
            desired := desired + {n};
            IdsOfAppend(parsed, Rule(n, entries[i].rule.content));
            parsed := parsed + [Rule(n, entries[i].rule.content)];
          case _ => errors := errors + [BadRuleId];
        }
      }
      assert entries[..|entries|] == entries;
    }

    method RemoveAll(ids: seq<int>, removing: int -> RemoveReply) returns (errors: seq<Error>)
      modifies this`rules
      ensures rules == WriteNames(prefix, old(rules), RemovalTrace(ids, removing))
      ensures errors == RemovalErrors(ids, removing)
    {
      errors := [];
      ghost var trace := RemovalTrace(ids, removing);
      for i := 0 to |ids|
        invariant rules == WriteNames(prefix, old(rules), trace[..i])
        invariant errors == RemovalErrors(ids[..i], removing)
      {
        assert ids[..i + 1][..i] == ids[..i] && trace[..i + 1][..i] == trace[..i];
        var failed := RemoveRule(ids[i], removing(ids[i]));
        if failed {
          errors := errors + [RemoveError(ids[i])];
        }
      }
      assert ids[..|ids|] == ids && trace[..|ids|] == trace;
    }

    method UpsertAll(wanted: seq<Rule>, creating: nat -> UpsertReply) returns (errors: seq<Error>)
      modifies this`rules
      ensures rules == WriteNames(prefix, old(rules), UpsertTrace(wanted, creating))
      ensures errors == UpsertErrors(wanted, creating)
    {
      errors := [];
      ghost var trace := UpsertTrace(wanted, creating);
      for i := 0 to |wanted|
        invariant rules == WriteNames(prefix, old(rules), trace[..i])
        invariant errors == UpsertErrors(wanted[..i], creating)
      {
        assert wanted[..i + 1][..i] == wanted[..i] && trace[..i + 1][..i] == trace[..i];
        var failed := UpsertRule(wanted[i], creating(i));
        if failed {
          errors := errors + [UpsertError(wanted[i].id)];
        }
      }
      assert wanted[..|wanted|] == wanted && trace[..|wanted|] == trace;
    }

    /** `snapshot` is None when `rules` is missing or not a list. */
    method Reconcile(snapshot: Option<seq<Entry>>, shell: Shell)
      returns (errors: seq<Error>, localRuleIds: seq<string>)
      modifies this`rules
      ensures var entries := if snapshot.Some? then snapshot.value else [];
              if supported then
                && rules == Reconciled(prefix, old(rules), entries, shell)
                && errors == ReconcileErrors(prefix, old(rules), entries, shell)
                && localRuleIds == Decimals(ListedNow(prefix, rules, shell.relisting))
              else rules == old(rules) && errors == [UnsupportedSystem] && localRuleIds == []
    {
      var entries := if snapshot.Some? then snapshot.value else [];
      var desired, parsed, malformed := ParseSnapshot(entries);
      if !supported {
        return [UnsupportedSystem], [];
      }
      var current, listErrors := ListManagedRuleIds(shell.listing);
      var toRemove := Sorted((set id | id in current) - desired);
      ghost var before := rules;
      var removed := RemoveAll(toRemove, shell.removing);
      var refused := UpsertAll(parsed, shell.creating);
      WriteNamesConcat(prefix, before, RemovalTrace(toRemove, shell.removing), UpsertTrace(parsed, shell.creating));
      errors := malformed + listErrors + removed + refused + if shell.profilesFail then [ProfileError] else [];
      var final, _ := ListManagedRuleIds(shell.relisting);
      localRuleIds := Decimals(final);
    }
  }
}
