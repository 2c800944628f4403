/**
 The abstract rule table and the writes both firewall channels issue.

 A table maps a server rule id to the rule's content. Channel B's log, the
 writes of one reconcile and the effects the operating system really had are
 all sequences of `Cmd`, so one theory of "the last write wins" serves them all.
 */
module RuleLog {
  import opened Wrappers

  /** What `New-NetFirewallRule` is given. */
  datatype Content = Content(block: bool, outbound: bool, remoteAddresses: seq<string>,
                             profile: string, enabled: bool, protocolAndPorts: string)

  /** `Inert` commands never reach the rule table; a `Poison` command makes its handler raise. */
  datatype Cmd = Upsert(id: int, content: Content) | Delete(id: int) | Inert | Poison

  type Table = map<int, Content>

  predicate Touches(c: Cmd, id: int) {
    (c.Upsert? || c.Delete?) && c.id == id
  }

  /** What a write means to leave behind under its id. */
  function Intent(c: Cmd): Option<Content>
    requires c.Upsert? || c.Delete?
  {
    if c.Upsert? then Some(c.content) else None
  }

  function Lookup(t: Table, id: int): Option<Content> {
    if id in t then Some(t[id]) else None
  }

  function Write(t: Table, c: Cmd): Table {
    match c
    case Upsert(id, content) => t[id := content]
    case Delete(id) => t - {id}
    case _ => t
  }

  function WriteAll(t: Table, cs: seq<Cmd>): Table
    decreases |cs|
  {
    if cs == [] then t else WriteAll(Write(t, cs[0]), cs[1..])
  }

  /** The state a log stands for. */
  function Fold(cs: seq<Cmd>): Table {
    WriteAll(map[], cs)
  }

  /** None when no command of `cs` touches `id`; otherwise what the last one that does intends. */
  function LastWrite(cs: seq<Cmd>, id: int): Option<Option<Content>> {
    if cs == [] then None
    else if LastWrite(cs[1..], id).Some? then LastWrite(cs[1..], id)
    else if Touches(cs[0], id) then Some(Intent(cs[0]))
    else None
  }

  function Overlay(w: Option<Option<Content>>, before: Option<Content>): Option<Content> {
    if w.Some? then w.value else before
  }

  /** How a write can come out: done, without effect, or with the old rule gone and no new one. */
  datatype Effect = Applied | Unchanged | Erased

  /** The write that describes what really happened to the table. */
  function Effective(c: Cmd, e: Effect): Cmd {
    if !c.Upsert? && !c.Delete? then Inert
    else match e
      case Applied => c
      case Unchanged => Inert
      case Erased => Delete(c.id)
  }

  lemma {:induction false} LookupAfterWrites(t: Table, cs: seq<Cmd>, id: int)
    ensures Lookup(WriteAll(t, cs), id) == Overlay(LastWrite(cs, id), Lookup(t, id))
    decreases |cs|
  {
    if cs != [] {
      LookupAfterWrites(Write(t, cs[0]), cs[1..], id);
    }
  }

  lemma TablesEqual(t: Table, u: Table)
    requires forall id :: Lookup(t, id) == Lookup(u, id)
    ensures t == u
  {
    forall id
      ensures id in t <==> id in u
      ensures id in t && id in u ==> t[id] == u[id]
    {
      assert Lookup(t, id) == Lookup(u, id);
    }
  }

  lemma {:induction false} LastWriteConcat(cs: seq<Cmd>, ds: seq<Cmd>, id: int)
    ensures LastWrite(cs + ds, id) ==
            if LastWrite(ds, id).Some? then LastWrite(ds, id) else LastWrite(cs, id)
    decreases |cs|
  {
    if cs == [] {
      assert cs + ds == ds;
    } else {
      assert (cs + ds)[1..] == cs[1..] + ds;
      LastWriteConcat(cs[1..], ds, id);
    }
  }

  lemma {:induction false} UntouchedId(cs: seq<Cmd>, id: int)
    requires forall i :: 0 <= i < |cs| ==> !Touches(cs[i], id)
    ensures LastWrite(cs, id).None?
  {
    if cs != [] {
      UntouchedId(cs[1..], id);
    }
  }

  lemma {:induction false} TouchedId(cs: seq<Cmd>, i: nat, id: int)
    requires i < |cs| && Touches(cs[i], id)
    ensures LastWrite(cs, id).Some?
  {
    if i > 0 {
      TouchedId(cs[1..], i - 1, id);
    }
  }

  lemma {:induction false} UpsertsLeaveContent(cs: seq<Cmd>, id: int)
    requires forall i :: 0 <= i < |cs| ==> cs[i].Upsert?
    ensures LastWrite(cs, id).Some? ==> LastWrite(cs, id).value.Some?
  {
    if cs != [] {
      UpsertsLeaveContent(cs[1..], id);
    }
  }

  lemma LastWriteAt(cs: seq<Cmd>, i: nat, id: int)
    requires i < |cs| && Touches(cs[i], id)
    requires forall j :: i < j < |cs| ==> !Touches(cs[j], id)
    ensures LastWrite(cs, id) == Some(Intent(cs[i]))
  {
    UntouchedId(cs[i + 1..], id);
    assert cs[i..][1..] == cs[i + 1..];
    SuffixHasLastWord(cs, i, id);
  }

  /** A suffix of a log has the last word on every id it touches. */
  lemma SuffixHasLastWord(cs: seq<Cmd>, i: nat, id: int)
    requires i <= |cs| && LastWrite(cs[i..], id).Some?
    ensures LastWrite(cs[i..], id) == LastWrite(cs, id)
  {
    assert cs == cs[..i] + cs[i..];
    LastWriteConcat(cs[..i], cs[i..], id);
  }

  /**
   Replaying any suffix of a log repairs a table exactly when the table already
   agrees with the log's final state on the ids the suffix does not touch.
   */
  lemma ReplaySuffixExact(t: Table, cs: seq<Cmd>, i: nat)
    requires i <= |cs|
    ensures WriteAll(t, cs[i..]) == Fold(cs) <==>
            forall id :: LastWrite(cs[i..], id).None? ==> Lookup(t, id) == Lookup(Fold(cs), id)
  {
    forall id
      ensures LastWrite(cs[i..], id).Some? ==>
                Lookup(WriteAll(t, cs[i..]), id) == Lookup(Fold(cs), id)
      ensures LastWrite(cs[i..], id).None? ==>
                Lookup(WriteAll(t, cs[i..]), id) == Lookup(t, id)
    {
      LookupAfterWrites(t, cs[i..], id);
      LookupAfterWrites(map[], cs, id);
      if LastWrite(cs[i..], id).Some? {
        SuffixHasLastWord(cs, i, id);
      }
    }
    if forall id :: LastWrite(cs[i..], id).None? ==> Lookup(t, id) == Lookup(Fold(cs), id) {
      TablesEqual(WriteAll(t, cs[i..]), Fold(cs));
    }
  }

  /** Replaying a suffix onto the final state changes nothing. */
  lemma ReplayOntoFinalState(cs: seq<Cmd>, i: nat)
    requires i <= |cs|
    ensures WriteAll(Fold(cs), cs[i..]) == Fold(cs)
  {
    ReplaySuffixExact(Fold(cs), cs, i);
  }

  /** The first n commands already contain the last write of every id they touch. */
  ghost predicate Complete(cs: seq<Cmd>, n: nat)
    requires n <= |cs|
  {
    forall id :: LastWrite(cs[..n], id).Some? ==> LastWrite(cs[..n], id) == LastWrite(cs, id)
  }

  lemma CutReplayAt(cs: seq<Cmd>, n: nat, id: int)
    requires n <= |cs|
    ensures Lookup(WriteAll(Fold(cs), cs[..n]), id) == Lookup(Fold(cs), id) <==>
            (LastWrite(cs[..n], id).Some? ==> LastWrite(cs[..n], id) == LastWrite(cs, id))
  {
    LookupAfterWrites(Fold(cs), cs[..n], id);
    LookupAfterWrites(map[], cs, id);
    assert cs == cs[..n] + cs[n..];
    LastWriteConcat(cs[..n], cs[n..], id);
  }

  /**
   Replaying a log onto its final state and stopping after n commands changes nothing if
   and only if, for every id these commands touch, they already contain its last write.
   */
  lemma CutReplayExact(cs: seq<Cmd>, n: nat)
    requires n <= |cs|
    ensures WriteAll(Fold(cs), cs[..n]) == Fold(cs) <==> Complete(cs, n)
  {
    var replayed := WriteAll(Fold(cs), cs[..n]);
    if forall id :: Lookup(replayed, id) == Lookup(Fold(cs), id) {
      TablesEqual(replayed, Fold(cs));
      forall id
        ensures LastWrite(cs[..n], id).Some? ==> LastWrite(cs[..n], id) == LastWrite(cs, id)
      {
        CutReplayAt(cs, n, id);
      }
    } else {
      var id :| Lookup(replayed, id) != Lookup(Fold(cs), id);
      CutReplayAt(cs, n, id);
    }
  }
}
