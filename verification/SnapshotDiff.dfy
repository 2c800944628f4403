/**
 The snapshot-diff monitors (USB devices, processes): each poll turns the difference
 between two snapshots into start and stop events.
 */
module SnapshotDiff {
  type Id = string

  datatype Change = Started(id: Id) | Stopped(id: Id)

  /** Exactly the differences, each once. */
  ghost predicate Reports(last: set<Id>, current: set<Id>, changes: seq<Change>) {
    && (forall i :: 0 <= i < |changes| ==>
          if changes[i].Started? then changes[i].id in current - last else changes[i].id in last - current)
    && (forall id :: id in current - last ==> Started(id) in changes)
    && (forall id :: id in last - current ==> Stopped(id) in changes)
    && (forall i, j :: 0 <= i < j < |changes| ==> changes[i] != changes[j])
  }

  class SnapshotMonitor {
    var lastIds: set<Id>

    constructor (baseline: set<Id>)
      ensures lastIds == baseline
    {
      lastIds := baseline;
    }

    method CheckEvents(current: set<Id>) returns (changes: seq<Change>)
      modifies this
      ensures Reports(old(lastIds), current, changes)
      ensures lastIds == current
    {
      changes := [];
      var added := current - lastIds;
      while added != {}
        invariant added <= current - lastIds
        invariant forall id :: Started(id) in changes <==> id in current - lastIds - added
        invariant forall i :: 0 <= i < |changes| ==> changes[i].Started?
        invariant forall i, j :: 0 <= i < j < |changes| ==> changes[i] != changes[j]
      {
        var id :| id in added;
        assert Started(id) !in changes;
        changes := changes + [Started(id)];
        added := added - {id};
      }
      var removed := lastIds - current;
      while removed != {}
        invariant removed <= lastIds - current
        invariant forall id :: Started(id) in changes <==> id in current - lastIds
        invariant forall id :: Stopped(id) in changes <==> id in lastIds - current - removed
        invariant forall i, j :: 0 <= i < j < |changes| ==> changes[i] != changes[j]
      {
        var id :| id in removed;
        assert Stopped(id) !in changes;
        changes := changes + [Stopped(id)];
        removed := removed - {id};
      }
      forall i | 0 <= i < |changes|
        ensures if changes[i].Started? then changes[i].id in current - lastIds else changes[i].id in lastIds - current
      {
        assert changes[i] in changes;
        assert changes[i] == if changes[i].Started? then Started(changes[i].id) else Stopped(changes[i].id);
      }
      lastIds := current;
    }
  }

  // ---- the event stream over a run of polls -------------------------------

  datatype Poll = Poll(current: set<Id>, changes: seq<Change>)

  ghost predicate IsRun(baseline: set<Id>, polls: seq<Poll>) {
    forall i :: 0 <= i < |polls| ==> Reports(Latest(baseline, polls[..i]), polls[i].current, polls[i].changes)
  }

  function Latest(baseline: set<Id>, polls: seq<Poll>): set<Id> {
    if polls == [] then baseline else polls[|polls| - 1].current
  }

  function Stream(polls: seq<Poll>): seq<Change> {
    if polls == [] then [] else Stream(polls[..|polls| - 1]) + polls[|polls| - 1].changes
  }

  function Applied(ids: set<Id>, c: Change): set<Id> {
    if c.Started? then ids + {c.id} else ids - {c.id}
  }

  function Replay(ids: set<Id>, cs: seq<Change>): set<Id> {
    if cs == [] then ids else Applied(Replay(ids, cs[..|cs| - 1]), cs[|cs| - 1])
  }

  /** A start meets its id absent, a stop meets it present. */
  ghost predicate Meaningful(ids: set<Id>, cs: seq<Change>) {
    forall i :: 0 <= i < |cs| ==> (cs[i].Started? <==> cs[i].id !in Replay(ids, cs[..i]))
  }

  lemma {:induction false} ReplayConcat(ids: set<Id>, cs: seq<Change>, ds: seq<Change>)
    ensures Replay(ids, cs + ds) == Replay(Replay(ids, cs), ds)
  {
    if ds == [] {
      assert cs + ds == cs;
    } else {
      assert (cs + ds)[..|cs + ds| - 1] == cs + ds[..|ds| - 1];
      ReplayConcat(ids, cs, ds[..|ds| - 1]);
    }
  }

  /** Within one poll every id changes at most once, so a prefix has moved just the ids it names. */
  lemma {:induction false} ReplayOfReport(last: set<Id>, current: set<Id>, changes: seq<Change>, k: nat, id: Id)
    requires Reports(last, current, changes) && k <= |changes|
    ensures id in Replay(last, changes[..k]) <==>
            (id in last && Stopped(id) !in changes[..k]) || Started(id) in changes[..k]
  {
    if k > 0 {
      var c := changes[k - 1];
      ReplayOfReport(last, current, changes, k - 1, id);
      assert changes[..k][..k - 1] == changes[..k - 1] && changes[..k] == changes[..k - 1] + [c];
      assert forall x :: x in changes ==> if x.Started? then x.id in current - last else x.id in last - current;
    }
  }

  lemma ReportReplays(last: set<Id>, current: set<Id>, changes: seq<Change>)
    requires Reports(last, current, changes)
    ensures Replay(last, changes) == current
    ensures Meaningful(last, changes)
  {
    assert changes[..|changes|] == changes;
    forall id
      ensures id in Replay(last, changes) <==> id in current
    {
      ReplayOfReport(last, current, changes, |changes|, id);
    }
    forall i | 0 <= i < |changes|
      ensures changes[i].Started? <==> changes[i].id !in Replay(last, changes[..i])
    {
      ReplayOfReport(last, current, changes, i, changes[i].id);
    }
  }

  lemma MeaningfulConcat(ids: set<Id>, cs: seq<Change>, ds: seq<Change>)
    requires Meaningful(ids, cs) && Meaningful(Replay(ids, cs), ds)
    ensures Meaningful(ids, cs + ds)
  {
    var all := cs + ds;
    forall i | 0 <= i < |all|
      ensures all[i].Started? <==> all[i].id !in Replay(ids, all[..i])
    {
      if i < |cs| {
        assert all[..i] == cs[..i];
      } else {
        assert all[..i] == cs + ds[..i - |cs|] && all[i] == ds[i - |cs|];
        ReplayConcat(ids, cs, ds[..i - |cs|]);
      }
    }
  }

  /** Replaying the events of any run onto the baseline yields the latest snapshot, and each id's events alternate. */
  lemma {:induction false} StreamReplaysSnapshots(baseline: set<Id>, polls: seq<Poll>)
    requires IsRun(baseline, polls)
    ensures Replay(baseline, Stream(polls)) == Latest(baseline, polls)
    ensures Meaningful(baseline, Stream(polls))
  {
    if polls != [] {
      var k := |polls| - 1;
      var before, changes := Stream(polls[..k]), polls[k].changes;
      assert forall i :: 0 <= i < k ==> polls[..k][..i] == polls[..i];
      StreamReplaysSnapshots(baseline, polls[..k]);
      ReportReplays(Latest(baseline, polls[..k]), polls[k].current, changes);
      ReplayConcat(baseline, before, changes);
      MeaningfulConcat(baseline, before, changes);
    }
  }
}
