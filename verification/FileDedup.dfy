/**
 The file watcher's deduplication: a map of last emission times that is pruned when
 it grows, against a map that never forgets.
 */
module FileDedup {
  const DEDUP_INTERVAL := 1.0
  const PRUNE_ABOVE := 1000

  datatype Key = Key(path: string, eventType: string)

  /** `ignored`: the path filter turns the event away before deduplication. */
  datatype Event = Event(key: Key, ignored: bool, now: real)

  type Times = map<Key, real>

  /** Whether an event that reaches deduplication is passed on. */
  predicate Emits(times: Times, e: Event) {
    !e.ignored && !(e.key in times && e.now - times[e.key] < DEDUP_INTERVAL)
  }

  function Prune(times: Times, now: real): Times {
    if |times| > PRUNE_ABOVE then map k | k in times && times[k] > now - DEDUP_INTERVAL * 2.0 :: times[k]
    else times
  }

  function Remember(times: Times, e: Event): Times {
    if Emits(times, e) then times[e.key := e.now] else times
  }

  function Recorded(times: Times, e: Event): Times {
    if Emits(times, e) then Prune(times[e.key := e.now], e.now) else times
  }

  class FileWatcher {
    var lastEvents: Times

    constructor ()
      ensures lastEvents == map[]
    {
      lastEvents := map[];
    }

    /** After a recorded event the map is small or holds only entries younger than two seconds. */
    method EventCallback(e: Event) returns (emitted: bool)
      modifies this
      ensures emitted <==> !e.ignored && (e.key in old(lastEvents) ==> e.now - old(lastEvents)[e.key] >= 1.0)
      ensures !emitted ==> lastEvents == old(lastEvents)
      ensures emitted ==> e.key in lastEvents && lastEvents[e.key] == e.now
      ensures forall k :: k in lastEvents && k != e.key ==>
                k in old(lastEvents) && lastEvents[k] == old(lastEvents)[k]
      ensures forall k :: k in old(lastEvents) && k !in lastEvents ==>
                |old(lastEvents)[e.key := e.now]| > 1000 && e.now - old(lastEvents)[k] >= 2.0
      ensures emitted == Emits(old(lastEvents), e)
      ensures lastEvents == Recorded(old(lastEvents), e)
      ensures emitted ==> |lastEvents| <= 1000 ||
                          forall k :: k in lastEvents ==> e.now - lastEvents[k] < 2.0
    {
      if e.ignored {
        return false;
      }
      if e.key in lastEvents && e.now - lastEvents[e.key] < DEDUP_INTERVAL {
        return false;
      }
      lastEvents := lastEvents[e.key := e.now];
      if |lastEvents| > PRUNE_ABOVE {
        var cutoff := e.now - DEDUP_INTERVAL * 2.0;
        lastEvents := map k | k in lastEvents && lastEvents[k] > cutoff :: lastEvents[k];
      }
      emitted := true;
    }
  }

  // ---- whole runs ---------------------------------------------------------

  function Pruned(es: seq<Event>): Times {
    if es == [] then map[] else Recorded(Pruned(es[..|es| - 1]), es[|es| - 1])
  }

  /** The map that never forgets. */
  function Full(es: seq<Event>): Times {
    if es == [] then map[] else Remember(Full(es[..|es| - 1]), es[|es| - 1])
  }

  /** The decision of the code for the i-th event of a run. */
  predicate Emitted(es: seq<Event>, i: nat)
    requires i < |es|
  {
    Emits(Pruned(es[..i]), es[i])
  }

  ghost predicate Chronological(es: seq<Event>) {
    forall i, j :: 0 <= i <= j < |es| ==> es[i].now <= es[j].now
  }

  /** The pruned map agrees with the full one, and lacks only what is two seconds old by `now`. */
  ghost predicate Refines(pruned: Times, full: Times, now: real) {
    && (forall k :: k in pruned ==> k in full && pruned[k] == full[k])
    && (forall k :: k in full ==> full[k] <= now)
    && (forall k :: k in full && k !in pruned ==> now - full[k] >= 2.0)
  }

  lemma RefinesStep(pruned: Times, full: Times, before: real, e: Event)
    requires Refines(pruned, full, before) && before <= e.now
    ensures Emits(pruned, e) == Emits(full, e)
    ensures Refines(Recorded(pruned, e), Remember(full, e), e.now)
  {
  }

  lemma {:induction false} PrunedRefines(es: seq<Event>)
    requires Chronological(es)
    ensures es == [] ==> Pruned(es) == Full(es) == map[]
    ensures es != [] ==> Refines(Pruned(es), Full(es), es[|es| - 1].now)
  {
    if es != [] {
      var k := |es| - 1;
      PrunedRefines(es[..k]);
      RefinesStep(Pruned(es[..k]), Full(es[..k]), if k > 0 then es[k - 1].now else es[k].now, es[k]);
    }
  }

  /** Deduplication with pruning decides as if nothing were ever forgotten. */
  lemma PruningIsInvisible(es: seq<Event>, i: nat)
    requires Chronological(es) && i < |es|
    ensures Emitted(es, i) == Emits(Full(es[..i]), es[i])
  {
    PrunedRefines(es[..i]);
    RefinesStep(Pruned(es[..i]), Full(es[..i]), if i > 0 then es[i - 1].now else es[i].now, es[i]);
  }

  lemma EmittedPrefix(es: seq<Event>, k: nat, i: nat)
    requires i < k <= |es|
    ensures Emitted(es[..k], i) == Emitted(es, i) && es[..k][i] == es[i]
  {
    assert es[..k][..i] == es[..i];
  }

  ghost predicate LastEmission(es: seq<Event>, key: Key, last: nat) {
    && last < |es| && es[last].key == key && Emitted(es, last)
    && forall i :: last < i < |es| && es[i].key == key ==> !Emitted(es, i)
  }

  ghost predicate NeverEmitted(es: seq<Event>, key: Key) {
    forall i :: 0 <= i < |es| && es[i].key == key ==> !Emitted(es, i)
  }

  lemma LastEmissionExtends(es: seq<Event>, key: Key, last: nat)
    requires es != []
    requires LastEmission(es[..|es| - 1], key, last) || NeverEmitted(es[..|es| - 1], key)
    ensures var k := |es| - 1;
            if es[k].key == key && Emitted(es, k) then LastEmission(es, key, k)
            else if LastEmission(es[..k], key, last) then LastEmission(es, key, last)
            else NeverEmitted(es, key)
  {
    var k := |es| - 1;
    forall i: nat | i < k
      ensures Emitted(es[..k], i) == Emitted(es, i) && es[..k][i] == es[i]
    {
      EmittedPrefix(es, k, i);
    }
  }

  /** The full map holds a key exactly when it was emitted, with the time of its last emission. */
  lemma {:induction false} FullIsLastEmission(es: seq<Event>, key: Key) returns (last: nat)
    requires Chronological(es)
    ensures if key in Full(es) then LastEmission(es, key, last) && Full(es)[key] == es[last].now
            else NeverEmitted(es, key)
  {
    last := 0;
    if es != [] {
      var k := |es| - 1;
      last := FullIsLastEmission(es[..k], key);
      PruningIsInvisible(es, k);
      LastEmissionExtends(es, key, last);
      if es[k].key == key && Emitted(es, k) {
        last := k;
      }
    }
  }

  /** Emissions of one path and type are at least a second apart. */
  lemma EmissionsApart(es: seq<Event>, i: nat, j: nat)
    requires Chronological(es) && i < j < |es| && es[i].key == es[j].key
    requires Emitted(es, i) && Emitted(es, j)
    ensures es[j].now - es[i].now >= 1.0
  {
    PruningIsInvisible(es, j);
    var last := FullIsLastEmission(es[..j], es[j].key);
    EmittedPrefix(es, j, i);
    assert es[..j][last] == es[last];
  }

  /** A suppressed event has an emission of the same path and type less than a second before it. */
  lemma SuppressionHasReason(es: seq<Event>, j: nat) returns (i: nat)
    requires Chronological(es) && j < |es| && !es[j].ignored && !Emitted(es, j)
    ensures i < j && Emitted(es, i) && es[i].key == es[j].key
    ensures 0.0 <= es[j].now - es[i].now < 1.0
  {
    PruningIsInvisible(es, j);
    i := FullIsLastEmission(es[..j], es[j].key);
    EmittedPrefix(es, j, i);
  }

  /**
   An event is emitted exactly when the path filter lets it through and every emission of
   its path and type before it is at least a second older.
   */
  lemma EmittedExactly(es: seq<Event>, j: nat)
    requires Chronological(es) && j < |es|
    ensures Emitted(es, j) <==>
            && !es[j].ignored
            && forall i :: 0 <= i < j && Emitted(es, i) && es[i].key == es[j].key ==> es[j].now - es[i].now >= 1.0
  {
    if Emitted(es, j) {
      forall i | 0 <= i < j && Emitted(es, i) && es[i].key == es[j].key
        ensures es[j].now - es[i].now >= 1.0
      {
        EmissionsApart(es, i, j);
      }
    } else if !es[j].ignored {
      var _ := SuppressionHasReason(es, j);
    }
  }
}
