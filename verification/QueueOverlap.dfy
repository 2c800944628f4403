/**
 Flushes that overlap judge a row by the same stale counter: how far its failures can
 then run past the limit, and runs in which they do.
 */
module QueueOverlap {
  import opened EventQueue
  import opened QueueRuns

  /** The flush holds the row as one it would still retry. */
  ghost predicate WouldRetry(f: Flight, id: nat) {
    exists i :: 0 <= i < |f.batch| && f.batch[i].id == id && f.batch[i].retries + 1 < MAX_RETRY
  }

  ghost function Holding(flights: seq<Flight>, id: nat): (n: nat)
    ensures n <= |flights|
  {
    if flights == [] then 0 else (if WouldRetry(flights[0], id) then 1 else 0) + Holding(flights[1..], id)
  }

  lemma {:induction false} HoldingConcat(xs: seq<Flight>, ys: seq<Flight>, id: nat)
    ensures Holding(xs + ys, id) == Holding(xs, id) + Holding(ys, id)
  {
    if xs == [] {
      assert xs + ys == ys;
    } else {
      assert (xs + ys)[1..] == xs[1..] + ys;
      HoldingConcat(xs[1..], ys, id);
    }
  }

  lemma HoldingSplit(flights: seq<Flight>, k: nat, f: Flight, id: nat)
    requires k < |flights|
    ensures Holding(flights, id) == Holding(flights[..k] + flights[k + 1..], id) +
                                    if WouldRetry(flights[k], id) then 1 else 0
    ensures WouldRetry(f, id) == WouldRetry(flights[k], id) ==>
              Holding(flights[k := f], id) == Holding(flights, id)
  {
    var before, after := flights[..k], flights[k + 1..];
    assert flights == before + ([flights[k]] + after) && flights[k := f] == before + ([f] + after);
    HoldingConcat(before, [flights[k]] + after, id);
    HoldingConcat([flights[k]], after, id);
    HoldingConcat(before, [f] + after, id);
    HoldingConcat([f], after, id);
    HoldingConcat(before, after, id);
    assert [flights[k]][1..] == [] && [f][1..] == [];
  }

  /** What `m` flushes can still add to a row's counter is reckoned in already. */
  ghost predicate Limited(s: State, m: nat) {
    && |s.flights| <= m
    && forall i :: 0 <= i < |s.rows| ==> s.rows[i].retries + Holding(s.flights, s.rows[i].id) <= MAX_RETRY - 2 + m
  }

  lemma EnqueueKeepsLimit(s: State, e: Event, m: nat)
    requires Inv(s) && Limited(s, m) && e.Enqueue?
    ensures Limited(Step(s, e), m)
  {
    var t := Step(s, e);
    TrimmedRows(s.rows);
    forall i | 0 <= i < |t.rows|
      ensures t.rows[i].retries + Holding(t.flights, t.rows[i].id) <= MAX_RETRY - 2 + m
    {
      if i < |t.rows| - 1 {
        assert t.rows[i] == Trimmed(s.rows)[i] && Trimmed(s.rows)[i] in Trimmed(s.rows);
        var j :| 0 <= j < |s.rows| && s.rows[j] == t.rows[i];
      }
    }
  }

  lemma StartKeepsLimit(s: State, m: nat)
    requires Inv(s) && Limited(s, m) && |s.flights| < m
    ensures Limited(Step(s, StartFlush), m)
  {
    var f := Flight(Oldest(s.rows, s.batchSize), []);
    forall j | 0 <= j < |s.rows|
      ensures s.rows[j].retries + Holding(s.flights + [f], s.rows[j].id) <= MAX_RETRY - 2 + m
    {
      HoldingConcat(s.flights, [f], s.rows[j].id);
      assert [f][1..] == [];
      if WouldRetry(f, s.rows[j].id) {
        var i :| 0 <= i < |f.batch| && f.batch[i].id == s.rows[j].id && f.batch[i].retries + 1 < MAX_RETRY;
        assert f.batch[i] == s.rows[i] && i == j;
      }
    }
  }

  /** A row judged worth a retry was held as such. */
  lemma RetriedWasHeld(f: Flight, id: nat)
    requires Ascending(f.batch) && id in VerdictsOf(f) && VerdictsOf(f)[id].Retry?
    ensures WouldRetry(f, id)
  {
    VerdictKeys(f.batch, Given(f.replies));
    var i :| 0 <= i < |f.batch| && f.batch[i].id == id;
    VerdictAt(f.batch, Given(f.replies), i);
  }

  lemma CommitKeepsLimit(s: State, e: Event, m: nat)
    requires Inv(s) && Limited(s, m) && Enabled(s, e) && e.Commit?
    ensures Limited(Step(s, e), m)
  {
    var t := Step(s, e);
    var f := s.flights[e.k];
    var v := VerdictsOf(f);
    assert SoundFlight(s, f);
    forall i | 0 <= i < |t.rows|
      ensures t.rows[i].retries + Holding(t.flights, t.rows[i].id) <= MAX_RETRY - 2 + m
    {
      var r := t.rows[i];
      SettledRows(s.rows, v, r);
      var j :| 0 <= j < |s.rows| && r in Settle(s.rows[j], v);
      HoldingSplit(s.flights, e.k, f, r.id);
      if r.id in v {
        RetriedWasHeld(f, r.id);
      }
    }
  }

  lemma SendKeepsLimit(s: State, e: Event, m: nat)
    requires Limited(s, m) && Enabled(s, e) && e.Send?
    ensures Limited(Step(s, e), m)
  {
    var t := Step(s, e);
    forall i | 0 <= i < |t.rows|
      ensures Holding(t.flights, t.rows[i].id) == Holding(s.flights, t.rows[i].id)
    {
      HoldingSplit(s.flights, e.k, t.flights[e.k], t.rows[i].id);
    }
  }

  lemma RestartKeepsLimit(s: State, m: nat)
    requires Limited(s, m)
    ensures Limited(Step(s, Restart), m)
  {
  }

  lemma {:induction false} LimitAlongRun(s: State, es: seq<Event>, m: nat)
    requires Inv(s) && Limited(s, m) && Executable(s, es) && AtMost(s, es, m)
    ensures Limited(Run(s, es), m)
    decreases |es|
  {
    if es != [] {
      InvKept(s, es[0]);
      match es[0] {
        case Enqueue(_) => EnqueueKeepsLimit(s, es[0], m);
        case StartFlush => StartKeepsLimit(s, m);
        case Send(_, _) => SendKeepsLimit(s, es[0], m);
        case Commit(_) => CommitKeepsLimit(s, es[0], m);
        case Restart => RestartKeepsLimit(s, m);
      }
      LimitAlongRun(Step(s, es[0]), es[1..], m);
    }
  }

  /**
   With at most m flushes under way at once no pending row ever counts more than 18 + m
   failures: 19, below the limit, with a single flusher, and one more for each other.
   */
  lemma OverlapBound(s: State, es: seq<Event>, m: nat)
    requires Init(s) && Executable(s, es) && m >= 1 && AtMost(s, es, m)
    ensures forall i :: 0 <= i < |Run(s, es).rows| ==> Run(s, es).rows[i].retries <= MAX_RETRY - 2 + m
  {
    LimitAlongRun(s, es, m);
  }

  // ---- the bound is reached -----------------------------------------------

  ghost predicate OneRow(s: State, retries: nat) {
    && s.batchSize >= 1 && |s.rows| == 1
    && s.rows[0].payload.decodes && s.rows[0].retries == retries
  }

  /** A flush of the one row, taken when it had fewer than 19 failures. */
  ghost predicate HoldsRow(s: State, f: Flight) {
    && |s.rows| == 1 && |f.batch| == 1 && f.replies == []
    && f.batch[0].id == s.rows[0].id && f.batch[0].payload.decodes && f.batch[0].retries + 1 < MAX_RETRY
  }

  function Refusal(): seq<Event> {
    [Send(0, false)] + ([Commit(0)] + [])
  }

  /** Its flush refused, the row counts one failure more. */
  lemma RefusedRow(s: State, retries: nat)
    requires OneRow(s, retries) && s.flights != [] && HoldsRow(s, s.flights[0])
    ensures Executable(s, Refusal()) && AtMost(s, Refusal(), 0)
    ensures var t := Run(s, Refusal());
            OneRow(t, retries + 1) && t.rows[0].id == s.rows[0].id && t.flights == s.flights[1..]
  {
    var t1 := Step(s, Send(0, false));
    var f := t1.flights[0];
    assert f.replies == [false] && !Given(f.replies)(0);
    VerdictAt(f.batch, Given(f.replies), 0);
    var t2 := Step(t1, Commit(0));
    var v := VerdictsOf(f);
    assert s.rows[1..] == [] && Settled(s.rows, v) == Settle(s.rows[0], v) + Settled([], v);
    assert t2.flights == s.flights[1..];
    RunCons(t1, Commit(0), []);
    RunCons(s, Send(0, false), [Commit(0)] + []);
    AtMostCons(t1, Commit(0), [], 0);
    AtMostCons(s, Send(0, false), [Commit(0)] + [], 0);
  }

  lemma AtMostCons(s: State, e: Event, es: seq<Event>, m: nat)
    requires Enabled(s, e) && Executable(Step(s, e), es) && AtMost(Step(s, e), es, m)
    requires e.StartFlush? ==> |s.flights| < m
    ensures Executable(s, [e] + es) && AtMost(s, [e] + es, m)
  {
    assert ([e] + es)[1..] == es;
  }

  lemma {:induction false} AtMostConcat(s: State, es: seq<Event>, fs: seq<Event>, k: nat, m: nat)
    requires Executable(s, es) && AtMost(s, es, k) && k <= m
    requires Executable(Run(s, es), fs) && AtMost(Run(s, es), fs, m)
    ensures Executable(s, es + fs) && AtMost(s, es + fs, m)
    ensures Run(s, es + fs) == Run(Run(s, es), fs)
    decreases |es|
  {
    if es == [] {
      assert es + fs == fs;
    } else {
      assert (es + fs)[1..] == es[1..] + fs;
      AtMostConcat(Step(s, es[0]), es[1..], fs, k, m);
    }
  }

  function Refusals(n: nat): seq<Event> {
    if n == 0 then [] else Refusal() + Refusals(n - 1)
  }

  /** Every flush under way refused, one after the other. */
  lemma {:induction false} AllRefused(s: State, retries: nat)
    requires OneRow(s, retries) && forall k :: 0 <= k < |s.flights| ==> HoldsRow(s, s.flights[k])
    ensures Executable(s, Refusals(|s.flights|)) && AtMost(s, Refusals(|s.flights|), 0)
    ensures var t := Run(s, Refusals(|s.flights|));
            OneRow(t, retries + |s.flights|) && t.flights == []
    decreases |s.flights|
  {
    if s.flights != [] {
      RefusedRow(s, retries);
      var t := Run(s, Refusal());
      forall k | 0 <= k < |t.flights|
        ensures HoldsRow(t, t.flights[k])
      {
        assert t.flights[k] == s.flights[k + 1];
      }
      AllRefused(t, retries + 1);
      AtMostConcat(s, Refusal(), Refusals(|t.flights|), 0, 0);
    }
  }

  function Starts(n: nat): seq<Event> {
    if n == 0 then [] else [StartFlush] + Starts(n - 1)
  }

  lemma {:induction false} StartsRun(s: State, retries: nat, n: nat, m: nat)
    requires OneRow(s, retries) && retries + 1 < MAX_RETRY && |s.flights| + n <= m
    requires forall k :: 0 <= k < |s.flights| ==> HoldsRow(s, s.flights[k])
    ensures Executable(s, Starts(n)) && AtMost(s, Starts(n), m)
    ensures var t := Run(s, Starts(n));
            && OneRow(t, retries) && |t.flights| == |s.flights| + n
            && forall k :: 0 <= k < |t.flights| ==> HoldsRow(t, t.flights[k])
    decreases n
  {
    if n > 0 {
      var t := Step(s, StartFlush);
      forall k | 0 <= k < |t.flights|
        ensures HoldsRow(t, t.flights[k])
      {
        if k < |s.flights| {
          assert t.flights[k] == s.flights[k];
        } else {
          assert Oldest(s.rows, s.batchSize) == s.rows;
        }
      }
      StartsRun(t, retries, n - 1, m);
      RunCons(s, StartFlush, Starts(n - 1));
      AtMostCons(s, StartFlush, Starts(n - 1), m);
    }
  }

  /** `n` flushes started together and then refused one by one. */
  function Volley(n: nat): seq<Event> {
    Starts(n) + Refusals(n)
  }

  lemma VolleyRuns(s: State, retries: nat, n: nat, m: nat)
    requires OneRow(s, retries) && s.flights == [] && retries + 1 < MAX_RETRY && n <= m
    ensures Executable(s, Volley(n)) && AtMost(s, Volley(n), m)
    ensures OneRow(Run(s, Volley(n)), retries + n) && Run(s, Volley(n)).flights == []
  {
    StartsRun(s, retries, n, n);
    var t := Run(s, Starts(n));
    AllRefused(t, retries);
    AtMostWeaken(t, Refusals(n), 0, m);
    AtMostConcat(s, Starts(n), Refusals(n), n, m);
  }

  lemma {:induction false} AtMostWeaken(s: State, es: seq<Event>, k: nat, m: nat)
    requires Executable(s, es) && AtMost(s, es, k) && k <= m
    ensures AtMost(s, es, m)
    decreases |es|
  {
    if es != [] {
      AtMostWeaken(Step(s, es[0]), es[1..], k, m);
    }
  }

  /** One flusher failing `n` times in a row. */
  function Rounds(n: nat): seq<Event> {
    if n == 0 then [] else Rounds(n - 1) + Volley(1)
  }

  lemma {:induction false} RoundsRun(s: State, n: nat, m: nat)
    requires OneRow(s, 0) && s.flights == [] && n < MAX_RETRY && m >= 1
    ensures Executable(s, Rounds(n)) && AtMost(s, Rounds(n), m)
    ensures OneRow(Run(s, Rounds(n)), n) && Run(s, Rounds(n)).flights == []
  {
    if n > 0 {
      RoundsRun(s, n - 1, m);
      VolleyRuns(Run(s, Rounds(n - 1)), n - 1, 1, m);
      AtMostConcat(s, Rounds(n - 1), Volley(1), m, m);
    }
  }

  /**
   The bound is tight for every m: after 18 failures one at a time, m flushes that hold
   the same stale counter all count one more, and the row is still pending at 18 + m.
   From two flushers on that breaks the limit of 20.
   */
  lemma OverlapBreaksRetryLimit(s: State, rounds: nat, m: nat)
    requires OneRow(s, 0) && s.flights == [] && m >= 1 && rounds == MAX_RETRY - 2
    ensures var es := Rounds(rounds) + Volley(m);
            && Executable(s, es) && AtMost(s, es, m)
            && OneRow(Run(s, es), MAX_RETRY - 2 + m)
  {
    RoundsRun(s, rounds, m);
    VolleyRuns(Run(s, Rounds(rounds)), rounds, m, m);
    AtMostConcat(s, Rounds(rounds), Volley(m), m, m);
  }
}
