/**
 The biometric engine's mode machine: samples collected until training starts, dropped
 while it runs, and kept in a sliding window once it has succeeded.
 */
module BiometricEngine {
  import opened Wrappers

  type Feature = seq<real>

  datatype Mode = Collecting | Training | Guarding

  function LastN(xs: seq<Feature>, n: nat): seq<Feature> {
    if |xs| <= n then xs else xs[|xs| - n..]
  }

  /** All slices of `n` consecutive samples, in order; none when there are too few. */
  ghost predicate AreWindows(ws: seq<seq<Feature>>, xs: seq<Feature>, n: nat) {
    && |ws| == (if |xs| + 1 >= n then |xs| + 1 - n else 0)
    && forall i :: 0 <= i < |ws| ==> ws[i] == xs[i..i + n]
  }

  /** The samples the first training run waits for: a negative target still takes one. */
  function FirstRun(target: int): nat {
    if target < 1 then 1 else target
  }

  /** The part of the engine that samples and training outcomes change. */
  datatype Core = Core(mode: Mode, trainingBuffer: seq<Feature>, inferenceBuffer: seq<Feature>)

  /** With a target of zero the progress of a collected sample divides by zero, before training could start. */
  predicate Raises(core: Core, target: int) {
    core.mode.Collecting? && target == 0
  }

  /** A collected sample that completes the target starts a training thread. */
  predicate Spawns(core: Core, target: int) {
    core.mode.Collecting? && target != 0 && |core.trainingBuffer| + 1 >= target
  }

  function Fed(core: Core, target: int, seqLen: nat, x: Feature): Core {
    match core.mode
    case Collecting =>
      core.(trainingBuffer := core.trainingBuffer + [x], mode := if Spawns(core, target) then Training else Collecting)
    case Training => core
    case Guarding => core.(inferenceBuffer := LastN(core.inferenceBuffer + [x], seqLen))
  }

  function Trained(core: Core, success: bool): Core {
    if success then core.(mode := Guarding, trainingBuffer := []) else core.(mode := Collecting)
  }

  /** What `analyze` looks at, if it looks at anything. */
  function AnalysisInput(core: Core, seqLen: nat): Option<seq<Feature>> {
    if core.mode.Guarding? && |core.inferenceBuffer| >= seqLen then Some(core.inferenceBuffer) else None
  }

  class BiometricEngine {
    const target: int
    const seqLen: nat
    var mode: Mode
    var sampleCount: nat
    var trainingBuffer: seq<Feature>
    var inferenceBuffer: seq<Feature>

    function State(): Core
      reads this
    {
      Core(mode, trainingBuffer, inferenceBuffer)
    }

    constructor (target: int, seqLen: nat)
      ensures this.target == target && this.seqLen == seqLen
      ensures State() == Core(Collecting, [], []) && sampleCount == 0
    {
      this.target, this.seqLen := target, seqLen;
      mode, sampleCount, trainingBuffer, inferenceBuffer := Collecting, 0, [], [];
    }

    /** `spawned`: this sample started a training thread; `raised`: the call ended in an exception. */
    method FeedData(x: Feature) returns (spawned: bool, raised: bool)
      requires |inferenceBuffer| <= seqLen
      modifies this
      ensures match old(mode)
              case Collecting =>
                && trainingBuffer == old(trainingBuffer) + [x] && inferenceBuffer == old(inferenceBuffer)
                && mode == (if target != 0 && |trainingBuffer| >= target then Training else Collecting)
                && spawned == mode.Training? && raised == (target == 0)
              case Training => State() == old(State()) && !spawned && !raised
              case Guarding =>
                && mode == Guarding && trainingBuffer == old(trainingBuffer) && !spawned && !raised
                && var fed := old(inferenceBuffer) + [x];
                   inferenceBuffer == if |fed| <= seqLen then fed else fed[|fed| - seqLen..]
      ensures State() == Fed(old(State()), target, seqLen, x) && |inferenceBuffer| <= seqLen
      ensures spawned == Spawns(old(State()), target) && raised == Raises(old(State()), target)
      ensures sampleCount == if old(mode).Collecting? then |trainingBuffer| else old(sampleCount)
    {
      spawned, raised := false, false;
      match mode {
        case Collecting =>
          trainingBuffer := trainingBuffer + [x];
          sampleCount := |trainingBuffer|;
          if target == 0 {
            raised := true;
          } else if sampleCount >= target {
            mode := Training;
            spawned := true;
          }
        case Guarding =>
          inferenceBuffer := inferenceBuffer + [x];
          if |inferenceBuffer| > seqLen {
            inferenceBuffer := inferenceBuffer[1..];
          }
        case Training =>
      }
    }

    /** The sequences the autoencoder is trained on. */
    method TrainingWindows(data: seq<Feature>) returns (windows: seq<seq<Feature>>)
      ensures AreWindows(windows, data, seqLen)
    {
      windows := [];
      var i := 0;
      while i < |data| - seqLen + 1
        invariant 0 <= i && |windows| == i
        invariant i > 0 ==> i <= |data| - seqLen + 1
        invariant forall j :: 0 <= j < i ==> windows[j] == data[j..j + seqLen]
      {
        windows := windows + [data[i..i + seqLen]];
        i := i + 1;
      }
    }

    method FinishTraining(success: bool)
      modifies this
      ensures mode == if success then Guarding else Collecting
      ensures trainingBuffer == if success then [] else old(trainingBuffer)
      ensures inferenceBuffer == old(inferenceBuffer)
      ensures State() == Trained(old(State()), success) && sampleCount == old(sampleCount)
    {
      if success {
        mode := Guarding;
        trainingBuffer := [];
      } else {
        mode := Collecting;
      }
    }

    /** The window `analyze` works on: a full one while guarding, and none otherwise. */
    method AnalysisWindow() returns (window: Option<seq<Feature>>)
      requires |inferenceBuffer| <= seqLen
      ensures window.Some? <==> mode.Guarding? && |inferenceBuffer| == seqLen
      ensures window.Some? ==> window.value == inferenceBuffer && |window.value| == seqLen
      ensures window == AnalysisInput(State(), seqLen)
    {
      if !mode.Guarding? || |inferenceBuffer| < seqLen {
        return None;
      }
      window := Some(inferenceBuffer);
    }
  }

  // ---- whole runs ---------------------------------------------------------

  /** A training thread that has been started, and one that has taken its copy of the buffer. */
  datatype Trainer = Started | Running(data: seq<Feature>)

  /**
   `collected` and `guarded` are all samples fed in those modes; `runs` is the data of
   every training run so far, in order, `failures` how many of them failed.
   */
  datatype State = State(target: int, seqLen: nat, core: Core, trainers: seq<Trainer>,
                         collected: seq<Feature>, guarded: seq<Feature>,
                         runs: seq<seq<Feature>>, failures: nat)

  datatype Event = Feed(x: Feature) | TakeData(i: nat) | Finish(i: nat, success: bool)

  predicate Enabled(s: State, e: Event) {
    match e
    case Feed(_) => true
    case TakeData(i) => i < |s.trainers| && s.trainers[i].Started?
    case Finish(i, _) => i < |s.trainers| && s.trainers[i].Running?
  }

  function Step(s: State, e: Event): State
    requires Enabled(s, e)
  {
    match e
    case Feed(x) =>
      s.(core := Fed(s.core, s.target, s.seqLen, x),
         trainers := s.trainers + if Spawns(s.core, s.target) then [Started] else [],
         collected := s.collected + if s.core.mode.Collecting? then [x] else [],
         guarded := s.guarded + if s.core.mode.Guarding? then [x] else [])
    case TakeData(i) =>
      s.(trainers := s.trainers[i := Running(s.core.trainingBuffer)], runs := s.runs + [s.core.trainingBuffer])
    case Finish(i, success) =>
      s.(core := Trained(s.core, success),
         trainers := s.trainers[..i] + s.trainers[i + 1..],
         failures := if success then s.failures else s.failures + 1)
  }

  predicate Executable(s: State, es: seq<Event>)
    decreases |es|
  {
    es == [] || (Enabled(s, es[0]) && Executable(Step(s, es[0]), es[1..]))
  }

  function Run(s: State, es: seq<Event>): State
    requires Executable(s, es)
    decreases |es|
  {
    if es == [] then s else Run(Step(s, es[0]), es[1..])
  }

  predicate Init(s: State) {
    && s.core == Core(Collecting, [], []) && s.collected == s.guarded == []
    && s.trainers == [] && s.runs == [] && s.failures == 0
  }

  ghost predicate Inv(s: State) {
    var first := FirstRun(s.target);
    && (s.core.mode.Training? <==> |s.trainers| == 1)
    && |s.trainers| <= 1
    && (s.core.mode.Guarding? ==> s.core.trainingBuffer == [])
    && (!s.core.mode.Guarding? ==> s.core.trainingBuffer == s.collected && s.guarded == [])
    && (s.target == 0 ==> s.core.mode.Collecting? && s.runs == [])
    && (s.target != 0 && s.core.mode.Collecting? && s.failures == 0 ==> |s.collected| < first)
    && (s.core.mode.Collecting? && s.failures > 0 ==> |s.collected| == first + s.failures - 1)
    && (!s.core.mode.Collecting? ==> |s.collected| == first + s.failures)
    && |s.runs| == s.failures +
         (if s.core.mode.Guarding? || (s.core.mode.Training? && s.trainers[0].Running?) then 1 else 0)
    && (forall k :: 0 <= k < |s.runs| ==> first + k <= |s.collected| && s.runs[k] == s.collected[..first + k])
    && (forall i :: 0 <= i < |s.trainers| && s.trainers[i].Running? ==> s.trainers[i].data == s.core.trainingBuffer)
    && s.core.inferenceBuffer == LastN(s.guarded, s.seqLen)
  }

  lemma LastNAppend(xs: seq<Feature>, n: nat, x: Feature)
    ensures LastN(LastN(xs, n) + [x], n) == LastN(xs + [x], n)
  {
  }

  lemma CollectKeeps(s: State, e: Event)
    requires Inv(s) && e.Feed? && s.core.mode.Collecting?
    ensures Inv(Step(s, e))
  {
    var t := Step(s, e);
    assert s.trainers == [] && s.guarded + [] == s.guarded;
    forall k | 0 <= k < |t.runs|
      ensures FirstRun(s.target) + k <= |t.collected| && t.runs[k] == t.collected[..FirstRun(s.target) + k]
    {
      assert t.collected[..FirstRun(s.target) + k] == s.collected[..FirstRun(s.target) + k];
    }
  }

  lemma FeedKeeps(s: State, e: Event)
    requires Inv(s) && e.Feed? && !s.core.mode.Collecting?
    ensures Inv(Step(s, e))
  {
    assert s.collected + [] == s.collected && s.guarded + [] == s.guarded && s.trainers + [] == s.trainers;
    LastNAppend(s.guarded, s.seqLen, e.x);
  }

  lemma TakeKeeps(s: State, e: Event)
    requires Inv(s) && Enabled(s, e) && e.TakeData?
    ensures Inv(Step(s, e))
  {
    assert |s.trainers| == 1 && e.i == 0 && s.core.mode.Training?;
    assert s.collected[..|s.collected|] == s.collected;
  }

  lemma FinishKeeps(s: State, e: Event)
    requires Inv(s) && Enabled(s, e) && e.Finish?
    ensures Inv(Step(s, e))
  {
    assert |s.trainers| == 1 && e.i == 0 && s.core.mode.Training?;
    assert Step(s, e).trainers == [];
  }

  lemma InvKept(s: State, e: Event)
    requires Inv(s) && Enabled(s, e)
    ensures Inv(Step(s, e))
  {
    match e
    case Feed(_) =>
      if s.core.mode.Collecting? {
        CollectKeeps(s, e);
      } else {
        FeedKeeps(s, e);
      }
    case TakeData(_) => TakeKeeps(s, e);
    case Finish(_, _) => FinishKeeps(s, e);
  }

  lemma {:induction false} InvAlongRun(s: State, es: seq<Event>)
    requires Inv(s) && Executable(s, es)
    ensures Inv(Run(s, es))
    decreases |es|
  {
    if es != [] {
      InvKept(s, es[0]);
      InvAlongRun(Step(s, es[0]), es[1..]);
    }
  }

  /**
   Over every run that starts without a model: at most one training is in flight; the
   run after k failures sees exactly the first target + k collected samples, in order, and
   starts as soon as they are there; with a target of zero none ever starts; and the inference buffer is the last seqLen
   samples fed while guarding.
   */
  lemma ModeMachine(s: State, es: seq<Event>)
    requires Init(s) && Executable(s, es)
    ensures var t := Run(s, es);
            && |t.trainers| <= 1
            && (forall k :: 0 <= k < |t.runs| ==>
                  FirstRun(t.target) + k <= |t.collected| && t.runs[k] == t.collected[..FirstRun(t.target) + k])
            && (t.target != 0 ==>
                  (t.core.mode.Collecting? <==> |t.collected| < FirstRun(t.target) + t.failures))
            && |t.runs| <= t.failures + 1 && (t.target == 0 ==> t.runs == [] && t.core.mode.Collecting?)
            && t.core.inferenceBuffer == LastN(t.guarded, t.seqLen)
  {
    InvAlongRun(s, es);
  }

  /**
   At any time of such a run an analysis takes place exactly when seqLen samples have been
   fed while guarding, and it looks at the last seqLen of them, in order.
   */
  lemma AnalysesLastSamples(s: State, es: seq<Event>)
    requires Init(s) && Executable(s, es)
    ensures var t := Run(s, es);
            AnalysisInput(t.core, t.seqLen) ==
            if t.core.mode.Guarding? && |t.guarded| >= t.seqLen then Some(t.guarded[|t.guarded| - t.seqLen..]) else None
  {
    InvAlongRun(s, es);
  }

  /** A sample fed while training runs leaves no trace in any later state. */
  lemma TrainingDropsSamples(s: State, x: Feature, es: seq<Event>)
    requires s.core.mode.Training? && Executable(s, es)
    ensures Executable(s, [Feed(x)] + es) && Run(s, [Feed(x)] + es) == Run(s, es)
  {
    assert s.collected + [] == s.collected && s.guarded + [] == s.guarded && s.trainers + [] == s.trainers;
    assert ([Feed(x)] + es)[1..] == es;
  }
}
