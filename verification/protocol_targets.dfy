/**
 Which run a pause is for: the run its stream has at the moment the pause is
 targeted, the one its stop then names.
 */
module ProtocolTargets {
  import opened Wrappers
  import opened ActiveStreams
  import opened Protocol
  import opened ProtocolInvariant

  // ----- one step -----

  /** A pause waits from its binding on, and times out no earlier than its timeout. */
  predicate WaitsFromBinding(st: State, x: Pause) {
    && (x.phase.AwaitingRun? ==> x.phase.since == x.boundAt)
    && (x.phase.TimedOut? ==> x.boundAt + PAUSE_WAIT_TIMEOUT <= st.now)
  }

  ghost predicate AllWaitFromBinding(st: State) {
    forall p <- st.pauses :: WaitsFromBinding(st, st.pauses[p])
  }

  lemma NextKeepsWaits(st: State, a: Action)
    requires AllWaitFromBinding(st) && Enabled(st, a)
    ensures AllWaitFromBinding(Next(st, a))
  {
    if a.PauseDoes? {
      OwnPauseOnly(st, a.p, a.pauseStep);
    }
    forall p <- Next(st, a).pauses ensures WaitsFromBinding(Next(st, a), Next(st, a).pauses[p]) {
      if p in st.pauses {
        assert WaitsFromBinding(st, st.pauses[p]);
      }
    }
  }

  lemma {:induction false} WaitsReachable(run: seq<Action>)
    requires Exec(run).Some?
    ensures AllWaitFromBinding(Exec(run).value)
  {
    if run != [] {
      var n := |run| - 1;
      WaitsReachable(run[..n]);
      NextKeepsWaits(Exec(run[..n]).value, run[n]);
    }
  }

  /**
   The step that targets a pause takes the run id its stream has at that moment, ""
   when it has none yet, and takes none only when the whole wait has passed; without
   a local stream it takes what stream_runs says.
   */
  lemma TargetIsTheRunOfTheMoment(st: State, p: PauseId, step: PauseStep)
    requires Inv(st) && AllWaitFromBinding(st) && PauseEnabled(st, p, step) && !step.Bind?
    requires PauseNext(st, p, step).pauses[p].phase.Targeted?
    ensures var x, y := st.pauses[p], PauseNext(st, p, step).pauses[p];
            if x.handle.Some? then
              && x.handle.value in st.streams
              && !y.lookupFailed
              && match st.streams[x.handle.value].settled
                 case Some(run) => y.runId == run
                 case None => y.runId == "" && x.boundAt + PAUSE_WAIT_TIMEOUT <= st.now
            else
              && step.LookUp?
              && y.lookupFailed == step.found.None?
              && y.runId == match step.found case Some(run) => run case None => ""
  {
    OwnPauseOnly(st, p, step);
    assert TargetOk(st, st.pauses[p]) && WaitsFromBinding(st, st.pauses[p]);
  }

  // ----- whole runs -----

  /** The steps that end a bound pause's wait with its target. */
  predicate EndsWait(a: Action, p: PauseId) {
    a == PauseDoes(p, SeeRun) || a == PauseDoes(p, Recheck)
  }

  /** Action i of the run targets p, whose stream h then has that run, or none yet after the whole wait. */
  predicate TargetedAt(run: seq<Action>, i: nat, p: PauseId, h: StreamId, r: RunId) {
    && i < |run| && EndsWait(run[i], p)
    && Exec(run[..i]).Some?
    && var st := Exec(run[..i]).value;
       && BoundTo(st, p, h) && h in st.streams
       && match st.streams[h].settled
          case Some(settled) => settled == r
          case None => r == "" && st.pauses[p].boundAt + PAUSE_WAIT_TIMEOUT <= st.now
  }

  predicate PastTarget(x: Pause) {
    !x.phase.AwaitingRun? && !x.phase.TimedOut? && !x.phase.LookingUp?
  }

  lemma TargetIsKept(st: State, a: Action, p: PauseId)
    requires Enabled(st, a) && p in st.pauses && PastTarget(st.pauses[p])
    ensures var x, y := st.pauses[p], Next(st, a).pauses[p];
            p in Next(st, a).pauses && y.runId == x.runId && y.handle == x.handle && y.thread == x.thread
  {
    if a.PauseDoes? {
      OwnPauseOnly(st, a.p, a.pauseStep);
    }
  }

  /** A step that brings a pause past its target is the step that targets it. */
  lemma OnlyOwnStepTargets(st: State, a: Action, p: PauseId)
    requires Enabled(st, a) && p in Next(st, a).pauses && PastTarget(Next(st, a).pauses[p])
    requires p !in st.pauses || !PastTarget(st.pauses[p])
    ensures p in st.pauses && a.PauseDoes? && a.p == p && !a.pauseStep.Bind? && Next(st, a).pauses[p].phase.Targeted?
    ensures Next(st, a).pauses[p].handle == st.pauses[p].handle
  {
    if a.PauseDoes? {
      OwnPauseOnly(st, a.p, a.pauseStep);
    }
  }

  lemma LastActionTargets(run: seq<Action>, p: PauseId, h: StreamId)
    requires run != [] && Exec(run).Some? && BoundTo(Exec(run).value, p, h) && PastTarget(Exec(run).value.pauses[p])
    requires var st := Exec(run[..|run| - 1]).value; p !in st.pauses || !PastTarget(st.pauses[p])
    ensures TargetedAt(run, |run| - 1, p, h, Exec(run).value.pauses[p].runId)
  {
    var n := |run| - 1;
    var st := Exec(run[..n]).value;
    OnlyOwnStepTargets(st, run[n], p);
    Reachable(run[..n]);
    WaitsReachable(run[..n]);
    TargetIsTheRunOfTheMoment(st, p, run[n].pauseStep);
    assert TargetOk(st, st.pauses[p]);
  }

  /** The run id a bound pause goes on with is the one its stream had when the pause was targeted. */
  lemma {:induction false} TargetComesFromItsMoment(run: seq<Action>, p: PauseId, h: StreamId) returns (i: nat)
    requires Exec(run).Some? && BoundTo(Exec(run).value, p, h) && PastTarget(Exec(run).value.pauses[p])
    ensures TargetedAt(run, i, p, h, Exec(run).value.pauses[p].runId)
  {
    var n: nat := |run| - 1;
    var before := run[..n];
    var st := Exec(before).value;
    if p in st.pauses && PastTarget(st.pauses[p]) {
      TargetIsKept(st, run[n], p);
      i := TargetComesFromItsMoment(before, p, h);
      assert before[..i] == run[..i];
    } else {
      LastActionTargets(run, p, h);
      i := n;
    }
  }

  lemma FirstAfterTarget(run: seq<Action>, p: PauseId, h: StreamId, r: RunId)
    requires run != [] && Exec(run).Some? && TargetedAt(run, |run| - 1, p, h, r)
    ensures BoundTo(Exec(run).value, p, h)
    ensures PastTarget(Exec(run).value.pauses[p]) && Exec(run).value.pauses[p].runId == r
  {
    var n := |run| - 1;
    var st := Exec(run[..n]).value;
    Reachable(run[..n]);
    WaitsReachable(run[..n]);
    OwnPauseOnly(st, p, run[n].pauseStep);
    TargetIsTheRunOfTheMoment(st, p, run[n].pauseStep);
  }

  /** And it never changes afterwards. */
  lemma {:induction false} TargetIsFinal(run: seq<Action>, i: nat, p: PauseId, h: StreamId, r: RunId)
    requires Exec(run).Some? && TargetedAt(run, i, p, h, r)
    ensures BoundTo(Exec(run).value, p, h)
    ensures PastTarget(Exec(run).value.pauses[p]) && Exec(run).value.pauses[p].runId == r
    decreases |run|
  {
    var n := |run| - 1;
    if i == n {
      FirstAfterTarget(run, p, h, r);
    } else {
      assert run[..n][..i] == run[..i];
      TargetIsFinal(run[..n], i, p, h, r);
      TargetIsKept(Exec(run[..n]).value, run[n], p);
    }
  }

  // ----- the log of stops -----

  ghost predicate Logged(st: State) {
    forall p <- st.pauses :: StopWasSent(st.pauses[p]) ==>
      StopCall(p, st.pauses[p].thread, st.pauses[p].runId) in st.stops
  }

  lemma PauseKeepsLog(st: State, p: PauseId, step: PauseStep)
    requires Logged(st) && PauseEnabled(st, p, step)
    requires p in st.pauses ==> AnswerOk(st.pauses[p])
    ensures Logged(PauseNext(st, p, step))
  {
    OwnPauseOnly(st, p, step);
    PauseLogs(st, p, step);
  }

  lemma {:induction false} LogReachable(run: seq<Action>)
    requires Exec(run).Some?
    ensures Logged(Exec(run).value)
  {
    if run != [] {
      var n := |run| - 1;
      var st := Exec(run[..n]).value;
      LogReachable(run[..n]);
      Reachable(run[..n]);
      match run[n]
      case PauseDoes(p, step) =>
        assert p in st.pauses ==> AnswerOk(st.pauses[p]);
        PauseKeepsLog(st, p, step);
      case StreamDoes(s, step) =>
        var after := StreamNext(st, s, step);
        assert after.pauses == st.pauses && after.stops == st.stops;
      case Tick(_) =>
    }
  }

  /** A pause that returned with a run id has told pen-gpt to stop exactly that run. */
  lemma TargetedRunIsStopped(run: seq<Action>, p: PauseId)
    requires Exec(run).Some? && p in Exec(run).value.pauses
    ensures var st := Exec(run).value; var x := st.pauses[p];
            x.phase.Done? && x.runId != "" ==> StopCall(p, x.thread, x.runId) in st.stops
  {
    LogReachable(run);
    Reachable(run);
    assert TargetOk(Exec(run).value, Exec(run).value.pauses[p]);
  }

  /**
   A pause that cancelled its stream without telling pen-gpt to stop was targeted
   while the stream had no run: none opened, or none known after the whole wait.
   */
  lemma CancelsUnstoppedOnlyWithoutRun(run: seq<Action>, p: PauseId) returns (h: StreamId, i: nat)
    requires Exec(run).Some? && p in Exec(run).value.pauses && Exec(run).value.pauses[p].didCancel
    requires forall c <- Exec(run).value.stops :: c.pause != p
    ensures Exec(run).value.pauses[p].handle == Some(h) && TargetedAt(run, i, p, h, "")
  {
    var st := Exec(run).value;
    var x := st.pauses[p];
    Reachable(run);
    LogReachable(run);
    assert AnswerOk(x) && TargetOk(st, x);
    assert StopWasSent(x) ==> StopCall(p, x.thread, x.runId) in st.stops;
    h := x.handle.value;
    i := TargetComesFromItsMoment(run, p, h);
  }

  /**
   Conversely, a stream that has a run when its pause is targeted, be it settled
   during the wait or just after it ran out, is stopped: when the pause is done
   pen-gpt has been told to stop that run.
   */
  lemma RunKnownAtTargetIsStopped(run: seq<Action>, i: nat, p: PauseId, h: StreamId, r: RunId)
    requires Exec(run).Some? && TargetedAt(run, i, p, h, r) && r != ""
    ensures p in Exec(run).value.pauses
    ensures Exec(run).value.pauses[p].phase.Done? ==>
              StopCall(p, Exec(run).value.pauses[p].thread, r) in Exec(run).value.stops
  {
    TargetIsFinal(run, i, p, h, r);
    TargetedRunIsStopped(run, p);
  }
}
