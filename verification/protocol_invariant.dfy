/**
 The inductive invariant of the stream/pause protocol: what every reachable
 state keeps, whatever the interleaving.
 */
module ProtocolInvariant {
  import opened Wrappers
  import opened ActiveStreams
  import opened Protocol

  predicate PastMark(phase: PausePhase) {
    phase.Marked? || phase.StopSent? || phase.Confirmed? || phase.Returning? || phase.Done?
  }

  predicate BeforeReturn(phase: StreamPhase) {
    phase.Starting? || phase.Requesting? || phase.Streaming? || phase.Unstarted?
  }

  /** waitForStop has returned on this stream. */
  predicate PastWait(phase: StreamPhase) {
    phase.Ready? || phase.Listed? || phase.Closed?
  }

  predicate BoundTo(st: State, p: PauseId, s: StreamId) {
    p in st.pauses && st.pauses[p].handle == Some(s)
  }

  /**
   The stream's upstream ended through one of the pauses bound to it: pen-gpt
   ended it on that pause's stop, or that pause cancelled it locally.
   */
  predicate EndedThrough(st: State, s: StreamId, p: PauseId)
    requires s in st.streams
  {
    var x := st.streams[s];
    BoundTo(st, p, s)
    && (x.ended == Some(OnStop(p)) || (x.ended == Some(OnCancel) && x.cancelled == Some(ByPause(p))))
  }

  predicate PhaseOk(x: Stream) {
    && (x.phase.Starting? || x.phase.Requesting? || x.phase.Unstarted? ==> x.settled.None?)
    && (x.phase.Streaming? ==> x.settled.Some?)
    && (BeforeReturn(x.phase) ==> x.ended.None?)
    && (x.phase.Returned? || x.phase.Waiting? || x.phase.Ready? || x.phase.Listed? ==> x.ended.Some?)
    && (x.ended.Some? <==> x.settled.Some? && !x.phase.Streaming?)
    && (x.phase.Waiting? ==> x.pausedBy.Some?)
    && (x.expired ==> PastWait(x.phase))
    && (x.ended == Some(OnCancel) ==> x.cancelled.Some?)
  }

  /** The pauses a stream remembers were bound to it and got as far as it remembers. */
  predicate MemoryOk(st: State, s: StreamId, x: Stream) {
    && (x.pausedBy.Some? ==> BoundTo(st, x.pausedBy.value, s) && PastMark(st.pauses[x.pausedBy.value].phase))
    && (x.answeredBy.Some? ==> BoundTo(st, x.answeredBy.value, s) && st.pauses[x.answeredBy.value].phase.Done?)
    && (x.cancelled.Some? && x.cancelled.value.ByPause? ==>
          BoundTo(st, x.cancelled.value.pause, s) && st.pauses[x.cancelled.value.pause].didCancel)
    && (x.ended.Some? && x.ended.value.OnStop? ==> x.ended.value.pause in st.pauses)
  }

  predicate StreamOk(st: State, s: StreamId)
    requires s in st.streams
  {
    var x := st.streams[s];
    && PhaseOk(x)
    && (!x.phase.Closed? && x.cancelled.None? ==> Holds(st.active, x.thread, s))
    && MemoryOk(st, s, x)
  }

  /** A stream ended through a pause saw that pause's mark, and waited. */
  predicate WaitOk(st: State, s: StreamId, p: PauseId)
    requires s in st.streams
  {
    var x := st.streams[s];
    EndedThrough(st, s, p) ==>
      x.pausedBy.Some? && (PastWait(x.phase) ==> x.answeredBy.Some? || x.expired)
  }

  predicate TargetOk(st: State, x: Pause) {
    && (x.handle.Some? ==>
          && HandleKnown(st, x)
          && st.streams[x.handle.value].thread == x.thread
          && !x.lookupFailed
          && !x.phase.LookingUp?
          && (x.runId != "" ==> st.streams[x.handle.value].settled == Some(x.runId))
          && (PastMark(x.phase) ==> st.streams[x.handle.value].pausedBy.Some?)
          && (x.phase.Done? ==> st.streams[x.handle.value].answeredBy.Some?))
    && (x.handle.None? ==> !x.phase.AwaitingRun? && !x.phase.TimedOut?)
    && (x.lookupFailed ==> x.runId == "")
    && (x.phase.AwaitingRun? || x.phase.TimedOut? || x.phase.LookingUp? ==> x.runId == "")
  }

  function Outcome(phase: PausePhase): Option<PauseResult> {
    match phase
    case Returning(r) => Some(r)
    case Done(r) => Some(r)
    case _ => None
  }

  predicate AnswerOk(x: Pause) {
    && (x.answer.Some? ==> x.runId != "" && (x.phase.Confirmed? || Outcome(x.phase).Some?))
    && (x.phase.StopSent? ==> x.runId != "")
    && (x.phase.Confirmed? ==> x.answer == Some(StopOk))
    && (x.didCancel ==> x.handle.Some? && Outcome(x.phase).Some? && (x.runId == "" || x.answer == Some(StopOk)))
    && (x.runId != "" && Outcome(x.phase).Some? ==> x.answer.Some?)
    && (Outcome(x.phase).Some? ==>
          && (Outcome(x.phase) == Some(Success) <==> x.answer == Some(StopOk) || x.didCancel)
          && (Outcome(x.phase) == Some(InternalError) <==> x.answer == Some(StopError) || x.lookupFailed))
  }

  predicate StopOkIn(st: State, c: StopCall) {
    && c.pause in st.pauses
    && c.run != ""
    && c.run == st.pauses[c.pause].runId
    && c.thread == st.pauses[c.pause].thread
    && StopWasSent(st.pauses[c.pause])
  }

  ghost predicate StopsOk(st: State) {
    && (forall c <- st.stops :: StopOkIn(st, c))
    && (forall i, j :: 0 <= i < j < |st.stops| ==> st.stops[i].pause != st.stops[j].pause)
  }

  ghost predicate RunsDistinct(st: State) {
    forall s, u :: s in st.streams && u in st.streams && s != u
      && st.streams[s].settled.Some? && st.streams[s].settled == st.streams[u].settled
      ==> st.streams[s].settled == Some("")
  }

  predicate ActiveOk(st: State) {
    forall t <- st.active ::
      st.active[t] in st.streams && st.streams[st.active[t]].thread == t && !st.streams[st.active[t]].phase.Closed?
  }

  predicate LookupsOk(st: State) {
    forall p <- st.lookups :: p in st.pauses && st.pauses[p].handle.None?
  }

  ghost predicate StreamsOk(st: State) {
    forall s <- st.streams :: StreamOk(st, s)
  }

  ghost predicate WaitsOk(st: State) {
    forall s, p :: s in st.streams && p in st.pauses ==> WaitOk(st, s, p)
  }

  ghost predicate PausesOk(st: State) {
    forall p <- st.pauses :: TargetOk(st, st.pauses[p]) && AnswerOk(st.pauses[p])
  }

  ghost predicate Inv(st: State) {
    && ActiveOk(st)
    && StreamsOk(st)
    && WaitsOk(st)
    && PausesOk(st)
    && StopsOk(st)
    && RunsDistinct(st)
    && LookupsOk(st)
  }

  // ----- preservation, one stream or pause at a time -----

  /** A stream that is not replaced is untouched; the replaced one is cancelled. */
  lemma RegistrationLeaves(st: State, s: StreamId, t: ThreadId, u: StreamId)
    requires s !in st.streams && u in st.streams
    ensures var after := Registration(st, s, t);
            && after.pauses == st.pauses
            && u in after.streams
            && after.streams[u] ==
               (if Bound(st.active, t) == Some(u) then Cancelled(st.streams[u], BySupersede) else st.streams[u])
            && (Bound(st.active, t) != Some(u) ==> forall v :: Holds(st.active, v, u) ==> Holds(after.active, v, u))
  {
  }

  lemma RegistrationKeepsStream(st: State, s: StreamId, t: ThreadId, u: StreamId)
    requires StreamsOk(st) && s !in st.streams && u in Registration(st, s, t).streams
    ensures StreamOk(Registration(st, s, t), u)
  {
    if u != s {
      assert StreamOk(st, u);
      RegistrationLeaves(st, s, t, u);
    }
  }

  lemma OwnStreamKept(st: State, s: StreamId, step: StreamStep)
    requires StreamEnabled(st, s, step) && !step.Register? && StreamOk(st, s)
    ensures StreamOk(StreamNext(st, s, step), s)
  {
    if step.EndUpstream? {
      assert PhaseOk(StreamNext(st, s, step).streams[s]);
    }
  }

  lemma OtherStreamKept(st: State, s: StreamId, step: StreamStep, u: StreamId)
    requires StreamEnabled(st, s, step) && !step.Register? && u in st.streams && u != s && StreamOk(st, u)
    ensures StreamOk(StreamNext(st, s, step), u)
  {
    assert StreamNext(st, s, step).streams[u] == st.streams[u];
  }

  lemma StreamKeepsStream(st: State, s: StreamId, step: StreamStep, u: StreamId)
    requires Inv(st) && StreamEnabled(st, s, step) && !step.Register? && u in st.streams
    ensures StreamOk(StreamNext(st, s, step), u)
  {
    assert StreamOk(st, u);
    if u == s {
      OwnStreamKept(st, s, step);
    } else {
      OtherStreamKept(st, s, step, u);
    }
  }

  lemma RegistrationKeepsActive(st: State, s: StreamId, t: ThreadId)
    requires ActiveOk(st) && s !in st.streams
    ensures ActiveOk(Registration(st, s, t))
  {
    var after := Registration(st, s, t);
    forall v <- after.active
      ensures var u := after.active[v]; u in after.streams && after.streams[u].thread == v && !after.streams[u].phase.Closed?
    {
      assert v != t ==> v in st.active && after.active[v] == st.active[v];
    }
  }

  lemma StreamKeepsActive(st: State, s: StreamId, step: StreamStep)
    requires ActiveOk(st) && StreamEnabled(st, s, step)
    ensures ActiveOk(StreamNext(st, s, step))
  {
    if step.Register? {
      RegistrationKeepsActive(st, s, step.t);
    } else {
      var after := StreamNext(st, s, step);
      var y := StreamAfter(st, st.streams[s], step);
      assert after.streams == st.streams[s := y] && y.thread == st.streams[s].thread;
      assert y.phase.Closed? && !st.streams[s].phase.Closed? ==> step.Deregister?;
    }
  }

  /** A stream's step touches no pause, and no other stream's run id, mark or answer. */
  lemma StreamLeavesPauses(st: State, s: StreamId, step: StreamStep, u: StreamId)
    requires StreamEnabled(st, s, step) && u in st.streams
    ensures var after := StreamNext(st, s, step);
            && after.pauses == st.pauses && after.stops == st.stops && after.lookups == st.lookups
            && u in after.streams
            && after.streams[u].thread == st.streams[u].thread
            && (st.streams[u].settled.Some? ==> after.streams[u].settled == st.streams[u].settled)
            && after.streams[u].pausedBy == st.streams[u].pausedBy
            && after.streams[u].answeredBy == st.streams[u].answeredBy
  {
  }

  lemma StreamKeepsTarget(st: State, s: StreamId, step: StreamStep, p: PauseId)
    requires StreamEnabled(st, s, step) && p in st.pauses && TargetOk(st, st.pauses[p])
    ensures StreamNext(st, s, step).pauses == st.pauses
    ensures TargetOk(StreamNext(st, s, step), st.pauses[p])
  {
    if st.pauses[p].handle.Some? {
      StreamLeavesPauses(st, s, step, st.pauses[p].handle.value);
    }
  }

  lemma StreamKeepsPauses(st: State, s: StreamId, step: StreamStep)
    requires Inv(st) && StreamEnabled(st, s, step)
    ensures PausesOk(StreamNext(st, s, step)) && StopsOk(StreamNext(st, s, step)) && LookupsOk(StreamNext(st, s, step))
  {
    var after := StreamNext(st, s, step);
    assert after.stops == st.stops && after.pauses == st.pauses && after.lookups == st.lookups;
    forall p <- st.pauses ensures TargetOk(after, st.pauses[p]) && AnswerOk(st.pauses[p]) {
      StreamKeepsTarget(st, s, step, p);
    }
    forall c <- st.stops ensures StopOkIn(after, c) {
      assert StopOkIn(st, c);
    }
  }

  lemma StreamKeepsRuns(st: State, s: StreamId, step: StreamStep)
    requires Inv(st) && StreamEnabled(st, s, step)
    ensures RunsDistinct(StreamNext(st, s, step))
  {
  }

  lemma StreamKeepsWait(st: State, s: StreamId, step: StreamStep, u: StreamId, p: PauseId)
    requires Inv(st) && StreamEnabled(st, s, step)
    requires u in StreamNext(st, s, step).streams && p in st.pauses
    ensures WaitOk(StreamNext(st, s, step), u, p)
  {
    if u in st.streams {
      assert StreamOk(st, u) && WaitOk(st, u, p);
      assert TargetOk(st, st.pauses[p]) && AnswerOk(st.pauses[p]);
    }
  }

  /** A pause's step changes no other pause. */
  lemma OwnPauseOnly(st: State, p: PauseId, step: PauseStep)
    requires PauseEnabled(st, p, step)
    ensures var pauses := PauseNext(st, p, step).pauses;
            && pauses.Keys == st.pauses.Keys + {p}
            && (forall q <- st.pauses :: q != p ==> pauses[q] == st.pauses[q])
            && pauses[p] == (if step.Bind? then Binding(st, step.t) else PauseAfter(st, p, st.pauses[p], step))
  {
  }

  lemma PauseLogs(st: State, p: PauseId, step: PauseStep)
    requires PauseEnabled(st, p, step)
    ensures PauseNext(st, p, step).stops ==
            st.stops + if step.SendStop? then [StopCall(p, st.pauses[p].thread, st.pauses[p].runId)] else []
    ensures PauseNext(st, p, step).lookups == st.lookups + if step.LookUp? then {p} else {}
  {
  }

  lemma OwnPauseMovesForward(st: State, p: PauseId, step: PauseStep)
    requires PauseEnabled(st, p, step) && !step.Bind? && AnswerOk(st.pauses[p])
    ensures var x, y := st.pauses[p], PauseAfter(st, p, st.pauses[p], step);
            && y.handle == x.handle
            && (PastMark(x.phase) ==> PastMark(y.phase))
            && !x.phase.Done?
            && (x.didCancel ==> y.didCancel)
  {
  }

  /** A pause only moves forward: what a stream remembers of it stays true. */
  lemma PauseMovesForward(st: State, p: PauseId, step: PauseStep, q: PauseId)
    requires PausesOk(st) && PauseEnabled(st, p, step) && q in st.pauses
    ensures q in PauseNext(st, p, step).pauses
    ensures var x, y := st.pauses[q], PauseNext(st, p, step).pauses[q];
            && y.handle == x.handle
            && (PastMark(x.phase) ==> PastMark(y.phase))
            && (x.phase.Done? ==> y == x)
            && (x.didCancel ==> y.didCancel)
  {
    OwnPauseOnly(st, p, step);
    if q == p {
      OwnPauseMovesForward(st, p, step);
    }
  }

  /** A pause's step leaves every stream it is not bound to as it was, and registered where it was. */
  lemma UnboundUntouched(st: State, p: PauseId, step: PauseStep, u: StreamId)
    requires PauseEnabled(st, p, step) && u in st.streams
    requires step.Bind? || st.pauses[p].handle != Some(u)
    ensures u in PauseNext(st, p, step).streams
    ensures PauseNext(st, p, step).streams[u] == st.streams[u]
    ensures forall t :: Holds(PauseNext(st, p, step).active, t, u) <==> Holds(st.active, t, u)
  {
  }

  lemma MemoryKept(st: State, p: PauseId, step: PauseStep, u: StreamId, x: Stream)
    requires PausesOk(st) && PauseEnabled(st, p, step) && MemoryOk(st, u, x)
    ensures MemoryOk(PauseNext(st, p, step), u, x)
  {
    if x.pausedBy.Some? {
      PauseMovesForward(st, p, step, x.pausedBy.value);
    }
    if x.answeredBy.Some? {
      PauseMovesForward(st, p, step, x.answeredBy.value);
    }
    if x.cancelled.Some? && x.cancelled.value.ByPause? {
      PauseMovesForward(st, p, step, x.cancelled.value.pause);
    }
  }

  lemma BoundStreamKept(st: State, p: PauseId, step: PauseStep, u: StreamId)
    requires Inv(st) && PauseEnabled(st, p, step) && u in st.streams
    requires !step.Bind? && st.pauses[p].handle == Some(u)
    requires MemoryOk(PauseNext(st, p, step), u, st.streams[u])
    ensures u in PauseNext(st, p, step).streams && StreamOk(PauseNext(st, p, step), u)
  {
    assert StreamOk(st, u) && TargetOk(st, st.pauses[p]);
    if step.Mark? || step.EndPause? {
    } else if step.CancelUnopened? || step.CancelStopped? {
    }
  }

  lemma PauseKeepsStream(st: State, p: PauseId, step: PauseStep, u: StreamId)
    requires Inv(st) && PauseEnabled(st, p, step) && u in st.streams
    ensures u in PauseNext(st, p, step).streams && StreamOk(PauseNext(st, p, step), u)
  {
    assert StreamOk(st, u);
    MemoryKept(st, p, step, u, st.streams[u]);
    if step.Bind? || st.pauses[p].handle != Some(u) {
      UnboundUntouched(st, p, step, u);
    } else {
      BoundStreamKept(st, p, step, u);
    }
  }

  /** Handles only settle, and marks and answers are never taken back. */
  lemma HandlesMoveForward(st: State, p: PauseId, step: PauseStep, u: StreamId)
    requires PauseEnabled(st, p, step) && u in st.streams
    ensures u in PauseNext(st, p, step).streams
    ensures var x, y := st.streams[u], PauseNext(st, p, step).streams[u];
            && y.thread == x.thread
            && y.settled == x.settled
            && (x.pausedBy.Some? ==> y.pausedBy.Some?)
            && (x.answeredBy.Some? ==> y.answeredBy.Some?)
            && (step.Mark? && st.pauses[p].handle == Some(u) ==> y.pausedBy.Some?)
            && (step.EndPause? && st.pauses[p].handle == Some(u) ==> y.answeredBy.Some?)
  {
  }

  lemma StreamsOnlyCancelled(st: State, p: PauseId, step: PauseStep, u: StreamId)
    requires PauseEnabled(st, p, step) && u in st.streams
    ensures u in PauseNext(st, p, step).streams
    ensures var x, y := st.streams[u], PauseNext(st, p, step).streams[u];
            && y.phase == x.phase && y.ended == x.ended && y.expired == x.expired
            && (x.cancelled.Some? ==> y.cancelled == x.cancelled)
  {
  }

  /** A pause only ever takes entries out of the map, and adds no stream. */
  lemma PauseOnlyRemoves(st: State, p: PauseId, step: PauseStep)
    requires PauseEnabled(st, p, step)
    ensures PauseNext(st, p, step).streams.Keys == st.streams.Keys
    ensures forall t <- PauseNext(st, p, step).active :: t in st.active && PauseNext(st, p, step).active[t] == st.active[t]
  {
  }

  lemma PauseKeepsActive(st: State, p: PauseId, step: PauseStep)
    requires ActiveOk(st) && PauseEnabled(st, p, step)
    ensures ActiveOk(PauseNext(st, p, step))
  {
    PauseOnlyRemoves(st, p, step);
    forall t <- PauseNext(st, p, step).active
      ensures var u := st.active[t]; var y := PauseNext(st, p, step).streams[u]; y.thread == t && !y.phase.Closed?
    {
      HandlesMoveForward(st, p, step, st.active[t]);
      StreamsOnlyCancelled(st, p, step, st.active[t]);
    }
  }

  lemma OtherTargetKept(st: State, p: PauseId, step: PauseStep, q: PauseId)
    requires PauseEnabled(st, p, step) && q in st.pauses && q != p && TargetOk(st, st.pauses[q])
    ensures var after := PauseNext(st, p, step); q in after.pauses && TargetOk(after, after.pauses[q])
  {
    OwnPauseOnly(st, p, step);
    if st.pauses[q].handle.Some? {
      HandlesMoveForward(st, p, step, st.pauses[q].handle.value);
    }
  }

  lemma OwnTargetKept(st: State, p: PauseId, step: PauseStep)
    requires PauseEnabled(st, p, step) && !step.Bind? && TargetOk(st, st.pauses[p]) && AnswerOk(st.pauses[p])
    ensures TargetOk(PauseNext(st, p, step), PauseAfter(st, p, st.pauses[p], step))
  {
    var x := st.pauses[p];
    if x.handle.Some? {
      HandlesMoveForward(st, p, step, x.handle.value);
    }
  }

  lemma PauseKeepsTarget(st: State, p: PauseId, step: PauseStep, q: PauseId)
    requires Inv(st) && PauseEnabled(st, p, step) && q in PauseNext(st, p, step).pauses
    ensures TargetOk(PauseNext(st, p, step), PauseNext(st, p, step).pauses[q])
  {
    OwnPauseOnly(st, p, step);
    if q != p {
      assert TargetOk(st, st.pauses[q]);
      OtherTargetKept(st, p, step, q);
    } else if !step.Bind? {
      assert TargetOk(st, st.pauses[p]) && AnswerOk(st.pauses[p]);
      OwnTargetKept(st, p, step);
    }
  }

  lemma OwnAnswerKept(st: State, p: PauseId, step: PauseStep)
    requires PauseEnabled(st, p, step) && !step.Bind?
    requires TargetOk(st, st.pauses[p]) && AnswerOk(st.pauses[p])
    ensures AnswerOk(PauseAfter(st, p, st.pauses[p], step))
  {
  }

  lemma PauseKeepsAnswer(st: State, p: PauseId, step: PauseStep, q: PauseId)
    requires Inv(st) && PauseEnabled(st, p, step) && q in PauseNext(st, p, step).pauses
    ensures AnswerOk(PauseNext(st, p, step).pauses[q])
  {
    OwnPauseOnly(st, p, step);
    if q == p && !step.Bind? {
      OwnAnswerKept(st, p, step);
    } else if q != p {
      assert AnswerOk(st.pauses[q]);
    }
  }

  /** A stop that was sent stays sent, with the same run. */
  lemma StopKept(st: State, p: PauseId, step: PauseStep, c: StopCall)
    requires PauseEnabled(st, p, step) && StopOkIn(st, c)
    ensures StopOkIn(PauseNext(st, p, step), c)
  {
    OwnPauseOnly(st, p, step);
  }

  lemma PauseKeepsStops(st: State, p: PauseId, step: PauseStep)
    requires Inv(st) && PauseEnabled(st, p, step)
    ensures StopsOk(PauseNext(st, p, step))
  {
    var after := PauseNext(st, p, step);
    OwnPauseOnly(st, p, step);
    PauseLogs(st, p, step);
    forall i | 0 <= i < |st.stops|
      ensures StopOkIn(after, st.stops[i]) && (step.SendStop? ==> st.stops[i].pause != p)
    {
      assert st.stops[i] in st.stops && StopOkIn(st, st.stops[i]);
      StopKept(st, p, step, st.stops[i]);
    }
    if step.SendStop? {
      assert StopOkIn(after, StopCall(p, st.pauses[p].thread, st.pauses[p].runId));
    }
  }

  lemma PauseKeepsLookups(st: State, p: PauseId, step: PauseStep)
    requires Inv(st) && PauseEnabled(st, p, step)
    ensures LookupsOk(PauseNext(st, p, step))
  {
    OwnPauseOnly(st, p, step);
    PauseLogs(st, p, step);
    if step.LookUp? {
      assert TargetOk(st, st.pauses[p]);
    }
  }

  lemma SameRuns(st: State, st': State)
    requires RunsDistinct(st) && st'.streams.Keys == st.streams.Keys
    requires forall u <- st.streams :: st'.streams[u].settled == st.streams[u].settled
    ensures RunsDistinct(st')
  {
    forall s, u | s in st'.streams && u in st'.streams && s != u
      && st'.streams[s].settled.Some? && st'.streams[s].settled == st'.streams[u].settled
      ensures st'.streams[s].settled == Some("")
    {
      assert s in st.streams && u in st.streams;
      assert st.streams[s].settled == st.streams[u].settled;
    }
  }

  lemma PauseKeepsRuns(st: State, p: PauseId, step: PauseStep)
    requires RunsDistinct(st) && PauseEnabled(st, p, step)
    ensures RunsDistinct(PauseNext(st, p, step))
  {
    PauseOnlyRemoves(st, p, step);
    forall u <- st.streams ensures PauseNext(st, p, step).streams[u].settled == st.streams[u].settled {
      HandlesMoveForward(st, p, step, u);
    }
    SameRuns(st, PauseNext(st, p, step));
  }

  lemma PauseKeepsWait(st: State, p: PauseId, step: PauseStep, u: StreamId, q: PauseId)
    requires Inv(st) && PauseEnabled(st, p, step) && u in st.streams && q in PauseNext(st, p, step).pauses
    ensures u in PauseNext(st, p, step).streams && WaitOk(PauseNext(st, p, step), u, q)
  {
    assert StreamOk(st, u);
    OwnPauseOnly(st, p, step);
    StreamsOnlyCancelled(st, p, step, u);
    HandlesMoveForward(st, p, step, u);
    if q in st.pauses {
      assert WaitOk(st, u, q);
    }
  }

  lemma StreamKeepsInv(st: State, s: StreamId, step: StreamStep)
    requires Inv(st) && StreamEnabled(st, s, step)
    ensures Inv(StreamNext(st, s, step))
  {
    var after := StreamNext(st, s, step);
    forall u <- after.streams ensures StreamOk(after, u) {
      if step.Register? {
        RegistrationKeepsStream(st, s, step.t, u);
      } else {
        StreamKeepsStream(st, s, step, u);
      }
    }
    forall u, p | u in after.streams && p in after.pauses ensures WaitOk(after, u, p) {
      StreamKeepsWait(st, s, step, u, p);
    }
    StreamKeepsActive(st, s, step);
    StreamKeepsPauses(st, s, step);
    StreamKeepsRuns(st, s, step);
  }

  lemma PauseKeepsInv(st: State, p: PauseId, step: PauseStep)
    requires Inv(st) && PauseEnabled(st, p, step)
    ensures Inv(PauseNext(st, p, step))
  {
    var after := PauseNext(st, p, step);
    forall u <- after.streams ensures StreamOk(after, u) {
      PauseKeepsStream(st, p, step, u);
    }
    forall u, q | u in after.streams && q in after.pauses ensures WaitOk(after, u, q) {
      PauseKeepsWait(st, p, step, u, q);
    }
    forall q <- after.pauses ensures TargetOk(after, after.pauses[q]) && AnswerOk(after.pauses[q]) {
      PauseKeepsTarget(st, p, step, q);
      PauseKeepsAnswer(st, p, step, q);
    }
    PauseKeepsActive(st, p, step);
    PauseKeepsStops(st, p, step);
    PauseKeepsLookups(st, p, step);
    PauseKeepsRuns(st, p, step);
  }

  lemma NextKeepsInv(st: State, a: Action)
    requires Inv(st) && Enabled(st, a)
    ensures Inv(Next(st, a))
  {
    match a
    case StreamDoes(s, step) => StreamKeepsInv(st, s, step);
    case PauseDoes(p, step) => PauseKeepsInv(st, p, step);
    case Tick(d) =>
  }

  /** Every reachable state satisfies the invariant, whatever the interleaving. */
  lemma {:induction false} Reachable(run: seq<Action>)
    requires Exec(run).Some?
    ensures Inv(Exec(run).value)
  {
    if run != [] {
      Reachable(run[..|run| - 1]);
      NextKeepsInv(Exec(run[..|run| - 1]).value, run[|run| - 1]);
    }
  }
}
