/**
 PauseStream as the service runs it on its objects, with no other call in
 between, and the proof that such an uninterrupted pause is one of the
 transition system's runs.
 */
module PauseStreams {
  import opened Wrappers
  import opened ActiveStreams
  import opened StreamHandles
  import opened Protocol
  import ProtocolInvariant

  /** result, the run the remote stop named, and whether the bound stream is cancelled. */
  datatype PauseOutcome = PauseOutcome(result: PauseResult, stop: Option<RunId>, cancels: bool)

  /** The run a pause is for: the bound stream's own, else the one stream_runs has; None when the lookup failed. */
  function TargetRun(bound: Option<HandleState>, lookup: Option<RunId>): Option<RunId> {
    match bound
    case Some(h) => Some(if h.settled.Some? then h.settled.value else "")
    case None => lookup
  }

  /** Once the target is known: whether a stream is bound, the run, and what a remote stop would answer. */
  function OutcomeFor(bound: bool, run: Option<RunId>, answer: StopAnswer): PauseOutcome {
    if run.None? then PauseOutcome(InternalError, None, false)
    else if run.value == "" then PauseOutcome(if bound then Success else NotFound, None, bound)
    else
      match answer
      case StopOk => PauseOutcome(Success, run, bound)
      case StopNotOk => PauseOutcome(NotFound, run, false)
      case StopError => PauseOutcome(InternalError, run, false)
  }

  function OutcomeOfPause(bound: Option<HandleState>, lookup: Option<RunId>, answer: StopAnswer): PauseOutcome {
    OutcomeFor(bound.Some?, TargetRun(bound, lookup), answer)
  }

  function AfterPause(h: HandleState, cancels: bool): HandleState {
    h.(pausing := true, stopAnswered := true, cancelled := h.cancelled || cancels)
  }

  method PauseTarget(registry: StreamRegistry, t: ThreadId, lookup: Option<RunId>)
    returns (h: Option<StreamHandle>, run: Option<RunId>)
    ensures h == Bound(registry.activeStreams, t)
    ensures run == TargetRun(if h.Some? then Some(h.value.State()) else None, lookup)
  {
    h := registry.LocalStream(t);
    if h.None? {
      return None, lookup;
    }
    var settled := h.value.Settled();
    if settled {
      return h, Some(h.value.runId);
    }
    run := Some("");
  }

  /** lookup and answer are what FindRunningRunID and the stop endpoint would answer. */
  method PauseStream(registry: StreamRegistry, t: ThreadId, lookup: Option<RunId>, answer: StopAnswer)
    returns (result: PauseResult, stop: Option<RunId>)
    modifies registry, registry.activeStreams.Values
    ensures var h := Bound(old(registry.activeStreams), t);
            var bound := if h.Some? then Some(old(h.value.State())) else None;
            var o := OutcomeOfPause(bound, lookup, answer);
            && result == o.result
            && stop == o.stop
            && registry.activeStreams == (if o.cancels then old(registry.activeStreams) - {t} else old(registry.activeStreams))
            && (forall g <- old(registry.activeStreams.Values) ::
                  g.State() == if h == Some(g) then AfterPause(old(g.State()), o.cancels) else old(g.State()))
  {
    var h, run := PauseTarget(registry, t, lookup);
    if h.Some? {
      h.value.SetPausing();
    }
    result, stop := StopTarget(registry, t, h, run, answer);
    if h.Some? {
      h.value.EndPause();
    }
  }

  /** PauseStream between marking the stream and endPause. */
  method StopTarget(registry: StreamRegistry, t: ThreadId, h: Option<StreamHandle>, run: Option<RunId>, answer: StopAnswer)
    returns (result: PauseResult, stop: Option<RunId>)
    requires h == Bound(registry.activeStreams, t)
    modifies registry, if h.Some? then {h.value} else {}
    ensures var o := OutcomeFor(h.Some?, run, answer);
            && result == o.result
            && stop == o.stop
            && registry.activeStreams == (if o.cancels then old(registry.activeStreams) - {t} else old(registry.activeStreams))
            && (h.Some? ==>
                  h.value.State() == if o.cancels then old(h.value.State()).(cancelled := true) else old(h.value.State()))
  {
    if run.None? {
      return InternalError, None;
    }
    if run.value == "" {
      if h.Some? {
        var did := registry.CancelLocalStream(t, h.value);
        if did {
          return Success, None;
        }
      }
      return NotFound, None;
    }
    stop := run;
    if answer == StopError {
      return InternalError, stop;
    }
    if answer == StopNotOk {
      return NotFound, stop;
    }
    if h.Some? {
      var _ := registry.CancelLocalStream(t, h.value);
    }
    result := Success;
  }

  // ----- an uninterrupted pause in the transition system -----

  function BoundState(st: State, t: ThreadId): Option<HandleState> {
    if t in st.active && st.active[t] in st.streams then Some(HandleOf(st.streams[st.active[t]])) else None
  }

  predicate StreamsRegistered(st: State) {
    forall t <- st.active :: st.active[t] in st.streams
  }

  /** The pause's own steps up to its target, with the wait running out when the run id is not known yet. */
  function TargetActions(p: PauseId, t: ThreadId, bound: Option<HandleState>, lookup: Option<RunId>): seq<Action> {
    [PauseDoes(p, Bind(t))]
    + (match bound
       case None => [PauseDoes(p, LookUp(lookup))]
       case Some(h) =>
         if h.settled.Some? then [PauseDoes(p, SeeRun)]
         else [Tick(PAUSE_WAIT_TIMEOUT)] + ([PauseDoes(p, WaitTimesOut)] + [PauseDoes(p, Recheck)]))
  }

  predicate TargetReached(st: State, st': State, p: PauseId, t: ThreadId, run: Option<RunId>) {
    && st'.active == st.active && st'.streams == st.streams && st'.stops == st.stops
    && p in st'.pauses
    && var x := st'.pauses[p];
       && x.phase == Targeted && x.thread == t && x.handle == Bound(st.active, t)
       && x.answer == None && !x.didCancel
       && x.lookupFailed == run.None?
       && x.runId == (if run.Some? then run.value else "")
  }

  lemma PauseFindsItsTarget(st: State, p: PauseId, t: ThreadId, lookup: Option<RunId>)
    requires p !in st.pauses && StreamsRegistered(st)
    ensures var run := TargetActions(p, t, BoundState(st, t), lookup);
            && ExecFrom(st, run).Some?
            && TargetReached(st, ExecFrom(st, run).value, p, t, TargetRun(BoundState(st, t), lookup))
  {
    var bound := BoundState(st, t);
    var st1 := Next(st, PauseDoes(p, Bind(t)));
    match bound
    case None =>
      FirstAction(st, PauseDoes(p, Bind(t)), [PauseDoes(p, LookUp(lookup))]);
      FirstAction(st1, PauseDoes(p, LookUp(lookup)), []);
      assert [PauseDoes(p, LookUp(lookup))] + [] == [PauseDoes(p, LookUp(lookup))];
    case Some(h) =>
      if h.settled.Some? {
        FirstAction(st, PauseDoes(p, Bind(t)), [PauseDoes(p, SeeRun)]);
        FirstAction(st1, PauseDoes(p, SeeRun), []);
        assert [PauseDoes(p, SeeRun)] + [] == [PauseDoes(p, SeeRun)];
      } else {
        var st2 := Next(st1, Tick(PAUSE_WAIT_TIMEOUT));
        var st3 := Next(st2, PauseDoes(p, WaitTimesOut));
        FirstAction(st, PauseDoes(p, Bind(t)),
                    [Tick(PAUSE_WAIT_TIMEOUT)] + ([PauseDoes(p, WaitTimesOut)] + [PauseDoes(p, Recheck)]));
        FirstAction(st1, Tick(PAUSE_WAIT_TIMEOUT), [PauseDoes(p, WaitTimesOut)] + [PauseDoes(p, Recheck)]);
        FirstAction(st2, PauseDoes(p, WaitTimesOut), [PauseDoes(p, Recheck)]);
        FirstAction(st3, PauseDoes(p, Recheck), []);
        assert [PauseDoes(p, Recheck)] + [] == [PauseDoes(p, Recheck)];
      }
  }

  function StopsOf(p: PauseId, t: ThreadId, stop: Option<RunId>): seq<StopCall> {
    if stop.Some? then [StopCall(p, t, stop.value)] else []
  }

  function ActiveAfter(active: map<ThreadId, StreamId>, t: ThreadId, cancels: bool): map<ThreadId, StreamId> {
    if cancels then active - {t} else active
  }

  /** The pause has decided its result and endPause is next. */
  predicate Decided(st: State, st': State, p: PauseId, t: ThreadId, o: PauseOutcome) {
    && p in st'.pauses
    && st'.pauses[p].phase == Returning(o.result) && st'.pauses[p].handle == Bound(st.active, t)
    && st'.active == ActiveAfter(st.active, t, o.cancels)
    && st'.stops == st.stops + StopsOf(p, t, o.stop)
    && st'.streams.Keys == st.streams.Keys
    && forall u <- st.streams ::
         HandleOf(st'.streams[u]) ==
         if Bound(st.active, t) == Some(u)
         then HandleOf(st.streams[u]).(pausing := true, cancelled := HandleOf(st.streams[u]).cancelled || o.cancels)
         else HandleOf(st.streams[u])
  }

  /** The steps that need no remote stop. */
  lemma PauseWithoutStop(st: State, p: PauseId, t: ThreadId, run: Option<RunId>, answer: StopAnswer)
    requires StreamsRegistered(st) && TargetReached(st, st, p, t, run) && (run.None? || run.value == "")
    requires Bound(st.active, t).Some? ==> run.Some?
    ensures var bound := Bound(st.active, t).Some?;
            var steps := [PauseDoes(p, Mark)]
                         + [PauseDoes(p, if run.None? || !bound then GiveUp else CancelUnopened)];
            && ExecFrom(st, steps).Some?
            && Decided(st, ExecFrom(st, steps).value, p, t, OutcomeFor(bound, run, answer))
  {
    var bound := Bound(st.active, t).Some?;
    var step := if run.None? || !bound then GiveUp else CancelUnopened;
    var st1 := Next(st, PauseDoes(p, Mark));
    FirstAction(st, PauseDoes(p, Mark), [PauseDoes(p, step)]);
    FirstAction(st1, PauseDoes(p, step), []);
    assert [PauseDoes(p, step)] + [] == [PauseDoes(p, step)];
  }

  /** The remote stop is under way. */
  predicate Sent(st: State, st': State, p: PauseId, t: ThreadId, run: RunId) {
    && p in st'.pauses && st'.pauses[p].phase == StopSent
    && st'.pauses[p].thread == t && st'.pauses[p].handle == Bound(st.active, t)
    && st'.pauses[p].runId == run && !st'.pauses[p].lookupFailed
    && st'.active == st.active
    && st'.stops == st.stops + StopsOf(p, t, Some(run))
    && st'.streams.Keys == st.streams.Keys
    && forall u <- st.streams ::
         HandleOf(st'.streams[u]) ==
         if Bound(st.active, t) == Some(u) then HandleOf(st.streams[u]).(pausing := true) else HandleOf(st.streams[u])
  }

  lemma PauseSends(st: State, p: PauseId, t: ThreadId, run: RunId)
    requires StreamsRegistered(st) && TargetReached(st, st, p, t, Some(run)) && run != ""
    ensures var steps := [PauseDoes(p, Mark)] + [PauseDoes(p, SendStop)];
            ExecFrom(st, steps).Some? && Sent(st, ExecFrom(st, steps).value, p, t, run)
  {
    var st1 := Next(st, PauseDoes(p, Mark));
    FirstAction(st, PauseDoes(p, Mark), [PauseDoes(p, SendStop)]);
    FirstAction(st1, PauseDoes(p, SendStop), []);
    assert [PauseDoes(p, SendStop)] + [] == [PauseDoes(p, SendStop)];
  }

  function AnswerActions(p: PauseId, answer: StopAnswer): seq<Action> {
    [PauseDoes(p, AnswerStop(answer))] + if answer == StopOk then [PauseDoes(p, CancelStopped)] else []
  }

  lemma PauseIsConfirmed(st: State, st': State, p: PauseId, t: ThreadId, run: RunId)
    requires StreamsRegistered(st) && Sent(st, st', p, t, run) && run != ""
    ensures Enabled(st', PauseDoes(p, AnswerStop(StopOk)))
    ensures var st2 := Next(st', PauseDoes(p, AnswerStop(StopOk)));
            && Enabled(st2, PauseDoes(p, CancelStopped))
            && Decided(st, Next(st2, PauseDoes(p, CancelStopped)), p, t,
                       PauseOutcome(Success, Some(run), Bound(st.active, t).Some?))
  {
    var st2 := Next(st', PauseDoes(p, AnswerStop(StopOk)));
    assert st2.streams == st'.streams && st2.active == st'.active && st2.stops == st'.stops;
  }

  lemma PauseIsRefused(st: State, st': State, p: PauseId, t: ThreadId, run: RunId, answer: StopAnswer)
    requires StreamsRegistered(st) && Sent(st, st', p, t, run) && run != "" && answer != StopOk
    ensures Enabled(st', PauseDoes(p, AnswerStop(answer)))
    ensures Decided(st, Next(st', PauseDoes(p, AnswerStop(answer))), p, t,
                    PauseOutcome(if answer == StopNotOk then NotFound else InternalError, Some(run), false))
  {
  }

  lemma PauseIsAnswered(st: State, st': State, p: PauseId, t: ThreadId, run: RunId, answer: StopAnswer)
    requires StreamsRegistered(st) && Sent(st, st', p, t, run) && run != ""
    ensures var steps := AnswerActions(p, answer);
            && ExecFrom(st', steps).Some?
            && Decided(st, ExecFrom(st', steps).value, p, t, OutcomeFor(Bound(st.active, t).Some?, Some(run), answer))
  {
    var last := if answer == StopOk then [PauseDoes(p, CancelStopped)] else [];
    if answer == StopOk {
      PauseIsConfirmed(st, st', p, t, run);
      FirstAction(st', PauseDoes(p, AnswerStop(answer)), last);
      FirstAction(Next(st', PauseDoes(p, AnswerStop(answer))), PauseDoes(p, CancelStopped), []);
      assert last + [] == last;
    } else {
      PauseIsRefused(st, st', p, t, run, answer);
      FirstAction(st', PauseDoes(p, AnswerStop(answer)), last);
    }
  }

  lemma PauseWithStop(st: State, p: PauseId, t: ThreadId, run: RunId, answer: StopAnswer)
    requires StreamsRegistered(st) && TargetReached(st, st, p, t, Some(run)) && run != ""
    ensures var steps := ([PauseDoes(p, Mark)] + [PauseDoes(p, SendStop)]) + AnswerActions(p, answer);
            && ExecFrom(st, steps).Some?
            && Decided(st, ExecFrom(st, steps).value, p, t, OutcomeFor(Bound(st.active, t).Some?, Some(run), answer))
  {
    var first := [PauseDoes(p, Mark)] + [PauseDoes(p, SendStop)];
    PauseSends(st, p, t, run);
    PauseIsAnswered(st, ExecFrom(st, first).value, p, t, run, answer);
    ExecJoin(st, first, AnswerActions(p, answer));
  }

  /** The pause has returned: its result, its stop, and what it left. */
  predicate Concluded(st: State, end: State, p: PauseId, t: ThreadId, o: PauseOutcome) {
    && p in end.pauses && end.pauses[p].phase == Done(o.result)
    && end.active == ActiveAfter(st.active, t, o.cancels)
    && end.stops == st.stops + StopsOf(p, t, o.stop)
    && end.streams.Keys == st.streams.Keys
    && forall u <- st.streams ::
         HandleOf(end.streams[u]) ==
         if Bound(st.active, t) == Some(u) then AfterPause(HandleOf(st.streams[u]), o.cancels)
         else HandleOf(st.streams[u])
  }

  lemma EndPauseConcludes(st: State, st': State, p: PauseId, t: ThreadId, o: PauseOutcome)
    requires StreamsRegistered(st) && Decided(st, st', p, t, o)
    ensures Enabled(st', PauseDoes(p, EndPause))
    ensures Concluded(st, Next(st', PauseDoes(p, EndPause)), p, t, o)
  {
  }

  function DecideActions(p: PauseId, bound: bool, run: Option<RunId>, answer: StopAnswer): seq<Action> {
    if run.None? || run.value == ""
    then [PauseDoes(p, Mark)] + [PauseDoes(p, if run.None? || !bound then GiveUp else CancelUnopened)]
    else ([PauseDoes(p, Mark)] + [PauseDoes(p, SendStop)]) + AnswerActions(p, answer)
  }

  function StopActions(p: PauseId, bound: bool, run: Option<RunId>, answer: StopAnswer): seq<Action> {
    DecideActions(p, bound, run, answer) + [PauseDoes(p, EndPause)]
  }

  lemma StopIsARun(st: State, p: PauseId, t: ThreadId, run: Option<RunId>, answer: StopAnswer)
    requires StreamsRegistered(st) && TargetReached(st, st, p, t, run)
    requires Bound(st.active, t).Some? ==> run.Some?
    ensures var bound := Bound(st.active, t).Some?;
            && ExecFrom(st, StopActions(p, bound, run, answer)).Some?
            && Concluded(st, ExecFrom(st, StopActions(p, bound, run, answer)).value, p, t, OutcomeFor(bound, run, answer))
  {
    var bound := Bound(st.active, t).Some?;
    var steps := DecideActions(p, bound, run, answer);
    if run.None? || run.value == "" {
      PauseWithoutStop(st, p, t, run, answer);
    } else {
      PauseWithStop(st, p, t, run.value, answer);
    }
    EndPauseConcludes(st, ExecFrom(st, steps).value, p, t, OutcomeFor(bound, run, answer));
    LastAction(st, steps, PauseDoes(p, EndPause));
  }

  lemma ConcludedFrom(st: State, st': State, end: State, p: PauseId, t: ThreadId, o: PauseOutcome)
    requires st'.active == st.active && st'.streams == st.streams && st'.stops == st.stops
    requires Concluded(st', end, p, t, o)
    ensures Concluded(st, end, p, t, o)
  {
  }

  /**
   The pause run on the objects is a run of the transition system: from every
   state its steps, taken one after the other, are enabled and have the outcome,
   the stop, the map and the handles that PauseStream's contract states.
   */
  lemma UninterruptedPauseIsARun(st: State, p: PauseId, t: ThreadId, lookup: Option<RunId>, answer: StopAnswer)
    requires p !in st.pauses && StreamsRegistered(st)
    ensures var bound := BoundState(st, t);
            var run := TargetActions(p, t, bound, lookup)
                       + StopActions(p, bound.Some?, TargetRun(bound, lookup), answer);
            && ExecFrom(st, run).Some?
            && Concluded(st, ExecFrom(st, run).value, p, t, OutcomeOfPause(bound, lookup, answer))
  {
    var bound := BoundState(st, t);
    var target := TargetRun(bound, lookup);
    var first, last := TargetActions(p, t, bound, lookup), StopActions(p, bound.Some?, target, answer);
    PauseFindsItsTarget(st, p, t, lookup);
    var found := ExecFrom(st, first).value;
    StopIsARun(found, p, t, target, answer);
    ExecJoin(st, first, last);
    ConcludedFrom(st, found, ExecFrom(found, last).value, p, t, OutcomeOfPause(bound, lookup, answer));
  }

  /** So every run can go on with such a pause. */
  lemma EveryRunCanPause(run: seq<Action>, p: PauseId, t: ThreadId, lookup: Option<RunId>, answer: StopAnswer)
    requires Exec(run).Some? && p !in Exec(run).value.pauses
    ensures var st := Exec(run).value;
            var bound := BoundState(st, t);
            var longer := run + (TargetActions(p, t, bound, lookup)
                                 + StopActions(p, bound.Some?, TargetRun(bound, lookup), answer));
            Exec(longer).Some? && Concluded(st, Exec(longer).value, p, t, OutcomeOfPause(bound, lookup, answer))
  {
    var st := Exec(run).value;
    var bound := BoundState(st, t);
    ProtocolInvariant.Reachable(run);
    UninterruptedPauseIsARun(st, p, t, lookup, answer);
    ExecContinues(run, TargetActions(p, t, bound, lookup) + StopActions(p, bound.Some?, TargetRun(bound, lookup), answer));
  }
}
