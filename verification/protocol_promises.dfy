/**
 What the stream/pause protocol promises over whole runs: the claims of the
 service's comments, for every interleaving.
 */
module ProtocolPromises {
  import opened Wrappers
  import opened ActiveStreams
  import opened Protocol
  import opened ProtocolInvariant

  // ----- one stream per thread -----

  predicate Live(x: Stream) {
    !x.phase.Closed? && x.cancelled.None?
  }

  /** A thread has at most one live stream, and it is the one in activeStreams. */
  lemma OneLiveStreamPerThread(run: seq<Action>, s: StreamId, u: StreamId)
    requires Exec(run).Some?
    requires s in Exec(run).value.streams && u in Exec(run).value.streams
    ensures var st := Exec(run).value;
            Live(st.streams[s]) ==>
              && Holds(st.active, st.streams[s].thread, s)
              && (Live(st.streams[u]) && st.streams[u].thread == st.streams[s].thread ==> u == s)
  {
    Reachable(run);
    assert StreamOk(Exec(run).value, s) && StreamOk(Exec(run).value, u);
  }

  /**
   An entry of activeStreams is replaced only by a new stream's registration on
   the thread, and removed only by the stream it names or by a pause bound to it.
   */
  lemma OlderNeverRemovesNewer(st: State, a: Action, t: ThreadId)
    requires Enabled(st, a) && t in st.active
    ensures var after := Next(st, a);
            Holds(after.active, t, st.active[t])
            || (a.StreamDoes? && a.streamStep == Register(t) && Holds(after.active, t, a.s))
            || (t !in after.active && a == StreamDoes(st.active[t], Deregister))
            || (t !in after.active && a.PauseDoes? && BoundTo(st, a.p, st.active[t]))
  {
  }

  /** The steps that cancel a stream: its client leaves, a new stream takes its thread, a pause still bound to it cancels it. */
  predicate Cancels(st: State, a: Action, s: StreamId) {
    || a == StreamDoes(s, ClientLeaves)
    || (a.StreamDoes? && a.streamStep.Register? && Holds(st.active, a.streamStep.t, s))
    || (a.PauseDoes? && (a.pauseStep.CancelUnopened? || a.pauseStep.CancelStopped?)
        && BoundTo(st, a.p, s) && StillBound(st, st.pauses[a.p]))
  }

  /** A stream is cancelled from exactly such a step on. */
  lemma CancelledExactlyBy(st: State, a: Action, s: StreamId)
    requires Enabled(st, a) && s in st.streams
    ensures s in Next(st, a).streams
    ensures Next(st, a).streams[s].cancelled.Some? <==> st.streams[s].cancelled.Some? || Cancels(st, a, s)
  {
    if a.PauseDoes? && !a.pauseStep.CancelUnopened? && !a.pauseStep.CancelStopped? {
      OtherStepsCancelNothing(st, a.p, a.pauseStep);
    }
  }

  // ----- remote stops -----

  /**
   A pause bound to a local stream never reads stream_runs and sends at most one
   stop; the stop names that stream's settled run, which no other stream has.
   */
  lemma BoundPauseStopsItsRunOnly(run: seq<Action>, p: PauseId, h: StreamId)
    requires Exec(run).Some? && BoundTo(Exec(run).value, p, h)
    ensures var st := Exec(run).value;
            && p !in st.lookups
            && (forall i, j :: 0 <= i < j < |st.stops| && st.stops[i].pause == p ==> st.stops[j].pause != p)
            && (forall c <- st.stops :: c.pause == p ==>
                  && h in st.streams
                  && c.run != ""
                  && st.streams[h].settled == Some(c.run)
                  && c.thread == st.streams[h].thread
                  && (forall u <- st.streams :: st.streams[u].settled == Some(c.run) ==> u == h))
  {
    Reachable(run);
    var st := Exec(run).value;
    assert TargetOk(st, st.pauses[p]);
    forall c | c in st.stops && c.pause == p
      ensures h in st.streams && c.run != "" && st.streams[h].settled == Some(c.run)
      ensures c.thread == st.streams[h].thread
      ensures forall u <- st.streams :: st.streams[u].settled == Some(c.run) ==> u == h
    {
      assert StopOkIn(st, c);
    }
  }

  // ----- results and cancellations -----

  lemma OtherStepsCancelNothing(st: State, p: PauseId, step: PauseStep)
    requires PauseEnabled(st, p, step) && !step.CancelUnopened? && !step.CancelStopped?
    ensures PauseNext(st, p, step).active == st.active
    ensures forall u <- st.streams ::
              u in PauseNext(st, p, step).streams && PauseNext(st, p, step).streams[u].cancelled == st.streams[u].cancelled
  {
  }

  /** The steps of a pause that may cancel or deregister, and when they do. */
  lemma CancelsOnlyWithoutRunOrAfterOk(st: State, p: PauseId, step: PauseStep)
    requires Inv(st) && PauseEnabled(st, p, step)
    requires PauseNext(st, p, step).active != st.active
             || exists u <- st.streams :: PauseNext(st, p, step).streams[u].cancelled != st.streams[u].cancelled
    ensures p in st.pauses
    ensures var x, y := st.pauses[p], PauseNext(st, p, step).pauses[p];
            && y.didCancel
            && StillBound(st, x)
            && (x.runId == "" || x.answer == Some(StopOk))
  {
    if step.CancelUnopened? || step.CancelStopped? {
      assert AnswerOk(st.pauses[p]);
    } else {
      OtherStepsCancelNothing(st, p, step);
    }
  }

  /**
   Success is returned exactly after ok:true or an actual local cancel of the
   bound handle; after an error or ok:false the pause has cancelled nothing.
   */
  lemma PauseResults(run: seq<Action>, p: PauseId)
    requires Exec(run).Some? && p in Exec(run).value.pauses && Exec(run).value.pauses[p].phase.Done?
    ensures var st := Exec(run).value; var x := st.pauses[p]; var r := x.phase.outcome;
            && (r == Success <==> x.answer == Some(StopOk) || x.didCancel)
            && (r == InternalError <==> x.answer == Some(StopError) || x.lookupFailed)
            && (x.runId != "" && x.answer != Some(StopOk) ==> r != Success && !x.didCancel)
            && (x.didCancel ==> x.handle.Some?)
            && (!x.didCancel ==> forall u <- st.streams :: st.streams[u].cancelled != Some(ByPause(p)))
            && (forall u <- st.streams :: st.streams[u].cancelled == Some(ByPause(p)) ==> x.handle == Some(u))
  {
    Reachable(run);
    var st := Exec(run).value;
    assert AnswerOk(st.pauses[p]);
    forall u | u in st.streams && st.streams[u].cancelled == Some(ByPause(p))
      ensures st.pauses[p].handle == Some(u) && st.pauses[p].didCancel
    {
      assert StreamOk(st, u);
    }
  }

  // ----- the finish listing -----

  /**
   A stream whose upstream ended through a pause lists its messages only after
   some pause bound to it has returned, or after its own wait expired.
   */
  lemma ListsAfterAPauseReturned(run: seq<Action>, s: StreamId, p: PauseId)
    requires Exec(run).Some? && s in Exec(run).value.streams
    requires EndedThrough(Exec(run).value, s, p)
    requires PastWait(Exec(run).value.streams[s].phase)
    ensures var st := Exec(run).value; var x := st.streams[s];
            x.expired || exists q :: BoundTo(st, q, s) && st.pauses[q].phase.Done?
  {
    Reachable(run);
    var st := Exec(run).value;
    assert WaitOk(st, s, p) && StreamOk(st, s);
  }

  /**
   With a single pause bound to the stream, the listing comes only after that
   pause's stop was answered (or it had no run to stop), or the wait expired.
   */
  lemma ListsAfterItsPauseAnswered(run: seq<Action>, s: StreamId, p: PauseId)
    requires Exec(run).Some? && s in Exec(run).value.streams
    requires EndedThrough(Exec(run).value, s, p)
    requires forall q :: BoundTo(Exec(run).value, q, s) ==> q == p
    requires PastWait(Exec(run).value.streams[s].phase)
    ensures var st := Exec(run).value; var x := st.pauses[p];
            || st.streams[s].expired
            || (x.phase.Done? && (x.runId != "" ==> x.answer.Some?))
  {
    ListsAfterAPauseReturned(run, s, p);
    Reachable(run);
    assert AnswerOk(Exec(run).value.pauses[p]);
  }

  function Extended(run: seq<Action>, a: Action): (longer: seq<Action>)
    requires Exec(run).Some? && Enabled(Exec(run).value, a)
    ensures run <= longer && Exec(longer) == Some(Next(Exec(run).value, a))
  {
    ExecExtends(run, a);
    run + [a]
  }

  // The states of the run below: one stream, two pauses of it.
  const STREAMING := Stream("t", Streaming, None, Some("r"), None, None, None, false)
  const BOUND := Pause("t", Some(0), AwaitingRun(0), "", false, None, false, 0, 0, 0)

  /** The run reaches the state with stream 0 alone on thread "t", at time 0. */
  predicate Reaches(run: seq<Action>, x: Stream, pauses: map<PauseId, Pause>) {
    && Exec(run).Some?
    && var st := Exec(run).value;
       && st.now == 0
       && st.active == map["t" := 0]
       && st.streams == map[0 := x]
       && st.pauses == pauses
  }

  lemma StreamStarts() returns (run: seq<Action>)
    ensures Reaches(run, STREAMING, map[])
  {
    run := Extended([], StreamDoes(0, Register("t")));
    run := Extended(run, StreamDoes(0, BeginRequest));
    run := Extended(run, StreamDoes(0, Settle("r")));
  }

  lemma PauseBinds(run: seq<Action>, x: Stream, pauses: map<PauseId, Pause>, p: PauseId) returns (longer: seq<Action>)
    requires Reaches(run, x, pauses) && x.settled == Some("r") && p !in pauses
    ensures Reaches(longer, x, pauses[p := BOUND.(phase := Targeted, runId := "r")])
  {
    longer := Extended(run, PauseDoes(p, Bind("t")));
    longer := Extended(longer, PauseDoes(p, SeeRun));
  }

  lemma PauseSends(run: seq<Action>, x: Stream, pauses: map<PauseId, Pause>, p: PauseId) returns (longer: seq<Action>)
    requires Reaches(run, x, pauses[p := BOUND.(phase := Targeted, runId := "r")])
    ensures Reaches(longer, PausingSet(x, p), pauses[p := BOUND.(phase := StopSent, runId := "r")])
  {
    longer := Extended(run, PauseDoes(p, Mark));
    longer := Extended(longer, PauseDoes(p, SendStop));
  }

  lemma TwoPausesSend() returns (run: seq<Action>)
    ensures Exec(run).Some?
    ensures var st := Exec(run).value;
            && BoundTo(st, 0, 0) && BoundTo(st, 1, 0)
            && st.pauses[0].phase == StopSent && st.pauses[1].phase == StopSent
            && 0 in st.streams && st.streams[0].phase == Streaming
  {
    var sent := BOUND.(phase := StopSent, runId := "r");
    run := StreamStarts();
    run := PauseBinds(run, STREAMING, map[], 0);
    run := PauseSends(run, STREAMING, map[], 0);
    run := PauseBinds(run, PausingSet(STREAMING, 0), map[0 := sent], 1);
    run := PauseSends(run, PausingSet(STREAMING, 0), map[0 := sent], 1);
  }

  /** The stream was ended through p, whose stop is still unanswered, and is not listed yet. */
  predicate EndedUnanswered(st: State, s: StreamId, p: PauseId) {
    && s in st.streams && EndedThrough(st, s, p) && !st.streams[s].expired
    && st.pauses[p].phase == StopSent && st.pauses[p].answer == None
  }

  /**
   The single-pause condition above is needed, whenever a second pause has its own
   stop under way: from every reachable state in which p and q both are stopping the
   streaming s, pen-gpt may end s on p's stop and answer q's with ok:false, and the
   finish is listed with p's stop still unanswered.
   */
  lemma SecondPauseReleasesTheListing(run: seq<Action>, s: StreamId, p: PauseId, q: PauseId)
    returns (longer: seq<Action>)
    requires Exec(run).Some?
    requires var st := Exec(run).value;
             && p != q && BoundTo(st, p, s) && BoundTo(st, q, s)
             && st.pauses[p].phase == StopSent && st.pauses[q].phase == StopSent
             && s in st.streams && st.streams[s].phase == Streaming
    ensures run <= longer && Exec(longer).Some?
    ensures var st := Exec(longer).value;
            EndedUnanswered(st, s, p) && st.streams[s].phase == Listed
  {
    longer := SecondPauseReturns(run, s, p, q);
    longer := Extended(longer, StreamDoes(s, CheckPausing));
    longer := Extended(longer, StreamDoes(s, SeeAnswer));
    longer := Extended(longer, StreamDoes(s, ListMessages));
  }

  lemma SecondPauseReturns(run: seq<Action>, s: StreamId, p: PauseId, q: PauseId) returns (longer: seq<Action>)
    requires Exec(run).Some?
    requires var st := Exec(run).value;
             && p != q && BoundTo(st, p, s) && BoundTo(st, q, s)
             && st.pauses[p].phase == StopSent && st.pauses[q].phase == StopSent
             && s in st.streams && st.streams[s].phase == Streaming
    ensures run <= longer && Exec(longer).Some?
    ensures var st := Exec(longer).value;
            && EndedUnanswered(st, s, p) && st.streams[s].phase == Returned
            && st.streams[s].pausedBy.Some? && st.streams[s].answeredBy.Some?
  {
    longer := FirstPauseEnds(run, s, p, q);
    longer := Extended(longer, PauseDoes(q, AnswerStop(StopNotOk)));
    longer := Extended(longer, PauseDoes(q, EndPause));
  }

  lemma FirstPauseEnds(run: seq<Action>, s: StreamId, p: PauseId, q: PauseId) returns (longer: seq<Action>)
    requires Exec(run).Some?
    requires var st := Exec(run).value;
             && p != q && BoundTo(st, p, s) && BoundTo(st, q, s)
             && st.pauses[p].phase == StopSent && st.pauses[q].phase == StopSent
             && s in st.streams && st.streams[s].phase == Streaming
    ensures run <= longer && Exec(longer).Some?
    ensures var st := Exec(longer).value;
            && EndedUnanswered(st, s, p) && st.streams[s].phase == Returned && st.streams[s].pausedBy.Some?
            && BoundTo(st, q, s) && st.pauses[q].phase == StopSent
  {
    Reachable(run);
    var st := Exec(run).value;
    assert TargetOk(st, st.pauses[p]) && AnswerOk(st.pauses[p]) && StreamOk(st, s);
    longer := Extended(run, StreamDoes(s, EndUpstream(OnStop(p))));
  }

  /** Such a state is reachable, so the listing can precede the answer. */
  lemma SecondPauseCanReleaseTheListing() returns (run: seq<Action>)
    ensures Exec(run).Some?
    ensures var st := Exec(run).value;
            0 in st.streams && st.streams[0].phase == Listed && EndedUnanswered(st, 0, 0)
  {
    run := TwoPausesSend();
    run := SecondPauseReleasesTheListing(run, 0, 0, 1);
  }

  // ----- the run id -----

  lemma StepKeepsRunId(st: State, a: Action, s: StreamId)
    requires Enabled(st, a) && s in st.streams
    ensures s in Next(st, a).streams
    ensures st.streams[s].settled.Some? ==> Next(st, a).streams[s].settled == st.streams[s].settled
  {
    match a
    case StreamDoes(u, step) => StreamLeavesPauses(st, u, step, s);
    case PauseDoes(p, step) => HandlesMoveForward(st, p, step, s);
    case Tick(_) =>
  }

  /** Once ready is closed, the run id never changes again. */
  lemma {:induction false} RunIdIsWriteOnce(run: seq<Action>, i: nat, s: StreamId)
    requires i <= |run| && Exec(run).Some? && Exec(run[..i]).Some?
    requires s in Exec(run[..i]).value.streams
    ensures s in Exec(run).value.streams
    ensures var then0 := Exec(run[..i]).value.streams[s].settled;
            then0.Some? ==> Exec(run).value.streams[s].settled == then0
    decreases |run|
  {
    if i == |run| {
      assert run[..i] == run;
    } else {
      var before := run[..|run| - 1];
      assert before[..i] == run[..i];
      RunIdIsWriteOnce(before, i, s);
      StepKeepsRunId(Exec(before).value, run[|run| - 1], s);
    }
  }

  /**
   doUpstreamStream returns with its handle settled.  A closed stream is
   unsettled exactly when its start event could not be written.
   */
  lemma SettledWhenUpstreamReturned(run: seq<Action>, s: StreamId)
    requires Exec(run).Some? && s in Exec(run).value.streams
    ensures var x := Exec(run).value.streams[s];
            && (x.ended.Some? ==> x.settled.Some?)
            && (x.phase.Closed? ==> (x.settled.None? <==> x.ended.None?))
  {
    Reachable(run);
    assert StreamOk(Exec(run).value, s);
  }

  predicate NeverStarted(x: Stream) {
    x.settled.None? && (x.phase.Unstarted? || x.phase.Closed?)
  }

  lemma StepKeepsNeverStarted(st: State, a: Action, s: StreamId)
    requires Enabled(st, a) && s in st.streams && NeverStarted(st.streams[s])
    ensures s in Next(st, a).streams && NeverStarted(Next(st, a).streams[s])
  {
    if a.PauseDoes? {
      HandlesMoveForward(st, a.p, a.pauseStep, s);
      StreamsOnlyCancelled(st, a.p, a.pauseStep, s);
    }
  }

  /**
   A stream whose start event failed never settles, so a pause bound to it
   leaves pauseTarget only through its timeout.
   */
  lemma {:induction false} FailedStartNeverSettles(run: seq<Action>, i: nat, s: StreamId)
    requires i <= |run| && Exec(run).Some? && Exec(run[..i]).Some?
    requires s in Exec(run[..i]).value.streams && Exec(run[..i]).value.streams[s].phase.Unstarted?
    ensures s in Exec(run).value.streams && NeverStarted(Exec(run).value.streams[s])
    ensures forall p :: BoundTo(Exec(run).value, p, s) ==> !PauseEnabled(Exec(run).value, p, SeeRun)
    decreases |run|
  {
    if i == |run| {
      assert run[..i] == run;
      Reachable(run);
      assert StreamOk(Exec(run).value, s);
    } else {
      var before := run[..|run| - 1];
      assert before[..i] == run[..i];
      FailedStartNeverSettles(before, i, s);
      StepKeepsNeverStarted(Exec(before).value, run[|run| - 1], s);
    }
  }

  // ----- progress -----

  /** In every reachable state a pause that is not done has its next step, for whatever the database and pen-gpt answer. */
  lemma PausesNeverStick(run: seq<Action>, p: PauseId)
    requires Exec(run).Some? && p in Exec(run).value.pauses
    ensures var st := Exec(run).value; var x := st.pauses[p];
            match x.phase
            case AwaitingRun(since) =>
              && HandleKnown(st, x)
              && (st.streams[x.handle.value].settled.Some? ==> PauseEnabled(st, p, SeeRun))
              && (since + PAUSE_WAIT_TIMEOUT <= st.now ==> PauseEnabled(st, p, WaitTimesOut))
            case TimedOut => PauseEnabled(st, p, Recheck)
            case LookingUp => forall found :: PauseEnabled(st, p, LookUp(found))
            case Targeted => PauseEnabled(st, p, Mark)
            case Marked =>
              if x.lookupFailed || (x.runId == "" && x.handle == None) then PauseEnabled(st, p, GiveUp)
              else if x.runId == "" then PauseEnabled(st, p, CancelUnopened)
              else PauseEnabled(st, p, SendStop)
            case StopSent => forall answer :: PauseEnabled(st, p, AnswerStop(answer))
            case Confirmed => PauseEnabled(st, p, CancelStopped)
            case Returning(_) => PauseEnabled(st, p, EndPause)
            case Done(_) => true
  {
    Reachable(run);
    assert TargetOk(Exec(run).value, Exec(run).value.pauses[p]);
  }

  /** And so has a stream that is not closed, whatever pen-gpt answers and the client does. */
  lemma StreamsNeverStick(run: seq<Action>, s: StreamId)
    requires Exec(run).Some? && s in Exec(run).value.streams
    ensures var st := Exec(run).value; var x := st.streams[s];
            && (x.phase != Closed ==> StreamEnabled(st, s, ClientLeaves))
            && match x.phase
               case Starting => StreamEnabled(st, s, FailStart) && StreamEnabled(st, s, BeginRequest)
               case Requesting =>
                 && StreamEnabled(st, s, EndUpstream(OnItsOwn))
                 && forall r :: FreshRun(st, r) ==> StreamEnabled(st, s, Settle(r))
               case Streaming =>
                 && StreamEnabled(st, s, EndUpstream(OnItsOwn))
                 && (x.cancelled.Some? ==> StreamEnabled(st, s, EndUpstream(OnCancel)))
               case Returned => StreamEnabled(st, s, CheckPausing)
               case Waiting(since) =>
                 && (x.answeredBy.Some? ==> StreamEnabled(st, s, SeeAnswer))
                 && (since + PAUSE_ANSWER_TIMEOUT <= st.now ==> StreamEnabled(st, s, WaitExpires))
               case Ready => StreamEnabled(st, s, ListMessages)
               case Listed => StreamEnabled(st, s, Deregister)
               case Unstarted => StreamEnabled(st, s, Deregister)
               case Closed => true
  {
  }
}
