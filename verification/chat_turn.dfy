/**
 StreamChat run alone, as module Chat has it on the objects, is a run of the
 transition system.
 */
module ChatTurns {
  import opened Wrappers
  import opened ActiveStreams
  import opened StreamHandles
  import opened Protocol
  import ProtocolInvariant
  import Chat

  /** The steps up to the return of doUpstreamStream: the headers settle the handle only when there is an answer. */
  function UpstreamActions(s: StreamId, t: ThreadId, u: Chat.Upstream): seq<Action> {
    ([StreamDoes(s, Register(t))] + [StreamDoes(s, BeginRequest)])
    + (if u.Answered? then [StreamDoes(s, Settle(u.runId))] else [])
    + [StreamDoes(s, EndUpstream(OnItsOwn))]
  }

  /** The whole turn; started: the start event was written. */
  function TurnActions(s: StreamId, t: ThreadId, u: Chat.Upstream, started: bool): seq<Action> {
    if started then
      ((UpstreamActions(s, t, u) + [StreamDoes(s, CheckPausing)]) + [StreamDoes(s, ListMessages)])
      + [StreamDoes(s, Deregister)]
    else
      ([StreamDoes(s, Register(t))] + [StreamDoes(s, FailStart)]) + [StreamDoes(s, Deregister)]
  }

  /**
   What StreamChat's contract says of the map and the handles: the thread is free,
   exactly the stream it superseded is cancelled, and its own handle is settled as
   the upstream settled it.  (Cancelling the context of a closed stream is no step.)
   */
  predicate TurnDone(st: State, end: State, s: StreamId, t: ThreadId, u: Chat.Upstream, started: bool) {
    && end.active == st.active - {t}
    && end.streams.Keys == st.streams.Keys + {s}
    && end.streams[s].phase == Closed && end.streams[s].thread == t
    && HandleOf(end.streams[s]) == NEW_HANDLE.(settled := if started then Some(Chat.SettledRun(u)) else None)
    && (forall g <- st.streams ::
          HandleOf(end.streams[g]) ==
          if Bound(st.active, t) == Some(g) then HandleOf(st.streams[g]).(cancelled := true) else HandleOf(st.streams[g]))
    && end.pauses == st.pauses && end.stops == st.stops && end.lookups == st.lookups
  }

  /** The turn so far has only its own stream x differ from what registration left. */
  predicate During(st: State, run: seq<Action>, s: StreamId, t: ThreadId, x: Stream) {
    ExecFrom(st, run) == Some(WithStream(Registration(st, s, t), s, x))
  }

  const STARTED := Stream("", Starting, None, None, None, None, None, false)

  lemma TurnRegisters(st: State, s: StreamId, t: ThreadId)
    requires s !in st.streams
    ensures During(st, [StreamDoes(s, Register(t))], s, t, STARTED.(thread := t))
  {
    var now := Next(st, StreamDoes(s, Register(t)));
    LastAction(st, [], StreamDoes(s, Register(t)));
    assert [] + [StreamDoes(s, Register(t))] == [StreamDoes(s, Register(t))];
    assert now.streams[s := STARTED.(thread := t)] == now.streams;
  }

  lemma TurnSteps(st: State, run: seq<Action>, s: StreamId, t: ThreadId, x: Stream, step: StreamStep)
    requires During(st, run, s, t, x) && !step.Register? && !step.Deregister?
    requires StreamEnabled(WithStream(Registration(st, s, t), s, x), s, step)
    ensures During(st, run + [StreamDoes(s, step)], s, t,
                   StreamAfter(WithStream(Registration(st, s, t), s, x), x, step))
  {
    var now := WithStream(Registration(st, s, t), s, x);
    var y := StreamAfter(now, x, step);
    LastAction(st, run, StreamDoes(s, step));
    assert now.streams[s := y] == Registration(st, s, t).streams[s := y];
  }

  lemma TurnDeregisters(st: State, run: seq<Action>, s: StreamId, t: ThreadId, x: Stream, u: Chat.Upstream, started: bool)
    requires s !in st.streams && During(st, run, s, t, x) && x.thread == t
    requires forall g <- st.active.Values :: g in st.streams
    requires x.phase == Listed || x.phase == Unstarted
    requires HandleOf(x) == NEW_HANDLE.(settled := if started then Some(Chat.SettledRun(u)) else None)
    ensures var longer := run + [StreamDoes(s, Deregister)];
            ExecFrom(st, longer).Some? && TurnDone(st, ExecFrom(st, longer).value, s, t, u, started)
  {
    var now := WithStream(Registration(st, s, t), s, x);
    var end := Next(now, StreamDoes(s, Deregister));
    LastAction(st, run, StreamDoes(s, Deregister));
    assert end.streams == Registration(st, s, t).streams[s := x.(phase := Closed)];
    assert end.streams.Keys == st.streams.Keys + {s} by {
      if t in st.active {
        assert st.active[t] in st.active.Values;
      }
    }
    forall g <- st.streams
      ensures g in end.streams
      ensures HandleOf(end.streams[g]) ==
              if Bound(st.active, t) == Some(g) then HandleOf(st.streams[g]).(cancelled := true) else HandleOf(st.streams[g])
    {
      ProtocolInvariant.RegistrationLeaves(st, s, t, g);
    }
  }

  lemma UpstreamRuns(st: State, s: StreamId, t: ThreadId, u: Chat.Upstream)
    requires s !in st.streams && (u.Answered? ==> FreshRun(st, u.runId))
    ensures During(st, UpstreamActions(s, t, u), s, t,
                   STARTED.(thread := t, phase := Returned, settled := Some(Chat.SettledRun(u)), ended := Some(OnItsOwn)))
  {
    var run := [StreamDoes(s, Register(t))];
    var x := STARTED.(thread := t);
    TurnRegisters(st, s, t);
    TurnSteps(st, run, s, t, x, BeginRequest);
    run, x := run + [StreamDoes(s, BeginRequest)], x.(phase := Requesting);
    if u.Answered? {
      TurnSteps(st, run, s, t, x, Settle(u.runId));
      run, x := run + [StreamDoes(s, Settle(u.runId))], x.(phase := Streaming, settled := Some(u.runId));
    }
    assert run == [StreamDoes(s, Register(t))] + [StreamDoes(s, BeginRequest)]
                  + if u.Answered? then [StreamDoes(s, Settle(u.runId))] else [];
    TurnSteps(st, run, s, t, x, EndUpstream(OnItsOwn));
  }

  /**
   The turn run on the objects is a run of the transition system: from every state
   with a new stream its steps are enabled one after the other and leave the map and
   the handles as StreamChat's contract states.
   */
  lemma UninterruptedTurnIsARun(st: State, s: StreamId, t: ThreadId, u: Chat.Upstream, started: bool)
    requires s !in st.streams && (u.Answered? ==> FreshRun(st, u.runId))
    requires forall g <- st.active.Values :: g in st.streams
    ensures var run := TurnActions(s, t, u, started);
            ExecFrom(st, run).Some? && TurnDone(st, ExecFrom(st, run).value, s, t, u, started)
  {
    if started {
      var run := UpstreamActions(s, t, u);
      var x := STARTED.(thread := t, phase := Returned, settled := Some(Chat.SettledRun(u)), ended := Some(OnItsOwn));
      UpstreamRuns(st, s, t, u);
      TurnSteps(st, run, s, t, x, CheckPausing);
      run, x := run + [StreamDoes(s, CheckPausing)], x.(phase := Ready);
      TurnSteps(st, run, s, t, x, ListMessages);
      run, x := run + [StreamDoes(s, ListMessages)], x.(phase := Listed);
      TurnDeregisters(st, run, s, t, x, u, started);
    } else {
      var run := [StreamDoes(s, Register(t))];
      TurnRegisters(st, s, t);
      TurnSteps(st, run, s, t, STARTED.(thread := t), FailStart);
      TurnDeregisters(st, run + [StreamDoes(s, FailStart)], s, t, STARTED.(thread := t, phase := Unstarted), u, started);
    }
  }

  /** So every run can go on with such a turn. */
  lemma EveryRunCanStream(run: seq<Action>, s: StreamId, t: ThreadId, u: Chat.Upstream, started: bool)
    requires Exec(run).Some? && s !in Exec(run).value.streams && (u.Answered? ==> FreshRun(Exec(run).value, u.runId))
    ensures var longer := run + TurnActions(s, t, u, started);
            Exec(longer).Some? && TurnDone(Exec(run).value, Exec(longer).value, s, t, u, started)
  {
    ProtocolInvariant.Reachable(run);
    UninterruptedTurnIsARun(Exec(run).value, s, t, u, started);
    ExecContinues(run, TurnActions(s, t, u, started));
  }
}
