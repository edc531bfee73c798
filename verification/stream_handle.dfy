/**
 The stream handle and the service's activeStreams as the objects the service
 updates in place.  Each method is one critical section or one handle operation;
 its contract is a step of the transition system of module Protocol.
 */
module StreamHandles {
  import opened Wrappers
  import opened ActiveStreams
  import Protocol

  type RunId = Protocol.RunId

  /** The value of a handle: settled is Some once ready is closed. */
  datatype HandleState = HandleState(cancelled: bool, settled: Option<RunId>, pausing: bool, stopAnswered: bool)

  const NEW_HANDLE := HandleState(false, None, false, false)

  /** What the transition system keeps of a handle. */
  function HandleOf(x: Protocol.Stream): HandleState {
    HandleState(x.cancelled.Some?, x.settled, x.pausedBy.Some?, x.answeredBy.Some?)
  }

  function SettledOnce(h: HandleState, run: RunId): HandleState {
    if h.settled.Some? then h else h.(settled := Some(run))
  }

  class StreamHandle {
    var cancelled: bool
    var ready: bool
    var runId: RunId
    var pausing: bool
    var stopAnswered: bool

    function State(): HandleState
      reads this
    {
      HandleState(cancelled, if ready then Some(runId) else None, pausing, stopAnswered)
    }

    constructor ()
      ensures State() == NEW_HANDLE
    {
      cancelled, ready, runId, pausing, stopAnswered := false, false, "", false, false;
    }

    method Cancel()
      modifies this
      ensures State() == old(State()).(cancelled := true)
    {
      cancelled := true;
    }

    /** readyOnce: the run id is written before ready is closed, and only once. */
    method Settle(run: RunId)
      modifies this
      ensures State() == SettledOnce(old(State()), run)
    {
      if !ready {
        runId := run;
        ready := true;
      }
    }

    method Settled() returns (b: bool)
      ensures b <==> State().settled.Some?
    {
      b := ready;
    }

    method SetPausing()
      modifies this
      ensures State() == old(State()).(pausing := true)
    {
      pausing := true;
    }

    method EndPause()
      modifies this
      ensures State() == old(State()).(stopAnswered := true)
    {
      if !stopAnswered {
        stopAnswered := true;
      }
    }
  }

  class StreamRegistry {
    var activeStreams: map<ThreadId, StreamHandle>

    constructor ()
      ensures activeStreams == map[]
    {
      activeStreams := map[];
    }

    method LocalStream(t: ThreadId) returns (h: Option<StreamHandle>)
      ensures h == Bound(activeStreams, t)
    {
      h := if t in activeStreams then Some(activeStreams[t]) else None;
    }

    /** The stream that was registered on the thread is cancelled; no other handle is touched. */
    method Register(t: ThreadId, h: StreamHandle)
      modifies this, activeStreams.Values
      ensures activeStreams == Registered(old(activeStreams), t, h)
      ensures forall g <- old(activeStreams.Values) ::
                g.State() == if Bound(old(activeStreams), t) == Some(g)
                             then old(g.State()).(cancelled := true) else old(g.State())
    {
      if t in activeStreams {
        activeStreams[t].Cancel();
      }
      activeStreams := activeStreams[t := h];
    }

    method Deregister(t: ThreadId, h: StreamHandle)
      modifies this
      ensures activeStreams == Released(old(activeStreams), t, h)
    {
      if t in activeStreams && activeStreams[t] == h {
        activeStreams := activeStreams - {t};
      }
    }

    method CancelLocalStream(t: ThreadId, h: StreamHandle) returns (did: bool)
      modifies this, h
      ensures did <==> Holds(old(activeStreams), t, h)
      ensures activeStreams == Released(old(activeStreams), t, h)
      ensures h.State() == if did then old(h.State()).(cancelled := true) else old(h.State())
    {
      if t !in activeStreams || activeStreams[t] != h {
        return false;
      }
      h.Cancel();
      activeStreams := activeStreams - {t};
      return true;
    }
  }

  // ----- the objects implement the transition system -----

  /** The handle operations above, on the transition system's streams. */
  lemma HandleStepsAgree(x: Protocol.Stream, run: RunId, p: Protocol.PauseId, who: Protocol.Canceller)
    ensures HandleOf(Protocol.SettledWith(x, run)) == SettledOnce(HandleOf(x), run)
    ensures HandleOf(Protocol.PausingSet(x, p)) == HandleOf(x).(pausing := true)
    ensures HandleOf(Protocol.PauseEnded(x, p)) == HandleOf(x).(stopAnswered := true)
    ensures HandleOf(Protocol.Cancelled(x, who)) == HandleOf(x).(cancelled := true)
  {
  }

  /** Whatever numbers the streams get, as long as different handles get different ones. */
  ghost predicate Numbers<H>(ids: map<H, Protocol.StreamId>, active: map<ThreadId, H>) {
    && active.Values <= ids.Keys
    && forall g, h :: g in ids && h in ids && ids[g] == ids[h] ==> g == h
  }

  function Numbered<H(==)>(ids: map<H, Protocol.StreamId>, active: map<ThreadId, H>): map<ThreadId, Protocol.StreamId>
    requires active.Values <= ids.Keys
  {
    map t <- active :: ids[active[t]]
  }

  /**
   The map operations commute with numbering the handles, so comparing pointers
   (activeStreams[t] == h) decides exactly what comparing stream numbers does.
   */
  lemma NumberingCommutes<H>(ids: map<H, Protocol.StreamId>, active: map<ThreadId, H>, t: ThreadId, h: H)
    requires Numbers(ids, active) && h in ids
    ensures Holds(active, t, h) <==> Holds(Numbered(ids, active), t, ids[h])
    ensures Released(active, t, h).Values <= ids.Keys
    ensures Numbered(ids, Released(active, t, h)) == Released(Numbered(ids, active), t, ids[h])
    ensures Registered(active, t, h).Values <= ids.Keys
    ensures Numbered(ids, Registered(active, t, h)) == Registered(Numbered(ids, active), t, ids[h])
  {
    assert forall u <- active :: active[u] in active.Values;
    if Holds(Numbered(ids, active), t, ids[h]) {
      assert active[t] in ids;
    }
  }
}
