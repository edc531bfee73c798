/**
 The stream/pause protocol of the agent service as a small-step transition system.

 Any number of threads, streams (StreamChat calls) and pauses (PauseStream calls)
 interleave.  Every action is one atomic step of the service: a critical section
 under streamMutex, one read or write of a handle, one upstream call or answer,
 or the passing of time.  What pen-gpt, the database and the clients do is chosen
 freely by the actions' parameters.
 */
module Protocol {
  import opened Wrappers
  import opened ActiveStreams

  type StreamId = nat
  type PauseId = nat
  type RunId = string

  // Milliseconds.
  const PAUSE_WAIT_TIMEOUT: nat := 5000
  const REMOTE_STOP_TIMEOUT: nat := 10000
  const PAUSE_ANSWER_TIMEOUT: nat := PAUSE_WAIT_TIMEOUT + 2 * REMOTE_STOP_TIMEOUT

  datatype Canceller = BySupersede | ByClient | ByPause(pause: PauseId)

  /** Why doUpstreamStream returned. */
  datatype EndCause = OnItsOwn | OnCancel | OnStop(pause: PauseId)

  /**
   Starting:   registered, the start event is being written
   Requesting: inside doUpstreamStream, before pen-gpt's response headers
   Streaming:  inside doUpstreamStream, after a 200 response
   Returned:   doUpstreamStream returned, waitForStop not yet entered
   Waiting:    in waitForStop's select
   Ready:      waitForStop returned, the finish listing not yet read
   Listed:     the finish listing was read
   Unstarted:  the start event could not be written
   Closed:     deregistered
   */
  datatype StreamPhase =
    | Starting | Requesting | Streaming | Returned | Waiting(since: nat)
    | Ready | Listed | Unstarted | Closed

  /**
   A stream and its handle.  settled is None until ready is closed, then the run
   id.  pausedBy is Some once pausing is set and answeredBy once stopAnswered is
   closed; both remember the pause that did it first.
   */
  datatype Stream = Stream(
    thread: ThreadId,
    phase: StreamPhase,
    cancelled: Option<Canceller>,
    settled: Option<RunId>,
    pausedBy: Option<PauseId>,
    answeredBy: Option<PauseId>,
    ended: Option<EndCause>,
    expired: bool)

  datatype StopAnswer = StopOk | StopNotOk | StopError

  datatype PauseResult = Success | NotFound | InternalError

  /**
   AwaitingRun: bound to a handle, waiting for its run id
   TimedOut:    that wait expired, the run id not yet looked at again
   LookingUp:   no local stream, reading stream_runs
   Targeted:    pauseTarget returned
   Marked:      pausing was set (if a handle is bound)
   StopSent:    the remote stop is under way
   Confirmed:   the remote stop answered ok:true
   Returning:   the result is decided, endPause has not run
   Done:        returned
   */
  datatype PausePhase =
    | AwaitingRun(since: nat) | TimedOut | LookingUp | Targeted
    | Marked | StopSent | Confirmed | Returning(result: PauseResult) | Done(outcome: PauseResult)

  datatype Pause = Pause(
    thread: ThreadId,
    handle: Option<StreamId>,
    phase: PausePhase,
    runId: RunId,
    lookupFailed: bool,
    answer: Option<StopAnswer>,
    didCancel: bool,
    boundAt: nat,
    markedAt: nat,
    entered: nat)

  /** A /stop request as pen-gpt receives it. */
  datatype StopCall = StopCall(pause: PauseId, thread: ThreadId, run: RunId)

  datatype State = State(
    now: nat,
    active: map<ThreadId, StreamId>,
    streams: map<StreamId, Stream>,
    pauses: map<PauseId, Pause>,
    stops: seq<StopCall>,
    lookups: set<PauseId>)

  const INIT := State(0, map[], map[], map[], [], {})

  datatype StreamStep =
    | Register(t: ThreadId)
    | FailStart
    | BeginRequest
    | Settle(run: RunId)
    | EndUpstream(cause: EndCause)
    | CheckPausing
    | SeeAnswer
    | WaitExpires
    | ListMessages
    | Deregister
    | ClientLeaves

  datatype PauseStep =
    | Bind(t: ThreadId)
    | SeeRun
    | WaitTimesOut
    | Recheck
    | LookUp(found: Option<RunId>)
    | Mark
    | GiveUp
    | CancelUnopened
    | SendStop
    | AnswerStop(answer: StopAnswer)
    | CancelStopped
    | EndPause

  datatype Action =
    | StreamDoes(s: StreamId, streamStep: StreamStep)
    | PauseDoes(p: PauseId, pauseStep: PauseStep)
    | Tick(d: nat)

  // ----- handles -----

  /** Cancelling a context is idempotent: the first canceller stays. */
  function Cancelled(x: Stream, who: Canceller): Stream {
    if x.cancelled.None? then x.(cancelled := Some(who)) else x
  }

  /** readyOnce: only the first settle counts. */
  function SettledWith(x: Stream, run: RunId): Stream {
    if x.settled.None? then x.(settled := Some(run)) else x
  }

  function PausingSet(x: Stream, p: PauseId): Stream {
    if x.pausedBy.None? then x.(pausedBy := Some(p)) else x
  }

  /** stopAnsweredOnce: only the first endPause closes the channel. */
  function PauseEnded(x: Stream, p: PauseId): Stream {
    if x.answeredBy.None? then x.(answeredBy := Some(p)) else x
  }

  // ----- transitions -----

  predicate StopWasSent(x: Pause) {
    x.runId != "" && !x.lookupFailed
    && (x.phase.StopSent? || x.phase.Confirmed? || x.phase.Returning? || x.phase.Done?)
  }

  /** pen-gpt gives every stream response its own run id (stream_runs' primary key). */
  predicate FreshRun(st: State, run: RunId) {
    run == "" || forall s <- st.streams :: st.streams[s].settled != Some(run)
  }

  predicate StreamEnabled(st: State, s: StreamId, step: StreamStep) {
    if step.Register? then
      s !in st.streams
    else
      && s in st.streams
      && var x := st.streams[s];
         match step
         case Register(_) => false
         case FailStart => x.phase.Starting?
         case BeginRequest => x.phase.Starting?
         case Settle(run) => x.phase.Requesting? && FreshRun(st, run)
         case EndUpstream(cause) =>
           && (x.phase.Requesting? || x.phase.Streaming?)
           && (cause.OnCancel? ==> x.cancelled.Some?)
           && (cause.OnStop? ==>
                 && cause.pause in st.pauses
                 && StopWasSent(st.pauses[cause.pause])
                 && x.settled == Some(st.pauses[cause.pause].runId))
         case CheckPausing => x.phase.Returned?
         case SeeAnswer => x.phase.Waiting? && x.answeredBy.Some?
         case WaitExpires => x.phase.Waiting? && st.now >= x.phase.since + PAUSE_ANSWER_TIMEOUT
         case ListMessages => x.phase.Ready?
         case Deregister => x.phase.Listed? || x.phase.Unstarted?
         case ClientLeaves => !x.phase.Closed?
  }

  predicate HandleKnown(st: State, x: Pause) {
    x.handle.Some? && x.handle.value in st.streams
  }

  predicate PauseEnabled(st: State, p: PauseId, step: PauseStep) {
    if step.Bind? then
      p !in st.pauses
    else
      && p in st.pauses
      && var x := st.pauses[p];
         && (x.handle.Some? ==> HandleKnown(st, x))
         && match step
            case Bind(_) => false
            case SeeRun =>
              x.phase.AwaitingRun? && HandleKnown(st, x) && st.streams[x.handle.value].settled.Some?
            case WaitTimesOut => x.phase.AwaitingRun? && st.now >= x.phase.since + PAUSE_WAIT_TIMEOUT
            case Recheck => x.phase.TimedOut? && HandleKnown(st, x)
            case LookUp(_) => x.phase.LookingUp?
            case Mark => x.phase.Targeted?
            case GiveUp => x.phase.Marked? && (x.lookupFailed || (x.runId == "" && x.handle.None?))
            case CancelUnopened => x.phase.Marked? && !x.lookupFailed && x.runId == "" && HandleKnown(st, x)
            case SendStop => x.phase.Marked? && !x.lookupFailed && x.runId != ""
            case AnswerStop(_) => x.phase.StopSent?
            case CancelStopped => x.phase.Confirmed?
            case EndPause => x.phase.Returning?
  }

  predicate Enabled(st: State, a: Action) {
    match a
    case StreamDoes(s, step) => StreamEnabled(st, s, step)
    case PauseDoes(p, step) => PauseEnabled(st, p, step)
    case Tick(_) => true
  }

  function WithStream(st: State, s: StreamId, x: Stream): State {
    st.(streams := st.streams[s := x])
  }

  function WithPause(st: State, p: PauseId, x: Pause): State {
    st.(pauses := st.pauses[p := x])
  }

  /** StreamChat's registration: cancel the stream still registered on the thread, then take its place. */
  function Registration(st: State, s: StreamId, t: ThreadId): State {
    var started := Stream(t, Starting, None, None, None, None, None, false);
    var streams :=
      match Bound(st.active, t)
      case Some(prior) =>
        if prior in st.streams then st.streams[prior := Cancelled(st.streams[prior], BySupersede)] else st.streams
      case None => st.streams;
    st.(active := Registered(st.active, t, s), streams := streams[s := started])
  }

  /** What a step does to its own stream, apart from registration. */
  function StreamAfter(st: State, x: Stream, step: StreamStep): Stream {
    match step
    case Register(_) => x
    case FailStart => x.(phase := Unstarted)
    case BeginRequest => x.(phase := Requesting)
    case Settle(run) => SettledWith(x, run).(phase := Streaming)
    // The deferred settle("") runs on every return.
    case EndUpstream(cause) => SettledWith(x, "").(phase := Returned, ended := Some(cause))
    case CheckPausing => x.(phase := if x.pausedBy.Some? then Waiting(st.now) else Ready)
    case SeeAnswer => x.(phase := Ready)
    case WaitExpires => x.(phase := Ready, expired := true)
    case ListMessages => x.(phase := Listed)
    case Deregister => x.(phase := Closed)
    case ClientLeaves => Cancelled(x, ByClient)
  }

  function StreamNext(st: State, s: StreamId, step: StreamStep): State
    requires StreamEnabled(st, s, step)
  {
    if step.Register? then
      Registration(st, s, step.t)
    else
      var x := st.streams[s];
      var active := if step.Deregister? then Released(st.active, x.thread, s) else st.active;
      WithStream(st, s, StreamAfter(st, x, step)).(active := active)
  }

  /** cancelLocalStream: cancels and deregisters h unless a newer stream has replaced it. */
  function CancelLocal(st: State, p: PauseId, t: ThreadId, h: StreamId): State
    requires h in st.streams
  {
    if Holds(st.active, t, h)
    then WithStream(st, h, Cancelled(st.streams[h], ByPause(p))).(active := Released(st.active, t, h))
    else st
  }

  predicate StillBound(st: State, x: Pause) {
    x.handle.Some? && Holds(st.active, x.thread, x.handle.value)
  }

  /** What a step does to its own pause, apart from binding. */
  function PauseAfter(st: State, p: PauseId, x: Pause, step: PauseStep): Pause
    requires p in st.pauses && x == st.pauses[p] && PauseEnabled(st, p, step)
  {
    match step
    case Bind(_) => x
    case SeeRun => x.(phase := Targeted, runId := st.streams[x.handle.value].settled.value, entered := st.now)
    case WaitTimesOut => x.(phase := TimedOut, entered := st.now)
    case Recheck =>
      var settled := st.streams[x.handle.value].settled;
      x.(phase := Targeted, runId := if settled.Some? then settled.value else "", entered := st.now)
    case LookUp(found) =>
      x.(phase := Targeted, runId := if found.Some? then found.value else "", lookupFailed := found.None?,
         entered := st.now)
    case Mark => x.(phase := Marked, markedAt := st.now, entered := st.now)
    case GiveUp =>
      x.(phase := Returning(if x.lookupFailed then InternalError else NotFound), entered := st.now)
    case CancelUnopened =>
      var did := StillBound(st, x);
      x.(phase := Returning(if did then Success else NotFound), didCancel := did, entered := st.now)
    case SendStop => x.(phase := StopSent, entered := st.now)
    case AnswerStop(answer) =>
      var phase := match answer
        case StopOk => Confirmed
        case StopNotOk => Returning(NotFound)
        case StopError => Returning(InternalError);
      x.(phase := phase, answer := Some(answer), entered := st.now)
    case CancelStopped => x.(phase := Returning(Success), didCancel := StillBound(st, x), entered := st.now)
    case EndPause => x.(phase := Done(x.phase.result), entered := st.now)
  }

  /** A pause that has just arrived: bound to the thread's stream as it is now, if there is one. */
  function Binding(st: State, t: ThreadId): Pause {
    var h := Bound(st.active, t);
    Pause(t, h, if h.Some? then AwaitingRun(st.now) else LookingUp, "", false, None, false, st.now, 0, st.now)
  }

  function PauseNext(st: State, p: PauseId, step: PauseStep): State
    requires PauseEnabled(st, p, step)
  {
    if step.Bind? then
      WithPause(st, p, Binding(st, step.t))
    else
      var x := st.pauses[p];
      var stepped := WithPause(st, p, PauseAfter(st, p, x, step));
      match step
      case LookUp(_) => stepped.(lookups := st.lookups + {p})
      case SendStop => stepped.(stops := st.stops + [StopCall(p, x.thread, x.runId)])
      case Mark =>
        if x.handle.None? then stepped
        else WithStream(stepped, x.handle.value, PausingSet(st.streams[x.handle.value], p))
      case CancelUnopened => CancelLocal(stepped, p, x.thread, x.handle.value)
      case CancelStopped => if x.handle.None? then stepped else CancelLocal(stepped, p, x.thread, x.handle.value)
      case EndPause =>
        if x.handle.None? then stepped
        else WithStream(stepped, x.handle.value, PauseEnded(st.streams[x.handle.value], p))
      case _ => stepped
  }

  function Next(st: State, a: Action): State
    requires Enabled(st, a)
  {
    match a
    case StreamDoes(s, step) => StreamNext(st, s, step)
    case PauseDoes(p, step) => PauseNext(st, p, step)
    case Tick(d) => st.(now := st.now + d)
  }

  /** The state a run of actions reaches, None when some action of it was not enabled. */
  function Exec(run: seq<Action>): Option<State> {
    if run == [] then Some(INIT)
    else
      match Exec(run[..|run| - 1])
      case None => None
      case Some(st) =>
        var a := run[|run| - 1];
        if Enabled(st, a) then Some(Next(st, a)) else None
  }

  lemma ExecExtends(run: seq<Action>, a: Action)
    ensures Exec(run + [a]) ==
            match Exec(run)
            case None => None
            case Some(st) => if Enabled(st, a) then Some(Next(st, a)) else None
  {
    assert (run + [a])[..|run + [a]| - 1] == run;
  }

  /** Every prefix of a run is a run. */
  lemma {:induction false} PrefixRuns(run: seq<Action>, i: nat)
    requires i <= |run| && Exec(run).Some?
    ensures Exec(run[..i]).Some?
    decreases |run|
  {
    if i == |run| {
      assert run[..i] == run;
    } else {
      PrefixRuns(run[..|run| - 1], i);
      assert run[..|run| - 1][..i] == run[..i];
    }
  }

  // ----- runs from any state -----

  /** The state the actions lead to from st, None when one of them is not enabled. */
  function ExecFrom(st: State, run: seq<Action>): Option<State>
    decreases |run|
  {
    if run == [] then Some(st)
    else if Enabled(st, run[0]) then ExecFrom(Next(st, run[0]), run[1..])
    else None
  }

  lemma FirstAction(st: State, a: Action, rest: seq<Action>)
    requires Enabled(st, a)
    ensures ExecFrom(st, [a] + rest) == ExecFrom(Next(st, a), rest)
  {
    assert ([a] + rest)[1..] == rest;
  }

  lemma {:induction false} ExecJoin(st: State, a: seq<Action>, b: seq<Action>)
    ensures ExecFrom(st, a + b) ==
            if ExecFrom(st, a).Some? then ExecFrom(ExecFrom(st, a).value, b) else None
    decreases |a|
  {
    if a == [] {
      assert [] + b == b;
    } else {
      assert (a + b)[0] == a[0] && (a + b)[1..] == a[1..] + b;
      if Enabled(st, a[0]) {
        ExecJoin(Next(st, a[0]), a[1..], b);
      }
    }
  }

  lemma LastAction(st: State, run: seq<Action>, a: Action)
    requires ExecFrom(st, run).Some? && Enabled(ExecFrom(st, run).value, a)
    ensures ExecFrom(st, run + [a]) == Some(Next(ExecFrom(st, run).value, a))
  {
    ExecJoin(st, run, [a]);
    assert [a][1..] == [];
  }

  /** A run goes on from the state it has reached. */
  lemma {:induction false} ExecContinues(run: seq<Action>, more: seq<Action>)
    requires Exec(run).Some?
    ensures Exec(run + more) == ExecFrom(Exec(run).value, more)
    decreases |more|
  {
    if more == [] {
      assert run + more == run;
    } else {
      var a := more[0];
      assert run + more == (run + [a]) + more[1..];
      ExecExtends(run, a);
      if Enabled(Exec(run).value, a) {
        ExecContinues(run + [a], more[1..]);
      } else {
        StuckStays(run + [a], more[1..]);
      }
    }
  }

  lemma {:induction false} StuckStays(run: seq<Action>, more: seq<Action>)
    requires Exec(run).None?
    ensures Exec(run + more).None?
    decreases |more|
  {
    if more == [] {
      assert run + more == run;
    } else {
      var n := |more| - 1;
      StuckStays(run, more[..n]);
      assert (run + more)[..|run + more| - 1] == run + more[..n];
    }
  }
}
