/**
 Timing: when every call of a pause respects its deadline, waitForStop's own
 timer never fires before a pause has answered.
 */
module ProtocolTime {
  import opened Wrappers
  import opened ActiveStreams
  import opened Protocol
  import opened ProtocolInvariant

  /**
   How long a pause stays in a phase: the wait for the run id, the lookup and the
   remote stop are bounded by their contexts, each local step between two of them by
   some slack.
   */
  function Limit(phase: PausePhase, slack: nat): nat {
    if phase.AwaitingRun? then PAUSE_WAIT_TIMEOUT
    else if phase.LookingUp? || phase.StopSent? then REMOTE_STOP_TIMEOUT
    else slack
  }

  /** The most time from mark-pausing to entering the phase. */
  function Elapsed(phase: PausePhase, slack: nat): nat {
    match phase
    case StopSent => slack
    case Confirmed => slack + REMOTE_STOP_TIMEOUT
    case Returning(_) => 2 * slack + REMOTE_STOP_TIMEOUT
    case _ => 0
  }

  predicate InFlight(x: Pause) {
    PastMark(x.phase) && !x.phase.Done?
  }

  /** The pauses whose deadlines are assumed: all running ones (whole), or only the marked ones. */
  predicate Watched(x: Pause, whole: bool) {
    if whole then !x.phase.Done? else InFlight(x)
  }

  /** Time may not pass a deadline of a watched pause. */
  predicate Timely(st: State, a: Action, slack: nat, whole: bool) {
    a.Tick? ==> forall p <- st.pauses ::
      Watched(st.pauses[p], whole) ==> st.now + a.d <= st.pauses[p].entered + Limit(st.pauses[p].phase, slack)
  }

  predicate TimelyRun(run: seq<Action>, slack: nat, whole: bool) {
    Exec(run).Some?
    && forall i :: 0 <= i < |run| ==> Exec(run[..i]).Some? && Timely(Exec(run[..i]).value, run[i], slack, whole)
  }

  predicate OnTime(st: State, x: Pause, slack: nat) {
    InFlight(x) ==>
      && x.markedAt <= x.entered <= st.now
      && x.entered <= x.markedAt + Elapsed(x.phase, slack)
      && st.now <= x.entered + Limit(x.phase, slack)
  }

  /** A waiting stream was marked before it began to wait. */
  predicate MarkedBeforeWait(st: State, x: Stream) {
    x.phase.Waiting? ==>
      && x.phase.since <= st.now
      && x.pausedBy.Some?
      && x.pausedBy.value in st.pauses
      && st.pauses[x.pausedBy.value].markedAt <= x.phase.since
  }

  ghost predicate TimeInv(st: State, slack: nat) {
    && (forall p <- st.pauses :: OnTime(st, st.pauses[p], slack))
    && (forall s <- st.streams :: MarkedBeforeWait(st, st.streams[s]))
    && (forall p <- st.pauses :: st.pauses[p].markedAt <= st.now)
  }

  lemma OwnDeadlineKept(st: State, p: PauseId, step: PauseStep, slack: nat)
    requires PauseEnabled(st, p, step) && !step.Bind?
    requires AnswerOk(st.pauses[p]) && OnTime(st, st.pauses[p], slack) && st.pauses[p].markedAt <= st.now
    ensures var y := PauseAfter(st, p, st.pauses[p], step);
            OnTime(st, y, slack) && y.markedAt <= st.now
  {
  }

  lemma PauseKeepsDeadline(st: State, p: PauseId, step: PauseStep, slack: nat, q: PauseId)
    requires Inv(st) && TimeInv(st, slack) && PauseEnabled(st, p, step) && q in PauseNext(st, p, step).pauses
    ensures var after := PauseNext(st, p, step);
            OnTime(after, after.pauses[q], slack) && after.pauses[q].markedAt <= after.now
  {
    OwnPauseOnly(st, p, step);
    if q == p && !step.Bind? {
      assert OnTime(st, st.pauses[p], slack) && AnswerOk(st.pauses[p]);
      OwnDeadlineKept(st, p, step, slack);
    } else if q != p {
      assert OnTime(st, st.pauses[q], slack);
    }
  }

  lemma PauseKeepsMark(st: State, p: PauseId, step: PauseStep, slack: nat, s: StreamId)
    requires Inv(st) && TimeInv(st, slack) && PauseEnabled(st, p, step) && s in st.streams
    ensures var after := PauseNext(st, p, step);
            s in after.streams && MarkedBeforeWait(after, after.streams[s])
  {
    var x := st.streams[s];
    assert MarkedBeforeWait(st, x) && StreamOk(st, s);
    if x.pausedBy.Some? {
      MarkIsKept(st, p, step, x.pausedBy.value);
    }
    WaitIsKept(st, p, step, s);
  }

  lemma PauseKeepsTime(st: State, p: PauseId, step: PauseStep, slack: nat)
    requires Inv(st) && TimeInv(st, slack) && PauseEnabled(st, p, step)
    ensures TimeInv(PauseNext(st, p, step), slack)
  {
    var after := PauseNext(st, p, step);
    forall q <- after.pauses
      ensures OnTime(after, after.pauses[q], slack) && after.pauses[q].markedAt <= after.now
    {
      PauseKeepsDeadline(st, p, step, slack, q);
    }
    forall s <- after.streams ensures MarkedBeforeWait(after, after.streams[s]) {
      PauseKeepsMark(st, p, step, slack, s);
    }
  }

  lemma MarkIsKept(st: State, p: PauseId, step: PauseStep, q: PauseId)
    requires PauseEnabled(st, p, step) && q in st.pauses && PastMark(st.pauses[q].phase)
    ensures q in PauseNext(st, p, step).pauses
    ensures PauseNext(st, p, step).pauses[q].markedAt == st.pauses[q].markedAt
  {
    OwnPauseOnly(st, p, step);
  }

  lemma WaitIsKept(st: State, p: PauseId, step: PauseStep, s: StreamId)
    requires PauseEnabled(st, p, step) && s in st.streams
    ensures s in PauseNext(st, p, step).streams
    ensures var x, y := st.streams[s], PauseNext(st, p, step).streams[s];
            y.phase == x.phase && (x.pausedBy.Some? ==> y.pausedBy == x.pausedBy)
  {
  }

  lemma StreamKeepsTime(st: State, s: StreamId, step: StreamStep, slack: nat)
    requires Inv(st) && TimeInv(st, slack) && StreamEnabled(st, s, step)
    ensures TimeInv(StreamNext(st, s, step), slack)
  {
    var after := StreamNext(st, s, step);
    forall q <- after.pauses ensures OnTime(after, after.pauses[q], slack) {
      assert OnTime(st, st.pauses[q], slack);
    }
    forall u <- after.streams ensures MarkedBeforeWait(after, after.streams[u]) {
      if u in st.streams {
        assert MarkedBeforeWait(st, st.streams[u]) && StreamOk(st, u);
      }
    }
  }

  lemma NextKeepsTime(st: State, a: Action, slack: nat, whole: bool)
    requires Inv(st) && TimeInv(st, slack) && Enabled(st, a) && Timely(st, a, slack, whole)
    ensures TimeInv(Next(st, a), slack)
  {
    match a
    case StreamDoes(s, step) => StreamKeepsTime(st, s, step, slack);
    case PauseDoes(p, step) => PauseKeepsTime(st, p, step, slack);
    case Tick(d) =>
  }

  lemma TimelyPrefix(run: seq<Action>, n: nat, slack: nat, whole: bool)
    requires TimelyRun(run, slack, whole) && n <= |run|
    ensures TimelyRun(run[..n], slack, whole)
  {
    PrefixRuns(run, n);
    forall i | 0 <= i < n
      ensures Exec(run[..n][..i]).Some? && Timely(Exec(run[..n][..i]).value, run[..n][i], slack, whole)
    {
      assert run[..n][..i] == run[..i];
    }
  }

  lemma {:induction false} TimelyReachable(run: seq<Action>, slack: nat, whole: bool)
    requires TimelyRun(run, slack, whole)
    ensures Inv(Exec(run).value) && TimeInv(Exec(run).value, slack)
    decreases |run|
  {
    Reachable(run);
    if run != [] {
      var n := |run| - 1;
      TimelyPrefix(run, n, slack, whole);
      TimelyReachable(run[..n], slack, whole);
      NextKeepsTime(Exec(run[..n]).value, run[n], slack, whole);
    }
  }

  /**
   As long as the three local steps of a marked pause take less than
   pauseWaitTimeout + remoteStopTimeout together, a paused stream's wait never
   expires unanswered, however many pauses share the stream.
   */
  lemma WaitNeverExpiresUnanswered(run: seq<Action>, slack: nat, s: StreamId)
    requires TimelyRun(run, slack, false) && 3 * slack < PAUSE_WAIT_TIMEOUT + REMOTE_STOP_TIMEOUT
    requires s in Exec(run).value.streams && StreamEnabled(Exec(run).value, s, WaitExpires)
    ensures Exec(run).value.streams[s].answeredBy.Some?
  {
    TimelyReachable(run, slack, false);
    var st := Exec(run).value;
    var x := st.streams[s];
    assert MarkedBeforeWait(st, x) && StreamOk(st, s);
    var q := x.pausedBy.value;
    assert OnTime(st, st.pauses[q], slack) && TargetOk(st, st.pauses[q]);
  }

  /** From mark-pausing to endPause a pause takes at most its remote stop's bound and three local steps. */
  lemma PauseIsBounded(run: seq<Action>, slack: nat, p: PauseId)
    requires TimelyRun(run, slack, false) && p in Exec(run).value.pauses && InFlight(Exec(run).value.pauses[p])
    ensures Exec(run).value.now <= Exec(run).value.pauses[p].markedAt + REMOTE_STOP_TIMEOUT + 3 * slack
  {
    TimelyReachable(run, slack, false);
    assert OnTime(Exec(run).value, Exec(run).value.pauses[p], slack);
  }

  // ----- a whole pause -----

  /** The most time from binding to knowing the target. */
  function UntilTarget(x: Pause, slack: nat): nat {
    if x.handle.Some? then PAUSE_WAIT_TIMEOUT + slack else REMOTE_STOP_TIMEOUT
  }

  /** The most time from binding to entering the phase. */
  function SinceBind(x: Pause, slack: nat): nat {
    match x.phase
    case AwaitingRun(_) => 0
    case LookingUp => 0
    case TimedOut => PAUSE_WAIT_TIMEOUT
    case Targeted => UntilTarget(x, slack)
    case Marked => UntilTarget(x, slack) + slack
    case StopSent => UntilTarget(x, slack) + 2 * slack
    case Confirmed => UntilTarget(x, slack) + 2 * slack + REMOTE_STOP_TIMEOUT
    case Returning(_) => UntilTarget(x, slack) + 3 * slack + REMOTE_STOP_TIMEOUT
    case Done(_) => 0
  }

  predicate WithinBound(st: State, x: Pause, slack: nat) {
    !x.phase.Done? ==>
      && x.boundAt <= x.entered <= st.now
      && x.entered <= x.boundAt + SinceBind(x, slack)
      && st.now <= x.entered + Limit(x.phase, slack)
  }

  ghost predicate AllWithinBound(st: State, slack: nat) {
    forall p <- st.pauses :: WithinBound(st, st.pauses[p], slack)
  }

  lemma OwnBoundKept(st: State, p: PauseId, step: PauseStep, slack: nat)
    requires PauseEnabled(st, p, step) && !step.Bind?
    requires TargetOk(st, st.pauses[p]) && WithinBound(st, st.pauses[p], slack)
    ensures WithinBound(st, PauseAfter(st, p, st.pauses[p], step), slack)
  {
  }

  lemma NextKeepsBound(st: State, a: Action, slack: nat)
    requires Inv(st) && AllWithinBound(st, slack) && Enabled(st, a) && Timely(st, a, slack, true)
    ensures AllWithinBound(Next(st, a), slack)
  {
    var after := Next(st, a);
    if a.PauseDoes? {
      OwnPauseOnly(st, a.p, a.pauseStep);
    }
    forall p <- after.pauses ensures WithinBound(after, after.pauses[p], slack) {
      if p in st.pauses {
        assert WithinBound(st, st.pauses[p], slack) && TargetOk(st, st.pauses[p]);
        if a.PauseDoes? && a.p == p && !a.pauseStep.Bind? {
          OwnBoundKept(st, p, a.pauseStep, slack);
        }
      }
    }
  }

  lemma {:induction false} WholeReachable(run: seq<Action>, slack: nat)
    requires TimelyRun(run, slack, true)
    ensures AllWithinBound(Exec(run).value, slack)
    decreases |run|
  {
    if run != [] {
      var n := |run| - 1;
      TimelyPrefix(run, n, slack, true);
      WholeReachable(run[..n], slack);
      Reachable(run[..n]);
      NextKeepsBound(Exec(run[..n]).value, run[n], slack);
    }
  }

  /**
   pauseAnswerTimeout bounds a whole pause, from binding to endPause: the wait for
   the run id or the lookup, the remote stop, and the local steps between, as long as
   four of these take at most pauseWaitTimeout.
   */
  lemma WholePauseIsBounded(run: seq<Action>, slack: nat, p: PauseId)
    requires TimelyRun(run, slack, true) && 4 * slack <= PAUSE_WAIT_TIMEOUT
    requires p in Exec(run).value.pauses && !Exec(run).value.pauses[p].phase.Done?
    ensures Exec(run).value.now <= Exec(run).value.pauses[p].boundAt + PAUSE_ANSWER_TIMEOUT
  {
    WholeReachable(run, slack);
    assert WithinBound(Exec(run).value, Exec(run).value.pauses[p], slack);
  }
}
