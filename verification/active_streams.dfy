/**
 The activeStreams map: at most one registered stream per thread.  The functions
 are over any handle identity H, so that the transition system (numbered streams)
 and the classes below (object references) share one definition.
 */
module ActiveStreams {
  import opened Wrappers

  type ThreadId = string

  /** localStream: the handle registered on the thread. */
  function Bound<H>(active: map<ThreadId, H>, t: ThreadId): Option<H> {
    if t in active then Some(active[t]) else None
  }

  predicate Holds<H(==)>(active: map<ThreadId, H>, t: ThreadId, h: H) {
    t in active && active[t] == h
  }

  function Registered<H>(active: map<ThreadId, H>, t: ThreadId, h: H): map<ThreadId, H> {
    active[t := h]
  }

  /** Removes the thread's entry only when it is h's own. */
  function Released<H(==)>(active: map<ThreadId, H>, t: ThreadId, h: H): map<ThreadId, H> {
    if Holds(active, t, h) then active - {t} else active
  }
}
