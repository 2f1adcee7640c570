/**
  Whole dumps under interference. A run is any sequence of events: the callback
  is invoked with some buffer, takes its next step, is told it is done, or,
  between any two of those, some other thread changes the table.
 */
module DumpRuns {
  import opened Conntrack
  import opened TableDump

  datatype Event =
    | Enter(cap: nat)
    | Tick
    | Leave
    /** Some thread unlinks the node at position `i` of bucket `b`. */
    | Unlink(b: nat, i: nat)
    /** Some thread links a node, at the head of its bucket as the table always does. */
    | LinkHead(b: nat, n: Node)
    /** Time passes, entries are refreshed or change, other threads take and put references of their own. */
    | Touch(entries: Entries, dying: set<ConnId>, use: multiset<ConnId>)

  predicate InCall(p: Phase) {
    p.Walking? || p.Closing? || p.Draining?
  }

  /** Every reference the dump holds, and the one the table holds on each linked entry, is counted. */
  ghost predicate Counted(w: World, held: multiset<ConnId>) {
    forall c :: CountOk(w, held, c)
  }

  predicate CountOk(w: World, held: multiset<ConnId>, c: ConnId) {
    held[c] + (if InTable(w, c) then 1 else 0) <= w.use[c]
  }

  /**
    When an event can happen. Other threads are bound by the reference rules only: they put what they
    hold and no more, and a node is linked at most once.
   */
  ghost predicate Enabled(s: Sys, e: Event) {
    match e
    case Enter(_) => s.d.phase.Idle?
    case Tick => InCall(s.d.phase)
    case Leave => s.d.phase.Idle?
    case Unlink(b, i) => b < |s.w.buckets| && i < |s.w.buckets[b]|
    case LinkHead(b, n) => b < |s.w.buckets| && !Linked(s.w, n) && s.held[n.ct] + 1 <= s.w.use[n.ct]
    case Touch(entries, dying, use) => Counted(s.w.(use := use), s.held)
  }

  function Apply(q: Query, s: Sys, e: Event): Sys
    requires e.Tick? ==> InCall(s.d.phase)
    requires e.Unlink? ==> e.b < |s.w.buckets| && e.i < |s.w.buckets[e.b]|
    requires e.LinkHead? ==> e.b < |s.w.buckets|
  {
    match e
    case Enter(cap) => Begin(s, cap)
    case Tick => Advance(q, s)
    case Leave => Finish(s)
    case Unlink(b, i) =>
      s.(w := s.w.(buckets := s.w.buckets[b := s.w.buckets[b][..i] + s.w.buckets[b][i + 1..]]))
    case LinkHead(b, n) =>
      s.(w := s.w.(buckets := s.w.buckets[b := [n] + s.w.buckets[b]]))
    case Touch(entries, dying, use) =>
      s.(w := s.w.(entries := entries, dying := dying, use := use))
  }

  ghost predicate ValidRun(q: Query, s: Sys, events: seq<Event>)
    decreases |events|
  {
    events == [] || (Enabled(s, events[0]) && ValidRun(q, Apply(q, s, events[0]), events[1..]))
  }

  ghost function After(q: Query, s: Sys, events: seq<Event>): Sys
    requires ValidRun(q, s, events)
    decreases |events|
  {
    if events == [] then s else After(q, Apply(q, s, events[0]), events[1..])
  }
}
