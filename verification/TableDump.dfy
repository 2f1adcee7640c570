/**
  The resumable dump of the connection table, as a machine whose steps are the
  stretches of code that run while no other thread can get in: one callback
  walks buckets, one bucket at a time under that bucket's lock, and between two
  steps anything else may happen to the table.
 */
module TableDump {
  import opened Conntrack
  import opened CtMessage

  /** The slots of the array of expired entries waiting to be killed. */
  const EVICT_MAX := 8

  /** One hash node: an entry is linked once per direction. */
  datatype Node = Node(ct: ConnId, dir: Dir)

  /** The state of one entry at one moment; `conn` is all that a message about it can say. */
  datatype Entry = Entry(net: nat, expired: bool, confirmed: bool, conn: Conn)

  type Entries = ConnId -> Entry

  /** The fixed part of a dump request: whose entries, which ones, and how long a message is. */
  datatype Query = Query(net: nat, matches: Info -> bool, len: Conn -> nat)

  /** The table, the entries it links, the entries already marked dying, and every reference count. */
  datatype World = World(buckets: seq<seq<Node>>, entries: Entries,
                         dying: set<ConnId>, use: multiset<ConnId>)

  predicate Linked(w: World, n: Node) {
    exists b :: 0 <= b < |w.buckets| && n in w.buckets[b]
  }

  predicate InTable(w: World, c: ConnId) {
    Linked(w, Node(c, Original)) || Linked(w, Node(c, Reply))
  }

  predicate ShouldGc(w: World, c: ConnId) {
    w.entries(c).expired && w.entries(c).confirmed && c !in w.dying
  }

  function Without(chain: seq<Node>, c: ConnId): seq<Node> {
    if chain == [] then []
    else (if chain[0].ct == c then [] else [chain[0]]) + Without(chain[1..], c)
  }

  /** nf_ct_kill: mark dying, unlink both nodes, drop the reference the table held. */
  function Kill(w: World, c: ConnId): (r: World)
    ensures |r.buckets| == |w.buckets|
  {
    World(seq(|w.buckets|, b requires 0 <= b < |w.buckets| => Without(w.buckets[b], c)),
          w.entries, w.dying + {c},
          if InTable(w, c) then w.use - multiset{c} else w.use)
  }

  // ---------------------------------------------------------------- one bucket, under its lock

  /** What changes while a chain is walked. `taken` collects the references acquired on the way. */
  datatype Scan = Scan(cursor: Option<ConnId>, evict: seq<ConnId>, taken: multiset<ConnId>,
                       sent: seq<ConnId>, room: nat, full: bool)

  /**
    What the walk makes of a node: expired; of no interest (another namespace, or the reply direction);
    rejected by the filter; or to be sent in a message of `len` bytes.
   */
  datatype Kind = Expired | Foreign | Rejected | Wanted(len: nat)

  function KindOf(q: Query, es: Entries, n: Node): Kind {
    var e := es(n.ct);
    if e.expired then Expired
    else if e.net != q.net || n.dir != Original then Foreign
    else if !q.matches(e.conn.info) then Rejected
    else Wanted(q.len(e.conn))
  }

  /** Live, in the right namespace, and linked by its original-direction node: where a cursor can be found. */
  predicate Eligible(q: Query, es: Entries, n: Node) {
    var k := KindOf(q, es, n);
    k.Rejected? || k.Wanted?
  }

  predicate Selected(q: Query, es: Entries, n: Node) {
    KindOf(q, es, n).Wanted?
  }

  /** Under the lock an expired entry can only be remembered, for killing later, if there is a slot for it. */
  function Remember(use: multiset<ConnId>, s: Scan, c: ConnId): Scan {
    if |s.evict| < EVICT_MAX && (use + s.taken)[c] > 0
    then s.(evict := s.evict + [c], taken := s.taken + multiset{c})
    else s
  }

  /** Try to send one message: the entry that does not fit becomes the cursor, with a reference of its own. */
  function Fill(s: Scan, c: ConnId, len: nat): Scan {
    if len <= s.room then s.(cursor := None, sent := s.sent + [c], room := s.room - len)
    else s.(cursor := Some(c), taken := s.taken + multiset{c}, full := true)
  }

  function ScanNode(q: Query, w: World, s: Scan, last: Option<ConnId>, n: Node): Scan {
    match KindOf(q, w.entries, n)
    case Expired => Remember(w.use, s, n.ct)
    case Foreign => s
    case Rejected => if s.cursor.Some? && Some(n.ct) != last then s else s.(cursor := None)
    case Wanted(len) => if s.cursor.Some? && Some(n.ct) != last then s else Fill(s, n.ct, len)
  }

  function ScanChain(q: Query, w: World, s: Scan, last: Option<ConnId>, chain: seq<Node>): Scan
    decreases |chain|
  {
    if chain == [] then s
    else
      var s' := ScanNode(q, w, s, last, chain[0]);
      if s'.full then s' else ScanChain(q, w, s', last, chain[1..])
  }

  // ---------------------------------------------------------------- the callback

  /**
    Idle: between calls. Walking: in the bucket loop. Closing: past the `out` label.
    Draining: killing what is left in the eviction array. Finished: after `done`.
   */
  datatype Phase = Idle | Walking | Closing | Draining | Finished

  /**
    The callback state (`bucket`, `cursor` are cb->args[0] and cb->args[1]), the locals of a call, and
    the messages sent so far, over all calls. `full` says that the call stopped at a message that did not
    fit; `restarts` counts how often this call took the restart edge.
   */
  datatype Dump = Dump(bucket: nat, cursor: Option<ConnId>, phase: Phase, last: Option<ConnId>,
                       evict: seq<ConnId>, sent: seq<ConnId>, room: nat, full: bool, restarts: nat)

  /**
    `held` counts the references the dump has taken and not put back; `stranded` those it can no longer
    put back, because it has forgotten them.
   */
  datatype Sys = Sys(w: World, d: Dump, held: multiset<ConnId>, stranded: multiset<ConnId>)

  function OptRef(o: Option<ConnId>): multiset<ConnId> {
    match o case None => multiset{} case Some(c) => multiset{c}
  }

  function Put(s: Sys, c: ConnId): Sys {
    s.(w := s.w.(use := s.w.use - multiset{c}), held := s.held - multiset{c})
  }

  /** The start of a call on an empty buffer of `cap` bytes. */
  function Begin(s: Sys, cap: nat): Sys {
    s.(d := s.d.(phase := Walking, last := s.d.cursor, evict := [], room := cap, full := false, restarts := 0))
  }

  /** Kill an entry if it may be collected, and put the reference on it. */
  function ReapEntry(w: World, c: ConnId): World {
    var k := if ShouldGc(w, c) then Kill(w, c) else w;
    k.(use := k.use - multiset{c})
  }

  /** Empty the highest occupied slot of the eviction array. */
  function ReapOne(s: Sys): Sys
    requires s.d.evict != []
  {
    var n := |s.d.evict| - 1;
    var c := s.d.evict[n];
    s.(w := ReapEntry(s.w, c), d := s.d.(evict := s.d.evict[..n]), held := s.held - multiset{c})
  }

  function StartScan(d: Dump): Scan {
    Scan(d.cursor, d.evict, multiset{}, d.sent, d.room, false)
  }

  /** One pass over one bucket under its lock, then the restart test. */
  function Visit(q: Query, s: Sys): Sys
    requires s.d.bucket < |s.w.buckets|
  {
    var r := ScanChain(q, s.w, StartScan(s.d), s.d.last, s.w.buckets[s.d.bucket]);
    var d := s.d.(cursor := r.cursor, evict := r.evict, sent := r.sent, room := r.room, full := r.full);
    Sys(s.w.(use := s.w.use + r.taken),
        if r.full then d.(phase := Closing)
        else if r.cursor.Some? then d.(cursor := None, restarts := d.restarts + 1)
        else d.(bucket := d.bucket + 1),
        s.held + r.taken, s.stranded)
  }

  /** From the `out` label to the last put: forget a cursor equal to the entry resumed from, then put that entry. */
  function Close(s: Sys): Sys {
    var s' := s.(d := s.d.(phase := Draining));
    match s.d.last
    case None => s'
    case Some(l) =>
      if s.d.cursor == Some(l) then
        Put(s'.(d := s'.d.(cursor := None),
                stranded := s.stranded + if s.d.full then multiset{l} else multiset{}), l)
      else Put(s', l)
  }

  /** The next step of a call in progress. */
  function Advance(q: Query, s: Sys): Sys
    requires s.d.phase.Walking? || s.d.phase.Closing? || s.d.phase.Draining?
  {
    match s.d.phase
    case Walking =>
      if s.d.bucket >= |s.w.buckets| then s.(d := s.d.(phase := Closing))
      else if s.d.evict != [] then ReapOne(s)
      else Visit(q, s)
    case Closing => Close(s)
    case Draining =>
      if s.d.evict != [] then ReapOne(s) else s.(d := s.d.(phase := Idle))
  }

  /** ctnetlink_done. */
  function Finish(s: Sys): Sys {
    var s' := s.(d := s.d.(phase := Finished, cursor := None));
    if s.d.cursor.Some? then Put(s', s.d.cursor.value) else s'
  }

  function PhaseRank(p: Phase): nat {
    match p case Walking => 3 case Closing => 2 case Draining => 1 case Idle => 0 case Finished => 0
  }

  function BucketsLeft(s: Sys): nat {
    if s.d.bucket <= |s.w.buckets| then |s.w.buckets| - s.d.bucket else 0
  }

  /** A pass that neither stopped nor found the cursor leaves the cursor as it was. */
  lemma {:induction false} ScanKeepsCursor(q: Query, w: World, s: Scan, last: Option<ConnId>, chain: seq<Node>)
    ensures var r := ScanChain(q, w, s, last, chain);
            !r.full && r.cursor.Some? ==> r.cursor == s.cursor
    decreases |chain|
  {
    if chain != [] && !ScanNode(q, w, s, last, chain[0]).full {
      ScanKeepsCursor(q, w, ScanNode(q, w, s, last, chain[0]), last, chain[1..]);
    }
  }

  /**
    A call by itself, without interference, from wherever it is to its return. The measure is the phase,
    the buckets that remain, whether the cursor is still set, and the entries waiting to be killed.
   */
  function RunCall(q: Query, s: Sys): Sys
    decreases PhaseRank(s.d.phase), BucketsLeft(s), if s.d.cursor.Some? then 1 else 0, |s.d.evict|
  {
    if s.d.phase.Idle? || s.d.phase.Finished? then s
    else
      AdvanceDecreases(q, s);
      RunCall(q, Advance(q, s))
  }

  /** Every step of a call goes down in the lexicographic measure: the restart edge clears the cursor. */
  lemma AdvanceDecreases(q: Query, s: Sys)
    requires s.d.phase.Walking? || s.d.phase.Closing? || s.d.phase.Draining?
    ensures var t := Advance(q, s);
            var a, b := PhaseRank(t.d.phase), PhaseRank(s.d.phase);
            var c, d := BucketsLeft(t), BucketsLeft(s);
            var e, f := if t.d.cursor.Some? then 1 else 0, if s.d.cursor.Some? then 1 else 0;
            a < b || (a == b && (c < d || (c == d && (e < f || (e == f && |t.d.evict| < |s.d.evict|)))))
  {
    hide Visit, ReapOne, Close;
    if s.d.phase.Walking? && s.d.bucket >= |s.w.buckets| {
    } else if s.d.phase.Closing? {
      CloseDrains(s);
    } else if s.d.evict != [] {
      ReapShrinks(s);
    } else if s.d.phase.Walking? {
      VisitMovesOn(q, s);
    }
  }

  lemma ReapShrinks(s: Sys)
    requires s.d.evict != []
    ensures var t := ReapOne(s);
            t.d == s.d.(evict := s.d.evict[..|s.d.evict| - 1]) && |t.w.buckets| == |s.w.buckets|
  {
    hide Kill;
  }

  lemma CloseDrains(s: Sys)
    ensures Close(s).d.phase.Draining?
  {
  }

  /** A visit ends the walk, or goes on to the next bucket, or clears a cursor that was set. */
  lemma VisitMovesOn(q: Query, s: Sys)
    requires s.d.bucket < |s.w.buckets|
    ensures var t := Visit(q, s);
            && |t.w.buckets| == |s.w.buckets|
            && (|| t.d.phase.Closing?
                || (t.d.phase == s.d.phase && t.d.bucket == s.d.bucket + 1)
                || (t.d.phase == s.d.phase && t.d.bucket == s.d.bucket && t.d.cursor.None? && s.d.cursor.Some?))
  {
    ScanKeepsCursor(q, s.w, StartScan(s.d), s.d.last, s.w.buckets[s.d.bucket]);
    hide ScanChain;
  }

  /** One callback invocation: the state in which it returns. */
  function Call(q: Query, s: Sys, cap: nat): Sys {
    RunCall(q, Begin(s, cap))
  }

  /** Successive callback invocations on an otherwise undisturbed table. */
  function Calls(q: Query, s: Sys, caps: seq<nat>): Sys
    decreases |caps|
  {
    if caps == [] then s else Calls(q, Call(q, s, caps[0]), caps[1..])
  }

  /** The state in which netlink starts a dump. */
  function Start(w: World): Sys {
    Sys(w, Dump(0, None, Idle, None, [], [], 0, false, 0), multiset{}, multiset{})
  }
}
