/**
  Eviction. A dump collects expired entries as it goes: what it remembers it
  kills before it returns, it kills nothing else, and the table's reference on
  each killed entry is dropped once.
 */
module DumpEvict {
  import opened Conntrack
  import opened TableDump
  import opened DumpRuns
  import opened DumpRefs

  /** What may be collected: expired, confirmed, and not already in the hands of another thread. */
  predicate Collectable(w: World, c: ConnId) {
    w.entries(c).expired && w.entries(c).confirmed && c !in w.dying
  }

  /** Marked dying, and linked in no bucket, in neither direction. */
  predicate Gone(w: World, c: ConnId) {
    c in w.dying && !Linked(w, Node(c, Original)) && !Linked(w, Node(c, Reply))
  }

  /** The references on an entry that are not the dump's own: the table's, and those of everybody else. */
  function Others(s: Sys, c: ConnId): int {
    s.w.use[c] as int - s.held[c] as int
  }

  predicate Killed(s: Sys, t: Sys, c: ConnId) {
    c in t.w.dying && c !in s.w.dying
  }

  /**
    What a stretch of a dump may do to the table: it marks entries dying that could be collected, unlinks exactly
    those, and drops the table's reference on each of them that was linked.
   */
  ghost predicate Evicts(s: Sys, t: Sys) {
    && t.w.entries == s.w.entries && |t.w.buckets| == |s.w.buckets| && s.w.dying <= t.w.dying
    && (forall c: ConnId :: EvictsOne(s, t, c))
    && (forall b :: 0 <= b < |s.w.buckets| ==> EvictsFrom(s, t, s.w.buckets[b], t.w.buckets[b]))
  }

  predicate EvictsFrom(s: Sys, t: Sys, before: seq<Node>, after: seq<Node>) {
    && (forall n :: n in after ==> n in before && !Killed(s, t, n.ct))
    && (forall n :: n in before && !Killed(s, t, n.ct) ==> n in after)
  }

  predicate EvictsOne(s: Sys, t: Sys, c: ConnId) {
    && (Killed(s, t, c) ==> Collectable(s.w, c))
    && Others(t, c) == Others(s, c) - (if Killed(s, t, c) && InTable(s.w, c) then 1 else 0)
  }

  // ---------------------------------------------------------------- one step

  lemma EvictsNothing(s: Sys, t: Sys)
    requires t.w.entries == s.w.entries && t.w.buckets == s.w.buckets && t.w.dying == s.w.dying
    requires forall c: ConnId :: Others(t, c) == Others(s, c)
    ensures Evicts(s, t)
  {
    hide Others;
  }

  lemma LinkedBucket(s: Sys, t: Sys, n: Node)
    requires Evicts(s, t)
    ensures Linked(t.w, n) <==> Linked(s.w, n) && !Killed(s, t, n.ct)
  {
    if Linked(t.w, n) {
      var b :| 0 <= b < |t.w.buckets| && n in t.w.buckets[b];
      assert EvictsFrom(s, t, s.w.buckets[b], t.w.buckets[b]);
      assert n in s.w.buckets[b];
    }
    if Linked(s.w, n) && !Killed(s, t, n.ct) {
      var b :| 0 <= b < |s.w.buckets| && n in s.w.buckets[b];
      assert EvictsFrom(s, t, s.w.buckets[b], t.w.buckets[b]);
      assert n in t.w.buckets[b];
    }
  }

  lemma EvictsTrans(s: Sys, t: Sys, u: Sys)
    requires Evicts(s, t) && Evicts(t, u)
    ensures Evicts(s, u)
  {
    forall c: ConnId
      ensures EvictsOne(s, u, c)
    {
      assert EvictsOne(s, t, c) && EvictsOne(t, u, c);
      LinkedBucket(s, t, Node(c, Original));
      LinkedBucket(s, t, Node(c, Reply));
      hide Linked;
    }
    forall b | 0 <= b < |s.w.buckets|
      ensures EvictsFrom(s, u, s.w.buckets[b], u.w.buckets[b])
    {
      assert EvictsFrom(s, t, s.w.buckets[b], t.w.buckets[b]);
      assert EvictsFrom(t, u, t.w.buckets[b], u.w.buckets[b]);
    }
  }

  /** What emptying the highest slot does, field by field. */
  lemma ReapFields(s: Sys)
    requires s.d.evict != []
    ensures var t, c := ReapOne(s), s.d.evict[|s.d.evict| - 1];
            var kill := Collectable(s.w, c);
            && t.w.entries == s.w.entries && |t.w.buckets| == |s.w.buckets|
            && t.w.dying == (if kill then s.w.dying + {c} else s.w.dying)
            && t.w.use == (if kill && InTable(s.w, c) then s.w.use - multiset{c} else s.w.use) - multiset{c}
            && t.held == s.held - multiset{c}
            && (forall b :: 0 <= b < |s.w.buckets| ==>
                  t.w.buckets[b] == if kill then Without(s.w.buckets[b], c) else s.w.buckets[b])
  {
    hide InTable, Without;
  }

  lemma ReapCounts(s: Sys, d: ConnId)
    requires s.d.evict != [] && s.held[s.d.evict[|s.d.evict| - 1]] > 0
    requires CountOk(s.w, s.held, s.d.evict[|s.d.evict| - 1])
    ensures EvictsOne(s, ReapOne(s), d)
  {
    ReapFields(s);
    hide ReapOne, InTable;
  }

  lemma ReapChain(s: Sys, b: nat)
    requires s.d.evict != [] && b < |s.w.buckets|
    ensures var t := ReapOne(s); b < |t.w.buckets| && EvictsFrom(s, t, s.w.buckets[b], t.w.buckets[b])
  {
    var t, c := ReapOne(s), s.d.evict[|s.d.evict| - 1];
    ReapFields(s);
    hide ReapOne, InTable;
    forall n
      ensures n in t.w.buckets[b] <==> n in s.w.buckets[b] && !Killed(s, t, n.ct)
    {
      WithoutMembers(s.w.buckets[b], c, n);
    }
  }

  lemma ReapEvicts(s: Sys)
    requires RefInv(s) && s.d.evict != [] && (s.d.phase.Walking? || s.d.phase.Draining?)
    ensures Evicts(s, ReapOne(s))
    ensures var c := s.d.evict[|s.d.evict| - 1]; Collectable(s.w, c) ==> Gone(ReapOne(s).w, c)
  {
    var t, c := ReapOne(s), s.d.evict[|s.d.evict| - 1];
    EvictHeld(s);
    ReapFields(s);
    assert CountOk(s.w, s.held, c);
    hide ReapOne, RefInv, InTable, Linked, EvictsOne, EvictsFrom, CountOk;
    forall d: ConnId
      ensures EvictsOne(s, t, d)
    {
      ReapCounts(s, d);
    }
    forall b | 0 <= b < |s.w.buckets|
      ensures EvictsFrom(s, t, s.w.buckets[b], t.w.buckets[b])
    {
      ReapChain(s, b);
    }
    LinkedBucket(s, t, Node(c, Original));
    LinkedBucket(s, t, Node(c, Reply));
  }

  lemma EvictHeld(s: Sys)
    requires RefInv(s) && s.d.evict != [] && (s.d.phase.Walking? || s.d.phase.Draining?)
    ensures s.held[s.d.evict[|s.d.evict| - 1]] > 0
  {
    ReapOwes(s.d);
  }

  lemma VisitEvicts(q: Query, s: Sys)
    requires s.d.bucket < |s.w.buckets|
    ensures Evicts(s, Visit(q, s))
  {
    hide ScanChain;
    EvictsNothing(s, Visit(q, s));
  }

  lemma CloseEvicts(s: Sys)
    requires RefInv(s) && s.d.phase.Closing?
    ensures Evicts(s, Close(s))
  {
    CloseEffects(s);
    if s.d.last.Some? {
      LastIsHeld(s);
      assert CountOk(s.w, s.held, s.d.last.value);
    }
    hide Close;
    EvictsNothing(s, Close(s));
  }

  lemma AdvanceEvicts(q: Query, s: Sys)
    requires RefInv(s) && InCall(s.d.phase)
    ensures Evicts(s, Advance(q, s))
  {
    hide Visit, ReapOne, Close, RefInv, Evicts;
    if s.d.phase.Closing? {
      CloseEvicts(s);
    } else if s.d.phase.Walking? && s.d.bucket >= |s.w.buckets| {
      EvictsNothing(s, Advance(q, s));
    } else if s.d.evict != [] {
      ReapEvicts(s);
    } else if s.d.phase.Walking? {
      VisitEvicts(q, s);
    } else {
      EvictsNothing(s, Advance(q, s));
    }
  }

  // ---------------------------------------------------------------- a call

  lemma {:induction false} RunEvicts(q: Query, s: Sys)
    requires RefInv(s) && (InCall(s.d.phase) || s.d.phase.Idle?)
    ensures Evicts(s, RunCall(q, s))
    decreases PhaseRank(s.d.phase), BucketsLeft(s), if s.d.cursor.Some? then 1 else 0, |s.d.evict|
  {
    hide Evicts, RefInv, Advance;
    if InCall(s.d.phase) {
      AdvanceEvicts(q, s);
      TickKeeps(q, s);
      AdvanceDecreases(q, s);
      AdvancePhase(q, s);
      RunEvicts(q, Advance(q, s));
      EvictsTrans(s, Advance(q, s), RunCall(q, s));
    } else {
      EvictsNothing(s, s);
    }
  }

  lemma AdvancePhase(q: Query, s: Sys)
    requires InCall(s.d.phase)
    ensures InCall(Advance(q, s).d.phase) || Advance(q, s).d.phase.Idle?
  {
    hide ScanChain, Kill;
  }

  /** Once gone, gone until the call returns. */
  lemma GoneStays(s: Sys, t: Sys, c: ConnId)
    requires Evicts(s, t) && Gone(s.w, c)
    ensures Gone(t.w, c)
  {
    LinkedBucket(s, t, Node(c, Original));
    LinkedBucket(s, t, Node(c, Reply));
  }

  /** An entry that waits in a slot and can be collected still waits and can be, or is gone. */
  lemma NodeIsOne(n: Node)
    ensures n == Node(n.ct, Original) || n == Node(n.ct, Reply)
  {
    match n.dir case Original => case Reply =>
  }

  lemma SlotStep(q: Query, s: Sys, c: ConnId)
    requires RefInv(s) && InCall(s.d.phase) && c in s.d.evict && Collectable(s.w, c)
    ensures var t := Advance(q, s); Gone(t.w, c) || (c in t.d.evict && Collectable(t.w, c))
  {
    hide RefInv, Visit, ReapOne, Close;
    if s.d.phase.Closing? {
      CloseEffects(s);
    } else if !(s.d.phase.Walking? && s.d.bucket >= |s.w.buckets|) {
      ReapEvicts(s);
      ReapShrinks(s);
      ReapFields(s);
      var n := |s.d.evict| - 1;
      if s.d.evict[n] != c {
        assert s.d.evict == s.d.evict[..n] + [s.d.evict[n]];
      }
    }
  }

  /** What the eviction array holds is collected before the call returns. */
  lemma {:induction false} SlotsAreCollected(q: Query, s: Sys, c: ConnId)
    requires RefInv(s) && InCall(s.d.phase) && c in s.d.evict && Collectable(s.w, c)
    ensures Gone(RunCall(q, s).w, c)
    decreases PhaseRank(s.d.phase), BucketsLeft(s), if s.d.cursor.Some? then 1 else 0, |s.d.evict|
  {
    hide RefInv, Advance, Gone, Collectable;
    var t := Advance(q, s);
    SlotStep(q, s, c);
    TickKeeps(q, s);
    AdvanceDecreases(q, s);
    AdvancePhase(q, s);
    if Gone(t.w, c) {
      RunEvicts(q, t);
      GoneStays(t, RunCall(q, t), c);
    } else {
      SlotsNeverIdle(q, s);
      SlotsAreCollected(q, t, c);
    }
  }

  /** A call does not return while a slot is occupied. */
  lemma SlotsNeverIdle(q: Query, s: Sys)
    requires InCall(s.d.phase)
    ensures Advance(q, s).d.phase.Idle? ==> Advance(q, s).d.evict == []
  {
    hide ScanChain, Kill;
  }

  // ---------------------------------------------------------------- whole buckets

  function ExpiredIn(es: Entries, chain: seq<Node>): nat {
    if chain == [] then 0 else (if es(chain[0].ct).expired then 1 else 0) + ExpiredIn(es, chain[1..])
  }

  lemma {:induction false} WithoutFewer(es: Entries, chain: seq<Node>, c: ConnId)
    ensures ExpiredIn(es, Without(chain, c)) <= ExpiredIn(es, chain)
    decreases |chain|
  {
    if chain != [] {
      WithoutFewer(es, chain[1..], c);
      if chain[0].ct != c {
        assert Without(chain, c) == [chain[0]] + Without(chain[1..], c);
        assert Without(chain, c)[1..] == Without(chain[1..], c);
      } else {
        assert Without(chain, c) == Without(chain[1..], c);
      }
    }
  }

  /** A pass that has a slot for each expired node remembers all of them. */
  lemma {:induction false} ScanRemembers(q: Query, w: World, s: Scan, last: Option<ConnId>, chain: seq<Node>, n: Node)
    requires !s.full && |s.evict| + ExpiredIn(w.entries, chain) <= 8
    requires forall m :: m in chain ==> w.use[m.ct] > 0
    ensures var r := ScanChain(q, w, s, last, chain);
            && (forall c :: c in s.evict ==> c in r.evict)
            && (!r.full && n in chain && w.entries(n.ct).expired ==> n.ct in r.evict)
    decreases |chain|
  {
    if chain != [] {
      var s' := ScanNode(q, w, s, last, chain[0]);
      assert chain[0] in chain;
      if !s'.full {
        ScanRemembers(q, w, s', last, chain[1..], n);
      }
    }
  }

  /** After a visit that goes on to the next bucket, every entry of the bucket that can be collected waits in a slot. */
  lemma VisitRemembers(q: Query, s: Sys, n: Node)
    requires RefInv(s) && s.d.phase.Walking? && s.d.evict == [] && s.d.bucket < |s.w.buckets|
    requires ExpiredIn(s.w.entries, s.w.buckets[s.d.bucket]) <= 8
    ensures var t := Visit(q, s);
            t.d.bucket > s.d.bucket && n in s.w.buckets[s.d.bucket] && s.w.entries(n.ct).expired ==> n.ct in t.d.evict
  {
    var chain := s.w.buckets[s.d.bucket];
    forall m | m in chain
      ensures s.w.use[m.ct] > 0
    {
      assert CountOk(s.w, s.held, m.ct);
      assert Linked(s.w, m);
      NodeIsOne(m);
    }
    ScanRemembers(q, s.w, StartScan(s.d), s.d.last, chain, n);
    hide ScanChain, ExpiredIn;
  }

  lemma AdvanceFewer(q: Query, s: Sys, b: nat)
    requires InCall(s.d.phase) && b < |s.w.buckets|
    ensures var t := Advance(q, s);
            && |t.w.buckets| == |s.w.buckets| && t.w.entries == s.w.entries
            && ExpiredIn(t.w.entries, t.w.buckets[b]) <= ExpiredIn(s.w.entries, s.w.buckets[b])
  {
    if s.d.evict != [] {
      WithoutFewer(s.w.entries, s.w.buckets[b], s.d.evict[|s.d.evict| - 1]);
    }
    hide ExpiredIn, Without, ScanChain;
  }

  /** If the call has passed the bucket, the node is not linked there, or is of an entry that cannot be collected. */
  predicate Clean(t: Sys, b: nat, n: Node) {
    b < t.d.bucket && b < |t.w.buckets| && n in t.w.buckets[b] ==> !Collectable(t.w, n.ct)
  }

  /** In every bucket that a call walks to its end, if it has at most eight expired nodes, none is left to collect. */
  lemma {:induction false} WalkedIsClean(q: Query, s: Sys, b: nat, n: Node)
    requires RefInv(s) && s.d.phase.Walking? && s.d.bucket <= b < |s.w.buckets|
    requires ExpiredIn(s.w.entries, s.w.buckets[b]) <= 8
    ensures Clean(RunCall(q, s), b, n)
    decreases PhaseRank(s.d.phase), BucketsLeft(s), if s.d.cursor.Some? then 1 else 0, |s.d.evict|
  {
    hide RefInv, RunCall, ExpiredIn, Advance, Clean;
    var t := Advance(q, s);
    AdvanceBuckets(q, s);
    RunUnrolls(q, s);
    if t.d.bucket > b {
      PassedIsClean(q, s, n);
    } else if t.d.phase.Walking? {
      TickKeeps(q, s);
      AdvanceDecreases(q, s);
      AdvanceFewer(q, s, b);
      WalkedIsClean(q, t, b, n);
    } else {
      AdvancePhase(q, s);
      NotWalkingStays(q, t);
      NotPassed(RunCall(q, t), b, n);
    }
  }

  lemma NotPassed(t: Sys, b: nat, n: Node)
    requires t.d.bucket <= b
    ensures Clean(t, b, n)
  {
  }

  lemma RunUnrolls(q: Query, s: Sys)
    requires InCall(s.d.phase)
    ensures RunCall(q, s) == RunCall(q, Advance(q, s))
  {
    hide Advance;
  }

  /** A step moves to the next bucket at most, and only by visiting one with no slot occupied. */
  lemma AdvanceBuckets(q: Query, s: Sys)
    requires InCall(s.d.phase)
    ensures var t := Advance(q, s);
            && s.d.bucket <= t.d.bucket <= s.d.bucket + 1
            && (!s.d.phase.Walking? ==> t.d.bucket == s.d.bucket)
            && (!t.d.phase.Walking? ==> t.d.bucket == s.d.bucket)
            && (t.d.bucket > s.d.bucket ==>
                  s.d.phase.Walking? && s.d.evict == [] && s.d.bucket < |s.w.buckets| && t == Visit(q, s))
  {
    hide ScanChain, Kill;
  }

  lemma {:induction false} NotWalkingStays(q: Query, s: Sys)
    requires (InCall(s.d.phase) || s.d.phase.Idle?) && !s.d.phase.Walking?
    ensures RunCall(q, s).d.bucket == s.d.bucket
    decreases PhaseRank(s.d.phase), BucketsLeft(s), if s.d.cursor.Some? then 1 else 0, |s.d.evict|
  {
    if InCall(s.d.phase) {
      AdvanceBuckets(q, s);
      AdvancePhase(q, s);
      AdvanceDecreases(q, s);
      NeverWalksAgain(q, s);
      hide Advance;
      NotWalkingStays(q, Advance(q, s));
    }
  }

  lemma NeverWalksAgain(q: Query, s: Sys)
    requires InCall(s.d.phase) && !s.d.phase.Walking?
    ensures !Advance(q, s).d.phase.Walking?
  {
    hide Kill;
  }

  lemma PassedIsClean(q: Query, s: Sys, n: Node)
    requires RefInv(s) && InCall(s.d.phase) && Advance(q, s).d.bucket > s.d.bucket && s.d.bucket < |s.w.buckets|
    requires ExpiredIn(s.w.entries, s.w.buckets[s.d.bucket]) <= 8
    ensures Clean(RunCall(q, s), s.d.bucket, n)
  {
    var m := Advance(q, s);
    hide RefInv, RunCall, ExpiredIn, Advance;
    RunUnrolls(q, s);
    RunEvicts(q, s);
    AdvanceEvicts(q, s);
    TickKeeps(q, s);
    AdvancePhase(q, s);
    AdvanceBuckets(q, s);
    var t := RunCall(q, s);
    if n in t.w.buckets[s.d.bucket] && Collectable(t.w, n.ct) {
      StillThere(s, t, s.d.bucket, n);
      VisitRemembers(q, s, n);
      VisitKeepsMarks(q, s);
      SlotsAreCollected(q, m, n.ct);
      GoneIsUnlinked(t.w, s.d.bucket, n);
    }
  }

  lemma StillThere(s: Sys, t: Sys, b: nat, n: Node)
    requires Evicts(s, t) && b < |s.w.buckets| && n in t.w.buckets[b] && Collectable(t.w, n.ct)
    ensures n in s.w.buckets[b] && Collectable(s.w, n.ct)
  {
  }

  lemma VisitKeepsMarks(q: Query, s: Sys)
    requires s.d.bucket < |s.w.buckets|
    ensures Visit(q, s).w.dying == s.w.dying && Visit(q, s).w.entries == s.w.entries
    ensures Visit(q, s).d.bucket > s.d.bucket ==> Visit(q, s).d.phase == s.d.phase
  {
    hide ScanChain;
  }

  lemma GoneIsUnlinked(w: World, b: nat, n: Node)
    requires b < |w.buckets| && n in w.buckets[b]
    ensures !Gone(w, n.ct)
  {
    assert Linked(w, n);
    NodeIsOne(n);
  }

  // ---------------------------------------------------------------- no reference from nothing

  lemma {:induction false} ScanTakesCounted(q: Query, w: World, s: Scan, last: Option<ConnId>, chain: seq<Node>)
    requires !s.full && forall c :: c in s.taken ==> w.use[c] > 0
    ensures var r := ScanChain(q, w, s, last, chain);
            && s.evict <= r.evict && forall i :: |s.evict| <= i < |r.evict| ==> w.use[r.evict[i]] > 0
    decreases |chain|
  {
    if chain != [] {
      var s' := ScanNode(q, w, s, last, chain[0]);
      hide KindOf;
      if !s'.full {
        ScanTakesCounted(q, w, s', last, chain[1..]);
        hide ScanNode;
      }
    }
  }

  /** Whatever the table looks like, an entry whose count is zero gets no slot: its last user is freeing it. */
  lemma SlotsAreCounted(q: Query, s: Sys)
    requires s.d.bucket < |s.w.buckets|
    ensures var t := Visit(q, s);
            && s.d.evict <= t.d.evict && forall i :: |s.d.evict| <= i < |t.d.evict| ==> s.w.use[t.d.evict[i]] > 0
  {
    ScanTakesCounted(q, s.w, StartScan(s.d), s.d.last, s.w.buckets[s.d.bucket]);
    hide ScanChain;
  }

  // ---------------------------------------------------------------- the results

  /**
    One undisturbed call, from any state a dump can be in between two calls: it kills only what is expired, confirmed
    and not dying, unlinks exactly what it kills, and of the references that are not its own it drops the table's on
    each killed entry that was linked, and no other.
   */
  lemma CallEvicts(q: Query, s: Sys, cap: nat)
    requires RefInv(s) && s.d.phase.Idle?
    ensures Evicts(s, Call(q, s, cap))
  {
    BeginKeeps(s, cap);
    hide RefInv, RunCall;
    RunEvicts(q, Begin(s, cap));
    EvictsNothing(s, Begin(s, cap));
    EvictsTrans(s, Begin(s, cap), Call(q, s, cap));
    hide Evicts;
  }

  lemma BeginKeeps(s: Sys, cap: nat)
    requires RefInv(s) && s.d.phase.Idle?
    ensures RefInv(Begin(s, cap))
  {
  }

  /**
    And it collects: in every bucket that it walks to its end, if that has at most eight expired nodes, no entry is
    left linked that is expired, confirmed and not dying.
   */
  lemma CallCollects(q: Query, s: Sys, cap: nat, b: nat, n: Node)
    requires RefInv(s) && s.d.phase.Idle? && s.d.bucket <= b < |s.w.buckets|
    requires ExpiredIn(s.w.entries, s.w.buckets[b]) <= 8
    ensures var t := Call(q, s, cap);
            b < t.d.bucket && b < |t.w.buckets| && n in t.w.buckets[b] ==>
              !(t.w.entries(n.ct).expired && t.w.entries(n.ct).confirmed && n.ct !in t.w.dying)
  {
    BeginKeeps(s, cap);
    hide RefInv, RunCall, ExpiredIn;
    WalkedIsClean(q, Begin(s, cap), b, n);
  }
}
