/**
  References. Whatever other threads do, the dump holds one reference for its
  cursor between calls, one for the entry it resumed from and one for each
  occupied eviction slot during a call, and nothing after it is done, except
  what it stranded; and it strands a reference exactly when a call stops at
  the very entry it resumed from.
 */
module DumpRefs {
  import opened Conntrack
  import opened TableDump
  import opened DumpScan
  import opened DumpRuns

  /** The references the dump accounts for in each phase. */
  function Owed(d: Dump): multiset<ConnId> {
    match d.phase
    case Idle => OptRef(d.cursor)
    case Walking => OptRef(d.last) + multiset(d.evict)
    case Closing => OptRef(d.last) + multiset(d.evict) + (if d.full then OptRef(d.cursor) else multiset{})
    case Draining => OptRef(d.cursor) + multiset(d.evict)
    case Finished => multiset{}
  }

  predicate CursorOk(d: Dump) {
    match d.phase
    case Walking => !d.full && (d.cursor.Some? ==> d.cursor == d.last)
    case Closing => if d.full then d.cursor.Some? else d.cursor.Some? ==> d.cursor == d.last
    case _ => true
  }

  /** A call takes the restart edge at most once, and never again once its cursor is clear. */
  predicate RestartOk(d: Dump) {
    d.restarts <= 1 && (d.phase.Walking? && d.restarts == 1 ==> d.cursor.None?)
  }

  ghost predicate RefInv(s: Sys) {
    && s.held == Owed(s.d) + s.stranded
    && Counted(s.w, s.held)
    && |s.d.evict| <= 8
    && CursorOk(s.d) && RestartOk(s.d)
  }

  /** The event that forgets a reference: a call that stopped at the entry it resumed from is closed. */
  predicate Strands(s: Sys, e: Event) {
    e.Tick? && s.d.phase.Closing? && s.d.full && s.d.last.Some? && s.d.cursor == s.d.last
  }

  lemma {:induction false} WithoutMembers(chain: seq<Node>, c: ConnId, n: Node)
    ensures n in Without(chain, c) <==> n in chain && n.ct != c
    decreases |chain|
  {
    if chain != [] {
      WithoutMembers(chain[1..], c, n);
      assert chain == [chain[0]] + chain[1..];
    }
  }

  lemma KillLinks(w: World, c: ConnId, n: Node)
    ensures Linked(Kill(w, c), n) <==> Linked(w, n) && n.ct != c
  {
    var k := Kill(w, c);
    if Linked(w, n) && n.ct != c {
      var b :| 0 <= b < |w.buckets| && n in w.buckets[b];
      WithoutMembers(w.buckets[b], c, n);
      assert n in k.buckets[b];
    }
    if Linked(k, n) {
      var b :| 0 <= b < |k.buckets| && n in k.buckets[b];
      WithoutMembers(w.buckets[b], c, n);
    }
  }

  lemma KillCounted(w: World, held: multiset<ConnId>, c: ConnId)
    requires Counted(w, held)
    ensures Counted(Kill(w, c), held)
  {
    var k := Kill(w, c);
    forall d ensures CountOk(k, held, d) {
      KillLinks(w, c, Node(d, Original));
      KillLinks(w, c, Node(d, Reply));
      assert CountOk(w, held, d);
    }
  }

  lemma SameTable(w: World, w': World, c: ConnId)
    requires w.buckets == w'.buckets
    ensures InTable(w, c) == InTable(w', c)
  {
    assert forall n :: Linked(w, n) == Linked(w', n);
  }

  lemma PutCounted(w: World, held: multiset<ConnId>, c: ConnId)
    requires Counted(w, held) && c in held
    ensures Counted(w.(use := w.use - multiset{c}), held - multiset{c})
  {
    var w' := w.(use := w.use - multiset{c});
    forall d ensures CountOk(w', held - multiset{c}, d) {
      SameTable(w, w', d);
      assert CountOk(w, held, d);
      assert CountOk(w, held, c);
    }
  }

  lemma TakeCounted(w: World, held: multiset<ConnId>, taken: multiset<ConnId>)
    requires Counted(w, held)
    ensures Counted(w.(use := w.use + taken), held + taken)
  {
    var w' := w.(use := w.use + taken);
    forall d ensures CountOk(w', held + taken, d) {
      SameTable(w, w', d);
      assert CountOk(w, held, d);
    }
  }

  /** Emptying the highest slot takes its entry off the books. */
  lemma ReapOwes(d: Dump)
    requires d.evict != [] && (d.phase.Walking? || d.phase.Draining?)
    ensures var n := |d.evict| - 1;
            Owed(d) == Owed(d.(evict := d.evict[..n])) + multiset{d.evict[n]}
  {
    var n := |d.evict| - 1;
    assert d.evict == d.evict[..n] + [d.evict[n]];
  }

  lemma OffTheBooks(owed: multiset<ConnId>, c: ConnId, stranded: multiset<ConnId>)
    ensures (owed + multiset{c} + stranded) - multiset{c} == owed + stranded
    ensures c in owed + multiset{c} + stranded
  {
  }

  lemma ReapCounted(w: World, held: multiset<ConnId>, c: ConnId)
    requires Counted(w, held) && c in held
    ensures Counted(ReapEntry(w, c), held - multiset{c})
  {
    var k := if ShouldGc(w, c) then Kill(w, c) else w;
    if ShouldGc(w, c) {
      KillCounted(w, held, c);
    }
    PutCounted(k, held, c);
    hide Kill, Counted;
  }

  lemma ReapKeeps(s: Sys)
    requires RefInv(s) && s.d.evict != [] && (s.d.phase.Walking? || s.d.phase.Draining?)
    ensures RefInv(ReapOne(s)) && ReapOne(s).stranded == s.stranded
  {
    hide Owed, Counted, ReapEntry;
    var n := |s.d.evict| - 1;
    var c, d := s.d.evict[n], s.d.(evict := s.d.evict[..n]);
    ReapOwes(s.d);
    OffTheBooks(Owed(d), c, s.stranded);
    ReapCounted(s.w, s.held, c);
  }

  lemma VisitKeeps(q: Query, s: Sys)
    requires RefInv(s) && s.d.phase.Walking? && s.d.evict == [] && s.d.bucket < |s.w.buckets|
    ensures RefInv(Visit(q, s)) && Visit(q, s).stranded == s.stranded
  {
    var chain := s.w.buckets[s.d.bucket];
    var r := ScanChain(q, s.w, StartScan(s.d), s.d.last, chain);
    ScanRefs(q, s.w, StartScan(s.d), s.d.last, chain);
    ScanKeepsCursor(q, s.w, StartScan(s.d), s.d.last, chain);
    TakeCounted(s.w, s.held, r.taken);
    assert r.evict[0..] == r.evict;
  }

  /** The books of a call that did not resume from anything. */
  lemma CloseFresh(d: Dump)
    requires d.phase.Closing? && d.last.None? && CursorOk(d)
    ensures Owed(d) == OptRef(d.cursor) + multiset(d.evict)
  {
  }

  /** The books of a call that stopped, or ended, with its cursor on the entry it resumed from. */
  lemma CloseSame(d: Dump, stranded: multiset<ConnId>)
    requires d.phase.Closing? && d.last.Some? && d.cursor == d.last
    ensures Owed(d) + stranded - OptRef(d.last)
         == multiset(d.evict) + (stranded + if d.full then OptRef(d.last) else multiset{})
  {
  }

  /** The books of a call that resumed from one entry and stopped at another, or at none. */
  lemma CloseOther(d: Dump, stranded: multiset<ConnId>)
    requires d.phase.Closing? && d.last.Some? && d.cursor != d.last && CursorOk(d)
    ensures Owed(d) + stranded - OptRef(d.last) == OptRef(d.cursor) + multiset(d.evict) + stranded
  {
  }

  /** What closing a call does to the books. */
  lemma CloseBooks(s: Sys)
    requires s.d.phase.Closing?
    ensures var t, same := Close(s), s.d.last.Some? && s.d.cursor == s.d.last;
            && t.held == s.held - OptRef(s.d.last)
            && t.stranded == (if same && s.d.full then s.stranded + OptRef(s.d.last) else s.stranded)
            && Owed(t.d) == (if same then multiset(s.d.evict) else OptRef(s.d.cursor) + multiset(s.d.evict))
  {
  }

  lemma CloseOwes(s: Sys)
    requires s.d.phase.Closing? && CursorOk(s.d)
    requires s.held == Owed(s.d) + s.stranded
    ensures Close(s).held == Owed(Close(s).d) + Close(s).stranded
  {
    CloseBooks(s);
    if s.d.last.None? {
      CloseFresh(s.d);
    } else if s.d.cursor == s.d.last {
      CloseSame(s.d, s.stranded);
    } else {
      CloseOther(s.d, s.stranded);
    }
    hide Close, Owed, OptRef;
  }

  lemma CloseStrands(s: Sys)
    requires s.d.phase.Closing?
    ensures |Close(s).stranded| == |s.stranded| + (if Strands(s, Tick) then 1 else 0)
  {
  }

  lemma CloseEffects(s: Sys)
    ensures var t := Close(s);
            && t.d.phase.Draining? && t.d.evict == s.d.evict && t.d.restarts == s.d.restarts
            && (s.d.last.None? ==> t.w == s.w && t.held == s.held)
            && (s.d.last.Some? ==>
                  var l := s.d.last.value;
                  t.w == s.w.(use := s.w.use - multiset{l}) && t.held == s.held - multiset{l})
  {
  }

  lemma LastIsHeld(s: Sys)
    requires s.d.phase.Closing? && s.d.last.Some? && s.held == Owed(s.d) + s.stranded
    ensures s.held[s.d.last.value] > 0
  {
  }

  lemma CloseKeeps(s: Sys)
    requires RefInv(s) && s.d.phase.Closing?
    ensures RefInv(Close(s))
  {
    hide Close, Owed, OptRef, Counted;
    CloseOwes(s);
    CloseEffects(s);
    if s.d.last.Some? {
      LastIsHeld(s);
      PutCounted(s.w, s.held, s.d.last.value);
    }
  }

  /** Every step of a call keeps the account. */
  lemma TickKeeps(q: Query, s: Sys)
    requires RefInv(s) && InCall(s.d.phase)
    ensures RefInv(Advance(q, s))
  {
    match s.d.phase
    case Walking =>
      if s.d.bucket < |s.w.buckets| {
        if s.d.evict != [] { ReapKeeps(s); } else { VisitKeeps(q, s); }
      }
    case Closing => CloseKeeps(s);
    case Draining => if s.d.evict != [] { ReapKeeps(s); }
  }

  /** Every event keeps the account. */
  lemma EventKeeps(q: Query, s: Sys, e: Event)
    requires RefInv(s) && Enabled(s, e)
    ensures RefInv(Apply(q, s, e))
  {
    match e
    case Enter(_) =>
    case Tick => TickKeeps(q, s);
    case Leave => if s.d.cursor.Some? { PutCounted(s.w, s.held, s.d.cursor.value); }
    case Unlink(b, i) => UnlinkCounted(q, s, b, i);
    case LinkHead(b, n) => LinkCounted(q, s, b, n);
    case Touch(entries, dying, use) => TouchCounted(q, s, e);
  }

  lemma UnlinkCounted(q: Query, s: Sys, b: nat, i: nat)
    requires Counted(s.w, s.held) && b < |s.w.buckets| && i < |s.w.buckets[b]|
    ensures Counted(Apply(q, s, Unlink(b, i)).w, s.held)
  {
    var w' := Apply(q, s, Unlink(b, i)).w;
    forall c ensures CountOk(w', s.held, c) {
      assert forall n :: Linked(w', n) ==> Linked(s.w, n) by {
        forall n | Linked(w', n) ensures Linked(s.w, n) {
          var b' :| 0 <= b' < |w'.buckets| && n in w'.buckets[b'];
          assert n in s.w.buckets[b'];
        }
      }
      assert CountOk(s.w, s.held, c);
    }
  }

  lemma LinkCounted(q: Query, s: Sys, b: nat, m: Node)
    requires Counted(s.w, s.held) && b < |s.w.buckets| && s.held[m.ct] + 1 <= s.w.use[m.ct]
    ensures Counted(Apply(q, s, LinkHead(b, m)).w, s.held)
  {
    var w' := Apply(q, s, LinkHead(b, m)).w;
    forall c ensures CountOk(w', s.held, c) {
      assert forall n :: Linked(w', n) ==> Linked(s.w, n) || n == m by {
        forall n | Linked(w', n) && n != m ensures Linked(s.w, n) {
          var b' :| 0 <= b' < |w'.buckets| && n in w'.buckets[b'];
          assert n in s.w.buckets[b'];
        }
      }
      assert CountOk(s.w, s.held, c);
    }
  }

  lemma TouchCounted(q: Query, s: Sys, e: Event)
    requires e.Touch? && Enabled(s, e)
    ensures Counted(Apply(q, s, e).w, s.held)
  {
    var w', w0 := Apply(q, s, e).w, s.w.(use := e.use);
    forall c ensures CountOk(w', s.held, c) {
      SameTable(w0, w', c);
      assert CountOk(w0, s.held, c);
    }
  }

  ghost function StrandCount(q: Query, s: Sys, events: seq<Event>): nat
    requires ValidRun(q, s, events)
    decreases |events|
  {
    if events == [] then 0
    else (if Strands(s, events[0]) then 1 else 0) + StrandCount(q, Apply(q, s, events[0]), events[1..])
  }

  lemma EventStrands(q: Query, s: Sys, e: Event)
    requires RefInv(s) && Enabled(s, e)
    ensures |Apply(q, s, e).stranded| == |s.stranded| + (if Strands(s, e) then 1 else 0)
  {
    if e.Tick? {
      match s.d.phase
      case Walking =>
        if s.d.bucket < |s.w.buckets| {
          if s.d.evict != [] { ReapKeeps(s); } else { VisitKeeps(q, s); }
        }
      case Closing => CloseStrands(s);
      case Draining => if s.d.evict != [] { ReapKeeps(s); }
    }
  }

  /**
    Reference conservation over every run, whatever other threads do: the account balances in every
    reachable state, no slot overflows, a call restarts at most once, and what is stranded is exactly
    what was lost at the counted events.
   */
  lemma {:induction false} RunKeepsAccount(q: Query, s: Sys, events: seq<Event>)
    requires RefInv(s) && ValidRun(q, s, events)
    ensures var t := After(q, s, events);
            RefInv(t) && |t.stranded| == |s.stranded| + StrandCount(q, s, events)
    decreases |events|
  {
    if events != [] {
      EventKeeps(q, s, events[0]);
      EventStrands(q, s, events[0]);
      RunKeepsAccount(q, Apply(q, s, events[0]), events[1..]);
    }
  }

  /** A dump that has been told it is done holds a reference if and only if some call stranded one. */
  lemma DoneHoldsNothing(q: Query, w: World, events: seq<Event>)
    requires Counted(w, multiset{})
    requires ValidRun(q, Start(w), events)
    requires After(q, Start(w), events).d.phase.Finished?
    ensures var t := After(q, Start(w), events);
            && t.held == t.stranded
            && |t.held| == StrandCount(q, Start(w), events)
            && (t.held == multiset{} <==> StrandCount(q, Start(w), events) == 0)
  {
    RunKeepsAccount(q, Start(w), events);
  }
}
