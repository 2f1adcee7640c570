/**
  When a call strands a reference. The dump gives back every reference it takes
  except in one situation, which can be read off before the call: the entry
  under the cursor is still there to be sent, and its message is longer than
  the empty buffer of the call.
 */
module DumpStrand {
  import opened Conntrack
  import opened Chains
  import opened TableDump
  import opened DumpScan
  import opened DumpRuns
  import opened CtMessage
  import opened DumpRefs
  import opened DumpCoverage
  import opened DumpOnce

  /** The entry under the cursor is linked where the cursor says, selected, and too long for the buffer. */
  predicate StuckOn(q: Query, s: Sys, cap: nat) {
    s.d.cursor.Some? && s.d.bucket < |s.w.buckets| &&
    var n := Node(s.d.cursor.value, Original);
    n in s.w.buckets[s.d.bucket] && Selected(q, s.w.entries, n) && KindOf(q, s.w.entries, n).len > cap
  }

  /** The entry is linked in no other bucket than this one. */
  predicate OnlyIn(buckets: seq<seq<Node>>, l: ConnId, b: nat) {
    forall i :: 0 <= i < |buckets| && i != b ==> Node(l, Original) !in buckets[i]
  }

  /** Nothing from here on is a selected node of this entry. */
  ghost predicate NotAhead(q: Query, s: Sys, l: ConnId) {
    Selected(q, s.w.entries, Node(l, Original)) ==>
      forall b :: s.d.bucket <= b < |s.w.buckets| ==> Node(l, Original) !in s.w.buckets[b]
  }

  /** The state of a call that will not stop at the entry it resumed from. */
  ghost predicate Safe(q: Query, s: Sys, cap: nat) {
    && Unique(s.w.buckets)
    && match s.d.phase
       case Walking =>
         && !s.d.full
         && if s.d.cursor.Some? then
           && s.d.cursor == s.d.last && s.d.room == cap && !StuckOn(q, s, cap)
           && OnlyIn(s.w.buckets, s.d.cursor.value, s.d.bucket)
         else s.d.last.Some? ==> NotAhead(q, s, s.d.last.value)
       case Closing => s.d.full && s.d.last.Some? ==> s.d.cursor != s.d.last
       case _ => true
  }

  lemma {:induction false} FromNonempty(q: Query, es: Entries, chain: seq<Node>, n: Node)
    requires n in chain && Eligible(q, es, n)
    ensures From(q, es, chain, n.ct) != []
    decreases |chain|
  {
    if !(chain[0].ct == n.ct && Eligible(q, es, chain[0])) {
      FromNonempty(q, es, chain[1..], n);
    }
  }

  lemma SafeFresh(q: Query, s: Sys, cap: nat)
    requires Safe(q, s, cap) && s.d.phase.Walking? && s.d.bucket < |s.w.buckets| && s.d.cursor.None?
    ensures Safe(q, Visit(q, s), cap)
  {
    var chain := s.w.buckets[s.d.bucket];
    ScanFresh(q, s.w, StartScan(s.d), s.d.last, chain);
    PassSplits(q, s.w.entries, s.d.room, chain, chain);
  }

  lemma SafeMissed(q: Query, s: Sys, cap: nat)
    requires Safe(q, s, cap) && s.d.phase.Walking? && s.d.bucket < |s.w.buckets| && s.d.cursor.Some?
    requires From(q, s.w.entries, s.w.buckets[s.d.bucket], s.d.cursor.value) == []
    ensures Safe(q, Visit(q, s), cap)
  {
    var es, chain, l := s.w.entries, s.w.buckets[s.d.bucket], s.d.cursor.value;
    ScanMisses(q, s.w, StartScan(s.d), l, chain);
    if Node(l, Original) in chain && Selected(q, es, Node(l, Original)) {
      FromNonempty(q, es, chain, Node(l, Original));
    }
  }

  lemma SafeResumed(q: Query, s: Sys, cap: nat)
    requires Safe(q, s, cap) && s.d.phase.Walking? && s.d.bucket < |s.w.buckets| && s.d.cursor.Some?
    requires From(q, s.w.entries, s.w.buckets[s.d.bucket], s.d.cursor.value) != []
    ensures Safe(q, Visit(q, s), cap)
  {
    var es, chain, l := s.w.entries, s.w.buckets[s.d.bucket], s.d.cursor.value;
    var part := From(q, es, chain, l);
    FromIsLater(q, es, chain, l);
    FromEligible(q, es, chain, l);
    FromIsSuffix(q, es, chain, l);
    ScanResumes(q, s.w, StartScan(s.d), l, chain);
    assert part[0] in chain;
    PassSplits(q, es, s.d.room, part, chain);
    PassMovesOn(q, es, s.d.room, part);
  }

  lemma SafeReap(q: Query, s: Sys, cap: nat)
    requires Safe(q, s, cap) && s.d.evict != [] && (s.d.phase.Walking? || s.d.phase.Draining?)
    ensures Safe(q, ReapOne(s), cap)
  {
    var c := s.d.evict[|s.d.evict| - 1];
    var t := ReapOne(s);
    assert t.d == s.d.(evict := t.d.evict) && t.w.entries == s.w.entries;
    if ShouldGc(s.w, c) {
      assert t.w.buckets == Kill(s.w, c).buckets;
      KillUnique(s.w, c);
    }
  }

  lemma AdvanceSafe(q: Query, s: Sys, cap: nat)
    requires Safe(q, s, cap) && InCall(s.d.phase)
    ensures Safe(q, Advance(q, s), cap) && Advance(q, s).stranded == s.stranded
  {
    if s.d.phase.Walking? && s.d.bucket < |s.w.buckets| && s.d.evict == [] {
      if s.d.cursor.None? {
        SafeFresh(q, s, cap);
      } else if From(q, s.w.entries, s.w.buckets[s.d.bucket], s.d.cursor.value) == [] {
        SafeMissed(q, s, cap);
      } else {
        SafeResumed(q, s, cap);
      }
    } else if !s.d.phase.Closing? && s.d.evict != [] && !(s.d.phase.Walking? && s.d.bucket >= |s.w.buckets|) {
      SafeReap(q, s, cap);
    }
  }

  lemma {:induction false} SafeCall(q: Query, s: Sys, cap: nat)
    requires Safe(q, s, cap) && (InCall(s.d.phase) || s.d.phase.Idle?)
    ensures RunCall(q, s).stranded == s.stranded
    decreases PhaseRank(s.d.phase), BucketsLeft(s), if s.d.cursor.Some? then 1 else 0, |s.d.evict|
  {
    if InCall(s.d.phase) {
      AdvanceSafe(q, s, cap);
      AdvanceDecreases(q, s);
      SafeCall(q, Advance(q, s), cap);
    }
  }

  /** The first bucket visit of a stuck call stops at the cursor, and closing the call forgets a reference. */
  lemma StuckCall(q: Query, s: Sys, cap: nat)
    requires s.d.phase.Idle? && Unique(s.w.buckets) && StuckOn(q, s, cap)
    ensures var t := Advance(q, Advance(q, Begin(s, cap)));
            && RunCall(q, t) == Call(q, s, cap)
            && t.d.phase.Draining? && t.stranded == s.stranded + OptRef(s.d.cursor) && Unique(t.w.buckets)
  {
    var es, chain, l := s.w.entries, s.w.buckets[s.d.bucket], s.d.cursor.value;
    var b := Begin(s, cap);
    FromNonempty(q, es, chain, Node(l, Original));
    FromEligible(q, es, chain, l);
    FromIsLater(q, es, chain, l);
    ScanResumes(q, s.w, StartScan(b.d), l, chain);
    var part := From(q, es, chain, l);
    assert part[0] == Node(l, Original);
    assert Rest(q, es, cap, part) == part;
    var v := Advance(q, b);
    assert v == Visit(q, b) && v.d.phase.Closing? && v.d.full && v.d.cursor == v.d.last == Some(l);
    assert RunCall(q, b) == RunCall(q, v);
    assert RunCall(q, v) == RunCall(q, Advance(q, v));
  }

  /** One undisturbed call strands a reference if and only if it was stuck on its cursor to begin with. */
  lemma StrandsIffStuck(q: Query, s: Sys, cap: nat)
    requires s.d.phase.Idle? && Unique(s.w.buckets)
    requires s.d.cursor.Some? ==> OnlyIn(s.w.buckets, s.d.cursor.value, s.d.bucket)
    ensures Call(q, s, cap).stranded
         == s.stranded + (if StuckOn(q, s, cap) then OptRef(s.d.cursor) else multiset{})
  {
    if StuckOn(q, s, cap) {
      StuckCall(q, s, cap);
      SafeCall(q, Advance(q, Advance(q, Begin(s, cap))), cap);
    } else {
      SafeCall(q, Begin(s, cap), cap);
    }
  }

  // ---------------------------------------------------------------- under interference

  /**
    The next bucket visit will stop at the entry the call resumed from: of the part of the chain that the visit goes
    through, the first selected entry that does not fit the room is that one.
   */
  predicate StopsAtLast(q: Query, s: Sys) {
    s.d.phase.Walking? && s.d.evict == [] && s.d.bucket < |s.w.buckets| && s.d.last.Some? &&
    var chain, l := s.w.buckets[s.d.bucket], s.d.last.value;
    var rest := Rest(q, s.w.entries, s.d.room, if s.d.cursor.Some? then From(q, s.w.entries, chain, l) else chain);
    rest != [] && rest[0].ct == l
  }

  /** A call that has stopped at the entry it resumed from, and is not yet closed. */
  predicate Stopped(s: Sys) {
    s.d.phase.Closing? && s.d.full && s.d.last.Some? && s.d.cursor == s.d.last
  }

  lemma VisitStops(q: Query, s: Sys)
    requires s.d.phase.Walking? && s.d.evict == [] && s.d.bucket < |s.w.buckets| && CursorOk(s.d)
    ensures Stopped(Visit(q, s)) <==> StopsAtLast(q, s)
  {
    var chain := s.w.buckets[s.d.bucket];
    var start := StartScan(s.d);
    if s.d.cursor.None? {
      ScanFresh(q, s.w, start, s.d.last, chain);
    } else if From(q, s.w.entries, chain, s.d.cursor.value) == [] {
      ScanMisses(q, s.w, start, s.d.cursor.value, chain);
    } else {
      ScanResumes(q, s.w, start, s.d.cursor.value, chain);
    }
    hide ScanChain, From, Rest, Fits;
  }

  /** Only a visit makes a call stopped, and only closing it makes it not so. */
  lemma EventStops(q: Query, s: Sys, e: Event)
    requires Enabled(s, e) && CursorOk(s.d)
    ensures Stopped(Apply(q, s, e)) <==> (Stopped(s) && !Strands(s, e)) || (e.Tick? && StopsAtLast(q, s))
  {
    if e.Tick? && s.d.phase.Walking? && s.d.bucket < |s.w.buckets| && s.d.evict == [] {
      VisitStops(q, s);
    }
    hide Visit, From, Rest, Kill;
  }

  /** How many bucket visits of a run stop at the entry their call resumed from. */
  ghost function StopCount(q: Query, s: Sys, events: seq<Event>): nat
    requires ValidRun(q, s, events)
    decreases |events|
  {
    if events == [] then 0
    else (if events[0].Tick? && StopsAtLast(q, s) then 1 else 0) + StopCount(q, Apply(q, s, events[0]), events[1..])
  }

  lemma {:induction false} RunStops(q: Query, s: Sys, events: seq<Event>)
    requires RefInv(s) && ValidRun(q, s, events)
    ensures StrandCount(q, s, events) + (if Stopped(After(q, s, events)) then 1 else 0)
         == (if Stopped(s) then 1 else 0) + StopCount(q, s, events)
    decreases |events|
  {
    if events != [] {
      EventKeeps(q, s, events[0]);
      EventStops(q, s, events[0]);
      assert StopsAtLast(q, s) ==> !Stopped(s);
      hide RefInv, Apply, StopsAtLast;
      RunStops(q, Apply(q, s, events[0]), events[1..]);
    }
  }

  /**
    Under any interference: what a finished dump still holds is as many references as there were bucket visits of
    which, at the moment the bucket was locked, the first selected entry that did not fit was the one resumed from.
   */
  lemma HeldIffStopped(q: Query, w: World, events: seq<Event>)
    requires Counted(w, multiset{}) && ValidRun(q, Start(w), events)
    requires After(q, Start(w), events).d.phase.Finished?
    ensures |After(q, Start(w), events).held| == StopCount(q, Start(w), events)
  {
    DoneHoldsNothing(q, w, events);
    RunStops(q, Start(w), events);
  }

  /** Such a visit does not happen where the entry resumed from fits, and is not met again after a restart. */
  lemma FittingVisitGoesOn(q: Query, s: Sys)
    requires s.d.last.Some? && s.d.bucket < |s.w.buckets| && Distinct(s.w.buckets[s.d.bucket])
    requires var n := Node(s.d.last.value, Original);
             n in s.w.buckets[s.d.bucket] && Selected(q, s.w.entries, n) ==>
               s.d.cursor.Some? && KindOf(q, s.w.entries, n).len <= s.d.room
    ensures !StopsAtLast(q, s)
  {
    var es, chain, l := s.w.entries, s.w.buckets[s.d.bucket], s.d.last.value;
    var part := if s.d.cursor.Some? then From(q, es, chain, l) else chain;
    var rest := Rest(q, es, s.d.room, part);
    FromIsLater(q, es, chain, l);
    RestSuffix(q, es, s.d.room, part);
    SuffixFacts(rest, part);
    if rest != [] && rest[0].ct == l {
      RestSelected(q, es, s.d.room, part);
      assert rest[0] == Node(l, Original) && rest[0] in chain;
      PassMovesOn(q, es, s.d.room, part);
    }
  }

  lemma {:induction false} RestSelected(q: Query, es: Entries, room: nat, chain: seq<Node>)
    ensures var rest := Rest(q, es, room, chain); rest != [] ==> Selected(q, es, rest[0]) && rest[0].dir == Original
    decreases |chain|
  {
    if chain != [] {
      match KindOf(q, es, chain[0])
      case Wanted(len) => if len <= room { RestSelected(q, es, room - len, chain[1..]); }
      case _ => RestSelected(q, es, room, chain[1..]);
    }
  }

  // ---------------------------------------------------------------- an example

  function ExampleQuery(): Query {
    Query(0, i => true, c => 8)
  }

  /** A table with one entry. */
  function ExampleTable(conn: Conn): World {
    World([[Node(7, Original)]], c => Entry(0, false, true, conn), {}, multiset{7})
  }

  /** The dump of that table after its first call, in which the entry did not fit. */
  function ExampleState(conn: Conn): Sys {
    var w := ExampleTable(conn);
    Sys(w.(use := multiset{7, 7}), Dump(0, Some(7), Idle, None, [], [], 4, true, 0), multiset{7}, multiset{})
  }

  lemma ExampleScan(conn: Conn)
    ensures var q, w := ExampleQuery(), ExampleTable(conn);
            ScanChain(q, w, StartScan(Begin(Start(w), 4).d), None, w.buckets[0]) ==
            Scan(Some(7), [], multiset{7}, [], 4, true)
  {
    var q, w := ExampleQuery(), ExampleTable(conn);
    assert w.buckets[0] == [Node(7, Original)] && KindOf(q, w.entries, Node(7, Original)) == Wanted(8);
  }

  lemma ExampleVisit(conn: Conn)
    ensures var q, s := ExampleQuery(), Begin(Start(ExampleTable(conn)), 4);
            Advance(q, s) == ExampleState(conn).(d := ExampleState(conn).d.(phase := Closing))
  {
    ExampleScan(conn);
    hide ScanChain;
    assert multiset{7} + multiset{7} == multiset{7, 7};
  }

  lemma ExampleFirstCall(conn: Conn)
    ensures Call(ExampleQuery(), Start(ExampleTable(conn)), 4) == ExampleState(conn)
  {
    var q, t := ExampleQuery(), ExampleState(conn);
    var s0 := Begin(Start(ExampleTable(conn)), 4);
    ExampleVisit(conn);
    var s1, s2 := t.(d := t.d.(phase := Closing)), t.(d := t.d.(phase := Draining));
    assert Advance(q, s1) == s2 && Advance(q, s2) == t;
    hide Advance;
    assert RunCall(q, s0) == RunCall(q, s1);
    assert RunCall(q, s1) == RunCall(q, s2);
    assert RunCall(q, s2) == RunCall(q, t) == t;
  }

  /** It does happen, from the start of a dump: the only entry needs 8 bytes, and two calls offer 4. */
  lemma StrandingExample(conn: Conn)
    ensures Calls(ExampleQuery(), Start(ExampleTable(conn)), [4, 4]).stranded == multiset{7}
  {
    var q, s := ExampleQuery(), Start(ExampleTable(conn));
    ExampleFirstCall(conn);
    var t := ExampleState(conn);
    assert t.w.buckets[0] == [Node(7, Original)] && KindOf(q, t.w.entries, Node(7, Original)) == Wanted(8);
    StrandsIffStuck(q, t, 4);
    hide Call;
    assert [4, 4][1..] == [4] && [4][1..] == [];
    assert Calls(q, s, [4, 4]) == Calls(q, Call(q, s, 4), [4]);
    assert Calls(q, t, [4]) == Calls(q, Call(q, t, 4), []);
  }
}
