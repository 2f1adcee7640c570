/**
  At least once. An entry that stays linked, live and selected during a whole
  dump is sent, whatever other threads do to the rest of the table, and even
  if the entry under the cursor vanishes.
 */
module DumpCoverage {
  import opened Conntrack
  import opened Chains
  import opened TableDump
  import opened DumpScan
  import opened DumpRuns

  // ---------------------------------------------------------------- order in a chain

  lemma {:induction false} WithoutKeepsOrder(chain: seq<Node>, c: ConnId, l: Node, e: Node)
    ensures Distinct(chain) ==> Distinct(Without(chain, c))
    ensures NeverAfter(chain, l, e) ==> NeverAfter(Without(chain, c), l, e)
    ensures forall n :: n in Without(chain, c) <==> n in chain && n.ct != c
    decreases |chain|
  {
    if chain != [] {
      WithoutKeepsOrder(chain[1..], c, l, e);
      assert chain == [chain[0]] + chain[1..];
      var rest := Without(chain[1..], c);
      if chain[0].ct == c {
        assert Without(chain, c) == rest;
      } else {
        assert Without(chain, c)[1..] == rest;
      }
    }
  }

  // ---------------------------------------------------------------- one pass

  /** An entry met by a pass is sent, or the pass stopped at an entry that does not come after it. */
  lemma {:induction false} PassReaches(q: Query, es: Entries, room: nat, chain: seq<Node>, e: Node)
    requires Distinct(chain) && e in chain && Selected(q, es, e)
    ensures var rest := Rest(q, es, room, chain);
            e.ct in Fits(q, es, room, chain) || (rest != [] && NeverAfter(chain, rest[0], e))
    decreases |chain|
  {
    var rest := Rest(q, es, room, chain);
    if rest == chain {
      AbsentNeverAfter(chain[1..], chain[0], e);
    } else if chain[0] != e {
      var k := KindOf(q, es, chain[0]);
      PassReaches(q, es, if k.Wanted? then room - k.len else room, chain[1..], e);
    }
  }

  lemma {:induction false} FromIsLater(q: Query, es: Entries, chain: seq<Node>, l: ConnId)
    ensures var f := From(q, es, chain, l);
            && (forall n :: n in f ==> n in chain)
            && (Distinct(chain) ==> Distinct(f))
            && (f != [] ==> f[0] == Node(l, Original))
    decreases |chain|
  {
    if chain != [] && !(chain[0].ct == l && Eligible(q, es, chain[0])) {
      FromIsLater(q, es, chain[1..], l);
    }
  }

  /** If the cursor does not come after an entry, resuming from the cursor meets the entry. */
  lemma {:induction false} ResumeMeets(q: Query, es: Entries, chain: seq<Node>, l: ConnId, e: Node)
    requires e in chain && Eligible(q, es, e)
    requires NeverAfter(chain, Node(l, Original), e)
    requires From(q, es, chain, l) != []
    ensures e in From(q, es, chain, l)
    decreases |chain|
  {
    FromIsLater(q, es, chain[1..], l);
    if !(chain[0].ct == l && Eligible(q, es, chain[0])) && chain[0] != e {
      ResumeMeets(q, es, chain[1..], l, e);
    }
  }

  /** The order found in the part after the cursor holds in the whole chain. */
  lemma {:induction false} OrderLifts(q: Query, es: Entries, chain: seq<Node>, l: ConnId, c: Node, e: Node)
    requires Distinct(chain) && e in From(q, es, chain, l)
    requires NeverAfter(From(q, es, chain, l), c, e)
    ensures NeverAfter(chain, c, e)
    decreases |chain|
  {
    if !(chain[0].ct == l && Eligible(q, es, chain[0])) {
      FromIsLater(q, es, chain[1..], l);
      OrderLifts(q, es, chain[1..], l, c, e);
    }
  }

  // ---------------------------------------------------------------- the invariant

  /** The entry is linked, live, in the namespace of the dump, and passes its filter. */
  predicate Steady(q: Query, s: Sys, e: ConnId) {
    && Linked(s.w, Node(e, Original)) && var x := s.w.entries(e);
    && !x.expired && x.net == q.net && q.matches(x.conn.info)
  }

  /** The entry, linked in bucket `b`, has been sent or lies ahead of the walk. */
  predicate Ahead(s: Sys, e: ConnId, b: nat)
    requires b < |s.w.buckets|
  {
    || e in s.d.sent
    || b > s.d.bucket
    || (b == s.d.bucket && (s.d.cursor.Some? ==>
          NeverAfter(s.w.buckets[b], Node(s.d.cursor.value, Original), Node(e, Original))))
  }

  ghost predicate Covered(s: Sys, e: ConnId) {
    && (forall b :: 0 <= b < |s.w.buckets| ==> Distinct(s.w.buckets[b]))
    && (forall b :: 0 <= b < |s.w.buckets| && Node(e, Original) in s.w.buckets[b] ==> Ahead(s, e, b))
    && (s.d.phase.Walking? ==> s.d.cursor.Some? ==> s.d.cursor == s.d.last)
  }

  lemma VisitCovers(q: Query, s: Sys, e: ConnId)
    requires Covered(s, e) && Steady(q, s, e)
    requires s.d.phase.Walking? && s.d.evict == [] && s.d.bucket < |s.w.buckets|
    ensures Covered(Visit(q, s), e)
  {
    var b := s.d.bucket;
    var chain, n, a := s.w.buckets[b], Node(e, Original), StartScan(s.d);
    var t := Visit(q, s);
    var r := ScanChain(q, s.w, a, s.d.last, chain);
    NothingFits(q, s.w, a, s.d.last, chain);
    assert Distinct(chain);
    if n in chain && e !in s.d.sent {
      assert Ahead(s, e, b);
      if s.d.cursor.None? {
        ScanFresh(q, s.w, a, s.d.last, chain);
        PassReaches(q, s.w.entries, s.d.room, chain, n);
        FitsAndRest(q, s.w.entries, s.d.room, chain);
        OriginalRest(q, s.w.entries, s.d.room, chain);
      } else {
        var l := s.d.cursor.value;
        var f := From(q, s.w.entries, chain, l);
        if f == [] {
          ScanMisses(q, s.w, a, l, chain);
        } else {
          ScanResumes(q, s.w, a, l, chain);
          FromIsLater(q, s.w.entries, chain, l);
          ResumeMeets(q, s.w.entries, chain, l, n);
          PassReaches(q, s.w.entries, s.d.room, f, n);
          OriginalRest(q, s.w.entries, s.d.room, f);
          if e !in Fits(q, s.w.entries, s.d.room, f) {
            OrderLifts(q, s.w.entries, chain, l, Rest(q, s.w.entries, s.d.room, f)[0], n);
          }
        }
      }
      assert Ahead(t, e, b);
    }
    ScanKeepsCursor(q, s.w, a, s.d.last, chain);
    forall b' | 0 <= b' < |t.w.buckets| && n in t.w.buckets[b'] ensures Ahead(t, e, b') {
      assert Ahead(s, e, b');
    }
  }

  lemma {:induction false} OriginalRest(q: Query, es: Entries, room: nat, chain: seq<Node>)
    ensures var rest := Rest(q, es, room, chain);
            rest != [] ==> rest[0] == Node(rest[0].ct, Original)
    decreases |chain|
  {
    if chain != [] {
      match KindOf(q, es, chain[0])
      case Wanted(len) => if len <= room { OriginalRest(q, es, room - len, chain[1..]); }
      case _ => OriginalRest(q, es, room, chain[1..]);
    }
  }

  lemma ReapCovers(q: Query, s: Sys, e: ConnId)
    requires Covered(s, e) && Steady(q, s, e) && s.d.evict != []
    ensures Covered(ReapOne(s), e)
  {
    var c := s.d.evict[|s.d.evict| - 1];
    var t := ReapOne(s);
    forall b | 0 <= b < |t.w.buckets|
      ensures Distinct(t.w.buckets[b]) && (Node(e, Original) in t.w.buckets[b] ==> Ahead(t, e, b))
    {
      var l := if s.d.cursor.Some? then s.d.cursor.value else 0;
      WithoutKeepsOrder(s.w.buckets[b], c, Node(l, Original), Node(e, Original));
      assert Distinct(s.w.buckets[b]);
      assert Node(e, Original) in s.w.buckets[b] ==> Ahead(s, e, b);
    }
  }

  lemma TickCovers(q: Query, s: Sys, e: ConnId)
    requires Covered(s, e) && Steady(q, s, e) && InCall(s.d.phase)
    ensures Covered(Advance(q, s), e)
  {
    var t := Advance(q, s);
    if s.d.phase.Walking? && s.d.bucket < |s.w.buckets| && s.d.evict == [] {
      VisitCovers(q, s, e);
    } else if !s.d.phase.Closing? && s.d.evict != [] && !(s.d.phase.Walking? && s.d.bucket >= |s.w.buckets|) {
      ReapCovers(q, s, e);
    } else {
      assert t.w.buckets == s.w.buckets && t.d.bucket == s.d.bucket && t.d.sent == s.d.sent;
      assert t.d.cursor.None? || t.d.cursor == s.d.cursor;
      forall b | 0 <= b < |t.w.buckets| && Node(e, Original) in t.w.buckets[b] ensures Ahead(t, e, b) {
        assert Ahead(s, e, b);
      }
    }
  }

  lemma UnlinkCovers(q: Query, s: Sys, e: ConnId, b: nat, i: nat)
    requires Covered(s, e) && b < |s.w.buckets| && i < |s.w.buckets[b]|
    ensures Covered(Apply(q, s, Unlink(b, i)), e)
  {
    var t := Apply(q, s, Unlink(b, i));
    forall b' | 0 <= b' < |t.w.buckets|
      ensures Distinct(t.w.buckets[b']) && (Node(e, Original) in t.w.buckets[b'] ==> Ahead(t, e, b'))
    {
      var l := if s.d.cursor.Some? then s.d.cursor.value else 0;
      assert Distinct(s.w.buckets[b']);
      assert Node(e, Original) in s.w.buckets[b'] ==> Ahead(s, e, b');
      if b' == b {
        assert t.w.buckets[b] == Cut(s.w.buckets[b], i);
        CutKeepsOrder(s.w.buckets[b], i, Node(l, Original), Node(e, Original));
      }
    }
  }

  lemma LinkCovers(q: Query, s: Sys, e: ConnId, b: nat, n: Node)
    requires Covered(s, e) && Steady(q, s, e) && b < |s.w.buckets| && !Linked(s.w, n)
    ensures Covered(Apply(q, s, LinkHead(b, n)), e)
  {
    var t := Apply(q, s, LinkHead(b, n));
    forall b' | 0 <= b' < |t.w.buckets|
      ensures Distinct(t.w.buckets[b']) && (Node(e, Original) in t.w.buckets[b'] ==> Ahead(t, e, b'))
    {
      assert Distinct(s.w.buckets[b']);
      assert Node(e, Original) in s.w.buckets[b'] ==> Ahead(s, e, b');
      if b' == b {
        assert t.w.buckets[b][1..] == s.w.buckets[b];
        assert n !in s.w.buckets[b];
      }
    }
  }

  lemma EventCovers(q: Query, s: Sys, e: ConnId, ev: Event)
    requires Covered(s, e) && Steady(q, s, e) && Enabled(s, ev)
    ensures Covered(Apply(q, s, ev), e)
  {
    match ev
    case Tick => TickCovers(q, s, e);
    case Unlink(b, i) => UnlinkCovers(q, s, e, b, i);
    case LinkHead(b, n) => LinkCovers(q, s, e, b, n);
    case _ =>
      var t := Apply(q, s, ev);
      assert t.w.buckets == s.w.buckets && t.d.bucket == s.d.bucket && t.d.sent == s.d.sent;
      forall b | 0 <= b < |t.w.buckets| && Node(e, Original) in t.w.buckets[b] ensures Ahead(t, e, b) {
        assert Ahead(s, e, b);
      }
  }

  // ---------------------------------------------------------------- whole runs

  /** The entry is steady in every state of the run. */
  ghost predicate SteadyThroughout(q: Query, s: Sys, events: seq<Event>, e: ConnId)
    requires ValidRun(q, s, events)
    decreases |events|
  {
    Steady(q, s, e) && (events != [] ==> SteadyThroughout(q, Apply(q, s, events[0]), events[1..], e))
  }

  lemma {:induction false} RunCovers(q: Query, s: Sys, events: seq<Event>, e: ConnId)
    requires ValidRun(q, s, events) && SteadyThroughout(q, s, events, e) && Covered(s, e)
    ensures Covered(After(q, s, events), e) && Steady(q, After(q, s, events), e)
    decreases |events|
  {
    if events != [] {
      EventCovers(q, s, e, events[0]);
      RunCovers(q, Apply(q, s, events[0]), events[1..], e);
    }
  }

  /** A dump that has walked every bucket has sent every entry that was steady throughout. */
  lemma AtLeastOnce(q: Query, w: World, events: seq<Event>, e: ConnId)
    requires forall b :: 0 <= b < |w.buckets| ==> Distinct(w.buckets[b])
    requires ValidRun(q, Start(w), events) && SteadyThroughout(q, Start(w), events, e)
    requires var t := After(q, Start(w), events); t.d.bucket >= |t.w.buckets|
    ensures e in After(q, Start(w), events).d.sent
  {
    var s := Start(w);
    forall b | 0 <= b < |s.w.buckets| && Node(e, Original) in s.w.buckets[b] ensures Ahead(s, e, b) {
    }
    RunCovers(q, s, events, e);
    var t := After(q, s, events);
    var b :| 0 <= b < |t.w.buckets| && Node(e, Original) in t.w.buckets[b];
    assert Ahead(t, e, b);
  }

  // ---------------------------------------------------------------- when netlink stops

  /** Every message now to be sent fits an empty buffer of `cap` bytes. */
  ghost predicate AllFit(q: Query, s: Sys, cap: nat) {
    forall b, n :: 0 <= b < |s.w.buckets| && n in s.w.buckets[b] && Selected(q, s.w.entries, n)
      ==> q.len(s.w.entries(n.ct).conn) <= cap
  }

  /** The events of one call after it was entered: its steps, and anything other threads do. */
  ghost predicate OneCall(q: Query, s: Sys, events: seq<Event>, cap: nat)
    requires ValidRun(q, s, events)
    decreases |events|
  {
    && AllFit(q, s, cap)
    && (events != [] ==> !events[0].Enter? && !events[0].Leave?
                         && OneCall(q, Apply(q, s, events[0]), events[1..], cap))
  }

  /** What holds in a call entered with `sent` already sent: as long as it sends nothing, it does not stop early. */
  predicate Quiet(s: Sys, sent: seq<ConnId>, cap: nat) {
    && |sent| <= |s.d.sent|
    && (s.d.phase.Walking? ==> !s.d.full && (|s.d.sent| == |sent| ==> s.d.room == cap))
    && (s.d.full ==> |s.d.sent| > |sent|)
    && (!s.d.phase.Walking? && !s.d.full ==> s.d.bucket >= |s.w.buckets|)
  }

  lemma VisitQuiet(q: Query, s: Sys, sent: seq<ConnId>, cap: nat)
    requires Quiet(s, sent, cap) && AllFit(q, s, cap)
    requires s.d.phase.Walking? && s.d.evict == [] && s.d.bucket < |s.w.buckets|
    ensures Quiet(Visit(q, s), sent, cap)
  {
    var chain := s.w.buckets[s.d.bucket];
    NothingFits(q, s.w, StartScan(s.d), s.d.last, chain);
    if s.d.room == cap {
      StopsWhenTooLong(q, s.w, StartScan(s.d), s.d.last, chain);
    }
  }

  lemma {:induction false} CallQuiet(q: Query, s: Sys, events: seq<Event>, sent: seq<ConnId>, cap: nat)
    requires ValidRun(q, s, events) && OneCall(q, s, events, cap)
    requires Quiet(s, sent, cap)
    ensures Quiet(After(q, s, events), sent, cap)
    decreases |events|
  {
    if events != [] {
      if events[0].Tick? && s.d.phase.Walking? && s.d.evict == [] && s.d.bucket < |s.w.buckets| {
        VisitQuiet(q, s, sent, cap);
      }
      CallQuiet(q, Apply(q, s, events[0]), events[1..], sent, cap);
    }
  }

  lemma {:induction false} RunSplits(q: Query, s: Sys, a: seq<Event>, b: seq<Event>)
    requires ValidRun(q, s, a + b)
    ensures ValidRun(q, s, a) && ValidRun(q, After(q, s, a), b)
    ensures After(q, s, a + b) == After(q, After(q, s, a), b)
    decreases |a|
  {
    if a == [] {
      assert a + b == b;
    } else {
      assert (a + b)[1..] == a[1..] + b;
      RunSplits(q, Apply(q, s, a[0]), a[1..], b);
    }
  }

  /**
    Netlink calls a dump again until a call adds nothing to its buffer. If the messages of that call would
    have fitted an empty buffer, then by then every entry that was steady throughout has been sent.
   */
  lemma EmptyCallEndsComplete(q: Query, w: World, before: seq<Event>, cap: nat, call: seq<Event>, e: ConnId)
    requires forall b :: 0 <= b < |w.buckets| ==> Distinct(w.buckets[b])
    requires ValidRun(q, Start(w), before + [Enter(cap)] + call)
    requires SteadyThroughout(q, Start(w), before + [Enter(cap)] + call, e)
    requires ValidRun(q, Start(w), before + [Enter(cap)])
    requires var s := After(q, Start(w), before + [Enter(cap)]);
             && ValidRun(q, s, call) && OneCall(q, s, call, cap)
             && After(q, s, call).d.phase.Idle?
             && After(q, s, call).d.sent == s.d.sent
    ensures e in After(q, Start(w), before + [Enter(cap)] + call).d.sent
  {
    RunSplits(q, Start(w), before + [Enter(cap)], call);
    RunSplits(q, Start(w), before, [Enter(cap)]);
    var s := After(q, Start(w), before + [Enter(cap)]);
    assert s == Begin(After(q, Start(w), before), cap);
    CallQuiet(q, s, call, s.d.sent, cap);
    AtLeastOnce(q, w, before + [Enter(cap)] + call, e);
  }
}
