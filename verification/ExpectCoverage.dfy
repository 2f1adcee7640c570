/**
  The dump of expectations while they come and go. The restart edge is there
  for the case that the expectation under the cursor has gone: an expectation
  that stays listed is sent at least once, whatever happens to the others.
 */
module ExpectCoverage {
  import opened Conntrack
  import opened Chains
  import opened ListWalk
  import opened ExpectDump

  // ---------------------------------------------------------------- how a chain changes

  datatype Edit = Unlink(i: nat) | LinkHead(e: ConnId)

  /** One change of a chain, as other threads make them: anything is unlinked, and linked at the head. */
  predicate CanEdit(chain: seq<ConnId>, d: Edit) {
    match d case Unlink(i) => i < |chain| case LinkHead(e) => e !in chain
  }

  function Edited(chain: seq<ConnId>, d: Edit): seq<ConnId>
    requires CanEdit(chain, d)
  {
    match d case Unlink(i) => Cut(chain, i) case LinkHead(e) => [e] + chain
  }

  predicate CanEditAll(chain: seq<ConnId>, edits: seq<Edit>)
    decreases |edits|
  {
    edits == [] || (CanEdit(chain, edits[0]) && CanEditAll(Edited(chain, edits[0]), edits[1..]))
  }

  function EditedAll(chain: seq<ConnId>, edits: seq<Edit>): seq<ConnId>
    requires CanEditAll(chain, edits)
    decreases |edits|
  {
    if edits == [] then chain else EditedAll(Edited(chain, edits[0]), edits[1..])
  }

  /** Nothing that is not behind `e` in the one chain is behind it in the other. */
  ghost predicate KeepsOrder(a: seq<ConnId>, b: seq<ConnId>, e: ConnId) {
    forall l: ConnId :: NeverAfter(a, l, e) ==> NeverAfter(b, l, e)
  }

  lemma EditKeepsOrder(chain: seq<ConnId>, d: Edit, e: ConnId, l: ConnId)
    requires CanEdit(chain, d) && Distinct(chain) && e in chain
    ensures Distinct(Edited(chain, d)) && (NeverAfter(chain, l, e) ==> NeverAfter(Edited(chain, d), l, e))
  {
    match d
    case Unlink(i) => CutKeepsOrder(chain, i, l, e);
    case LinkHead(n) => assert Edited(chain, d)[0] == n && Edited(chain, d)[1..] == chain;
  }

  predicate StaysIn(chain: seq<ConnId>, edits: seq<Edit>, e: ConnId)
    requires CanEditAll(chain, edits)
    decreases |edits|
  {
    e in chain && (edits != [] ==> StaysIn(Edited(chain, edits[0]), edits[1..], e))
  }

  /** Unlinking and linking at the head, any number of times, keeps the order around what stays. */
  lemma {:induction false} EditsKeepOrder(chain: seq<ConnId>, edits: seq<Edit>, e: ConnId)
    requires CanEditAll(chain, edits) && Distinct(chain) && StaysIn(chain, edits, e)
    ensures Distinct(EditedAll(chain, edits)) && KeepsOrder(chain, EditedAll(chain, edits), e)
    decreases |edits|
  {
    if edits != [] {
      var next := Edited(chain, edits[0]);
      EditKeepsOrder(chain, edits[0], e, e);
      EditsKeepOrder(next, edits[1..], e);
      forall l: ConnId | NeverAfter(chain, l, e)
        ensures NeverAfter(EditedAll(chain, edits), l, e)
      {
        EditKeepsOrder(chain, edits[0], e, l);
      }
    }
  }

  // ---------------------------------------------------------------- one pass

  lemma LookGrows(x: Request, live: ConnId -> bool, s: Scan, last: Option<ConnId>, c: ConnId)
    ensures s.sent <= Look(x, live, s, last, c).sent
  {
  }

  lemma {:induction false} WalkGrows(x: Request, live: ConnId -> bool, s: Scan, last: Option<ConnId>,
                                     chain: seq<ConnId>)
    ensures s.sent <= Walk(x, live, s, last, chain).sent
    decreases |chain|
  {
    if chain != [] {
      LookGrows(x, live, s, last, chain[0]);
      WalkGrows(x, live, Look(x, live, s, last, chain[0]), last, chain[1..]);
      hide Look;
    }
  }

  /**
    A pass that meets an expectation sends it, or stops at one that does not come after it; or it still looks for
    its cursor at the end.
   */
  lemma {:induction false} WalkReaches(x: Request, live: ConnId -> bool, s: Scan, last: Option<ConnId>,
                                       chain: seq<ConnId>, e: ConnId)
    requires Distinct(chain) && e in chain && x.wanted(e) && live(e) && !s.full
    requires s.cursor.Some? ==> s.cursor == last && NeverAfter(chain, last.value, e)
    ensures var r := Walk(x, live, s, last, chain);
            || e in r.sent
            || (r.full && r.cursor.Some? && NeverAfter(chain, r.cursor.value, e))
            || (!r.full && r.cursor.Some?)
    decreases |chain|
  {
    var s' := Look(x, live, s, last, chain[0]);
    if s'.full {
      AbsentNeverAfter(chain[1..], chain[0], e);
    } else if chain[0] == e {
      if s'.cursor.Some? {
        WalkMisses(x, live, s', last, chain[1..]);
      } else {
        WalkGrows(x, live, s', last, chain[1..]);
        assert e in s'.sent;
      }
    } else {
      WalkReaches(x, live, s', last, chain[1..], e);
    }
  }

  /** A pass that does not meet its cursor ends as it began. */
  lemma {:induction false} WalkMisses(x: Request, live: ConnId -> bool, s: Scan, last: Option<ConnId>,
                                      chain: seq<ConnId>)
    requires s.cursor.Some? && s.cursor == last && last.value !in chain && !s.full
    ensures Walk(x, live, s, last, chain) == s
    decreases |chain|
  {
    if chain != [] {
      WalkMisses(x, live, s, last, chain[1..]);
    }
  }

  // ---------------------------------------------------------------- one call

  /** In every pass over its bucket the expectation is there, and can be referenced. */
  ghost predicate SteadyIn(passes: Passes, b: nat, e: ConnId) {
    forall n: nat :: var p := passes(n, b); Distinct(p.chain) && e in p.chain && p.live(e)
  }

  /** The cursor does not come after the expectation, whichever pass of this call looks. */
  ghost predicate BehindNone(passes: Passes, b: nat, l: ConnId, e: ConnId) {
    forall n: nat :: NeverAfter(passes(n, b).chain, l, e)
  }

  /** The expectation, in bucket `b`, has been sent or lies ahead of the walk. */
  ghost predicate Ahead(passes: Passes, b: nat, e: ConnId, bucket: nat, cursor: Option<ConnId>, sent: seq<ConnId>) {
    || e in sent
    || bucket < b
    || (bucket == b && (cursor.Some? ==> BehindNone(passes, b, cursor.value, e)))
  }

  /** What a call leaves: the same, with the order as its last pass over the bucket saw it. */
  ghost predicate AheadAfter(passes: Passes, b: nat, e: ConnId, bucket: nat, s: Scan) {
    || e in s.sent
    || bucket < b
    || (bucket == b && s.cursor.Some? && exists n: nat :: NeverAfter(passes(n, b).chain, s.cursor.value, e))
  }

  lemma {:induction false} LoopCovers(x: Request, hsize: nat, passes: Passes, n: nat, bucket: nat, s: Scan,
                                      last: Option<ConnId>, b: nat, e: ConnId)
    requires !s.full && (s.cursor.Some? ==> s.cursor == last) && b < hsize && x.wanted(e) && SteadyIn(passes, b, e)
    requires Ahead(passes, b, e, bucket, s.cursor, s.sent)
    ensures var (bucket', r) := Loop(x, hsize, passes, n, bucket, s, last); AheadAfter(passes, b, e, bucket', r)
    decreases hsize - bucket, if s.cursor.Some? then 1 else 0
  {
    if bucket < hsize {
      var p := passes(n, bucket);
      var r := Walk(x, p.live, s, last, p.chain);
      WalkRefs(x, p.live, s, last, p.chain);
      WalkGrows(x, p.live, s, last, p.chain);
      if bucket == b && e !in s.sent {
        assert Distinct(p.chain) && e in p.chain && p.live(e);
        WalkReaches(x, p.live, s, last, p.chain, e);
      }
      hide Walk;
      if r.full {
      } else if r.cursor.Some? {
        LoopCovers(x, hsize, passes, n + 1, bucket, r.(cursor := None), last, b, e);
      } else {
        LoopCovers(x, hsize, passes, n + 1, bucket + 1, r, last, b, e);
      }
    }
  }

  // ---------------------------------------------------------------- many calls

  /** Between two calls the chain of the bucket changes as chains do around what stays. */
  ghost predicate Ordered(before: Passes, after: Passes, b: nat, e: ConnId) {
    forall n: nat, m: nat :: KeepsOrder(before(n, b).chain, after(m, b).chain, e)
  }

  ghost predicate SteadyThroughout(views: seq<Passes>, b: nat, e: ConnId) {
    && (forall k :: 0 <= k < |views| ==> SteadyIn(views[k], b, e))
    && (forall k :: 0 < k < |views| ==> Ordered(views[k - 1], views[k], b, e))
  }

  lemma {:induction false} CallsCover(x: Request, hsize: nat, d: Dump, caps: seq<nat>, views: seq<Passes>, b: nat,
                                      e: ConnId)
    requires |caps| == |views| && b < hsize && x.wanted(e) && SteadyThroughout(views, b, e)
    requires views != [] ==> Ahead(views[0], b, e, d.bucket, d.cursor, d.sent)
    requires views == [] ==> e in d.sent || d.bucket <= b
    ensures var t := Calls(x, hsize, d, caps, views); e in t.sent || t.bucket <= b
    decreases |caps|
  {
    if caps != [] {
      var passes := views[0];
      var s := Scan(d.cursor, [], d.sent, caps[0], false);
      assert SteadyIn(views[0], b, e);
      LoopCovers(x, hsize, passes, 0, d.bucket, s, d.cursor, b, e);
      var t := Call(x, hsize, passes, d, caps[0]);
      hide Loop;
      if |views| > 1 {
        assert Ordered(views[0], views[1], b, e);
        NextAhead(views[0], views[1], b, e, t);
      }
      TailSteady(views, b, e);
      hide Call, Ahead, AheadAfter, SteadyThroughout;
      CallsCover(x, hsize, t, caps[1..], views[1..], b, e);
    }
  }

  lemma NextAhead(before: Passes, after: Passes, b: nat, e: ConnId, t: Dump)
    requires Ordered(before, after, b, e)
    requires || e in t.sent || t.bucket < b
             || (t.bucket == b && t.cursor.Some? && exists n: nat :: NeverAfter(before(n, b).chain, t.cursor.value, e))
    ensures Ahead(after, b, e, t.bucket, t.cursor, t.sent)
  {
    if e !in t.sent && t.bucket == b {
      var n: nat :| NeverAfter(before(n, b).chain, t.cursor.value, e);
      forall m: nat
        ensures NeverAfter(after(m, b).chain, t.cursor.value, e)
      {
        assert KeepsOrder(before(n, b).chain, after(m, b).chain, e);
      }
    }
  }

  lemma TailSteady(views: seq<Passes>, b: nat, e: ConnId)
    requires SteadyThroughout(views, b, e) && views != []
    ensures SteadyThroughout(views[1..], b, e)
  {
    forall k | 0 < k < |views[1..]|
      ensures Ordered(views[1..][k - 1], views[1..][k], b, e)
    {
      assert Ordered(views[k], views[k + 1], b, e);
    }
    forall k | 0 <= k < |views[1..]|
      ensures SteadyIn(views[1..][k], b, e)
    {
      assert SteadyIn(views[k + 1], b, e);
    }
  }

  // ---------------------------------------------------------------- over runs of changes

  /**
    The chain of the bucket over time: each of its contents comes from the one before by unlinking and by linking
    at the head, and the expectation is in all of them.
   */
  predicate Evolves(chains: seq<seq<ConnId>>, edits: seq<seq<Edit>>, e: ConnId) {
    && |chains| == |edits| + 1 && Distinct(chains[0]) && e in chains[0]
    && forall m :: 0 <= m < |edits| ==> EditsTo(chains[m], edits[m], chains[m + 1], e)
  }

  predicate EditsTo(a: seq<ConnId>, edits: seq<Edit>, b: seq<ConnId>, e: ConnId) {
    CanEditAll(a, edits) && EditedAll(a, edits) == b && StaysIn(a, edits, e)
  }

  lemma {:induction false} StaysToTheEnd(chain: seq<ConnId>, edits: seq<Edit>, e: ConnId)
    requires CanEditAll(chain, edits) && StaysIn(chain, edits, e)
    ensures e in EditedAll(chain, edits)
    decreases |edits|
  {
    if edits != [] {
      StaysToTheEnd(Edited(chain, edits[0]), edits[1..], e);
    }
  }

  lemma {:induction false} EvolvesInOrder(chains: seq<seq<ConnId>>, edits: seq<seq<Edit>>, e: ConnId, i: nat, j: nat)
    requires Evolves(chains, edits, e) && i <= j < |chains|
    ensures Distinct(chains[j]) && e in chains[j] && KeepsOrder(chains[i], chains[j], e)
    decreases j
  {
    if j > 0 {
      EvolvesInOrder(chains, edits, e, if i < j then i else j - 1, j - 1);
      assert EditsTo(chains[j - 1], edits[j - 1], chains[j - 1 + 1], e);
      EditsKeepOrder(chains[j - 1], edits[j - 1], e);
      StaysToTheEnd(chains[j - 1], edits[j - 1], e);
      hide EditsTo, CanEditAll, EditedAll, StaysIn, NeverAfter;
    }
  }

  /** Which content of the chain the `n`-th pass of the `k`-th call sees; passes look one after the other. */
  type Clock = (nat, nat) -> nat

  ghost predicate Forward(when: Clock) {
    forall k: nat, n: nat, k': nat, n': nat :: k < k' || (k == k' && n <= n') ==> when(k, n) <= when(k', n')
  }

  /** Every pass of the `k`-th call over the bucket sees one content of its chain, and finds the expectation live. */
  ghost predicate SeesIn(passes: Passes, k: nat, b: nat, chains: seq<seq<ConnId>>, when: Clock, e: ConnId) {
    forall n: nat :: SeesAt(passes(n, b), chains, when(k, n), e)
  }

  predicate SeesAt(p: Pass, chains: seq<seq<ConnId>>, m: nat, e: ConnId) {
    m < |chains| && p.chain == chains[m] && p.live(e)
  }

  ghost predicate Sees(views: seq<Passes>, b: nat, chains: seq<seq<ConnId>>, when: Clock, e: ConnId) {
    forall k :: 0 <= k < |views| ==> SeesIn(views[k], k, b, chains, when, e)
  }

  lemma CallIsSteady(passes: Passes, k: nat, b: nat, chains: seq<seq<ConnId>>, edits: seq<seq<Edit>>, when: Clock,
                     e: ConnId)
    requires Evolves(chains, edits, e) && SeesIn(passes, k, b, chains, when, e)
    ensures SteadyIn(passes, b, e)
  {
    forall n: nat
      ensures var p := passes(n, b); Distinct(p.chain) && e in p.chain && p.live(e)
    {
      assert SeesAt(passes(n, b), chains, when(k, n), e);
      EvolvesInOrder(chains, edits, e, when(k, n), when(k, n));
    }
  }

  lemma CallsAreOrdered(before: Passes, after: Passes, k: nat, b: nat, chains: seq<seq<ConnId>>,
                        edits: seq<seq<Edit>>, when: Clock, e: ConnId)
    requires Evolves(chains, edits, e) && Forward(when)
    requires SeesIn(before, k, b, chains, when, e) && SeesIn(after, k + 1, b, chains, when, e)
    ensures Ordered(before, after, b, e)
  {
    forall n: nat, m: nat
      ensures KeepsOrder(before(n, b).chain, after(m, b).chain, e)
    {
      assert SeesAt(before(n, b), chains, when(k, n), e) && SeesAt(after(m, b), chains, when(k + 1, m), e);
      EvolvesInOrder(chains, edits, e, when(k, n), when(k + 1, m));
    }
  }

  lemma EvolvingIsSteady(views: seq<Passes>, b: nat, chains: seq<seq<ConnId>>, edits: seq<seq<Edit>>, when: Clock,
                         e: ConnId)
    requires Evolves(chains, edits, e) && Forward(when) && Sees(views, b, chains, when, e)
    ensures SteadyThroughout(views, b, e)
  {
    hide Evolves, Forward, SeesIn, SteadyIn, Ordered;
    forall k | 0 <= k < |views|
      ensures SteadyIn(views[k], b, e)
    {
      CallIsSteady(views[k], k, b, chains, edits, when, e);
    }
    forall k | 0 < k < |views|
      ensures Ordered(views[k - 1], views[k], b, e)
    {
      CallsAreOrdered(views[k - 1], views[k], k - 1, b, chains, edits, when, e);
    }
  }

  lemma OrderedAtLeastOnce(x: Request, hsize: nat, caps: seq<nat>, views: seq<Passes>, b: nat, e: ConnId)
    requires |caps| == |views| && b < hsize && x.wanted(e) && SteadyThroughout(views, b, e)
    ensures var t := Calls(x, hsize, Dump(0, None, [], [], []), caps, views); t.bucket >= hsize ==> e in t.sent
  {
    CallsCover(x, hsize, Dump(0, None, [], [], []), caps, views, b, e);
  }

  /**
    At least once: an expectation asked for that stays listed in its bucket is sent by a dump that has walked all
    buckets, while others unlink and link, at the head, what they like between passes and between calls, and also if
    the expectation under the cursor goes.
   */
  lemma AtLeastOnce(x: Request, hsize: nat, caps: seq<nat>, views: seq<Passes>, b: nat, chains: seq<seq<ConnId>>,
                    edits: seq<seq<Edit>>, when: Clock, e: ConnId)
    requires |caps| == |views| && b < hsize && x.wanted(e)
    requires Evolves(chains, edits, e) && Forward(when) && Sees(views, b, chains, when, e)
    ensures var t := Calls(x, hsize, Dump(0, None, [], [], []), caps, views); t.bucket >= hsize ==> e in t.sent
  {
    EvolvingIsSteady(views, b, chains, edits, when, e);
    OrderedAtLeastOnce(x, hsize, caps, views, b, e);
  }
}
