/**
  The dump of the expectation table and of the expectations of one connection.
  No lock is held: the chains are read under RCU, so what a pass sees is some
  list of expectations, and some of those may already be on their way out.
 */
module ExpectDump {
  import opened Conntrack
  import opened Chains
  import opened ListWalk

  /** What one pass over a chain sees: the expectations, and which of them can still be referenced. */
  datatype Pass = Pass(chain: seq<ConnId>, live: ConnId -> bool)

  /** What the `n`-th pass of a call sees when it reads bucket `b`: anything at all. */
  type Passes = (nat, nat) -> Pass

  datatype Scan = Scan(cursor: Option<ConnId>, taken: seq<ConnId>, sent: seq<ConnId>, room: nat, full: bool)

  /** The callback state, what was sent so far, and every reference taken and put so far. */
  datatype Dump = Dump(bucket: nat, cursor: Option<ConnId>, sent: seq<ConnId>, gets: seq<ConnId>, puts: seq<ConnId>)

  function OptRef(o: Option<ConnId>): seq<ConnId> {
    match o case None => [] case Some(c) => [c]
  }

  function Look(x: Request, live: ConnId -> bool, s: Scan, last: Option<ConnId>, e: ConnId): Scan {
    if !x.wanted(e) then s
    else if s.cursor.Some? && Some(e) != last then s
    else if x.len(e) <= s.room then s.(cursor := None, sent := s.sent + [e], room := s.room - x.len(e))
    else if !live(e) then s.(cursor := None)
    else s.(cursor := Some(e), taken := s.taken + [e], full := true)
  }

  function Walk(x: Request, live: ConnId -> bool, s: Scan, last: Option<ConnId>, chain: seq<ConnId>): Scan
    decreases |chain|
  {
    if chain == [] then s
    else
      var s' := Look(x, live, s, last, chain[0]);
      if s'.full then s' else Walk(x, live, s', last, chain[1..])
  }

  lemma LookRefs(x: Request, live: ConnId -> bool, s: Scan, last: Option<ConnId>, e: ConnId)
    requires !s.full
    ensures var r := Look(x, live, s, last, e);
            && r.taken == (if r.full then s.taken + OptRef(r.cursor) else s.taken)
            && (r.full ==> r.cursor.Some?)
            && (!r.full && r.cursor.Some? ==> r.cursor == s.cursor)
  {
  }

  lemma {:induction false} WalkRefs(x: Request, live: ConnId -> bool, s: Scan, last: Option<ConnId>, chain: seq<ConnId>)
    requires !s.full
    ensures var r := Walk(x, live, s, last, chain);
            && r.taken == (if r.full then s.taken + OptRef(r.cursor) else s.taken)
            && (r.full ==> r.cursor.Some?)
            && (!r.full && r.cursor.Some? ==> r.cursor == s.cursor)
    decreases |chain|
  {
    hide Look, OptRef;
    if chain != [] {
      LookRefs(x, live, s, last, chain[0]);
      var s' := Look(x, live, s, last, chain[0]);
      if !s'.full {
        WalkRefs(x, live, s', last, chain[1..]);
      }
    }
  }

  /** A pass that meets the expectation under its cursor does not lead to a restart, even if that one is going away. */
  lemma {:induction false} MeetsCursor(x: Request, live: ConnId -> bool, s: Scan, last: Option<ConnId>,
                                       chain: seq<ConnId>)
    requires !s.full && (s.cursor.Some? ==> s.cursor == last && last.value in chain && x.wanted(last.value))
    ensures var r := Walk(x, live, s, last, chain); r.full || r.cursor.None?
    decreases |chain|
  {
    if chain != [] {
      var s' := Look(x, live, s, last, chain[0]);
      if !s'.full {
        MeetsCursor(x, live, s', last, chain[1..]);
      }
    }
  }

  /** The bucket loop from its `n`-th pass on, with its restart edge. */
  function Loop(x: Request, hsize: nat, passes: Passes, n: nat, bucket: nat, s: Scan, last: Option<ConnId>): (nat, Scan)
    requires !s.full
    decreases hsize - bucket, if s.cursor.Some? then 1 else 0
  {
    if bucket >= hsize then (bucket, s)
    else
      var p := passes(n, bucket);
      var r := Walk(x, p.live, s, last, p.chain);
      WalkRefs(x, p.live, s, last, p.chain);
      if r.full then (bucket, r)
      else if r.cursor.Some? then Loop(x, hsize, passes, n + 1, bucket, r.(cursor := None), last)
      else Loop(x, hsize, passes, n + 1, bucket + 1, r, last)
  }

  /** One turn of the loop. */
  lemma LoopUnrolls(x: Request, hsize: nat, passes: Passes, n: nat, bucket: nat, s: Scan, last: Option<ConnId>)
    requires !s.full && bucket < hsize
    ensures var p := passes(n, bucket);
            var r := Walk(x, p.live, s, last, p.chain);
            && (r.cursor.Some? || !r.full)
            && Loop(x, hsize, passes, n, bucket, s, last) ==
               if r.full then (bucket, r)
               else if r.cursor.Some? then Loop(x, hsize, passes, n + 1, bucket, r.(cursor := None), last)
               else Loop(x, hsize, passes, n + 1, bucket + 1, r, last)
  {
    var p := passes(n, bucket);
    WalkRefs(x, p.live, s, last, p.chain);
    hide Walk;
  }

  lemma LoopEnds(x: Request, hsize: nat, passes: Passes, n: nat, bucket: nat, s: Scan, last: Option<ConnId>)
    requires !s.full && bucket >= hsize
    ensures Loop(x, hsize, passes, n, bucket, s, last) == (bucket, s)
  {
  }

  /** One call of ctnetlink_exp_dump_table. */
  function Call(x: Request, hsize: nat, passes: Passes, d: Dump, cap: nat): Dump {
    var (b, r) := Loop(x, hsize, passes, 0, d.bucket, Scan(d.cursor, [], d.sent, cap, false), d.cursor);
    Dump(b, r.cursor, r.sent, d.gets + r.taken, d.puts + OptRef(d.cursor))
  }

  /** ctnetlink_exp_done. */
  function Done(d: Dump): Dump {
    d.(cursor := None, puts := d.puts + OptRef(d.cursor))
  }

  // ---------------------------------------------------------------- references

  /** The references taken and not put: one on the cursor, if it is set. */
  predicate RefInv(hsize: nat, d: Dump) {
    multiset(d.gets) == multiset(d.puts) + multiset(OptRef(d.cursor)) && (d.cursor.Some? ==> d.bucket < hsize)
  }

  lemma {:induction false} LoopRefs(x: Request, hsize: nat, passes: Passes, n: nat, bucket: nat, s: Scan,
                                    last: Option<ConnId>)
    requires !s.full && (s.cursor.Some? ==> bucket < hsize)
    ensures var (b, r) := Loop(x, hsize, passes, n, bucket, s, last);
            && r.taken == s.taken + OptRef(r.cursor)
            && (r.cursor.Some? ==> b < hsize)
    decreases hsize - bucket, if s.cursor.Some? then 1 else 0
  {
    if bucket < hsize {
      var p := passes(n, bucket);
      var r := Walk(x, p.live, s, last, p.chain);
      WalkRefs(x, p.live, s, last, p.chain);
      if r.full {
      } else if r.cursor.Some? {
        LoopRefs(x, hsize, passes, n + 1, bucket, r.(cursor := None), last);
      } else {
        LoopRefs(x, hsize, passes, n + 1, bucket + 1, r, last);
      }
    }
  }

  /** Successive calls, each with its own buffer and its own view of the table. */
  function Calls(x: Request, hsize: nat, d: Dump, caps: seq<nat>, views: seq<Passes>): Dump
    requires |caps| == |views|
    decreases |caps|
  {
    if caps == [] then d else Calls(x, hsize, Call(x, hsize, views[0], d, caps[0]), caps[1..], views[1..])
  }

  /**
    Unconditionally, whatever the passes see and however often the same item fails to fit: the dump holds one
    reference when its cursor is set and none otherwise, and none after it is done.
   */
  lemma {:induction false} CallsKeepRefs(x: Request, hsize: nat, d: Dump, caps: seq<nat>, views: seq<Passes>)
    requires |caps| == |views| && RefInv(hsize, d)
    ensures var t := Calls(x, hsize, d, caps, views);
            RefInv(hsize, t) && multiset(Done(t).gets) == multiset(Done(t).puts)
    decreases |caps|
  {
    if caps != [] {
      LoopRefs(x, hsize, views[0], 0, d.bucket, Scan(d.cursor, [], d.sent, caps[0], false), d.cursor);
      CallsKeepRefs(x, hsize, Call(x, hsize, views[0], d, caps[0]), caps[1..], views[1..]);
    }
  }

  // ---------------------------------------------------------------- exactly once

  /** A table that does not change and whose expectations can all be referenced. */
  function Static(buckets: seq<seq<ConnId>>): Passes {
    (n: nat, b: nat) => Pass(if b < |buckets| then buckets[b] else [], e => true)
  }

  function SelFrom(x: Request, buckets: seq<seq<ConnId>>, b: nat): seq<ConnId>
    decreases |buckets| - b
  {
    if b >= |buckets| then [] else Sel(x, buckets[b]) + SelFrom(x, buckets, b + 1)
  }

  function Left(chain: seq<ConnId>, cursor: Option<ConnId>): seq<ConnId> {
    match cursor case None => chain case Some(l) => From(chain, l)
  }

  function Pending(x: Request, buckets: seq<seq<ConnId>>, bucket: nat, cursor: Option<ConnId>): seq<ConnId> {
    if bucket >= |buckets| then []
    else Sel(x, Left(buckets[bucket], cursor)) + SelFrom(x, buckets, bucket + 1)
  }

  /** The cursor is a wanted item of its bucket. */
  predicate Placed(x: Request, buckets: seq<seq<ConnId>>, bucket: nat, cursor: Option<ConnId>) {
    cursor.Some? ==> bucket < |buckets| && cursor.value in buckets[bucket] && x.wanted(cursor.value)
  }

  ghost predicate AllFit(x: Request, buckets: seq<seq<ConnId>>, cap: nat) {
    forall b, e :: 0 <= b < |buckets| && e in buckets[b] && x.wanted(e) ==> x.len(e) <= cap
  }

  ghost predicate AllDistinct(buckets: seq<seq<ConnId>>) {
    forall b :: 0 <= b < |buckets| ==> Distinct(buckets[b])
  }

  /** A pass that is past its cursor, over live items. */
  lemma {:induction false} WalkFresh(x: Request, s: Scan, last: Option<ConnId>, chain: seq<ConnId>)
    requires !s.full && s.cursor.None?
    ensures var r := Walk(x, e => true, s, last, chain);
            var rest := Rest(x, s.room, chain);
            && r.sent == s.sent + Fits(x, s.room, chain)
            && r.full == (rest != []) && r.cursor == (if rest == [] then None else Some(rest[0]))
            && (Fits(x, s.room, chain) == [] && rest == [] ==> r.room == s.room)
    decreases |chain|
  {
    if chain != [] {
      var s' := Look(x, e => true, s, last, chain[0]);
      if !s'.full {
        WalkFresh(x, s', last, chain[1..]);
      }
    }
  }

  lemma {:induction false} WalkResumes(x: Request, s: Scan, l: ConnId, chain: seq<ConnId>)
    requires !s.full && s.cursor == Some(l) && l in chain && x.wanted(l)
    ensures Walk(x, e => true, s, Some(l), chain) == Walk(x, e => true, s.(cursor := None), Some(l), From(chain, l))
    decreases |chain|
  {
    if chain[0] != l {
      assert Look(x, e => true, s, Some(l), chain[0]) == s;
      WalkResumes(x, s, l, chain[1..]);
    } else {
      assert Look(x, e => true, s, Some(l), l) == Look(x, e => true, s.(cursor := None), Some(l), l);
    }
  }

  /** One pass of a static table splits what was left of the chain into what is sent and what is then left. */
  lemma PassSplits(x: Request, s: Scan, last: Option<ConnId>, chain: seq<ConnId>)
    requires !s.full && Distinct(chain)
    requires s.cursor.Some? ==> s.cursor == last && s.cursor.value in chain && x.wanted(s.cursor.value)
    ensures var r := Walk(x, e => true, s, last, chain);
            var part := Left(chain, s.cursor);
            && r.sent == s.sent + Fits(x, s.room, part)
            && (r.full ==> r.cursor.Some? && r.cursor.value in chain && x.wanted(r.cursor.value)
                           && Sel(x, part) == Fits(x, s.room, part) + Sel(x, Left(chain, r.cursor)))
            && (!r.full ==> r.cursor.None? && Sel(x, part) == Fits(x, s.room, part))
            && (Fits(x, s.room, part) == [] && !r.full ==> r.room == s.room)
            && r.full == (Rest(x, s.room, part) != [])
  {
    var part := Left(chain, s.cursor);
    if s.cursor.Some? {
      FromFacts(chain, s.cursor.value);
      WalkResumes(x, s, s.cursor.value, chain);
    } else {
      assert Suffix(chain, chain);
    }
    WalkFresh(x, s.(cursor := None), last, part);
    FitsAndRest(x, s.room, part);
    var rest := Rest(x, s.room, part);
    SuffixTrans(rest, part, chain);
    SuffixFacts(rest, chain);
    if rest != [] {
      FromSuffix(rest, chain);
    }
  }

  /** What the loop sends and what it leaves make up what was left; it sends nothing only if nothing was left. */
  lemma {:induction false} LoopSplits(x: Request, buckets: seq<seq<ConnId>>, n: nat, bucket: nat, s: Scan,
                                      last: Option<ConnId>, cap: nat)
    requires !s.full && AllDistinct(buckets) && AllFit(x, buckets, cap)
    requires Placed(x, buckets, bucket, s.cursor) && (s.cursor.Some? ==> s.cursor == last)
    ensures var (b, r) := Loop(x, |buckets|, Static(buckets), n, bucket, s, last);
            && s.sent <= r.sent
            && r.sent + Pending(x, buckets, b, r.cursor) == s.sent + Pending(x, buckets, bucket, s.cursor)
            && Placed(x, buckets, b, r.cursor)
            && (s.room == cap && r.sent == s.sent ==> Pending(x, buckets, b, r.cursor) == [])
    decreases |buckets| - bucket
  {
    if bucket < |buckets| {
      var r := PassOnce(x, buckets, n, bucket, s, last, cap);
      if !r.full {
        hide Walk, Sel, From;
        LoopSplits(x, buckets, n + 1, bucket + 1, r, last, cap);
        assert Pending(x, buckets, bucket + 1, None) == SelFrom(x, buckets, bucket + 1);
      }
    }
  }

  /** One turn of the loop on a static table. */
  lemma PassOnce(x: Request, buckets: seq<seq<ConnId>>, n: nat, bucket: nat, s: Scan, last: Option<ConnId>, cap: nat)
    returns (r: Scan)
    requires !s.full && bucket < |buckets| && AllDistinct(buckets) && AllFit(x, buckets, cap)
    requires Placed(x, buckets, bucket, s.cursor) && (s.cursor.Some? ==> s.cursor == last)
    ensures Loop(x, |buckets|, Static(buckets), n, bucket, s, last)
         == if r.full then (bucket, r) else Loop(x, |buckets|, Static(buckets), n + 1, bucket + 1, r, last)
    ensures s.sent <= r.sent && (!r.full ==> r.cursor.None?) && Placed(x, buckets, bucket, r.cursor)
    ensures r.full ==> r.sent + Pending(x, buckets, bucket, r.cursor) == s.sent + Pending(x, buckets, bucket, s.cursor)
    ensures !r.full ==> r.sent + SelFrom(x, buckets, bucket + 1) == s.sent + Pending(x, buckets, bucket, s.cursor)
    ensures s.room == cap && r.sent == s.sent ==> r.room == cap && !r.full
  {
    var chain := buckets[bucket];
    r := Walk(x, e => true, s, last, chain);
    PassSplits(x, s, last, chain);
    PassAtLeastOne(x, s, chain, cap);
    LoopTurn(x, buckets, n, bucket, s, last);
    var fits, g := Fits(x, s.room, Left(chain, s.cursor)), SelFrom(x, buckets, bucket + 1);
    Regroup(s.sent, fits, Sel(x, Left(chain, r.cursor)), g);
    hide Walk, Sel, From, Fits, Rest, Loop, SelFrom, Left;
    assert r.sent == s.sent + fits;
  }

  lemma Regroup(a: seq<ConnId>, f: seq<ConnId>, r: seq<ConnId>, g: seq<ConnId>)
    ensures (a + f) + (r + g) == a + ((f + r) + g) && (a + f) + g == a + (f + g)
  {
  }

  lemma LoopTurn(x: Request, buckets: seq<seq<ConnId>>, n: nat, bucket: nat, s: Scan, last: Option<ConnId>)
    requires !s.full && bucket < |buckets|
    requires var r := Walk(x, e => true, s, last, buckets[bucket]); r.full || r.cursor.None?
    ensures var r := Walk(x, e => true, s, last, buckets[bucket]);
            Loop(x, |buckets|, Static(buckets), n, bucket, s, last) ==
            if r.full then (bucket, r) else Loop(x, |buckets|, Static(buckets), n + 1, bucket + 1, r, last)
  {
    var p := Static(buckets)(n, bucket);
    assert p.chain == buckets[bucket];
    WalkLive(x, p.live, s, last, p.chain);
  }

  lemma PassAtLeastOne(x: Request, s: Scan, chain: seq<ConnId>, cap: nat)
    requires forall e :: e in chain && x.wanted(e) ==> x.len(e) <= cap
    ensures var part := Left(chain, s.cursor);
            s.room == cap && Fits(x, s.room, part) == [] ==> Rest(x, s.room, part) == []
  {
    var part := Left(chain, s.cursor);
    if s.room == cap {
      if s.cursor.Some? {
        FromFacts(chain, s.cursor.value);
        SuffixFacts(part, chain);
      }
      FitsSome(x, cap, part);
    }
  }

  /** Two ways of saying that every item is live. */
  lemma {:induction false} WalkLive(x: Request, live: ConnId -> bool, s: Scan, last: Option<ConnId>, chain: seq<ConnId>)
    requires forall e :: live(e)
    ensures Walk(x, live, s, last, chain) == Walk(x, e => true, s, last, chain)
    decreases |chain|
  {
    if chain != [] {
      assert Look(x, live, s, last, chain[0]) == Look(x, e => true, s, last, chain[0]);
      WalkLive(x, live, Look(x, live, s, last, chain[0]), last, chain[1..]);
    }
  }

  function CallsStatic(x: Request, buckets: seq<seq<ConnId>>, d: Dump, caps: seq<nat>): Dump
    decreases |caps|
  {
    if caps == [] then d
    else CallsStatic(x, buckets, Call(x, |buckets|, Static(buckets), d, caps[0]), caps[1..])
  }

  /**
    Exactly once: on a static table of live expectations, with one call more than there are items to send, all are
    sent in order.
   */
  lemma {:induction false} ExactlyOnce(x: Request, buckets: seq<seq<ConnId>>, d: Dump, caps: seq<nat>)
    requires AllDistinct(buckets) && Placed(x, buckets, d.bucket, d.cursor)
    requires forall i :: 0 <= i < |caps| ==> AllFit(x, buckets, caps[i])
    ensures var t := CallsStatic(x, buckets, d, caps);
            && t.sent + Pending(x, buckets, t.bucket, t.cursor) == d.sent + Pending(x, buckets, d.bucket, d.cursor)
            && (|caps| > |Pending(x, buckets, d.bucket, d.cursor)| ==>
                  t.sent == d.sent + Pending(x, buckets, d.bucket, d.cursor))
    decreases |caps|
  {
    if caps != [] {
      var s := Scan(d.cursor, [], d.sent, caps[0], false);
      LoopSplits(x, buckets, 0, d.bucket, s, d.cursor, caps[0]);
      var t := Call(x, |buckets|, Static(buckets), d, caps[0]);
      ExactlyOnce(x, buckets, t, caps[1..]);
      if Pending(x, buckets, t.bucket, t.cursor) == [] {
        var u := CallsStatic(x, buckets, t, caps[1..]);
        assert u.sent + Pending(x, buckets, u.bucket, u.cursor) == t.sent;
        CallsGrow(x, buckets, t, caps[1..]);
      }
    }
  }

  lemma {:induction false} CallsGrow(x: Request, buckets: seq<seq<ConnId>>, d: Dump, caps: seq<nat>)
    requires AllDistinct(buckets) && Placed(x, buckets, d.bucket, d.cursor)
    requires forall i :: 0 <= i < |caps| ==> AllFit(x, buckets, caps[i])
    ensures d.sent <= CallsStatic(x, buckets, d, caps).sent
    decreases |caps|
  {
    if caps != [] {
      LoopSplits(x, buckets, 0, d.bucket, Scan(d.cursor, [], d.sent, caps[0], false), d.cursor, caps[0]);
      CallsGrow(x, buckets, Call(x, |buckets|, Static(buckets), d, caps[0]), caps[1..]);
    }
  }

  // ---------------------------------------------------------------- the callbacks as written

  class Callback {
    var bucket: nat
    var cursor: Option<ConnId>
    var sent: seq<ConnId>
    var gets: seq<ConnId>
    var puts: seq<ConnId>

    function View(): Dump
      reads this
    {
      Dump(bucket, cursor, sent, gets, puts)
    }

    constructor ()
      ensures View() == Dump(0, None, [], [], [])
    {
      bucket, cursor, sent, gets, puts := 0, None, [], [], [];
    }

    /** What a pass does with one expectation. */
    method LookAt(x: Request, live: ConnId -> bool, last: Option<ConnId>, e: ConnId, room: nat, ghost base: seq<ConnId>,
                  ghost s: Scan)
      returns (room': nat, full: bool)
      requires s == Scan(cursor, s.taken, sent, room, false) && gets == base + s.taken
      modifies this`cursor, this`sent, this`gets
      ensures var r := Look(x, live, s, last, e);
              r == Scan(cursor, r.taken, sent, room', full) && gets == base + r.taken
    {
      room', full := room, false;
      if !x.wanted(e) {
        return;
      }
      if cursor.Some? {
        if Some(e) != last {
          return;
        }
        cursor := None;
      }
      var len := x.len(e);
      if len <= room {
        sent, room' := sent + [e], room - len;
      } else {
        if !live(e) {
          return;
        }
        gets := gets + [e];
        cursor := Some(e);
        full := true;
      }
    }

    /** One pass over the chain it sees. */
    method WalkChain(x: Request, p: Pass, last: Option<ConnId>, room: nat, ghost base: seq<ConnId>, ghost s: Scan)
      returns (room': nat, full: bool)
      requires s == Scan(cursor, s.taken, sent, room, false) && gets == base + s.taken
      modifies this`cursor, this`sent, this`gets
      ensures var r := Walk(x, p.live, s, last, p.chain);
              r == Scan(cursor, r.taken, sent, room', full) && gets == base + r.taken
    {
      hide Look;
      ghost var t := s;
      room', full := room, false;
      var j := 0;
      assert p.chain[0..] == p.chain;
      while j < |p.chain| && !full
        invariant 0 <= j <= |p.chain|
        invariant t == Scan(cursor, t.taken, sent, room', full) && gets == base + t.taken
        invariant (if full then t else Walk(x, p.live, t, last, p.chain[j..])) == Walk(x, p.live, s, last, p.chain)
      {
        assert p.chain[j..][0] == p.chain[j] && p.chain[j..][1..] == p.chain[j + 1..];
        room', full := LookAt(x, p.live, last, p.chain[j], room', base, t);
        t := Look(x, p.live, t, last, p.chain[j]);
        j := j + 1;
      }
    }

    /** ctnetlink_exp_dump_table. */
    method DumpTable(x: Request, hsize: nat, passes: Passes, cap: nat)
      modifies this
      ensures View() == Call(x, hsize, passes, old(View()), cap)
    {
      hide Walk, Loop;
      var last, room, n, full := cursor, cap, 0, false;
      ghost var s0 := Scan(cursor, [], sent, cap, false);
      ghost var s := s0;
      while bucket < hsize && !full
        invariant s == Scan(cursor, s.taken, sent, room, full) && gets == old(gets) + s.taken && puts == old(puts)
        invariant (if full then (bucket, s) else Loop(x, hsize, passes, n, bucket, s, last))
               == Loop(x, hsize, passes, 0, old(bucket), s0, last)
        decreases if full then 0 else 1, hsize - bucket, if cursor.Some? then 1 else 0
      {
        var p := passes(n, bucket);
        LoopUnrolls(x, hsize, passes, n, bucket, s, last);
        WalkRefs(x, p.live, s, last, p.chain);
        room, full := WalkChain(x, p, last, room, old(gets), s);
        s := Walk(x, p.live, s, last, p.chain);
        n := n + 1;
        if !full {
          if cursor.Some? {
            cursor, s := None, s.(cursor := None);
          } else {
            bucket := bucket + 1;
          }
        }
      }
      if !full {
        LoopEnds(x, hsize, passes, n, bucket, s, last);
      }
      if last.Some? {
        puts := puts + [last.value];
      }
    }

    /**
      ctnetlink_exp_ct_dump_table walks the one list of a connection and keeps a flag where the other keeps a
      bucket number; it does what the table dump does on a table of one bucket.
     */
    method DumpOfConnection(x: Request, passes: Passes, cap: nat)
      requires RefInv(1, View()) && bucket <= 1
      modifies this
      ensures View() == Call(x, 1, passes, old(View()), cap) && bucket <= 1
    {
      hide Walk, RefInv;
      if bucket != 0 {
        NoCursor(View());
        return;
      }
      var last, room, n, full := cursor, cap, 0, false;
      var again := true;
      ghost var s0 := Scan(cursor, [], sent, cap, false);
      ghost var s := s0;
      while again
        invariant bucket == 0 && puts == old(puts) && (full ==> !again)
        invariant s == Scan(cursor, s.taken, sent, room, full) && gets == old(gets) + s.taken
        invariant (if again then Loop(x, 1, passes, n, 0, s, last) else (if full then 0 else 1, s))
               == Loop(x, 1, passes, 0, 0, s0, last)
        decreases if again then 1 else 0, if cursor.Some? then 1 else 0
      {
        var p := passes(n, 0);
        WalkRefs(x, p.live, s, last, p.chain);
        room, full := WalkChain(x, p, last, room, old(gets), s);
        s := Walk(x, p.live, s, last, p.chain);
        n := n + 1;
        if !full && cursor.Some? {
          cursor, s := None, s.(cursor := None);
        } else {
          again := false;
        }
      }
      if !full {
        bucket := 1;
      }
      if last.Some? {
        puts := puts + [last.value];
      }
    }
  }

  lemma NoCursor(d: Dump)
    requires RefInv(1, d) && d.bucket >= 1
    ensures d.cursor.None?
  {
  }
}
