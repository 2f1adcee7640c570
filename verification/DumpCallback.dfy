/**
  The dump callback as it is written: nested loops over an array of eviction
  slots, a bucket lock that is held exactly while a chain is walked, and fields
  of the netlink callback that are updated in place.
 */
module DumpCallback {
  import opened Conntrack
  import opened TableDump
  import opened DumpRuns
  import opened DumpRefs

  const CONNTRACK_LOCKS := 1024

  class Callback {
    const q: Query

    // the table and the reference counts
    var w: World

    // cb->args[0], cb->args[1], the buffer, and the bucket lock that is held, if any
    var bucket: nat
    var cursor: Option<ConnId>
    var sent: seq<ConnId>
    var room: nat
    var lock: Option<nat>

    /** The fields stand for this state of the dump, with these entries waiting to be killed. */
    ghost predicate Represents(s: Sys, evict: seq<ConnId>)
      reads this
    {
      && s.w == w && s.d.bucket == bucket && s.d.cursor == cursor && s.d.sent == sent && s.d.room == room
      && s.d.evict == evict
    }

    constructor (q: Query, w: World)
      ensures Represents(Start(w), []) && lock.None? && this.q == q
    {
      this.q, this.w := q, w;
      bucket, cursor, sent, room, lock := 0, None, [], 0, None;
    }

    /** nf_ct_put: never under a bucket lock. */
    method PutRef(c: ConnId)
      requires lock.None?
      modifies this`w
      ensures w == old(w).(use := old(w).use - multiset{c})
    {
      w := w.(use := w.use - multiset{c});
    }

    /** nf_ct_kill: never under a bucket lock. */
    method KillEntry(c: ConnId)
      requires lock.None?
      modifies this`w
      ensures w == Kill(old(w), c)
    {
      w := Kill(w, c);
    }

    method Reap(c: ConnId)
      requires lock.None?
      modifies this`w
      ensures w == ReapEntry(old(w), c)
    {
      if ShouldGc(w, c) {
        KillEntry(c);
      }
      PutRef(c);
    }

    /** Kill and put everything in the eviction array, from the highest slot down. */
    method Drain(evict: array<ConnId>, n: nat)
      requires lock.None? && n <= evict.Length
      modifies this`w
      ensures w == ReapEntries(old(w), evict[..n])
    {
      var i := n;
      while i > 0
        invariant 0 <= i <= n
        invariant ReapEntries(w, evict[..i]) == ReapEntries(old(w), evict[..n])
      {
        i := i - 1;
        assert evict[..i + 1] == evict[..i] + [evict[i]];
        Reap(evict[i]);
      }
    }

    /** What the walk does with one node; `took` is the reference it takes, if it takes one. */
    method Look(node: Node, evict: array<ConnId>, n: nat, last: Option<ConnId>, ghost w0: World, ghost s: Scan)
      returns (n': nat, full: bool, ghost took: multiset<ConnId>)
      requires n <= evict.Length == EVICT_MAX
      requires w == w0.(use := w0.use + s.taken)
      requires s == Scan(cursor, evict[..n], s.taken, sent, room, false)
      modifies this`w, this`cursor, this`sent, this`room, evict
      ensures n' <= evict.Length
      ensures ScanNode(q, w0, s, last, node) == Scan(cursor, evict[..n'], s.taken + took, sent, room, full)
      ensures w == old(w).(use := old(w).use + took)
    {
      n', full, took := n, false, multiset{};
      var ct, e := node.ct, w.entries(node.ct);
      if e.expired {
        if n < evict.Length && w.use[ct] > 0 {
          took := multiset{ct};
          w := w.(use := w.use + multiset{ct});
          evict[n] := ct;
          n' := n + 1;
          assert evict[..n'] == s.evict + [ct];
        }
        return;
      }
      if e.net != q.net {
        return;
      }
      if node.dir != Original {
        return;
      }
      if cursor.Some? {
        if Some(ct) != last {
          return;
        }
        cursor := None;
      }
      if !q.matches(e.conn.info) {
        return;
      }
      var len := q.len(e.conn);
      if len <= room {
        sent, room := sent + [ct], room - len;
      } else {
        took := multiset{ct};
        w := w.(use := w.use + multiset{ct});
        cursor := Some(ct);
        full := true;
      }
    }

    /** One pass over the chain of the current bucket, under its lock. */
    method Walk(evict: array<ConnId>, last: Option<ConnId>) returns (n: nat, full: bool)
      requires lock == Some(bucket % CONNTRACK_LOCKS) && bucket < |w.buckets| && evict.Length == EVICT_MAX
      modifies this`w, this`cursor, this`sent, this`room, evict
      ensures n <= evict.Length
      ensures var r := ScanChain(q, old(w), Scan(old(cursor), [], multiset{}, old(sent), old(room), false),
                                 last, old(w).buckets[bucket]);
              && cursor == r.cursor && evict[..n] == r.evict && sent == r.sent && room == r.room && full == r.full
              && w == old(w).(use := old(w).use + r.taken)
    {
      var chain := w.buckets[bucket];
      ghost var w0 := w;
      ghost var s, took := Scan(cursor, [], multiset{}, sent, room, false), multiset{};
      n, full := 0, false;
      var j := 0;
      assert chain[0..] == chain && evict[..0] == [];
      while j < |chain| && !full
        invariant 0 <= j <= |chain| && n <= evict.Length
        invariant s == Scan(cursor, evict[..n], s.taken, sent, room, full)
        invariant w == w0.(use := w0.use + s.taken)
        invariant (if full then s else ScanChain(q, w0, s, last, chain[j..]))
               == ScanChain(q, w0, Scan(old(cursor), [], multiset{}, old(sent), old(room), false), last, chain)
      {
        ScanStep(q, w0, s, last, chain, j);
        n, full, took := Look(chain[j], evict, n, last, w0, s);
        s := ScanNode(q, w0, s, last, chain[j]);
        j := j + 1;
      }
    }

    /** The body of the bucket loop: drain, lock, walk, unlock, and either stop, restart or go on. */
    method OneBucket(evict: array<ConnId>, n: nat, last: Option<ConnId>) returns (n': nat, full: bool, restart: bool)
      requires lock.None? && n <= evict.Length == EVICT_MAX && bucket < |w.buckets|
      modifies this, evict
      ensures lock.None? && n' <= evict.Length
      ensures |ReapEntries(old(w), old(evict[..n])).buckets| == |old(w).buckets|
      ensures var w1 := ReapEntries(old(w), old(evict[..n]));
              var r := ScanChain(q, w1, Scan(old(cursor), [], multiset{}, old(sent), old(room), false), last,
                                 w1.buckets[old(bucket)]);
              && w == w1.(use := w1.use + r.taken)
              && evict[..n'] == r.evict && sent == r.sent && room == r.room && full == r.full
              && restart == (!full && r.cursor.Some?)
              && cursor == (if restart then None else r.cursor)
              && bucket == old(bucket) + (if full || restart then 0 else 1)
    {
      ReapEntriesKeeps(w, evict[..n]);
      Drain(evict, n);
      lock := Some(bucket % CONNTRACK_LOCKS);
      n', full := Walk(evict, last);
      lock := None;
      restart := false;
      if !full {
        if cursor.Some? {
          cursor := None;
          restart := true;
        } else {
          bucket := bucket + 1;
        }
      }
    }

    /** The code after the `out` label. */
    method CloseUp(evict: array<ConnId>, n: nat, last: Option<ConnId>)
      requires lock.None? && n <= evict.Length
      modifies this`w, this`cursor
      ensures w == ReapEntries(old(w).(use := old(w).use - OptRef(last)), evict[..n])
      ensures cursor == if last.Some? && old(cursor) == last then None else old(cursor)
    {
      if last.Some? {
        if cursor == last {
          cursor := None;
        }
        PutRef(last.value);
      }
      assert w == old(w).(use := old(w).use - OptRef(last));
      Drain(evict, n);
    }

    /**
      ctnetlink_dump_table on an empty buffer of `cap` bytes, from the state `s0` of the dump between two calls.
      The lock of a bucket is held exactly while its chain is walked; nothing is killed or put under it, and
      none is held on return. The restart edge is taken at most once.
     */
    method DumpTable(cap: nat, ghost s0: Sys) returns (restarts: nat)
      requires lock.None? && Represents(s0, s0.d.evict) && s0.d.phase.Idle? && RefInv(s0)
      modifies this
      ensures lock.None? && restarts <= 1
      ensures var t := Call(q, s0, cap);
              Represents(t, []) && restarts == t.d.restarts && t.d.phase.Idle? && RefInv(t)
    {
      hide RefInv, RunCall, Visit, Drained, Close, ReapEntries, ScanChain;
      var last := cursor;
      var evict, n, full := new ConnId[EVICT_MAX], 0, false;
      restarts := 0;
      room := cap;
      ghost var s := Begin(s0, cap);
      assert evict[..0] == [];
      while bucket < |w.buckets| && !full
        invariant lock.None? && 0 <= n <= evict.Length && fresh(evict)
        invariant Represents(s, evict[..n])
        invariant s.d.last == last && s.d.full == full && s.d.restarts == restarts
        invariant s.d.phase == if full then Closing else Walking
        invariant RunCall(q, s) == Call(q, s0, cap)
        decreases if full then 0 else 1, |w.buckets| - bucket, if cursor.Some? then 1 else 0
      {
        BucketRuns(q, s);
        VisitEffect(q, s);
        var restart;
        n, full, restart := OneBucket(evict, n, last);
        s := Visit(q, Drained(s));
        restarts := restarts + if restart then 1 else 0;
      }
      if !full {
        ExhaustedRuns(q, s);
        s := s.(d := s.d.(phase := Closing));
      }
      CloseRuns(q, s);
      CloseEffect(s);
      CloseUp(evict, n, last);
      CallReturns(q, s0, cap);
    }

    /** ctnetlink_done. */
    method Done(ghost s0: Sys)
      requires lock.None? && Represents(s0, s0.d.evict) && s0.d.phase.Idle? && RefInv(s0)
      modifies this`cursor, this`w
      ensures Represents(Finish(s0), s0.d.evict) && Finish(s0).held == s0.stranded
    {
      if cursor.Some? {
        PutRef(cursor.value);
        cursor := None;
      }
    }
  }

  /** The effect on the table of emptying the eviction array. */
  function ReapEntries(w: World, evict: seq<ConnId>): World
    decreases |evict|
  {
    if evict == [] then w
    else ReapEntries(ReapEntry(w, evict[|evict| - 1]), evict[..|evict| - 1])
  }

  lemma {:induction false} ReapEntriesKeeps(w: World, evict: seq<ConnId>)
    ensures |ReapEntries(w, evict).buckets| == |w.buckets|
    decreases |evict|
  {
    if evict != [] {
      ReapEntriesKeeps(ReapEntry(w, evict[|evict| - 1]), evict[..|evict| - 1]);
    }
  }

  /** The state with the eviction array emptied. */
  function Drained(s: Sys): Sys {
    s.(w := ReapEntries(s.w, s.d.evict), d := s.d.(evict := []), held := s.held - multiset(s.d.evict))
  }

  lemma ScanStep(q: Query, w: World, s: Scan, last: Option<ConnId>, chain: seq<Node>, j: nat)
    requires j < |chain|
    ensures var t := ScanNode(q, w, s, last, chain[j]);
            ScanChain(q, w, s, last, chain[j..]) == if t.full then t else ScanChain(q, w, t, last, chain[j + 1..])
  {
    assert chain[j..][0] == chain[j] && chain[j..][1..] == chain[j + 1..];
  }

  /** What a visit changes, field by field. */
  lemma VisitEffect(q: Query, s: Sys)
    requires s.d.bucket < |Drained(s).w.buckets|
    ensures var w1 := ReapEntries(s.w, s.d.evict);
            var r := ScanChain(q, w1, Scan(s.d.cursor, [], multiset{}, s.d.sent, s.d.room, false), s.d.last,
                               w1.buckets[s.d.bucket]);
            var restart := !r.full && r.cursor.Some?;
            var t := Visit(q, Drained(s));
            && t.w == w1.(use := w1.use + r.taken)
            && t.d.evict == r.evict && t.d.sent == r.sent && t.d.room == r.room && t.d.full == r.full
            && t.d.cursor == (if restart then None else r.cursor)
            && t.d.bucket == s.d.bucket + (if r.full || restart then 0 else 1)
            && t.d.restarts == s.d.restarts + (if restart then 1 else 0)
  {
  }

  /** What closing a call changes, field by field. */
  lemma CloseEffect(s: Sys)
    ensures var t := Drained(Close(s));
            && t.w == ReapEntries(s.w.(use := s.w.use - OptRef(s.d.last)), s.d.evict)
            && t.d.cursor == (if s.d.last.Some? && s.d.cursor == s.d.last then None else s.d.cursor)
            && t.d == s.d.(phase := Draining, evict := [], cursor := t.d.cursor)
  {
    if s.d.last.None? {
      assert s.w.use - multiset{} == s.w.use;
    }
  }

  /** A state in which the next steps of the call empty the eviction array. */
  predicate Drainable(s: Sys) {
    s.d.phase.Draining? || (s.d.phase.Walking? && s.d.bucket < |s.w.buckets|)
  }

  lemma {:induction false} DrainRuns(q: Query, s: Sys)
    requires Drainable(s)
    ensures RunCall(q, Drained(s)) == RunCall(q, s)
    decreases |s.d.evict|
  {
    hide RunCall;
    if s.d.evict == [] {
      assert Drained(s) == s;
    } else {
      ReapRuns(q, s);
      DrainedStep(s);
      DrainRuns(q, ReapOne(s));
    }
  }

  lemma ReapRuns(q: Query, s: Sys)
    requires Drainable(s) && s.d.evict != []
    ensures RunCall(q, ReapOne(s)) == RunCall(q, s)
  {
    assert Advance(q, s) == ReapOne(s);
  }

  lemma DrainedStep(s: Sys)
    requires s.d.evict != []
    ensures Drained(ReapOne(s)) == Drained(s)
  {
    var n := |s.d.evict| - 1;
    assert s.d.evict == s.d.evict[..n] + [s.d.evict[n]];
    assert s.held - multiset{s.d.evict[n]} - multiset(s.d.evict[..n]) == s.held - multiset(s.d.evict);
  }

  /** The body of the bucket loop is a stretch of the run. */
  lemma BucketRuns(q: Query, s: Sys)
    requires s.d.phase.Walking? && s.d.bucket < |s.w.buckets|
    ensures |Drained(s).w.buckets| == |s.w.buckets| && Drained(s).d.bucket == s.d.bucket
    ensures var t := Visit(q, Drained(s));
            && RunCall(q, t) == RunCall(q, s)
            && t.d.last == s.d.last && t.d.phase == (if t.d.full then Closing else Walking)
            && |t.w.buckets| == |s.w.buckets| && t.d.bucket <= |s.w.buckets|
            && (t.d.full || t.d.bucket > s.d.bucket
                || (t.d.bucket == s.d.bucket && s.d.cursor.Some? && t.d.cursor.None?))
  {
    ReapEntriesKeeps(s.w, s.d.evict);
    var a := Drained(s);
    DrainRuns(q, s);
    assert Advance(q, a) == Visit(q, a);
    ScanKeepsCursor(q, a.w, StartScan(a.d), a.d.last, a.w.buckets[a.d.bucket]);
  }

  /** Leaving the loop because the buckets are exhausted. */
  lemma ExhaustedRuns(q: Query, s: Sys)
    requires s.d.phase.Walking? && s.d.bucket >= |s.w.buckets|
    ensures RunCall(q, s.(d := s.d.(phase := Closing))) == RunCall(q, s)
  {
    assert Advance(q, s) == s.(d := s.d.(phase := Closing));
  }

  /** The code after the `out` label is the rest of the run. */
  lemma CloseRuns(q: Query, s: Sys)
    requires s.d.phase.Closing?
    ensures var t := Drained(Close(s)); RunCall(q, s) == t.(d := t.d.(phase := Idle))
  {
    CloseSteps(q, s);
    hide RunCall, Close, ReapEntries;
    DrainRuns(q, Close(s));
    ReturnRuns(q, Drained(Close(s)));
  }

  lemma CloseSteps(q: Query, s: Sys)
    requires s.d.phase.Closing?
    ensures RunCall(q, Close(s)) == RunCall(q, s) && Close(s).d.phase.Draining?
  {
    assert Advance(q, s) == Close(s);
  }

  lemma ReturnRuns(q: Query, s: Sys)
    requires s.d.phase.Draining? && s.d.evict == []
    ensures RunCall(q, s) == s.(d := s.d.(phase := Idle))
  {
    assert Advance(q, s) == s.(d := s.d.(phase := Idle));
  }

  /** A call returns with its books in order. */
  lemma CallReturns(q: Query, s: Sys, cap: nat)
    requires RefInv(s) && s.d.phase.Idle?
    ensures var t := Call(q, s, cap); RefInv(t) && t.d.phase.Idle? && t.d.restarts <= 1
  {
    var t := CallKeeps(q, Begin(s, cap));
  }

  lemma {:induction false} CallKeeps(q: Query, s: Sys) returns (t: Sys)
    requires RefInv(s) && (InCall(s.d.phase) || s.d.phase.Idle?)
    ensures t == RunCall(q, s) && RefInv(t) && t.d.phase.Idle?
    decreases PhaseRank(s.d.phase), BucketsLeft(s), if s.d.cursor.Some? then 1 else 0, |s.d.evict|
  {
    hide RefInv;
    if InCall(s.d.phase) {
      TickKeeps(q, s);
      AdvanceDecreases(q, s);
      t := CallKeeps(q, Advance(q, s));
    } else {
      t := s;
    }
  }
}
