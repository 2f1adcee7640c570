/**
  Exactly once. On a table that only the dump itself touches (it kills expired
  entries as it goes), the concatenation of what all calls send, whatever the
  sizes of their buffers, is the list of selected entries in bucket order.
 */
module DumpOnce {
  import opened Conntrack
  import opened Chains
  import opened TableDump
  import opened DumpScan
  import opened DumpRuns
  import opened DumpCoverage

  /** The one-pass list of the entries to send, from bucket `b` to the last. */
  function SelFrom(q: Query, es: Entries, buckets: seq<seq<Node>>, b: nat): seq<ConnId>
    decreases |buckets| - b
  {
    if b >= |buckets| then [] else Sel(q, es, buckets[b]) + SelFrom(q, es, buckets, b + 1)
  }

  /** The one-pass list of all entries to send. */
  function Everything(q: Query, w: World): seq<ConnId> {
    SelFrom(q, w.entries, w.buckets, 0)
  }

  /** What is left of a chain for a dump with the given cursor. */
  function Left(q: Query, es: Entries, chain: seq<Node>, cursor: Option<ConnId>): seq<Node> {
    match cursor
    case None => chain
    case Some(l) => var f := From(q, es, chain, l); if f == [] then chain else f
  }

  /** What is left to send. */
  function Pending(q: Query, w: World, d: Dump): seq<ConnId> {
    if d.bucket >= |w.buckets| then []
    else Sel(q, w.entries, Left(q, w.entries, w.buckets[d.bucket], d.cursor))
         + SelFrom(q, w.entries, w.buckets, d.bucket + 1)
  }

  /** No node is linked twice. */
  ghost predicate Unique(buckets: seq<seq<Node>>) {
    && (forall b :: 0 <= b < |buckets| ==> Distinct(buckets[b]))
    && (forall b, b', n :: 0 <= b < b' < |buckets| && n in buckets[b] ==> n !in buckets[b'])
  }

  // ---------------------------------------------------------------- killing an expired entry changes nothing to send

  lemma {:induction false} WithoutSel(q: Query, es: Entries, chain: seq<Node>, c: ConnId, l: ConnId)
    requires es(c).expired
    ensures Sel(q, es, Without(chain, c)) == Sel(q, es, chain)
    ensures From(q, es, Without(chain, c), l) == Without(From(q, es, chain, l), c)
    decreases |chain|
  {
    if chain != [] {
      WithoutSel(q, es, chain[1..], c, l);
      if chain[0].ct == c {
        assert KindOf(q, es, chain[0]).Expired?;
        assert Without(chain, c) == Without(chain[1..], c);
      } else {
        assert Without(chain, c) == [chain[0]] + Without(chain[1..], c);
        assert Without(chain, c)[1..] == Without(chain[1..], c);
      }
    }
  }

  lemma {:induction false} WithoutSelFrom(q: Query, w: World, c: ConnId, b: nat)
    requires w.entries(c).expired
    ensures SelFrom(q, w.entries, Kill(w, c).buckets, b) == SelFrom(q, w.entries, w.buckets, b)
    decreases |w.buckets| - b
  {
    if b < |w.buckets| {
      WithoutSel(q, w.entries, w.buckets[b], c, c);
      WithoutSelFrom(q, w, c, b + 1);
    }
  }

  lemma {:induction false} FromEligible(q: Query, es: Entries, chain: seq<Node>, l: ConnId)
    ensures var f := From(q, es, chain, l); f != [] ==> f[0].ct == l && Eligible(q, es, f[0])
    decreases |chain|
  {
    if chain != [] && !(chain[0].ct == l && Eligible(q, es, chain[0])) {
      FromEligible(q, es, chain[1..], l);
    }
  }

  /** What a cursor on a live entry leaves is the same after an expired entry was killed. */
  lemma WithoutLeft(q: Query, es: Entries, chain: seq<Node>, c: ConnId, cursor: Option<ConnId>)
    requires es(c).expired
    ensures Sel(q, es, Left(q, es, Without(chain, c), cursor)) == Sel(q, es, Left(q, es, chain, cursor))
    ensures cursor.Some? && From(q, es, chain, cursor.value) != [] ==>
              From(q, es, Without(chain, c), cursor.value) != []
  {
    var l := if cursor.Some? then cursor.value else c;
    WithoutSel(q, es, chain, c, l);
    FromEligible(q, es, chain, l);
    WithoutSel(q, es, From(q, es, chain, l), c, l);
  }

  lemma KillUnique(w: World, c: ConnId)
    requires Unique(w.buckets)
    ensures var k := Kill(w, c).buckets;
            && Unique(k)
            && forall b, n :: 0 <= b < |k| && n in k[b] ==> n in w.buckets[b]
  {
    var k := Kill(w, c).buckets;
    forall b | 0 <= b < |k|
      ensures Distinct(k[b]) && forall n :: n in k[b] ==> n in w.buckets[b]
    {
      WithoutKeepsOrder(w.buckets[b], c, Node(c, Original), Node(c, Original));
    }
  }

  // ---------------------------------------------------------------- the invariant of undisturbed calls

  /** The cursor, when set, can be found. */
  predicate Findable(q: Query, s: Sys) {
    s.d.cursor.Some? ==>
      s.d.bucket < |s.w.buckets| && From(q, s.w.entries, s.w.buckets[s.d.bucket], s.d.cursor.value) != []
  }

  /** Once the walk is past the entry it resumed from, it does not meet that entry again. */
  ghost predicate PastLast(s: Sys) {
    match s.d.phase
    case Walking =>
      if s.d.cursor.Some? then s.d.cursor == s.d.last
      else s.d.last.Some? ==>
        forall b :: s.d.bucket <= b < |s.w.buckets| ==> Node(s.d.last.value, Original) !in s.w.buckets[b]
    case Closing => s.d.cursor.Some? ==> s.d.cursor != s.d.last
    case _ => true
  }

  ghost predicate OnceInv(q: Query, s: Sys) {
    Unique(s.w.buckets) && Findable(q, s) && PastLast(s)
  }

  /** While the cursor is set nothing has been sent in this call, so there is room for the entry under it. */
  predicate RoomForCursor(s: Sys, cap: nat) {
    s.d.phase.Walking? && s.d.cursor.Some? ==> s.d.room == cap
  }

  /** All that was sent and is left to send. */
  function Account(q: Query, s: Sys): seq<ConnId> {
    s.d.sent + Pending(q, s.w, s.d)
  }

  /** Only unlinking happened, so what fitted an empty buffer still does. */
  ghost predicate NoNewNodes(s: Sys, t: Sys) {
    && t.w.entries == s.w.entries && |t.w.buckets| == |s.w.buckets|
    && (forall b, n :: 0 <= b < |t.w.buckets| && n in t.w.buckets[b] ==> n in s.w.buckets[b])
  }

  lemma ReapOnce(q: Query, s: Sys)
    requires OnceInv(q, s) && s.d.evict != []
    ensures var t := ReapOne(s); OnceInv(q, t) && NoNewNodes(s, t) && Account(q, t) == Account(q, s)
  {
    var c := s.d.evict[|s.d.evict| - 1];
    var t := ReapOne(s);
    assert t.d == s.d.(evict := t.d.evict) && t.w.entries == s.w.entries;
    assert t.w.buckets == if ShouldGc(s.w, c) then Kill(s.w, c).buckets else s.w.buckets;
    hide Account, Findable, ReapOne, Kill;
    if ShouldGc(s.w, c) {
      KillUnique(s.w, c);
      KillAccount(q, s, c, t);
    } else {
      SameAccount(q, s, t);
    }
  }

  lemma SameAccount(q: Query, s: Sys, t: Sys)
    requires Findable(q, s)
    requires t.w.entries == s.w.entries && t.w.buckets == s.w.buckets && t.d == s.d.(evict := t.d.evict)
    ensures Account(q, t) == Account(q, s) && Findable(q, t)
  {
  }

  lemma KillAccount(q: Query, s: Sys, c: ConnId, t: Sys)
    requires s.w.entries(c).expired && Findable(q, s)
    requires t.w.entries == s.w.entries && t.w.buckets == Kill(s.w, c).buckets
    requires t.d == s.d.(evict := t.d.evict)
    ensures Account(q, t) == Account(q, s) && Findable(q, t)
  {
    hide Sel, SelFrom, Left, From, Without, InTable;
    WithoutSelFrom(q, s.w, c, s.d.bucket + 1);
    if s.d.bucket < |s.w.buckets| {
      WithoutLeft(q, s.w.entries, s.w.buckets[s.d.bucket], c, s.d.cursor);
    }
  }

  /** A pass over one chain splits what was left of it into what is sent and what is then left. */
  lemma PassSplits(q: Query, es: Entries, room: nat, part: seq<Node>, chain: seq<Node>)
    requires Distinct(chain) && Suffix(part, chain)
    ensures var rest := Rest(q, es, room, part);
            && Sel(q, es, part) == Fits(q, es, room, part) + Sel(q, es, rest)
            && (rest != [] ==> From(q, es, chain, rest[0].ct) == rest && rest[0] in part
                               && rest[0] == Node(rest[0].ct, Original) && Selected(q, es, rest[0]))
  {
    FitsAndRest(q, es, room, part);
    RestSuffix(q, es, room, part);
    OriginalRest(q, es, room, part);
    var rest := Rest(q, es, room, part);
    SuffixTrans(rest, part, chain);
    if rest != [] {
      FromSuffix(q, es, rest, chain);
      SuffixFacts(rest, part);
    }
  }

  lemma {:induction false} RestSuffix(q: Query, es: Entries, room: nat, chain: seq<Node>)
    ensures Suffix(Rest(q, es, room, chain), chain)
    decreases |chain|
  {
    if chain != [] {
      match KindOf(q, es, chain[0])
      case Wanted(len) => if len <= room { RestSuffix(q, es, room - len, chain[1..]); }
      case _ => RestSuffix(q, es, room, chain[1..]);
    }
  }

  lemma {:induction false} FromIsSuffix(q: Query, es: Entries, chain: seq<Node>, l: ConnId)
    ensures Suffix(From(q, es, chain, l), chain)
    decreases |chain|
  {
    if chain != [] && !(chain[0].ct == l && Eligible(q, es, chain[0])) {
      FromIsSuffix(q, es, chain[1..], l);
    }
  }

  /** Looking for the head of a suffix finds that suffix. */
  lemma {:induction false} FromSuffix(q: Query, es: Entries, a: seq<Node>, chain: seq<Node>)
    requires Distinct(chain) && Suffix(a, chain) && a != []
    requires Selected(q, es, a[0]) && a[0] == Node(a[0].ct, Original)
    ensures From(q, es, chain, a[0].ct) == a
    decreases |chain|
  {
    if a != chain {
      SuffixFacts(a, chain[1..]);
      assert chain[0] != a[0];
      FromSuffix(q, es, a, chain[1..]);
    }
  }

  /** A bucket visited without a cursor. */
  lemma VisitFresh(q: Query, s: Sys)
    requires OnceInv(q, s) && s.d.phase.Walking? && s.d.bucket < |s.w.buckets| && s.d.cursor.None?
    ensures var t := Visit(q, s); OnceInv(q, t) && Account(q, t) == Account(q, s)
  {
    var chain := s.w.buckets[s.d.bucket];
    ScanFresh(q, s.w, StartScan(s.d), s.d.last, chain);
    PassSplits(q, s.w.entries, s.d.room, chain, chain);
    VisitAccount(q, s, chain);
  }

  /** From the outcome of the pass to the account: what was left of the chain is sent or still left. */
  lemma VisitAccount(q: Query, s: Sys, part: seq<Node>)
    requires s.d.bucket < |s.w.buckets| && part == Left(q, s.w.entries, s.w.buckets[s.d.bucket], s.d.cursor)
    requires var chain := s.w.buckets[s.d.bucket];
             && Sends(q, s.w.entries, StartScan(s.d), part, ScanChain(q, s.w, StartScan(s.d), s.d.last, chain))
             && var rest := Rest(q, s.w.entries, s.d.room, part);
             && Sel(q, s.w.entries, part) == Fits(q, s.w.entries, s.d.room, part) + Sel(q, s.w.entries, rest)
             && (rest != [] ==> From(q, s.w.entries, chain, rest[0].ct) == rest)
    ensures Account(q, Visit(q, s)) == Account(q, s)
  {
    var es, b := s.w.entries, s.d.bucket;
    var fits, rest := Fits(q, es, s.d.room, part), Rest(q, es, s.d.room, part);
    var t := Visit(q, s);
    assert t.d.sent == s.d.sent + fits;
    if rest == [] {
      assert Pending(q, t.w, t.d) == SelFrom(q, es, s.w.buckets, b + 1);
    } else {
      assert Pending(q, t.w, t.d) == Sel(q, es, rest) + SelFrom(q, es, s.w.buckets, b + 1);
    }
  }

  /** If the entry under the cursor fits, the pass does not stop there. */
  lemma PassMovesOn(q: Query, es: Entries, room: nat, part: seq<Node>)
    requires part != [] && Distinct(part) && Eligible(q, es, part[0])
    requires Selected(q, es, part[0]) ==> KindOf(q, es, part[0]).len <= room
    ensures var rest := Rest(q, es, room, part); rest != [] ==> rest[0] != part[0]
  {
    var k := KindOf(q, es, part[0]);
    var room' := if k.Wanted? then room - k.len else room;
    RestSuffix(q, es, room', part[1..]);
    SuffixFacts(Rest(q, es, room, part), part[1..]);
  }

  /** A bucket visited with the cursor set, and room for the entry under it. */
  lemma VisitResumed(q: Query, s: Sys, cap: nat)
    requires OnceInv(q, s) && AllFit(q, s, cap) && RoomForCursor(s, cap)
    requires s.d.phase.Walking? && s.d.bucket < |s.w.buckets| && s.d.cursor.Some?
    ensures var t := Visit(q, s); OnceInv(q, t) && Account(q, t) == Account(q, s)
  {
    var es, chain, l := s.w.entries, s.w.buckets[s.d.bucket], s.d.cursor.value;
    var part := From(q, es, chain, l);
    FromIsLater(q, es, chain, l);
    FromEligible(q, es, chain, l);
    FromIsSuffix(q, es, chain, l);
    ScanResumes(q, s.w, StartScan(s.d), l, chain);
    assert part[0] in chain;
    PassSplits(q, es, s.d.room, part, chain);
    PassMovesOn(q, es, s.d.room, part);
    VisitAccount(q, s, part);
    assert Node(l, Original) in s.w.buckets[s.d.bucket];
  }

  /** One step of an undisturbed call neither loses nor repeats anything. */
  lemma AdvanceOnce(q: Query, s: Sys, cap: nat)
    requires OnceInv(q, s) && AllFit(q, s, cap) && RoomForCursor(s, cap) && InCall(s.d.phase)
    ensures var t := Advance(q, s);
            OnceInv(q, t) && Account(q, t) == Account(q, s) && NoNewNodes(s, t)
  {
    match s.d.phase
    case Walking =>
      if s.d.bucket < |s.w.buckets| {
        if s.d.evict != [] { ReapOnce(q, s); }
        else if s.d.cursor.None? { VisitFresh(q, s); }
        else { VisitResumed(q, s, cap); }
      }
    case Closing => CloseOnce(q, s);
    case Draining => if s.d.evict != [] { ReapOnce(q, s); }
  }

  lemma CloseOnce(q: Query, s: Sys)
    requires OnceInv(q, s) && s.d.phase.Closing?
    ensures var t := Close(s);
            OnceInv(q, t) && Account(q, t) == Account(q, s) && NoNewNodes(s, t)
  {
    var t := Close(s);
    assert t.w.buckets == s.w.buckets && t.w.entries == s.w.entries;
    assert t.d.cursor == s.d.cursor && t.d.bucket == s.d.bucket && t.d.sent == s.d.sent;
  }

  /** A call that has sent nothing goes on, and its cursor has the whole buffer. */
  lemma AdvanceQuiet(q: Query, s: Sys, sent: seq<ConnId>, cap: nat)
    requires OnceInv(q, s) && AllFit(q, s, cap) && RoomForCursor(s, cap) && Quiet(s, sent, cap) && InCall(s.d.phase)
    ensures var t := Advance(q, s); RoomForCursor(t, cap) && Quiet(t, sent, cap)
  {
    if s.d.phase.Walking? && s.d.bucket < |s.w.buckets| && s.d.evict == [] {
      VisitQuiet(q, s, sent, cap);
      VisitFindsCursor(q, s);
    }
  }

  lemma FitKept(q: Query, s: Sys, t: Sys, cap: nat)
    requires AllFit(q, s, cap) && NoNewNodes(s, t)
    ensures AllFit(q, t, cap)
  {
  }

  /** A cursor that can be found is found, so the restart edge is not taken. */
  lemma VisitFindsCursor(q: Query, s: Sys)
    requires OnceInv(q, s) && s.d.phase.Walking? && s.d.bucket < |s.w.buckets|
    ensures Visit(q, s).d.phase.Walking? ==> Visit(q, s).d.cursor.None?
  {
  }

  lemma {:induction false} CallOnce(q: Query, s: Sys, sent: seq<ConnId>, cap: nat)
    requires OnceInv(q, s) && AllFit(q, s, cap) && RoomForCursor(s, cap) && Quiet(s, sent, cap)
    requires InCall(s.d.phase) || s.d.phase.Idle?
    ensures var t := RunCall(q, s);
            && t.d.phase.Idle? && OnceInv(q, t) && Quiet(t, sent, cap)
            && Account(q, t) == Account(q, s) && NoNewNodes(s, t)
    decreases PhaseRank(s.d.phase), BucketsLeft(s), if s.d.cursor.Some? then 1 else 0, |s.d.evict|
  {
    if InCall(s.d.phase) {
      AdvanceOnce(q, s, cap);
      AdvanceQuiet(q, s, sent, cap);
      FitKept(q, s, Advance(q, s), cap);
      AdvanceDecreases(q, s);
      CallOnce(q, Advance(q, s), sent, cap);
    }
  }

  // ---------------------------------------------------------------- whole dumps

  /** A dump between two calls. */
  ghost predicate Between(q: Query, s: Sys) {
    s.d.phase.Idle? && OnceInv(q, s)
  }

  /** One call: what it adds and what it leaves make up what was left; it adds nothing only if nothing was left. */
  lemma CallSplits(q: Query, s: Sys, cap: nat)
    requires Between(q, s) && AllFit(q, s, cap)
    ensures var t := Call(q, s, cap);
            && Between(q, t) && NoNewNodes(s, t) && Account(q, t) == Account(q, s)
            && |t.d.sent| >= |s.d.sent|
            && (|t.d.sent| == |s.d.sent| ==> Pending(q, t.w, t.d) == [] && t.d.bucket >= |t.w.buckets|)
            && (Pending(q, s.w, s.d) == [] ==> t.d.sent == s.d.sent)
  {
    CallOnce(q, Begin(s, cap), s.d.sent, cap);
    var t := Call(q, s, cap);
    assert Account(q, Begin(s, cap)) == Account(q, s);
    if Pending(q, s.w, s.d) == [] {
      assert t.d.sent + Pending(q, t.w, t.d) == s.d.sent;
      assert Pending(q, t.w, t.d) == [];
    }
  }

  /**
    Exactly once, in order. For any sizes of the buffers, as long as each message fits an empty one, what the
    calls have sent is a prefix of the one-pass list and the rest is still pending; with one call more than
    there are entries, or as soon as one call sends nothing, it is the whole list.
   */
  lemma {:induction false} ExactlyOnce(q: Query, s: Sys, caps: seq<nat>)
    requires Between(q, s)
    requires forall i :: 0 <= i < |caps| ==> AllFit(q, s, caps[i])
    ensures var t := Calls(q, s, caps);
            && Between(q, t) && Account(q, t) == Account(q, s)
            && (|caps| > |Pending(q, s.w, s.d)| ==> t.d.sent == Account(q, s))
    decreases |caps|
  {
    if caps != [] {
      var t := Call(q, s, caps[0]);
      CallSplits(q, s, caps[0]);
      ExactlyOnce(q, t, caps[1..]);
      if |caps| > |Pending(q, s.w, s.d)| {
        assert |t.d.sent| + |Pending(q, t.w, t.d)| == |s.d.sent| + |Pending(q, s.w, s.d)|;
        if Pending(q, t.w, t.d) == [] {
          NothingLeft(q, t, caps[1..]);
        }
      }
    }
  }

  /** Once nothing is left, further calls send nothing. */
  lemma {:induction false} NothingLeft(q: Query, s: Sys, caps: seq<nat>)
    requires Between(q, s) && Pending(q, s.w, s.d) == []
    requires forall i :: 0 <= i < |caps| ==> AllFit(q, s, caps[i])
    ensures Calls(q, s, caps).d.sent == s.d.sent
    decreases |caps|
  {
    if caps != [] {
      CallSplits(q, s, caps[0]);
      NothingLeft(q, Call(q, s, caps[0]), caps[1..]);
    }
  }

  lemma {:induction false} SelCounts(q: Query, es: Entries, chain: seq<Node>, c: ConnId)
    requires Distinct(chain)
    ensures multiset(Sel(q, es, chain))[c]
         == (if Node(c, Original) in chain && Selected(q, es, Node(c, Original)) then 1 else 0)
    decreases |chain|
  {
    if chain != [] {
      SelCounts(q, es, chain[1..], c);
      assert chain == [chain[0]] + chain[1..];
    }
  }

  predicate LinkedFrom(buckets: seq<seq<Node>>, b: nat, n: Node) {
    exists i :: b <= i < |buckets| && n in buckets[i]
  }

  lemma LinkedFromStep(buckets: seq<seq<Node>>, b: nat, n: Node)
    requires b < |buckets|
    ensures LinkedFrom(buckets, b, n) <==> n in buckets[b] || LinkedFrom(buckets, b + 1, n)
  {
  }

  lemma {:induction false} SelFromCounts(q: Query, w: World, b: nat, c: ConnId)
    requires Unique(w.buckets)
    ensures multiset(SelFrom(q, w.entries, w.buckets, b))[c]
         == (if LinkedFrom(w.buckets, b, Node(c, Original)) && Selected(q, w.entries, Node(c, Original)) then 1 else 0)
    decreases |w.buckets| - b
  {
    if b < |w.buckets| {
      var n := Node(c, Original);
      SelCounts(q, w.entries, w.buckets[b], c);
      SelFromCounts(q, w, b + 1, c);
      LinkedFromStep(w.buckets, b, n);
      assert n in w.buckets[b] ==> !LinkedFrom(w.buckets, b + 1, n);
      var rest := SelFrom(q, w.entries, w.buckets, b + 1);
      var sel := Sel(q, w.entries, w.buckets[b]);
      assert multiset(sel + rest) == multiset(sel) + multiset(rest);
    }
  }

  /** A finished dump of an undisturbed table has sent each entry to be sent once, and nothing else. */
  lemma DumpSendsEachOnce(q: Query, w: World, caps: seq<nat>, c: ConnId)
    requires Unique(w.buckets)
    requires forall i :: 0 <= i < |caps| ==> AllFit(q, Start(w), caps[i])
    requires |caps| > |Everything(q, w)|
    ensures Calls(q, Start(w), caps).d.sent == Everything(q, w)
    ensures var e := w.entries(c);
            multiset(Calls(q, Start(w), caps).d.sent)[c] ==
            if Linked(w, Node(c, Original)) && !e.expired && e.net == q.net && q.matches(e.conn.info) then 1 else 0
  {
    assert Pending(q, w, Start(w).d) == Everything(q, w) by {
      if |w.buckets| == 0 {
        assert Everything(q, w) == [];
      }
    }
    ExactlyOnce(q, Start(w), caps);
    SelFromCounts(q, w, 0, c);
    assert LinkedFrom(w.buckets, 0, Node(c, Original)) <==> Linked(w, Node(c, Original));
  }
}
