/**
  What one pass over one chain does, said without following the code: which
  entries it sends, where it stops, and which references it takes.
 */
module DumpScan {
  import opened Conntrack
  import opened TableDump

  /** The entries of a chain a dump is to send, in order. */
  function Sel(q: Query, es: Entries, chain: seq<Node>): seq<ConnId> {
    if chain == [] then []
    else (if Selected(q, es, chain[0]) then [chain[0].ct] else []) + Sel(q, es, chain[1..])
  }

  /** The part of a chain from the first eligible node of `l` on; empty if there is none. */
  function From(q: Query, es: Entries, chain: seq<Node>, l: ConnId): seq<Node> {
    if chain == [] then []
    else if chain[0].ct == l && Eligible(q, es, chain[0]) then chain
    else From(q, es, chain[1..], l)
  }

  /** The part of a chain from the first selected node that no longer fits on; empty if all fit. */
  function Rest(q: Query, es: Entries, room: nat, chain: seq<Node>): seq<Node>
    decreases |chain|
  {
    if chain == [] then []
    else match KindOf(q, es, chain[0])
      case Wanted(len) => if len <= room then Rest(q, es, room - len, chain[1..]) else chain
      case _ => Rest(q, es, room, chain[1..])
  }

  /** The entries that fit before that node. */
  function Fits(q: Query, es: Entries, room: nat, chain: seq<Node>): seq<ConnId>
    decreases |chain|
  {
    if chain == [] then []
    else match KindOf(q, es, chain[0])
      case Wanted(len) => if len <= room then [chain[0].ct] + Fits(q, es, room - len, chain[1..]) else []
      case _ => Fits(q, es, room, chain[1..])
  }

  /** The outcome of a pass that is past its cursor. */
  predicate Sends(q: Query, es: Entries, s: Scan, chain: seq<Node>, r: Scan) {
    var rest := Rest(q, es, s.room, chain);
    && r.sent == s.sent + Fits(q, es, s.room, chain)
    && r.full == (rest != [])
    && r.cursor == (if rest == [] then None else Some(rest[0].ct))
  }

  /**
    A pass without a cursor sends the selected entries up to the first one that does not fit, and stops
    there with the cursor on it.
   */
  lemma {:induction false} ScanFresh(q: Query, w: World, s: Scan, last: Option<ConnId>, chain: seq<Node>)
    requires !s.full && s.cursor.None?
    ensures Sends(q, w.entries, s, chain, ScanChain(q, w, s, last, chain))
    decreases |chain|
  {
    if chain != [] {
      var s' := ScanNode(q, w, s, last, chain[0]);
      if !s'.full {
        ScanFresh(q, w, s', last, chain[1..]);
      }
    }
  }

  /** A pass that looks for the cursor in vain sends nothing. */
  lemma {:induction false} ScanMisses(q: Query, w: World, s: Scan, l: ConnId, chain: seq<Node>)
    requires !s.full && s.cursor == Some(l)
    requires From(q, w.entries, chain, l) == []
    ensures var r := ScanChain(q, w, s, Some(l), chain);
            r.sent == s.sent && r.room == s.room && !r.full && r.cursor == s.cursor
    decreases |chain|
  {
    if chain != [] {
      ScanMisses(q, w, ScanNode(q, w, s, Some(l), chain[0]), l, chain[1..]);
    }
  }

  /** A pass that finds its cursor goes on from there as one without a cursor. */
  lemma {:induction false} ScanResumes(q: Query, w: World, s: Scan, l: ConnId, chain: seq<Node>)
    requires !s.full && s.cursor == Some(l)
    requires From(q, w.entries, chain, l) != []
    ensures Sends(q, w.entries, s, From(q, w.entries, chain, l), ScanChain(q, w, s, Some(l), chain))
    decreases |chain|
  {
    if chain[0].ct == l && Eligible(q, w.entries, chain[0]) {
      ScanIgnoresFoundCursor(q, w, s, l, chain);
      ScanFresh(q, w, s.(cursor := None), Some(l), chain);
    } else {
      ScanResumes(q, w, ScanNode(q, w, s, Some(l), chain[0]), l, chain[1..]);
    }
  }

  lemma ScanIgnoresFoundCursor(q: Query, w: World, s: Scan, l: ConnId, chain: seq<Node>)
    requires !s.full && s.cursor == Some(l)
    requires chain != [] && chain[0].ct == l && Eligible(q, w.entries, chain[0])
    ensures ScanChain(q, w, s, Some(l), chain) == ScanChain(q, w, s.(cursor := None), Some(l), chain)
  {
    assert ScanNode(q, w, s, Some(l), chain[0]) == ScanNode(q, w, s.(cursor := None), Some(l), chain[0]);
  }

  /** What fits and what is left make up all there is to send. */
  lemma {:induction false} FitsAndRest(q: Query, es: Entries, room: nat, chain: seq<Node>)
    ensures Sel(q, es, chain) == Fits(q, es, room, chain) + Sel(q, es, Rest(q, es, room, chain))
    ensures Rest(q, es, room, chain) != [] ==> Selected(q, es, Rest(q, es, room, chain)[0])
    decreases |chain|
  {
    if chain != [] {
      match KindOf(q, es, chain[0])
      case Wanted(len) => if len <= room { FitsAndRest(q, es, room - len, chain[1..]); }
      case _ => FitsAndRest(q, es, room, chain[1..]);
    }
  }

  /** The room left after a pass, and what it says about a pass that sent nothing. */
  lemma {:induction false} NothingFits(q: Query, w: World, s: Scan, last: Option<ConnId>, chain: seq<Node>)
    requires !s.full
    ensures var r := ScanChain(q, w, s, last, chain);
            s.sent <= r.sent && (r.sent == s.sent ==> r.room == s.room)
    decreases |chain|
  {
    if chain != [] {
      var s' := ScanNode(q, w, s, last, chain[0]);
      if !s'.full {
        NothingFits(q, w, s', last, chain[1..]);
      }
    }
  }

  /** A pass stops without having sent anything only at a message that the room it started with cannot hold. */
  lemma {:induction false} StopsWhenTooLong(q: Query, w: World, s: Scan, last: Option<ConnId>, chain: seq<Node>)
    requires !s.full
    requires forall n :: n in chain && Selected(q, w.entries, n) ==> KindOf(q, w.entries, n).len <= s.room
    ensures var r := ScanChain(q, w, s, last, chain);
            r.full ==> |r.sent| > |s.sent|
    decreases |chain|
  {
    if chain != [] {
      assert chain[0] in chain;
      var s' := ScanNode(q, w, s, last, chain[0]);
      if !s'.full {
        NothingFits(q, w, s', last, chain[1..]);
        if s'.sent == s.sent {
          StopsWhenTooLong(q, w, s', last, chain[1..]);
        }
      }
    }
  }

  lemma NodeRefs(q: Query, w: World, s: Scan, last: Option<ConnId>, n: Node)
    requires !s.full && |s.evict| <= EVICT_MAX
    ensures var r := ScanNode(q, w, s, last, n);
            && s.evict <= r.evict && |r.evict| <= EVICT_MAX
            && r.taken == s.taken + multiset(r.evict[|s.evict|..]) + (if r.full then OptRef(r.cursor) else multiset{})
            && (r.full ==> r.cursor.Some?)
  {
    var r := ScanNode(q, w, s, last, n);
    if |r.evict| > |s.evict| {
      assert r.evict[|s.evict|..] == [n.ct];
    } else {
      assert r.evict[|s.evict|..] == [];
    }
  }

  lemma SlicesAdd(a: seq<ConnId>, b: seq<ConnId>, c: seq<ConnId>)
    requires a <= b <= c
    ensures multiset(c[|a|..]) == multiset(b[|a|..]) + multiset(c[|b|..])
  {
    assert c[|a|..] == b[|a|..] + c[|b|..];
  }

  lemma BooksAdd(u: multiset<ConnId>, x: multiset<ConnId>, y: multiset<ConnId>, z: multiset<ConnId>)
    ensures (u + x + multiset{}) + y + z == u + (x + y) + z
  {
  }

  /** The references a pass takes: one for each entry it puts in the eviction array, and one for a new cursor. */
  lemma {:induction false} ScanRefs(q: Query, w: World, s: Scan, last: Option<ConnId>, chain: seq<Node>)
    requires !s.full && |s.evict| <= EVICT_MAX
    ensures var r := ScanChain(q, w, s, last, chain);
            && s.evict <= r.evict && |r.evict| <= EVICT_MAX
            && r.taken == s.taken + multiset(r.evict[|s.evict|..]) + (if r.full then OptRef(r.cursor) else multiset{})
            && (r.full ==> r.cursor.Some?)
    decreases |chain|
  {
    if chain == [] {
      assert s.evict[|s.evict|..] == [];
    } else {
      hide ScanNode, OptRef;
      NodeRefs(q, w, s, last, chain[0]);
      var s' := ScanNode(q, w, s, last, chain[0]);
      if !s'.full {
        ScanRefs(q, w, s', last, chain[1..]);
        var r := ScanChain(q, w, s', last, chain[1..]);
        SlicesAdd(s.evict, s'.evict, r.evict);
        BooksAdd(s.taken, multiset(s'.evict[|s.evict|..]), multiset(r.evict[|s'.evict|..]),
                 if r.full then OptRef(r.cursor) else multiset{});
      }
    }
  }
}
