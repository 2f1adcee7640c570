/**
  The dump of the dying list, which is walked under its lock. It has no
  restart edge: if the entry under the cursor has left the list, the call ends
  the dump.
 */
module DyingDump {
  import opened Conntrack
  import opened Chains
  import opened ListWalk

  /** The dump context, what was sent so far, and every reference taken and put so far. */
  datatype Ctx = Ctx(last: Option<ConnId>, done: bool, sent: seq<ConnId>, gets: seq<ConnId>, puts: seq<ConnId>)

  /** A walk in progress: the entry still looked for, and the context as it is being rebuilt. */
  datatype Walk = Walk(last: Option<ConnId>, cursor: Option<ConnId>, sent: seq<ConnId>, room: nat,
                       gets: seq<ConnId>, puts: seq<ConnId>)

  function OptRef(o: Option<ConnId>): seq<ConnId> {
    match o case None => [] case Some(c) => [c]
  }

  /** The body of the loop; a set cursor says that the walk stopped at this entry. */
  function Look(x: Request, live: ConnId -> bool, s: Walk, e: ConnId): Walk {
    if s.last.Some? && s.last != Some(e) then s
    else
      var put := s.(last := None, puts := s.puts + OptRef(s.last));
      if !x.wanted(e) then put
      else if x.len(e) <= s.room then put.(sent := s.sent + [e], room := s.room - x.len(e))
      else if !live(e) then put
      else put.(cursor := Some(e), gets := s.gets + [e])
  }

  function WalkList(x: Request, live: ConnId -> bool, s: Walk, list: seq<ConnId>): Walk
    decreases |list|
  {
    if list == [] then s
    else
      var s' := Look(x, live, s, list[0]);
      if s'.cursor.Some? then s' else WalkList(x, live, s', list[1..])
  }

  /** One call of ctnetlink_dump_dying. */
  function Call(x: Request, live: ConnId -> bool, list: seq<ConnId>, c: Ctx, cap: nat): Ctx {
    if c.done then c
    else
      var r := WalkList(x, live, Walk(c.last, None, c.sent, cap, c.gets, c.puts), list);
      if r.cursor.Some? then Ctx(r.cursor, false, r.sent, r.gets, r.puts)
      else Ctx(None, true, r.sent, r.gets, r.puts + OptRef(r.last))
  }

  /** ctnetlink_done_list. */
  function Done(c: Ctx): Ctx {
    c.(last := None, puts := c.puts + OptRef(c.last))
  }

  // ---------------------------------------------------------------- references

  /** The references taken and not put: one on the cursor, if it is set. */
  predicate RefInv(c: Ctx) {
    multiset(c.gets) == multiset(c.puts) + multiset(OptRef(c.last)) && (c.done ==> c.last.None?)
  }

  /** A walk takes a reference on the entry it stops at, and puts the one it resumed from, then or later. */
  lemma {:induction false} WalkRefs(x: Request, live: ConnId -> bool, s: Walk, list: seq<ConnId>)
    requires s.cursor.None?
    ensures var r := WalkList(x, live, s, list);
            && r.gets == s.gets + OptRef(r.cursor)
            && r.puts + OptRef(r.last) == s.puts + OptRef(s.last)
            && (r.cursor.Some? ==> r.last.None?)
    decreases |list|
  {
    if list != [] {
      var s' := Look(x, live, s, list[0]);
      assert s'.puts + OptRef(s'.last) == s.puts + OptRef(s.last);
      if s'.cursor.None? {
        WalkRefs(x, live, s', list[1..]);
      }
    }
  }

  lemma CallRefs(x: Request, live: ConnId -> bool, list: seq<ConnId>, c: Ctx, cap: nat)
    requires RefInv(c)
    ensures RefInv(Call(x, live, list, c, cap))
  {
    if !c.done {
      WalkRefs(x, live, Walk(c.last, None, c.sent, cap, c.gets, c.puts), list);
      var t := Call(x, live, list, c, cap);
      assert t.gets == c.gets + OptRef(t.last) && t.puts == c.puts + OptRef(c.last);
    }
  }

  /** What the list looks like, and which of its entries can be referenced, at the time of one call. */
  datatype View = View(list: seq<ConnId>, live: ConnId -> bool)

  function Calls(x: Request, c: Ctx, caps: seq<nat>, views: seq<View>): Ctx
    requires |caps| == |views|
    decreases |caps|
  {
    if caps == [] then c else Calls(x, Call(x, views[0].live, views[0].list, c, caps[0]), caps[1..], views[1..])
  }

  /** Unconditionally, one reference is held when the cursor is set, none otherwise, and none after the dump is done. */
  lemma {:induction false} CallsKeepRefs(x: Request, c: Ctx, caps: seq<nat>, views: seq<View>)
    requires |caps| == |views| && RefInv(c)
    ensures var t := Calls(x, c, caps, views); RefInv(t) && multiset(Done(t).gets) == multiset(Done(t).puts)
    decreases |caps|
  {
    if caps != [] {
      CallRefs(x, views[0].live, views[0].list, c, caps[0]);
      CallsKeepRefs(x, Call(x, views[0].live, views[0].list, c, caps[0]), caps[1..], views[1..]);
    }
  }

  // ---------------------------------------------------------------- what is sent

  function Left(list: seq<ConnId>, last: Option<ConnId>): seq<ConnId> {
    match last case None => list case Some(l) => From(list, l)
  }

  /** What is left to send of the list as it is now. */
  function Pending(x: Request, list: seq<ConnId>, c: Ctx): seq<ConnId> {
    if c.done then [] else Sel(x, Left(list, c.last))
  }

  lemma {:induction false} WalkFresh(x: Request, live: ConnId -> bool, s: Walk, list: seq<ConnId>)
    requires s.cursor.None? && s.last.None? && forall e :: e in list ==> live(e)
    ensures var r := WalkList(x, live, s, list);
            var rest := Rest(x, s.room, list);
            && r.sent == s.sent + Fits(x, s.room, list)
            && r.cursor == (if rest == [] then None else Some(rest[0]))
    decreases |list|
  {
    if list != [] {
      var s' := Look(x, live, s, list[0]);
      if s'.cursor.None? {
        WalkFresh(x, live, s', list[1..]);
      }
    }
  }

  lemma {:induction false} WalkResumes(x: Request, live: ConnId -> bool, s: Walk, list: seq<ConnId>)
    requires s.cursor.None? && s.last.Some? && x.wanted(s.last.value) && forall e :: e in list ==> live(e)
    ensures var r := WalkList(x, live, s, list);
            var part := From(list, s.last.value);
            var rest := Rest(x, s.room, part);
            && r.sent == s.sent + Fits(x, s.room, part)
            && r.cursor == (if rest == [] then None else Some(rest[0]))
    decreases |list|
  {
    if list != [] {
      if Some(list[0]) != s.last {
        WalkResumes(x, live, s, list[1..]);
      } else {
        var s' := Look(x, live, s, list[0]);
        if s'.cursor.None? {
          WalkFresh(x, live, s', list[1..]);
        }
      }
    }
  }

  /** One walk from the cursor on: it sends what fits and stops at the first entry that does not. */
  lemma WalkSends(x: Request, live: ConnId -> bool, list: seq<ConnId>, c: Ctx, cap: nat)
    requires !c.done && forall e :: e in list ==> live(e)
    requires c.last.Some? ==> x.wanted(c.last.value)
    ensures var t := Call(x, live, list, c, cap);
            var part := Left(list, c.last);
            var rest := Rest(x, cap, part);
            && t.sent == c.sent + Fits(x, cap, part)
            && t.last == (if rest == [] then None else Some(rest[0])) && t.done == (rest == [])
  {
    var s := Walk(c.last, None, c.sent, cap, c.gets, c.puts);
    if c.last.Some? {
      WalkResumes(x, live, s, list);
    } else {
      WalkFresh(x, live, s, list);
    }
  }

  lemma PartSplits(x: Request, list: seq<ConnId>, last: Option<ConnId>, cap: nat)
    requires Distinct(list)
    ensures var part := Left(list, last);
            var rest := Rest(x, cap, part);
            && Sel(x, part) == Fits(x, cap, part) + Sel(x, rest)
            && (rest != [] ==> From(list, rest[0]) == rest && x.wanted(rest[0]) && rest[0] in list)
    ensures forall e :: e in Left(list, last) ==> e in list
  {
    var part := Left(list, last);
    if last.Some? {
      FromFacts(list, last.value);
    } else {
      assert Suffix(list, list);
    }
    FitsAndRest(x, cap, part);
    var rest := Rest(x, cap, part);
    SuffixTrans(rest, part, list);
    SuffixFacts(rest, list);
    SuffixFacts(part, list);
    if rest != [] {
      FromSuffix(rest, list);
    }
  }

  /**
    One call on whatever the list is by then: it sends what fits of the part from the cursor on, and leaves
    the rest pending. If the entry under the cursor has left the list, that part is empty: the call sends
    nothing and ends the dump, whatever else is on the list.
   */
  lemma CallSplits(x: Request, live: ConnId -> bool, list: seq<ConnId>, c: Ctx, cap: nat)
    requires !c.done && Distinct(list) && forall e :: e in list ==> live(e)
    requires c.last.Some? ==> x.wanted(c.last.value)
    ensures var t := Call(x, live, list, c, cap);
            && c.sent <= t.sent
            && t.sent + Pending(x, list, t) == c.sent + Pending(x, list, c)
            && (t.last.Some? ==> x.wanted(t.last.value) && t.last.value in list)
            && (c.last.Some? && c.last.value !in list ==> t.done && t.sent == c.sent)
  {
    hide Fits, Rest, From, Sel, Distinct, Call;
    var t := Call(x, live, list, c, cap);
    var part := Left(list, c.last);
    var fits, rest := Fits(x, cap, part), Rest(x, cap, part);
    WalkSends(x, live, list, c, cap);
    PartSplits(x, list, c.last, cap);
    NothingToSend(x, cap);
    if c.last.Some? {
      FromFacts(list, c.last.value);
    }
    assert Pending(x, list, t) == Sel(x, rest) && Pending(x, list, c) == Sel(x, part);
    hide Pending, Left;
    Assoc(c.sent, fits, Sel(x, rest));
  }

  lemma NothingToSend(x: Request, room: nat)
    ensures Sel(x, []) == [] && Fits(x, room, []) == [] && Rest(x, room, []) == []
  {
  }

  /** If every message fits the buffer, a call that sends nothing has ended the dump. */
  lemma QuietCallEnds(x: Request, live: ConnId -> bool, list: seq<ConnId>, c: Ctx, cap: nat)
    requires !c.done && Distinct(list) && forall e :: e in list ==> live(e)
    requires c.last.Some? ==> x.wanted(c.last.value)
    requires forall e :: e in list && x.wanted(e) ==> x.len(e) <= cap
    ensures var t := Call(x, live, list, c, cap); |t.sent| == |c.sent| ==> t.done
  {
    WalkSends(x, live, list, c, cap);
    PartSplits(x, list, c.last, cap);
    FitsSome(x, cap, Left(list, c.last));
  }

  function CallsStatic(x: Request, list: seq<ConnId>, c: Ctx, caps: seq<nat>): Ctx
    decreases |caps|
  {
    if caps == [] then c else CallsStatic(x, list, Call(x, e => true, list, c, caps[0]), caps[1..])
  }

  /**
    Exactly once: a list that does not change is sent once, in order, over any sequence of buffers that can hold its
    messages.
   */
  lemma {:induction false} ExactlyOnce(x: Request, list: seq<ConnId>, c: Ctx, caps: seq<nat>)
    requires Distinct(list) && (c.last.Some? ==> x.wanted(c.last.value))
    requires forall i, e :: 0 <= i < |caps| && e in list && x.wanted(e) ==> x.len(e) <= caps[i]
    ensures var t := CallsStatic(x, list, c, caps);
            && t.sent + Pending(x, list, t) == c.sent + Pending(x, list, c)
            && (|caps| > |Pending(x, list, c)| ==> t.done && t.sent == c.sent + Pending(x, list, c))
    decreases |caps|
  {
    if caps != [] {
      var t := Call(x, e => true, list, c, caps[0]);
      if !c.done {
        CallSplits(x, e => true, list, c, caps[0]);
        QuietCallEnds(x, e => true, list, c, caps[0]);
        assert |t.sent| + |Pending(x, list, t)| == |c.sent| + |Pending(x, list, c)|;
      }
      ExactlyOnce(x, list, t, caps[1..]);
      if t.done {
        DoneStays(x, list, t, caps[1..]);
      }
    }
  }

  lemma {:induction false} DoneStays(x: Request, list: seq<ConnId>, c: Ctx, caps: seq<nat>)
    requires c.done
    ensures CallsStatic(x, list, c, caps) == c
    decreases |caps|
  {
    if caps != [] {
      DoneStays(x, list, c, caps[1..]);
    }
  }

  /**
    Between two calls the list may have changed. With a buffer large enough for every message, the next call
    sends something if and only if the entry under the cursor is still listed: otherwise the rest is lost.
   */
  lemma ResumesIffListed(x: Request, live: ConnId -> bool, list: seq<ConnId>, c: Ctx, cap: nat)
    requires !c.done && c.last.Some? && x.wanted(c.last.value) && Distinct(list)
    requires forall e :: e in list ==> live(e)
    requires forall e :: e in list && x.wanted(e) ==> x.len(e) <= cap
    ensures c.last.value in list <==> Call(x, live, list, c, cap).sent != c.sent
  {
    FromFacts(list, c.last.value);
    WalkSends(x, live, list, c, cap);
    PartSplits(x, list, c.last, cap);
    FitsSome(x, cap, Left(list, c.last));
  }

  // ---------------------------------------------------------------- the callback as written

  class Callback {
    var last: Option<ConnId>
    var done: bool
    var sent: seq<ConnId>
    var gets: seq<ConnId>
    var puts: seq<ConnId>

    function View(): Ctx
      reads this
    {
      Ctx(last, done, sent, gets, puts)
    }

    /** nf_ct_put, which accepts no entry at all. */
    method PutRef(c: Option<ConnId>)
      modifies this`puts
      ensures puts == old(puts) + OptRef(c)
    {
      if c.Some? {
        puts := puts + [c.value];
      }
    }

    /** ctnetlink_dump_one_entry, called with no cursor set; a negative result leaves the entry as the new cursor. */
    method DumpOneEntry(x: Request, live: ConnId -> bool, e: ConnId, room: nat) returns (failed: bool, room': nat)
      requires last.None?
      modifies this`last, this`sent, this`gets
      ensures var stop := x.wanted(e) && x.len(e) > room && live(e);
              && failed == stop && last == (if stop then Some(e) else None)
              && gets == old(gets) + OptRef(last)
      ensures if x.wanted(e) && x.len(e) <= room then sent == old(sent) + [e] && room' == room - x.len(e)
              else sent == old(sent) && room' == room
    {
      failed, room' := false, room;
      if !x.wanted(e) {
        return;
      }
      var len := x.len(e);
      if len <= room {
        sent, room' := sent + [e], room - len;
      } else {
        if !live(e) {
          return;
        }
        gets := gets + [e];
        last := Some(e);
        failed := true;
      }
    }

    /** ctnetlink_dump_dying. */
    method DumpDying(x: Request, live: ConnId -> bool, list: seq<ConnId>, cap: nat)
      modifies this
      ensures View() == Call(x, live, list, old(View()), cap)
    {
      if done {
        return;
      }
      var resume, room := last, cap;
      last := None;
      ghost var s0 := Walk(resume, None, sent, cap, gets, puts);
      ghost var s := s0;
      assert list[0..] == list;
      for i := 0 to |list|
        invariant last.None? && !done && s == Walk(resume, None, sent, room, gets, puts)
        invariant WalkList(x, live, s, list[i..]) == WalkList(x, live, s0, list)
      {
        var e := list[i];
        assert list[i..][0] == e && list[i..][1..] == list[i + 1..];
        s := Look(x, live, s, e);
        if resume.Some? && resume != Some(e) {
          continue;
        }
        var failed;
        failed, room := DumpOneEntry(x, live, e, room);
        PutRef(resume);
        if failed {
          return;
        }
        resume := None;
      }
      done := true;
      PutRef(resume);
    }
  }
}
