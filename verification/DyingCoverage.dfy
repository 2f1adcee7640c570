/**
  The dump of the dying list while the list changes. Between two calls entries
  leave the list, and others join it at its head. An entry that stays listed is
  sent as long as every call finds the entry it resumes from; a call that does
  not find it ends the dump, and what was unsent then stays unsent.
 */
module DyingCoverage {
  import opened Conntrack
  import opened Chains
  import opened ListWalk
  import opened DyingDump

  datatype Sys = Sys(list: seq<ConnId>, ctx: Ctx)

  datatype Event =
    /** The callback is invoked; `live` says which entries can be referenced at that time. */
    | Invoke(cap: nat, live: ConnId -> bool)
    /** The entry at position `i` is freed and leaves the list. */
    | Remove(i: nat)
    /** An entry starts to die, and joins the list at its head. */
    | Join(e: ConnId)

  predicate Enabled(s: Sys, ev: Event) {
    match ev
    case Invoke(_, _) => true
    case Remove(i) => i < |s.list|
    case Join(e) => e !in s.list
  }

  function Apply(x: Request, s: Sys, ev: Event): Sys
    requires Enabled(s, ev)
  {
    match ev
    case Invoke(cap, live) => s.(ctx := Call(x, live, s.list, s.ctx, cap))
    case Remove(i) => s.(list := Cut(s.list, i))
    case Join(e) => s.(list := [e] + s.list)
  }

  predicate ValidRun(x: Request, s: Sys, events: seq<Event>)
    decreases |events|
  {
    events == [] || (Enabled(s, events[0]) && ValidRun(x, Apply(x, s, events[0]), events[1..]))
  }

  function After(x: Request, s: Sys, events: seq<Event>): Sys
    requires ValidRun(x, s, events)
    decreases |events|
  {
    if events == [] then s else After(x, Apply(x, s, events[0]), events[1..])
  }

  function Start(list: seq<ConnId>): Sys {
    Sys(list, Ctx(None, false, [], [], []))
  }

  // ---------------------------------------------------------------- one walk

  lemma LookGrows(x: Request, live: ConnId -> bool, s: Walk, e: ConnId)
    ensures s.sent <= Look(x, live, s, e).sent
  {
  }

  lemma {:induction false} WalkGrows(x: Request, live: ConnId -> bool, s: Walk, list: seq<ConnId>)
    ensures s.sent <= WalkList(x, live, s, list).sent
    decreases |list|
  {
    if list != [] {
      LookGrows(x, live, s, list[0]);
      WalkGrows(x, live, Look(x, live, s, list[0]), list[1..]);
      hide Look;
    }
  }

  /** An entry the walk meets is sent, or the walk stops at an entry that does not come after it. */
  lemma {:induction false} WalkReaches(x: Request, live: ConnId -> bool, s: Walk, list: seq<ConnId>, e: ConnId)
    requires Distinct(list) && e in list && x.wanted(e) && live(e) && s.cursor.None?
    requires s.last.Some? ==> s.last.value in list && NeverAfter(list, s.last.value, e)
    ensures var r := WalkList(x, live, s, list);
            e in r.sent || (r.cursor.Some? && NeverAfter(list, r.cursor.value, e))
    decreases |list|
  {
    var s' := Look(x, live, s, list[0]);
    if s'.cursor.Some? {
      AbsentNeverAfter(list[1..], list[0], e);
    } else if list[0] == e {
      WalkGrows(x, live, s', list[1..]);
      assert e in s'.sent;
    } else {
      WalkReaches(x, live, s', list[1..], e);
    }
  }

  /** A walk that does not find the entry it looks for does nothing. */
  lemma {:induction false} WalkLooksInVain(x: Request, live: ConnId -> bool, s: Walk, list: seq<ConnId>)
    requires s.last.Some? && s.last.value !in list && s.cursor.None?
    ensures WalkList(x, live, s, list) == s
    decreases |list|
  {
    if list != [] {
      WalkLooksInVain(x, live, s, list[1..]);
    }
  }

  // ---------------------------------------------------------------- runs

  /** The entry is listed, and can be referenced whenever the callback is invoked. */
  predicate Steady(s: Sys, ev: Event, e: ConnId) {
    e in s.list && (ev.Invoke? ==> ev.live(e))
  }

  /** A call that resumes, and does not find the entry it resumes from. */
  predicate Lost(s: Sys, ev: Event) {
    ev.Invoke? && !s.ctx.done && s.ctx.last.Some? && s.ctx.last.value !in s.list
  }

  predicate SteadyThroughout(x: Request, s: Sys, events: seq<Event>, e: ConnId)
    requires ValidRun(x, s, events)
    decreases |events|
  {
    e in s.list &&
    (events != [] ==>
       Steady(s, events[0], e) && !Lost(s, events[0]) && SteadyThroughout(x, Apply(x, s, events[0]), events[1..], e))
  }

  /** The entry has been sent, or the dump goes on and its cursor does not come after it. */
  predicate Covered(s: Sys, e: ConnId) {
    && Distinct(s.list)
    && (e in s.ctx.sent || (!s.ctx.done && (s.ctx.last.Some? ==> NeverAfter(s.list, s.ctx.last.value, e))))
  }

  lemma InvokeCovers(x: Request, s: Sys, cap: nat, live: ConnId -> bool, e: ConnId)
    requires Covered(s, e) && e in s.list && live(e) && x.wanted(e) && !Lost(s, Invoke(cap, live))
    ensures Covered(Apply(x, s, Invoke(cap, live)), e)
  {
    var c := s.ctx;
    if !c.done {
      var w := Walk(c.last, None, c.sent, cap, c.gets, c.puts);
      WalkGrows(x, live, w, s.list);
      if e !in c.sent {
        WalkReaches(x, live, w, s.list, e);
      }
      hide WalkList;
    }
  }

  lemma ChangeCovers(x: Request, s: Sys, ev: Event, e: ConnId)
    requires Covered(s, e) && Enabled(s, ev) && !ev.Invoke? && e in s.list
    ensures Covered(Apply(x, s, ev), e)
  {
    var t := Apply(x, s, ev);
    match ev
    case Remove(i) =>
      var l: ConnId := if s.ctx.last.Some? then s.ctx.last.value else e;
      CutKeepsOrder(s.list, i, l, e);
    case Join(n) =>
      assert t.list[0] == n && t.list[1..] == s.list;
  }

  lemma {:induction false} RunCovers(x: Request, s: Sys, events: seq<Event>, e: ConnId)
    requires ValidRun(x, s, events) && SteadyThroughout(x, s, events, e) && Covered(s, e) && x.wanted(e)
    ensures Covered(After(x, s, events), e)
    decreases |events|
  {
    if events != [] {
      var ev := events[0];
      if ev.Invoke? {
        InvokeCovers(x, s, ev.cap, ev.live, e);
      } else {
        ChangeCovers(x, s, ev, e);
      }
      hide Covered, Apply;
      RunCovers(x, Apply(x, s, ev), events[1..], e);
    }
  }

  /**
    At least once: if every call that resumes finds the entry it resumes from, then by the time the dump is done
    every entry asked for that stayed listed has been sent, whatever left the list and whatever joined it.
   */
  lemma AtLeastOnce(x: Request, list: seq<ConnId>, events: seq<Event>, e: ConnId)
    requires Distinct(list) && x.wanted(e)
    requires ValidRun(x, Start(list), events) && SteadyThroughout(x, Start(list), events, e)
    ensures var c := After(x, Start(list), events).ctx; c.done ==> e in c.sent
  {
    RunCovers(x, Start(list), events, e);
  }

  /** A dump that is done sends nothing more. */
  lemma {:induction false} DoneForGood(x: Request, s: Sys, events: seq<Event>)
    requires ValidRun(x, s, events) && s.ctx.done
    ensures After(x, s, events).ctx == s.ctx
    decreases |events|
  {
    if events != [] {
      DoneForGood(x, Apply(x, s, events[0]), events[1..]);
    }
  }

  lemma LostEnds(x: Request, s: Sys, ev: Event)
    requires Lost(s, ev)
    ensures var t := Apply(x, s, ev).ctx; t.done && t.sent == s.ctx.sent && t.last.None?
  {
    var c := s.ctx;
    WalkLooksInVain(x, ev.live, Walk(c.last, None, c.sent, ev.cap, c.gets, c.puts), s.list);
    hide WalkList;
  }

  lemma {:induction false} RunSplits(x: Request, s: Sys, a: seq<Event>, b: seq<Event>)
    requires ValidRun(x, s, a) && ValidRun(x, After(x, s, a), b)
    ensures ValidRun(x, s, a + b) && After(x, s, a + b) == After(x, After(x, s, a), b)
    decreases |a|
  {
    if a == [] {
      assert a + b == b;
    } else {
      assert (a + b)[1..] == a[1..] + b;
      RunSplits(x, Apply(x, s, a[0]), a[1..], b);
    }
  }

  /**
    The other half: a call that does not find the entry it resumes from is the last that could have sent anything.
    Whatever was unsent then stays unsent, however often the callback is invoked again.
   */
  lemma LossIsFinal(x: Request, s: Sys, before: seq<Event>, ev: Event, after: seq<Event>)
    requires ValidRun(x, s, before) && Lost(After(x, s, before), ev)
    requires ValidRun(x, Apply(x, After(x, s, before), ev), after)
    ensures ValidRun(x, s, before + ([ev] + after))
    ensures After(x, s, before + ([ev] + after)).ctx.sent == After(x, s, before).ctx.sent
  {
    var m := After(x, s, before);
    assert ([ev] + after)[1..] == after;
    RunSplits(x, s, before, [ev] + after);
    LostEnds(x, m, ev);
    DoneForGood(x, Apply(x, m, ev), after);
    hide Apply;
  }

  // ---------------------------------------------------------------- which entries are lost

  lemma {:induction false} WalkStopsInside(x: Request, live: ConnId -> bool, s: Walk, list: seq<ConnId>)
    requires s.cursor.None?
    ensures var r := WalkList(x, live, s, list); r.cursor.Some? ==> r.cursor.value in list
    decreases |list|
  {
    if list != [] {
      var s' := Look(x, live, s, list[0]);
      if s'.cursor.None? {
        WalkStopsInside(x, live, s', list[1..]);
      }
    }
  }

  /** What a walk that goes on from an entry, or from the start, has sent before: the entries in front of it. */
  predicate SentInFront(list: seq<ConnId>, last: Option<ConnId>, sent: seq<ConnId>, e: ConnId) {
    e in sent <==> last.Some? && !NeverAfter(list, last.value, e)
  }

  /** Where a walk stops says what it has sent: the entries in front of the one it stops at, and no others. */
  lemma {:induction false} WalkSendsInFront(x: Request, live: ConnId -> bool, s: Walk, list: seq<ConnId>, e: ConnId)
    requires Distinct(list) && e in list && x.wanted(e) && live(e) && s.cursor.None?
    requires (s.last.Some? ==> s.last.value in list) && SentInFront(list, s.last, s.sent, e)
    ensures var r := WalkList(x, live, s, list); r.cursor.Some? ==> SentInFront(list, r.cursor, r.sent, e)
    decreases |list|
  {
    var s', rest := Look(x, live, s, list[0]), list[1..];
    if s.last.Some? && s.last.value == list[0] {
      AbsentNeverAfter(rest, list[0], e);
    }
    if s'.cursor.Some? {
      AbsentNeverAfter(rest, list[0], e);
    } else if list[0] == e {
      assert e in s'.sent;
      WalkGrows(x, live, s', rest);
      WalkStopsInside(x, live, s', rest);
    } else {
      WalkSendsInFront(x, live, s', rest, e);
    }
  }

  /** Removing a third entry changes nothing about the order of two others. */
  lemma {:induction false} CutShowsOrder(list: seq<ConnId>, i: nat, l: ConnId, e: ConnId)
    requires Distinct(list) && i < |list| && list[i] != l && list[i] != e
    ensures NeverAfter(Cut(list, i), l, e) <==> NeverAfter(list, l, e)
    ensures l in Cut(list, i) <==> l in list
    decreases |list|
  {
    if i == 0 {
      assert Cut(list, 0) == list[1..] && list == [list[0]] + list[1..];
    } else {
      CutTail(list, i);
      CutShowsOrder(list[1..], i - 1, l, e);
      assert list == [list[0]] + list[1..];
      var c := Cut(list, i);
      assert c == [c[0]] + c[1..];
    }
  }

  /** No event brings back the entry under the cursor, on which the dump holds a reference. */
  predicate NoReturn(x: Request, s: Sys, events: seq<Event>)
    requires ValidRun(x, s, events)
    decreases |events|
  {
    events != [] ==>
      (events[0].Join? ==> s.ctx.last != Some(events[0].e)) && NoReturn(x, Apply(x, s, events[0]), events[1..])
  }

  /** Until the dump is done it has sent what lies in front of its cursor, as long as that is listed. */
  predicate Exact(s: Sys, e: ConnId) {
    && Distinct(s.list)
    && (!s.ctx.done && (s.ctx.last.Some? ==> s.ctx.last.value in s.list) ==>
          SentInFront(s.list, s.ctx.last, s.ctx.sent, e))
  }

  lemma InvokeExact(x: Request, s: Sys, cap: nat, live: ConnId -> bool, e: ConnId)
    requires Exact(s, e) && e in s.list && live(e) && x.wanted(e) && !Lost(s, Invoke(cap, live))
    ensures Exact(Apply(x, s, Invoke(cap, live)), e)
  {
    var c := s.ctx;
    if !c.done {
      var w := Walk(c.last, None, c.sent, cap, c.gets, c.puts);
      WalkSendsInFront(x, live, w, s.list, e);
      hide WalkList, SentInFront;
    }
  }

  lemma ChangeExact(x: Request, s: Sys, ev: Event, e: ConnId)
    requires Exact(s, e) && Enabled(s, ev) && !ev.Invoke? && e in s.list && e in Apply(x, s, ev).list
    requires ev.Join? ==> s.ctx.last != Some(ev.e)
    ensures Exact(Apply(x, s, ev), e)
  {
    var t := Apply(x, s, ev);
    var l: ConnId := if s.ctx.last.Some? then s.ctx.last.value else e;
    match ev
    case Remove(i) =>
      CutKeepsOrder(s.list, i, l, e);
      CutLoses(s.list, i);
      if s.list[i] != l {
        CutShowsOrder(s.list, i, l, e);
      }
    case Join(n) =>
      assert t.list[0] == n && t.list[1..] == s.list;
  }

  lemma {:induction false} CutLoses(list: seq<ConnId>, i: nat)
    requires Distinct(list) && i < |list|
    ensures list[i] !in Cut(list, i)
    decreases |list|
  {
    if i == 0 {
      assert Cut(list, 0) == list[1..];
    } else {
      CutTail(list, i);
      CutLoses(list[1..], i - 1);
      var c := Cut(list, i);
      assert c == [c[0]] + c[1..];
    }
  }

  lemma {:induction false} RunExact(x: Request, s: Sys, events: seq<Event>, e: ConnId)
    requires ValidRun(x, s, events) && SteadyThroughout(x, s, events, e) && NoReturn(x, s, events)
    requires Exact(s, e) && x.wanted(e)
    ensures Exact(After(x, s, events), e)
    decreases |events|
  {
    if events != [] {
      var ev := events[0];
      if ev.Invoke? {
        InvokeExact(x, s, ev.cap, ev.live, e);
      } else {
        ChangeExact(x, s, ev, e);
      }
      hide Exact, Apply;
      RunExact(x, Apply(x, s, ev), events[1..], e);
    }
  }

  /**
    What has been sent can be read off the list: as long as the entry under the cursor is listed, an entry asked for
    that stayed listed is unsent if and only if the cursor does not come after it.
   */
  lemma UnsentIffBehind(x: Request, list: seq<ConnId>, events: seq<Event>, e: ConnId)
    requires Distinct(list) && x.wanted(e) && ValidRun(x, Start(list), events)
    requires SteadyThroughout(x, Start(list), events, e) && NoReturn(x, Start(list), events)
    ensures var m := After(x, Start(list), events);
            !m.ctx.done && m.ctx.last.Some? && m.ctx.last.value in m.list ==>
              (e !in m.ctx.sent <==> NeverAfter(m.list, m.ctx.last.value, e))
  {
    RunExact(x, Start(list), events, e);
  }

  /** Once the entry under the cursor has gone, and does not come back, nothing more is ever sent. */
  lemma {:induction false} GoneSendsNothing(x: Request, s: Sys, events: seq<Event>)
    requires ValidRun(x, s, events) && NoReturn(x, s, events) && Distinct(s.list)
    requires s.ctx.done || (s.ctx.last.Some? && s.ctx.last.value !in s.list)
    ensures After(x, s, events).ctx.sent == s.ctx.sent
    decreases |events|
  {
    if events != [] {
      var t := Apply(x, s, events[0]);
      GoneStaysGone(x, s, events[0]);
      hide Apply;
      GoneSendsNothing(x, t, events[1..]);
    }
  }

  lemma GoneStaysGone(x: Request, s: Sys, ev: Event)
    requires Enabled(s, ev) && Distinct(s.list) && (ev.Join? ==> s.ctx.last != Some(ev.e))
    requires s.ctx.done || (s.ctx.last.Some? && s.ctx.last.value !in s.list)
    ensures var t := Apply(x, s, ev);
            && Distinct(t.list) && t.ctx.sent == s.ctx.sent
            && (t.ctx.done || (t.ctx.last.Some? && t.ctx.last.value !in t.list))
  {
    var t := Apply(x, s, ev);
    match ev
    case Invoke(_, _) =>
      if !s.ctx.done {
        LostEnds(x, s, ev);
      }
    case Remove(i) =>
      CutKeepsOrder(s.list, i, s.list[i], s.list[i]);
      assert forall c :: c in t.list ==> c in s.list;
    case Join(n) =>
      assert t.list[0] == n && t.list[1..] == s.list;
      assert forall c :: c in t.list ==> c == n || c in s.list;
  }

  /**
    Which entries are lost: when the entry under the cursor leaves the list, then of the entries asked for that had
    stayed listed exactly those it does not come after, that is, the ones behind it, are never sent, whatever happens
    afterwards. It can be read off the list at that moment.
   */
  lemma LostIffBehind(x: Request, list: seq<ConnId>, before: seq<Event>, i: nat, after: seq<Event>, e: ConnId)
    requires Distinct(list) && x.wanted(e) && ValidRun(x, Start(list), before)
    requires SteadyThroughout(x, Start(list), before, e) && NoReturn(x, Start(list), before)
    requires var m := After(x, Start(list), before);
             && !m.ctx.done && i < |m.list| && m.ctx.last == Some(m.list[i])
             && ValidRun(x, Apply(x, m, Remove(i)), after) && NoReturn(x, Apply(x, m, Remove(i)), after)
    ensures ValidRun(x, Start(list), before + ([Remove(i)] + after))
    ensures var m, t := After(x, Start(list), before), After(x, Start(list), before + ([Remove(i)] + after));
            e !in t.ctx.sent <==> NeverAfter(m.list, m.list[i], e)
  {
    var m := After(x, Start(list), before);
    var gone := Apply(x, m, Remove(i));
    assert ([Remove(i)] + after)[1..] == after;
    RunSplits(x, Start(list), before, [Remove(i)] + after);
    RunExact(x, Start(list), before, e);
    CutLoses(m.list, i);
    CutKeepsOrder(m.list, i, e, e);
    GoneSendsNothing(x, gone, after);
  }

  /**
    It does happen, from the start of a dump: the first call has no room, entry 1 under its cursor leaves, and the
    second call, with room for all, sends nothing of the entries 2 and 3 and ends the dump.
   */
  lemma LossExample()
    ensures var x, live := Request(e => true, e => 8), (e: ConnId) => true;
            var events := [Invoke(4, live), Remove(0), Invoke(100, live)];
            && ValidRun(x, Start([1, 2, 3]), events)
            && After(x, Start([1, 2, 3]), events) == Sys([2, 3], Ctx(None, true, [], [1], [1]))
  {
    var x, live := Request(e => true, e => 8), (e: ConnId) => true;
    var events := [Invoke(4, live), Remove(0), Invoke(100, live)];
    var s0 := Start([1, 2, 3]);
    var s1 := Sys([1, 2, 3], Ctx(Some(1), false, [], [1], []));
    assert Apply(x, s0, events[0]) == s1;
    var s2 := Apply(x, s1, Remove(0));
    assert s2.list == [2, 3];
    var walk := Walk(Some(1), None, [], 100, [1], []);
    WalkLooksInVain(x, live, walk, [2, 3]);
    var s3 := Sys([2, 3], Ctx(None, true, [], [1], [1]));
    assert Apply(x, s2, events[2]) == s3;
    hide Apply, Call;
    assert events[1..] == [Remove(0), Invoke(100, live)] && events[1..][1..] == [Invoke(100, live)];
    assert events[1..][1..][1..] == [];
    assert After(x, s2, [Invoke(100, live)]) == s3;
  }
}
