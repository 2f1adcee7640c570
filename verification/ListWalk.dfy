/**
  Lists of entries that are dumped in order, with a cursor to resume from.
 */
module ListWalk {
  import opened Conntrack
  import opened Chains

  /** Which entries a request asks for, and how long the message of each is. */
  datatype Request = Request(wanted: ConnId -> bool, len: ConnId -> nat)

  /** The entries to send, in order. */
  function Sel(x: Request, list: seq<ConnId>): seq<ConnId> {
    if list == [] then [] else (if x.wanted(list[0]) then [list[0]] else []) + Sel(x, list[1..])
  }

  /** The part of the list from `l` on; empty if it is not there. */
  function From(list: seq<ConnId>, l: ConnId): seq<ConnId> {
    if list == [] then [] else if list[0] == l then list else From(list[1..], l)
  }

  /** The entries that fit, and the part of the list that starts with the first one that does not. */
  function Fits(x: Request, room: nat, list: seq<ConnId>): seq<ConnId>
    decreases |list|
  {
    if list == [] then []
    else if !x.wanted(list[0]) then Fits(x, room, list[1..])
    else if x.len(list[0]) <= room then [list[0]] + Fits(x, room - x.len(list[0]), list[1..])
    else []
  }

  function Rest(x: Request, room: nat, list: seq<ConnId>): seq<ConnId>
    decreases |list|
  {
    if list == [] then []
    else if !x.wanted(list[0]) then Rest(x, room, list[1..])
    else if x.len(list[0]) <= room then Rest(x, room - x.len(list[0]), list[1..])
    else list
  }

  lemma {:induction false} FromFacts(list: seq<ConnId>, l: ConnId)
    ensures Suffix(From(list, l), list)
    ensures From(list, l) != [] <==> l in list
    ensures From(list, l) != [] ==> From(list, l)[0] == l
    decreases |list|
  {
    if list != [] && list[0] != l {
      FromFacts(list[1..], l);
    }
  }

  /** Looking for the head of a suffix finds that suffix. */
  lemma {:induction false} FromSuffix(a: seq<ConnId>, list: seq<ConnId>)
    requires Distinct(list) && Suffix(a, list) && a != []
    ensures From(list, a[0]) == a
    decreases |list|
  {
    if a != list {
      SuffixFacts(a, list[1..]);
      FromSuffix(a, list[1..]);
    }
  }

  /** What fits and what is left make up all there is to send. */
  lemma {:induction false} FitsAndRest(x: Request, room: nat, list: seq<ConnId>)
    ensures Sel(x, list) == Fits(x, room, list) + Sel(x, Rest(x, room, list))
    ensures Suffix(Rest(x, room, list), list)
    ensures Rest(x, room, list) != [] ==> x.wanted(Rest(x, room, list)[0])
    decreases |list|
  {
    if list != [] {
      if !x.wanted(list[0]) {
        FitsAndRest(x, room, list[1..]);
      } else if x.len(list[0]) <= room {
        FitsAndRest(x, room - x.len(list[0]), list[1..]);
      }
    }
  }

  /** If every message fits the room, something is sent unless there is nothing to send. */
  lemma {:induction false} FitsSome(x: Request, room: nat, list: seq<ConnId>)
    requires forall e :: e in list && x.wanted(e) ==> x.len(e) <= room
    ensures Fits(x, room, list) == [] ==> Sel(x, list) == [] && Rest(x, room, list) == []
    decreases |list|
  {
    if list != [] && !x.wanted(list[0]) {
      FitsSome(x, room, list[1..]);
    }
  }
}
