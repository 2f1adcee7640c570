/**
  Chains: order, suffixes, and what deleting an element does to them. The
  elements are hash nodes in the table dump, and entries in the other dumps.
 */
module Chains {

  predicate Distinct<T(==)>(chain: seq<T>) {
    chain == [] || (chain[0] !in chain[1..] && Distinct(chain[1..]))
  }

  // ---------------------------------------------------------------- order

  /** `l` does not come after `e` in the chain. */
  predicate NeverAfter<T(==)>(chain: seq<T>, l: T, e: T) {
    chain == [] || ((chain[0] == e ==> l !in chain[1..]) && NeverAfter(chain[1..], l, e))
  }

  lemma {:induction false} AbsentNeverAfter<T>(chain: seq<T>, l: T, e: T)
    requires l !in chain
    ensures NeverAfter(chain, l, e)
  {
    if chain != [] {
      AbsentNeverAfter(chain[1..], l, e);
    }
  }

  /** The chain without its element at position `i`. */
  function Cut<T>(chain: seq<T>, i: nat): seq<T>
    requires i < |chain|
  {
    chain[..i] + chain[i + 1..]
  }

  lemma CutTail<T>(chain: seq<T>, i: nat)
    requires 0 < i < |chain|
    ensures Cut(chain, i)[0] == chain[0] && Cut(chain, i)[1..] == Cut(chain[1..], i - 1)
  {
    assert chain[..i][1..] == chain[1..][..i - 1];
  }

  lemma {:induction false} CutKeepsOrder<T>(chain: seq<T>, i: nat, l: T, e: T)
    requires i < |chain|
    ensures Distinct(chain) ==> Distinct(Cut(chain, i))
    ensures NeverAfter(chain, l, e) ==> NeverAfter(Cut(chain, i), l, e)
    decreases |chain|
  {
    if i == 0 {
      assert Cut(chain, 0) == chain[1..];
    } else {
      CutTail(chain, i);
      CutKeepsOrder(chain[1..], i - 1, l, e);
      assert forall n :: n in Cut(chain[1..], i - 1) ==> n in chain[1..];
    }
  }

  // ---------------------------------------------------------------- suffixes

  predicate Suffix<T(==)>(a: seq<T>, b: seq<T>) {
    a == b || (b != [] && Suffix(a, b[1..]))
  }

  lemma {:induction false} SuffixTrans<T>(a: seq<T>, b: seq<T>, c: seq<T>)
    requires Suffix(a, b) && Suffix(b, c)
    ensures Suffix(a, c)
    decreases |c|
  {
    if b != c {
      SuffixTrans(a, b, c[1..]);
    }
  }

  lemma {:induction false} SuffixFacts<T>(a: seq<T>, b: seq<T>)
    requires Suffix(a, b)
    ensures forall e :: e in a ==> e in b
    ensures Distinct(b) ==> Distinct(a)
    decreases |b|
  {
    if a != b {
      SuffixFacts(a, b[1..]);
    }
  }

  lemma Assoc<T>(a: seq<T>, b: seq<T>, c: seq<T>)
    ensures (a + b) + c == a + (b + c)
  {
  }
}
