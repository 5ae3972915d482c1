/** The theme registry's listener list: an ordered list of listener
    identities, kept free of duplicates by `Register` and purged of a
    listener by `Unregister`. Comparison is by identity, so a listener is
    modelled by an opaque number. */
module ListenerList {

  type ListenerId = nat

  /** Every listener occurs at most once. */
  predicate Unique(xs: seq<ListenerId>) {
    forall x | x in multiset(xs) :: multiset(xs)[x] == 1
  }

  /** Reference definition of registration: append unless already present. */
  function Register(xs: seq<ListenerId>, l: ListenerId): (r: seq<ListenerId>)
    ensures l in r
    ensures forall x :: x in r <==> x in xs || x == l
    ensures xs <= r && |r| <= |xs| + 1
    ensures l in xs ==> r == xs
    ensures multiset(xs)[l] <= 1 ==> multiset(r)[l] == 1
  {
    if l in xs then xs else xs + [l]
  }

  /** Reference definition of unregistration: drop every occurrence of `l`,
      keeping the others in their order. */
  function Unregister(xs: seq<ListenerId>, l: ListenerId): (r: seq<ListenerId>)
    ensures l !in r
    ensures forall x :: x in r <==> x in xs && x != l
    ensures |r| <= |xs|
    ensures l !in xs ==> r == xs
  {
    if xs == [] then []
    else
      assert xs == [xs[0]] + xs[1..];
      (if xs[0] == l then [] else [xs[0]]) + Unregister(xs[1..], l)
  }

  /** One step of `Unregister` taken at slot `i`. */
  lemma UnregisterAt(xs: seq<ListenerId>, i: nat, l: ListenerId)
    requires i < |xs|
    ensures Unregister(xs[i..], l) == (if xs[i] == l then [] else [xs[i]]) + Unregister(xs[i + 1..], l)
  {
  }

  /** Registration never introduces a duplicate, and afterwards `l` occurs
      exactly once. */
  lemma RegisterKeepsUnique(xs: seq<ListenerId>, l: ListenerId)
    requires Unique(xs)
    ensures Unique(Register(xs, l))
    ensures multiset(Register(xs, l))[l] == 1
  {
  }

  /** Unregistration keeps the number of occurrences of every other listener. */
  lemma {:induction false} UnregisterCounts(xs: seq<ListenerId>, l: ListenerId, x: ListenerId)
    requires x != l
    ensures multiset(Unregister(xs, l))[x] == multiset(xs)[x]
  {
    if xs != [] {
      UnregisterCounts(xs[1..], l, x);
      assert xs == [xs[0]] + xs[1..];
    }
  }

  /** Unregistration never introduces a duplicate. */
  lemma UnregisterKeepsUnique(xs: seq<ListenerId>, l: ListenerId)
    requires Unique(xs)
    ensures Unique(Unregister(xs, l))
  {
    var r := Unregister(xs, l);
    forall x | x in multiset(r)
      ensures multiset(r)[x] == 1
    {
      assert x in r;
      UnregisterCounts(xs, l, x);
    }
  }

  /** A duplicate-free list stays so without its head, which it does not repeat. */
  lemma UniqueTail(l: ListenerId, xs: seq<ListenerId>)
    requires Unique([l] + xs)
    ensures Unique(xs) && l !in xs
  {
    assert multiset([l] + xs) == multiset{l} + multiset(xs);
    assert l in multiset([l] + xs);
    forall x | x in multiset(xs)
      ensures multiset(xs)[x] == 1
    {
      assert x in multiset([l] + xs);
    }
  }

  /** Unregistering works element by element, so it keeps relative order:
      it distributes over concatenation. */
  lemma {:induction false} UnregisterAppend(a: seq<ListenerId>, b: seq<ListenerId>, l: ListenerId)
    ensures Unregister(a + b, l) == Unregister(a, l) + Unregister(b, l)
    decreases |a|
  {
    if a == [] {
      assert a + b == b;
    } else {
      assert (a + b)[0] == a[0];
      assert (a + b)[1..] == a[1..] + b;
      UnregisterAppend(a[1..], b, l);
    }
  }

  /** Registering a new listener and then unregistering it restores the list. */
  lemma RegisterThenUnregister(xs: seq<ListenerId>, l: ListenerId)
    requires l !in xs
    ensures Unregister(Register(xs, l), l) == xs
  {
    UnregisterAppend(xs, [l], l);
    assert Unregister([l], l) == [] by {
      assert [l][1..] == [];
    }
  }

  /** The registration loop: scan the list from its end looking for `l` by
      identity, and append `l` only if it was not found. */
  method RegisterScan(xs: seq<ListenerId>, l: ListenerId) returns (r: seq<ListenerId>)
    ensures r == Register(xs, l)
  {
    var exist := false;
    var i := |xs| - 1;
    while i >= 0
      invariant -1 <= i < |xs|
      invariant exist <==> l in xs[i + 1..]
    {
      if xs[i] == l {
        exist := true;
      }
      assert xs[i..] == [xs[i]] + xs[i + 1..];
      i := i - 1;
    }
    assert xs[0..] == xs;
    r := xs;
    if !exist {
      r := xs + [l];
    }
  }

  /** One iteration of the unregistration loop at slot `i`, over any list
      `r` that agrees with `xs` below `i + 1` and continues with `rest`:
      afterwards it agrees with `xs` below `i`, and from `i` on it is `rest`
      preceded by slot `i` unless that slot held `l`. */
  lemma ScanStep(xs: seq<ListenerId>, l: ListenerId, i: nat, r: seq<ListenerId>, rest: seq<ListenerId>)
    requires i < |xs| && i + 1 <= |r|
    requires r[..i + 1] == xs[..i + 1] && r[i + 1..] == rest
    ensures var r' := if r[i] == l then r[..i] + r[i + 1..] else r;
            i <= |r'| && r'[..i] == xs[..i] && r'[i..] == (if xs[i] == l then [] else [xs[i]]) + rest
  {
    assert r[i] == r[..i + 1][i] == xs[i];
    assert r[..i] == r[..i + 1][..i] == xs[..i + 1][..i] == xs[..i];
    if r[i] != l {
      assert r[i..] == [r[i]] + r[i + 1..];
    }
  }

  /** The unregistration loop: walk the list from its end and remove, in
      place, every slot holding `l`. Removing slot `i` does not move any slot
      below `i`, so no occurrence is skipped. */
  method UnregisterScan(xs: seq<ListenerId>, l: ListenerId) returns (r: seq<ListenerId>)
    ensures r == Unregister(xs, l)
  {
    r := xs;
    var i := |xs| - 1;
    while i >= 0
      invariant -1 <= i < |xs|
      invariant i + 1 <= |r| && r[..i + 1] == xs[..i + 1]
      invariant r[i + 1..] == Unregister(xs[i + 1..], l)
    {
      ScanStep(xs, l, i, r, Unregister(xs[i + 1..], l));
      UnregisterAt(xs, i, l);
      if r[i] == l {
        r := r[..i] + r[i + 1..];
      }
      i := i - 1;
    }
    assert xs[0..] == xs;
  }
}
