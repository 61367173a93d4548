/** The child list of one DOM element, as the diff sees it: elements are names, a child list holds
    each of them at most once. */
module DomChildren {
  import opened Wrappers

  type Elm = int

  ghost predicate Distinct(s: seq<Elm>) {
    forall e :: multiset(s)[e] <= 1
  }

  function IndexOf(s: seq<Elm>, e: Elm): (i: nat)
    requires e in s
    ensures i < |s| && s[i] == e && e !in s[..i]
  {
    if s[0] == e then 0 else
      var i := IndexOf(s[1..], e) + 1;
      assert s[..i] == [s[0]] + s[1..][..i - 1];
      i
  }

  function Without(s: seq<Elm>, e: Elm): seq<Elm> {
    if e in s then s[..IndexOf(s, e)] + s[IndexOf(s, e) + 1..] else s
  }

  /** What insertBefore(e, ref) leaves: e is taken out of its old place, if it has one, and put in
      front of ref, or last when there is no ref. Inserting an element before itself changes nothing. */
  function Placed(s: seq<Elm>, e: Elm, ref: Option<Elm>): seq<Elm>
    requires ref.Some? ==> ref.value in s
  {
    if ref == Some(e) then s else
      var t := Without(s, e);
      if ref.None? then t + [e] else
        assert ref.value in t by { WithoutKeeps(s, e, ref.value); }
        var i := IndexOf(t, ref.value);
        t[..i] + [e] + t[i..]
  }

  lemma WithoutKeeps(s: seq<Elm>, e: Elm, x: Elm)
    requires x in s && x != e
    ensures x in Without(s, e)
  {
    if e in s {
      var i := IndexOf(s, e);
      assert s == s[..i] + [e] + s[i + 1..];
    }
  }

  lemma DistinctSplit(a: seq<Elm>, e: Elm, b: seq<Elm>)
    requires Distinct(a + [e] + b)
    ensures e !in a && e !in b && Distinct(a + b)
  {
    var s := a + [e] + b;
    assert multiset(s) == multiset(a) + multiset{e} + multiset(b);
    assert multiset(a + b) == multiset(a) + multiset(b);
    assert multiset(s)[e] == multiset(a)[e] + 1 + multiset(b)[e];
    forall x ensures multiset(a + b)[x] <= 1 {
      assert multiset(s)[x] <= 1;
    }
  }

  lemma {:induction false} IndexOfSplit(a: seq<Elm>, e: Elm, b: seq<Elm>)
    requires e !in a
    ensures IndexOf(a + [e] + b, e) == |a|
  {
    if a != [] {
      assert (a + [e] + b)[1..] == a[1..] + [e] + b;
      IndexOfSplit(a[1..], e, b);
    }
  }

  lemma WithoutSplit(a: seq<Elm>, e: Elm, b: seq<Elm>)
    requires e !in a
    ensures Without(a + [e] + b, e) == a + b
  {
    IndexOfSplit(a, e, b);
    var s := a + [e] + b;
    assert s[|a|] == e && s[..|a|] == a && s[|a| + 1..] == b;
  }

  function Head(s: seq<Elm>): Option<Elm> {
    if s == [] then None else Some(s[0])
  }

  function Following(s: seq<Elm>, e: Elm): (r: Option<Elm>)
    requires e in s
    ensures r.Some? ==> r.value in s
  {
    Head(s[IndexOf(s, e) + 1..])
  }

  /** Placing e in front of the head of b, when a + b is what is left without e. */
  lemma PlacedBetween(s: seq<Elm>, e: Elm, a: seq<Elm>, b: seq<Elm>)
    requires Without(s, e) == a + b && Distinct(a + b) && e !in a + b
    requires Head(b).Some? ==> Head(b).value in s
    ensures Placed(s, e, Head(b)) == a + [e] + b
  {
    if b == [] {
      assert a + b == a && a + [e] + b == a + [e];
    } else {
      assert a + b == a + [b[0]] + b[1..];
      DistinctSplit(a, b[0], b[1..]);
      IndexOfSplit(a, b[0], b[1..]);
    }
  }

  lemma WithoutMultiset(s: seq<Elm>, e: Elm)
    ensures multiset(Without(s, e)) == multiset(s) - multiset{e}
  {
    if e in s {
      var i := IndexOf(s, e);
      assert s == s[..i] + [e] + s[i + 1..];
      calc {
        multiset(s);
        multiset(s[..i] + [e] + s[i + 1..]);
        multiset(s[..i]) + multiset{e} + multiset(s[i + 1..]);
        multiset(s[..i] + s[i + 1..]) + multiset{e};
      }
    }
  }

  lemma PlacedMultiset(s: seq<Elm>, e: Elm, ref: Option<Elm>)
    requires ref.Some? ==> ref.value in s
    ensures multiset(Placed(s, e, ref)) == if e in s then multiset(s) else multiset(s) + multiset{e}
  {
    if ref != Some(e) {
      var t := Without(s, e);
      WithoutMultiset(s, e);
      assert e in s ==> multiset(s)[e] > 0;
      if ref.Some? {
        WithoutKeeps(s, e, ref.value);
        var i := IndexOf(t, ref.value);
        assert t == t[..i] + t[i..];
      }
    }
  }

  /** The parent element of the children being diffed. */
  class Parent {
    var children: seq<Elm>
    var nextElm: Elm  // names from here on are not in use anywhere

    method CreateElement() returns (e: Elm)
      modifies `nextElm
      ensures e == old(nextElm) && nextElm == e + 1
    {
      e := nextElm;
      nextElm := nextElm + 1;
    }

    // The DOM rejects a reference that is not a child.
    method InsertBefore(e: Elm, ref: Option<Elm>)
      requires ref.Some? ==> ref.value in children
      modifies `children
      ensures children == Placed(old(children), e, ref)
    {
      children := Placed(children, e, ref);
    }

    method RemoveChild(e: Elm)
      requires e in children
      modifies `children
      ensures children == Without(old(children), e)
    {
      children := Without(children, e);
    }

    function NextSibling(e: Elm): (r: Option<Elm>)
      requires e in children
      reads this
      ensures r.Some? ==> r.value in children
    {
      Following(children, e)
    }
  }
}
