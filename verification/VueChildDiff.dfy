/** The keyed child diff of the Vue runtime: reorders, reuses, creates and removes the DOM children
    of one element so that they become the elements of the newCh child vnodes. */
module VueChildDiff {
  import opened Wrappers
  import opened DomChildren
  import Decimals

  datatype Key = Number(n: int) | Text(s: string)

  // What sameInputType reads from a vnode's data.
  datatype InputType = NoAttrs | NoType | Type(name: string)

  datatype AsyncFactory = AsyncFactory(id: int, failed: bool)

  datatype VNode = VNode(
    key: Option<Key>, tag: Option<string>, isComment: bool, hasData: bool, inputType: InputType,
    isAsyncPlaceholder: bool, asyncFactory: Option<AsyncFactory>)

  const TEXT_INPUT_TYPES := {"text", "number", "password", "search", "email", "tel", "url"}

  predicate IsTextInputType(t: InputType) {
    t.Type? && t.name in TEXT_INPUT_TYPES
  }

  predicate SameInputType(a: VNode, b: VNode) {
    a.tag != Some("input")
    || a.inputType == b.inputType
    || (IsTextInputType(a.inputType) && IsTextInputType(b.inputType))
  }

  predicate SameVnode(a: VNode, b: VNode) {
    a.key == b.key
    && (|| (a.tag == b.tag && a.isComment == b.isComment && a.hasData == b.hasData && SameInputType(a, b))
        || (a.isAsyncPlaceholder && a.asyncFactory == b.asyncFactory
            && b.asyncFactory.Some? && !b.asyncFactory.value.failed))
  }

  // Object properties are strings, so a numeric key shares its slot with its decimal text.
  function PropertyName(k: Key): string {
    match k
    case Number(n) => Decimals.Render(n)
    case Text(s) => s
  }

  // A plain object also answers to the names it inherits from Object.prototype (sections 20.1.3 and B.2.2
  // of ECMA-262), with a function or, for __proto__, an object: something defined that is no index.
  const PROTO := "__proto__"

  const INHERITED := {
    "constructor", "hasOwnProperty", "isPrototypeOf", "propertyIsEnumerable", "toLocaleString", "toString",
    "valueOf", "__defineGetter__", "__defineSetter__", "__lookupGetter__", "__lookupSetter__", PROTO}

  datatype Lookup = Own(index: nat) | Inherited | Absent

  function LookUp(m: map<string, nat>, name: string): Lookup {
    if name in m then Own(m[name]) else if name in INHERITED then Inherited else Absent
  }

  predicate SameProperty(a: VNode, b: VNode) {
    a.key.Some? && b.key.Some? && PropertyName(a.key.value) == PropertyName(b.key.value)
  }

  /** Which keys get in each other's way: equal ones, and a number with its decimal text. */
  lemma SlotsAreShared(m: int, n: int, s: string, t: string)
    ensures PropertyName(Number(m)) == PropertyName(Number(n)) <==> m == n
    ensures PropertyName(Text(s)) == PropertyName(Text(t)) <==> s == t
    ensures PropertyName(Number(n)) == PropertyName(Text(s)) <==> s == Decimals.Render(n)
    ensures PropertyName(Number(n)) == PropertyName(Text(s)) && Decimals.LONG_MIN <= n <= Decimals.LONG_MAX ==>
              Decimals.Read(s) == Some(n)
    ensures PropertyName(Number(10)) == PropertyName(Text("10")) == "10"
  {
    if Decimals.Render(m) == Decimals.Render(n) {
      Decimals.RenderInjective(m, n);
    }
    if Decimals.LONG_MIN <= n <= Decimals.LONG_MAX {
      Decimals.ReadOfRender(n);
    }
    Decimals.RendersAsWritten();
  }

  // A slot of oldCh: a vnode with its element, or undefined once the vnode was moved left.
  datatype OldSlot = Undefined | Kept(v: VNode, elm: Elm)

  // A slot of newCh: elm is undefined until the vnode was patched or created.
  datatype NewSlot = NewSlot(v: VNode, elm: Option<Elm>)

  ghost predicate UniqueKeys(newCh: seq<NewSlot>) {
    forall i, j | 0 <= i < j < |newCh| :: !SameProperty(newCh[i].v, newCh[j].v)
  }

  ghost predicate UniqueOldKeys(oldCh: seq<OldSlot>) {
    forall i, j | 0 <= i < j < |oldCh| && oldCh[i].Kept? && oldCh[j].Kept? :: !SameProperty(oldCh[i].v, oldCh[j].v)
  }

  function ElmOf(n: NewSlot): Elm {
    if n.elm.Some? then n.elm.value else -1
  }

  function Elms(newCh: seq<NewSlot>): (r: seq<Elm>)
    ensures |r| == |newCh|
  {
    seq(|newCh|, i requires 0 <= i < |newCh| => ElmOf(newCh[i]))
  }

  /** The elements of the old vnodes that have not been moved away, in order. */
  function Remaining(oldCh: seq<OldSlot>): seq<Elm> {
    if oldCh == [] then []
    else (if oldCh[0].Kept? then [oldCh[0].elm] else []) + Remaining(oldCh[1..])
  }

  lemma {:induction false} RemainingConcat(a: seq<OldSlot>, b: seq<OldSlot>)
    ensures Remaining(a + b) == Remaining(a) + Remaining(b)
  {
    if a == [] {
      assert a + b == b;
    } else {
      assert (a + b)[0] == a[0] && (a + b)[1..] == a[1..] + b;
      RemainingConcat(a[1..], b);
      var first := if a[0].Kept? then [a[0].elm] else [];
      assert first + (Remaining(a[1..]) + Remaining(b)) == first + Remaining(a[1..]) + Remaining(b);
    }
  }

  lemma RemainingOne(s: OldSlot)
    ensures Remaining([s]) == if s.Kept? then [s.elm] else []
  {
    assert [s][1..] == [];
  }

  lemma RemainingSplit(oldCh: seq<OldSlot>, lo: int, i: int, hi: int)
    requires 0 <= lo <= i < hi <= |oldCh|
    ensures Remaining(oldCh[lo..hi])
         == Remaining(oldCh[lo..i]) + (if oldCh[i].Kept? then [oldCh[i].elm] else []) + Remaining(oldCh[i + 1..hi])
  {
    assert oldCh[lo..hi] == oldCh[lo..i] + ([oldCh[i]] + oldCh[i + 1..hi]);
    RemainingConcat(oldCh[lo..i], [oldCh[i]] + oldCh[i + 1..hi]);
    RemainingConcat([oldCh[i]], oldCh[i + 1..hi]);
    RemainingOne(oldCh[i]);
  }

  lemma {:induction false} RemainingHas(oldCh: seq<OldSlot>, x: Elm)
    ensures x in Remaining(oldCh) <==> exists j :: 0 <= j < |oldCh| && oldCh[j].Kept? && oldCh[j].elm == x
  {
    if oldCh != [] {
      RemainingHas(oldCh[1..], x);
      if j :| 0 <= j < |oldCh| && oldCh[j].Kept? && oldCh[j].elm == x {
        assert j > 0 ==> oldCh[1..][j - 1] == oldCh[j];
      }
      if j :| 0 <= j < |oldCh[1..]| && oldCh[1..][j].Kept? && oldCh[1..][j].elm == x {
        assert oldCh[j + 1] == oldCh[1..][j];
      }
    }
  }

  /** With removeOnly nothing is moved, so only the set of children is kept. */
  ghost predicate Shows(removeOnly: bool, children: seq<Elm>, target: seq<Elm>) {
    Distinct(target) && (if removeOnly then multiset(children) == multiset(target) else children == target)
  }

  function Patched(newCh: seq<NewSlot>, i: int, e: Elm): seq<NewSlot>
    requires 0 <= i < |newCh|
  {
    newCh[i := newCh[i].(elm := Some(e))]
  }

  lemma PatchedElms(newCh: seq<NewSlot>, i: int, e: Elm)
    requires 0 <= i < |newCh|
    ensures Elms(Patched(newCh, i, e)[..i + 1]) == Elms(newCh[..i]) + [e]
    ensures Elms(Patched(newCh, i, e)[i..]) == [e] + Elms(newCh[i + 1..])
    ensures forall k :: 0 <= k <= i ==> Elms(Patched(newCh, i, e)[..k]) == Elms(newCh[..k])
    ensures forall k :: i < k <= |newCh| ==> Elms(Patched(newCh, i, e)[k..]) == Elms(newCh[k..])
  {
  }

  /** What the diff was called with. */
  datatype Input = Input(oldCh: seq<OldSlot>, newCh: seq<NewSlot>, firstFresh: Elm, removeOnly: bool)

  /** The loop's variables: the two child arrays and the two windows, upper ends exclusive. */
  datatype Windows = Windows(oldCh: seq<OldSlot>, newCh: seq<NewSlot>, os: int, oe: int, ns: int, ne: int) {
    predicate InRange() {
      0 <= os <= oe <= |oldCh| && 0 <= ns <= ne <= |newCh|
    }

    predicate Done(i: int) {
      i < ns || ne <= i
    }

    // The child list the loop keeps: finished new elements, old ones left, finished new elements.
    function Target(): seq<Elm>
      requires InRange()
    {
      Elms(newCh[..ns]) + Remaining(oldCh[os..oe]) + Elms(newCh[ne..])
    }
  }

  ghost predicate ValidInput(input: Input) {
    && (forall j | 0 <= j < |input.oldCh| :: input.oldCh[j].Kept? && input.oldCh[j].elm < input.firstFresh)
    && Distinct(Remaining(input.oldCh))
    && UniqueKeys(input.newCh)
  }

  ghost predicate SameNodes(input: Input, w: Windows) {
    && |w.oldCh| == |input.oldCh| && |w.newCh| == |input.newCh|
    && (forall i | 0 <= i < |w.newCh| :: w.newCh[i].v == input.newCh[i].v)
    && (forall j | 0 <= j < |w.oldCh| :: w.oldCh[j].Kept? ==> w.oldCh[j] == input.oldCh[j])
  }

  /** A finished new vnode shows the element of a same-vnode old one, or a fresh element; and, when
      old keys are unique, a keyed one with a same-vnode old counterpart shows exactly that element. */
  ghost predicate FinishedRight(input: Input, w: Windows)
    requires |w.newCh| == |input.newCh|
  {
    forall i | 0 <= i < |w.newCh| && w.Done(i) ::
      && w.newCh[i].elm.Some?
      && (w.newCh[i].elm.value < input.firstFresh ==> FromOld(input, input.newCh[i].v, w.newCh[i].elm.value))
      && (UniqueOldKeys(input.oldCh) && input.newCh[i].v.key.Some? ==>
            Reuses(input, input.newCh[i].v, w.newCh[i].elm.value))
  }

  ghost predicate FromOld(input: Input, v: VNode, e: Elm) {
    exists j :: 0 <= j < |input.oldCh| && input.oldCh[j].Kept? && input.oldCh[j].elm == e
                && SameVnode(input.oldCh[j].v, v)
  }

  ghost predicate Reuses(input: Input, v: VNode, e: Elm) {
    forall j | 0 <= j < |input.oldCh| && input.oldCh[j].Kept? && SameVnode(input.oldCh[j].v, v) ::
      input.oldCh[j].elm == e
  }

  /** An old vnode whose key an unfinished new vnode carries is still in the window. */
  ghost predicate CounterpartsWait(input: Input, w: Windows)
    requires |w.oldCh| == |input.oldCh| && |w.newCh| == |input.newCh|
  {
    forall i, j | 0 <= i < |w.newCh| && !w.Done(i) && 0 <= j < |input.oldCh| && input.oldCh[j].Kept?
                  && SameProperty(input.oldCh[j].v, input.newCh[i].v) ::
      w.os <= j < w.oe && w.oldCh[j] == input.oldCh[j]
  }

  ghost predicate Nodes(input: Input, w: Windows) {
    && ValidInput(input)
    && w.InRange()
    && SameNodes(input, w)
    && FinishedRight(input, w)
    && CounterpartsWait(input, w)
  }

  ghost predicate Dom(input: Input, target: seq<Elm>, children: seq<Elm>, nextElm: Elm) {
    && Shows(input.removeOnly, children, target)
    && input.firstFresh <= nextElm
    && (forall e | e in target :: e < nextElm)
  }

  ghost predicate Inv(input: Input, w: Windows, children: seq<Elm>, nextElm: Elm) {
    Nodes(input, w) && Dom(input, w.Target(), children, nextElm)
  }

  /** The index by key is built once; it stays right for the keys of unfinished new vnodes. */
  ghost predicate IndexRight(input: Input, old': seq<OldSlot>, os: int, oe: int, keyToIdx: Option<map<string, nat>>)
    requires 0 <= os <= oe <= |old'|
  {
    match keyToIdx
    case None => forall j | os <= j < oe :: old'[j].Kept?
    case Some(m) =>
      && (forall k | k in m :: m[k] < |input.oldCh| && input.oldCh[m[k]].Kept?
                               && input.oldCh[m[k]].v.key.Some?
                               && PropertyName(input.oldCh[m[k]].v.key.value) == k)
      && (forall j | os <= j < oe && old'[j].Kept? && old'[j].v.key.Some? ::
            PropertyName(old'[j].v.key.value) in m || PropertyName(old'[j].v.key.value) == PROTO)
  }

  // ---- Which run trips over an inherited name ----

  function Vnodes(newCh: seq<NewSlot>): (vs: seq<VNode>)
    ensures |vs| == |newCh| && forall i | 0 <= i < |newCh| :: vs[i] == newCh[i].v
  {
    seq(|newCh|, i requires 0 <= i < |newCh| => newCh[i].v)
  }

  /** The own slots of the index by key; the last of several equal keys wins, and assigning a number to
      __proto__ makes no slot. */
  function OwnSlots(oldCh: seq<OldSlot>, lo: int, hi: int): map<string, nat>
    requires 0 <= lo && hi <= |oldCh|
    decreases hi - lo
  {
    if hi <= lo then map[]
    else
      var m, last := OwnSlots(oldCh, lo, hi - 1), oldCh[hi - 1];
      if last.Kept? && last.v.key.Some? && PropertyName(last.v.key.value) != PROTO
      then m[PropertyName(last.v.key.value) := hi - 1] else m
  }

  function FirstSame(oldCh: seq<OldSlot>, v: VNode, lo: int, hi: int): Option<nat>
    requires 0 <= lo && hi <= |oldCh|
    decreases hi - lo
  {
    if hi <= lo then None
    else if oldCh[lo].Kept? && SameVnode(v, oldCh[lo].v) then Some(lo)
    else FirstSame(oldCh, v, lo + 1, hi)
  }

  function Find(oldCh: seq<OldSlot>, v: VNode, m: map<string, nat>, os: int, oe: int): Lookup
    requires 0 <= os && oe <= |oldCh|
  {
    if v.key.Some? then LookUp(m, PropertyName(v.key.value))
    else match FirstSame(oldCh, v, os, oe) case Some(j) => Own(j) case None => Absent
  }

  // The four ends of the windows, upper ends inclusive.
  datatype Ends = Ends(os: int, oe: int, ns: int, ne: int)

  predicate Within(oldCh: seq<OldSlot>, vs: seq<VNode>, e: Ends) {
    0 <= e.os <= e.oe + 1 <= |oldCh| && 0 <= e.ns <= e.ne + 1 <= |vs|
  }

  predicate BothOpen(oldCh: seq<OldSlot>, vs: seq<VNode>, e: Ends) {
    Within(oldCh, vs, e) && e.os <= e.oe && e.ns <= e.ne
  }

  // The branches of the loop that compare the ends.
  function MatchedEnds(oldCh: seq<OldSlot>, vs: seq<VNode>, e: Ends): Option<Ends>
    requires BothOpen(oldCh, vs, e)
  {
    var a, b, c, d := oldCh[e.os], oldCh[e.oe], vs[e.ns], vs[e.ne];
    if a.Undefined? then Some(e.(os := e.os + 1))
    else if b.Undefined? then Some(e.(oe := e.oe - 1))
    else if SameVnode(a.v, c) then Some(e.(os := e.os + 1, ns := e.ns + 1))
    else if SameVnode(b.v, d) then Some(e.(oe := e.oe - 1, ne := e.ne - 1))
    else if SameVnode(a.v, d) then Some(e.(os := e.os + 1, ne := e.ne - 1))
    else if SameVnode(b.v, c) then Some(e.(oe := e.oe - 1, ns := e.ns + 1))
    else None
  }

  function IndexAt(oldCh: seq<OldSlot>, e: Ends, index: Option<map<string, nat>>): map<string, nat>
    requires 0 <= e.os <= e.oe < |oldCh|
  {
    if index.Some? then index.value else OwnSlots(oldCh, e.os, e.oe + 1)
  }

  /** The new vnode whose lookup throws, if there is one: what the code does to the vnodes alone, without
      any element. An index that is no number, or that of an old vnode moved away, selects undefined. */
  function Trips(oldCh: seq<OldSlot>, vs: seq<VNode>, e: Ends, index: Option<map<string, nat>>): Option<nat>
    requires Within(oldCh, vs, e)
    decreases e.oe - e.os + e.ne - e.ns
  {
    if !BothOpen(oldCh, vs, e) then None
    else match MatchedEnds(oldCh, vs, e)
      case Some(e') => Trips(oldCh, vs, e', index)
      case None =>
        var m := IndexAt(oldCh, e, index);
        match Find(oldCh, vs[e.ns], m, e.os, e.oe)
        case Inherited => Some(e.ns)
        case Absent => Trips(oldCh, vs, e.(ns := e.ns + 1), Some(m))
        case Own(j) =>
          if j >= |oldCh| || oldCh[j].Undefined? then Some(e.ns)
          else Trips(if SameVnode(oldCh[j].v, vs[e.ns]) then oldCh[j := Undefined] else oldCh, vs,
                     e.(ns := e.ns + 1), Some(m))
  }

  function TripsAt(oldCh: seq<OldSlot>, newCh: seq<NewSlot>): Option<nat> {
    Trips(oldCh, Vnodes(newCh), Ends(0, |oldCh| - 1, 0, |newCh| - 1), None)
  }

  /** The new vnode's name is inherited, and no old vnode's key makes a slot of its own for it. */
  predicate Unslotted(oldCh: seq<OldSlot>, v: VNode) {
    && v.key.Some? && PropertyName(v.key.value) in INHERITED
    && (PropertyName(v.key.value) == PROTO
        || forall j | 0 <= j < |oldCh| && oldCh[j].Kept? :: !SameProperty(oldCh[j].v, v))
  }

  // The new vnodes are the old ones over again.
  predicate Unchanged(oldCh: seq<OldSlot>, vs: seq<VNode>) {
    |oldCh| == |vs| && forall j | 0 <= j < |oldCh| :: oldCh[j].Kept? && oldCh[j].v == vs[j]
  }

  // The first `n` new vnodes have the elements of the old ones at their places.
  predicate InTurn(oldCh: seq<OldSlot>, newCh: seq<NewSlot>, n: int) {
    n <= |newCh| <= |oldCh| && forall i | 0 <= i < n :: oldCh[i].Kept? && newCh[i].elm == Some(oldCh[i].elm)
  }

  predicate InPlace(input: Input, old': seq<OldSlot>, new': seq<NewSlot>, e: Ends) {
    && old' == input.oldCh && |new'| == |old'| && e.os == e.ns && e.oe == e.ne == |old'| - 1
    && InTurn(old', new', e.os)
  }

  predicate HeadsMatch(oldCh: seq<OldSlot>, newCh: seq<NewSlot>, os: int, oe: int, ns: int) {
    && 0 <= os <= oe < |oldCh| && 0 <= ns < |newCh|
    && oldCh[os].Kept? && oldCh[oe].Kept? && SameVnode(oldCh[os].v, newCh[ns].v)
  }

  function HeadPatched(oldCh: seq<OldSlot>, newCh: seq<NewSlot>, os: int, ns: int): seq<NewSlot> {
    if 0 <= os < |oldCh| && 0 <= ns < |newCh| && oldCh[os].Kept? then Patched(newCh, ns, oldCh[os].elm) else newCh
  }

  // What a caller can see to, for the run not to throw.
  predicate NoInheritedKeys(newCh: seq<NewSlot>) {
    forall i | 0 <= i < |newCh| && newCh[i].v.key.Some? :: PropertyName(newCh[i].v.key.value) !in INHERITED
  }

  lemma UnslottedIsInherited(oldCh: seq<OldSlot>, newCh: seq<NewSlot>, i: nat)
    requires i < |newCh| && Unslotted(oldCh, newCh[i].v)
    ensures !NoInheritedKeys(newCh)
  {
  }

  lemma EndsTurn(oldCh: seq<OldSlot>, vs: seq<VNode>, e: Ends, index: Option<map<string, nat>>)
    requires BothOpen(oldCh, vs, e) && MatchedEnds(oldCh, vs, e).Some?
    ensures Within(oldCh, vs, MatchedEnds(oldCh, vs, e).value)
    ensures Trips(oldCh, vs, e, index) == Trips(oldCh, vs, MatchedEnds(oldCh, vs, e).value, index)
  {
  }

  lemma LookupTurn(oldCh: seq<OldSlot>, vs: seq<VNode>, e: Ends, index: Option<map<string, nat>>)
    requires BothOpen(oldCh, vs, e) && MatchedEnds(oldCh, vs, e).None?
    ensures var m := IndexAt(oldCh, e, index);
            var found := Find(oldCh, vs[e.ns], m, e.os, e.oe);
            && (found.Inherited? ==> Trips(oldCh, vs, e, index) == Some(e.ns))
            && (found.Absent? ==> Trips(oldCh, vs, e, index) == Trips(oldCh, vs, e.(ns := e.ns + 1), Some(m)))
            && (found.Own? && found.index < |oldCh| && oldCh[found.index].Kept? ==>
                  Trips(oldCh, vs, e, index)
                  == Trips(if SameVnode(oldCh[found.index].v, vs[e.ns]) then oldCh[found.index := Undefined] else oldCh,
                           vs, e.(ns := e.ns + 1), Some(m)))
  {
  }

  lemma NoTurn(oldCh: seq<OldSlot>, vs: seq<VNode>, e: Ends, index: Option<map<string, nat>>)
    requires Within(oldCh, vs, e) && !BothOpen(oldCh, vs, e)
    ensures Trips(oldCh, vs, e, index).None?
  {
  }

  /** A key no old vnode has, but every object inherits: the run throws at the first new vnode. */
  lemma InheritedKeyTrips(v: VNode)
    requires v.key.None?
    ensures var oldCh := [Kept(v.(key := Some(Text("a"))), 0)];
            var newCh := [NewSlot(v.(key := Some(Text("constructor"))), None)];
            TripsAt(oldCh, newCh) == Some(0)
  {
    var oldCh := [Kept(v.(key := Some(Text("a"))), 0)];
    var e := Ends(0, 0, 0, 0);
    assert OwnSlots(oldCh, 0, 0) == map[];
    assert OwnSlots(oldCh, 0, 1) == map["a" := 0];
  }

  /** Even a vnode that only moves: the key __proto__ is never in the index. */
  lemma ProtoKeyTrips(v: VNode)
    requires v.key.None?
    ensures var oldCh := [Kept(v.(key := Some(Text("a"))), 0), Kept(v.(key := Some(Text(PROTO))), 1),
                          Kept(v.(key := Some(Text("b"))), 2)];
            var newCh := [NewSlot(v.(key := Some(Text(PROTO))), None)];
            TripsAt(oldCh, newCh) == Some(0)
  {
    var oldCh := [Kept(v.(key := Some(Text("a"))), 0), Kept(v.(key := Some(Text(PROTO))), 1),
                  Kept(v.(key := Some(Text("b"))), 2)];
    assert OwnSlots(oldCh, 0, 0) == map[] && OwnSlots(oldCh, 0, 1) == map["a" := 0];
    assert OwnSlots(oldCh, 0, 2) == map["a" := 0];
    assert OwnSlots(oldCh, 0, 3) == map["a" := 0, "b" := 2];
  }

  // The four parts of a target around the element that a step touches.

  lemma PullLeft(l: seq<Elm>, a: seq<Elm>, e: Elm, b: seq<Elm>)
    requires Distinct(l + a + [e] + b) && a != []
    ensures Placed(l + a + [e] + b, e, Some(a[0])) == l + [e] + a + b
  {
    DistinctSplit(l + a, e, b);
    WithoutSplit(l + a, e, b);
    assert l + a + b == l + (a + b);
    assert a[0] in l + a + [e] + b;
    PlacedBetween(l + a + [e] + b, e, l, a + b);
    assert l + [e] + (a + b) == l + [e] + a + b;
  }

  lemma PushRight(l: seq<Elm>, e: Elm, a: seq<Elm>, r: seq<Elm>)
    requires Distinct(l + [e] + a + r)
    requires Head(r).Some? ==> Head(r).value in l + [e] + a + r
    ensures Placed(l + [e] + a + r, e, Head(r)) == l + a + [e] + r
  {
    assert l + [e] + a + r == l + [e] + (a + r);
    DistinctSplit(l, e, a + r);
    WithoutSplit(l, e, a + r);
    assert l + (a + r) == l + a + r;
    PlacedBetween(l + [e] + a + r, e, l + a, r);
  }

  lemma InsertFresh(s: seq<Elm>, l: seq<Elm>, e: Elm, r: seq<Elm>)
    requires s == l + r && Distinct(s) && e !in s
    requires Head(r).Some? ==> Head(r).value in s
    ensures Placed(s, e, Head(r)) == l + [e] + r
    ensures Distinct(l + [e] + r)
  {
    PlacedBetween(s, e, l, r);
    assert multiset(l + [e] + r) == multiset(s) + multiset{e};
  }

  lemma InsertBetween(l: seq<Elm>, e: Elm, m: seq<Elm>, r: seq<Elm>)
    requires Distinct(l + m + r) && e !in l + m + r && m != [] && m[0] in l + m + r
    ensures Placed(l + m + r, e, Some(m[0])) == l + [e] + m + r
  {
    assert l + m + r == l + (m + r);
    InsertFresh(l + m + r, l, e, m + r);
    assert l + [e] + (m + r) == l + [e] + m + r;
  }

  /** Moving a child keeps Shows, whether the DOM follows or removeOnly holds it back. */
  lemma ShowsMove(removeOnly: bool, children: seq<Elm>, t: seq<Elm>, e: Elm, ref: Option<Elm>)
    requires Shows(removeOnly, children, t) && e in t
    requires ref.Some? ==> ref.value in t && ref.value in children
    ensures Shows(removeOnly, if removeOnly then children else Placed(children, e, ref), Placed(t, e, ref))
  {
    PlacedMultiset(t, e, ref);
  }

  lemma ShowsInsert(removeOnly: bool, children: seq<Elm>, t: seq<Elm>, e: Elm, ref: Option<Elm>)
    requires Shows(removeOnly, children, t) && e !in t
    requires ref.Some? ==> ref.value in t && ref.value in children
    ensures Shows(removeOnly, Placed(children, e, ref), Placed(t, e, ref))
  {
    assert e !in children by {
      assert e !in multiset(t);
      assert removeOnly ==> e !in multiset(children);
    }
    PlacedMultiset(t, e, ref);
    PlacedMultiset(children, e, ref);
  }

  lemma DomMember(input: Input, t: seq<Elm>, children: seq<Elm>, nextElm: Elm, e: Elm)
    requires Dom(input, t, children, nextElm)
    ensures e in t <==> e in children
  {
    assert e in t <==> e in multiset(t);
    assert e in children <==> e in multiset(children);
  }

  lemma DomMove(input: Input, t: seq<Elm>, children: seq<Elm>, nextElm: Elm, e: Elm, ref: Option<Elm>)
    requires Dom(input, t, children, nextElm) && e in t
    requires ref.Some? ==> ref.value in t && ref.value in children
    ensures Dom(input, Placed(t, e, ref), if input.removeOnly then children else Placed(children, e, ref), nextElm)
  {
    ShowsMove(input.removeOnly, children, t, e, ref);
    PlacedMultiset(t, e, ref);
    forall x | x in Placed(t, e, ref) ensures x < nextElm {
      assert x in multiset(Placed(t, e, ref));
      assert x in t;
    }
  }

  lemma DomInsert(input: Input, t: seq<Elm>, children: seq<Elm>, nextElm: Elm, ref: Option<Elm>)
    requires Dom(input, t, children, nextElm)
    requires ref.Some? ==> ref.value in t && ref.value in children
    ensures Dom(input, Placed(t, nextElm, ref), Placed(children, nextElm, ref), nextElm + 1)
  {
    ShowsInsert(input.removeOnly, children, t, nextElm, ref);
    PlacedMultiset(t, nextElm, ref);
    forall x | x in Placed(t, nextElm, ref) ensures x < nextElm + 1 {
      assert x in multiset(Placed(t, nextElm, ref));
      assert x in t || x == nextElm;
    }
  }

  // How one step changes the target.

  lemma TargetAtHead(w: Windows)
    requires w.InRange() && w.os < w.oe
    ensures w.Target() == Elms(w.newCh[..w.ns]) + (if w.oldCh[w.os].Kept? then [w.oldCh[w.os].elm] else [])
                          + Remaining(w.oldCh[w.os + 1..w.oe]) + Elms(w.newCh[w.ne..])
  {
    RemainingSplit(w.oldCh, w.os, w.os, w.oe);
    assert w.oldCh[w.os..w.os] == [];
  }

  lemma TargetAtTail(w: Windows)
    requires w.InRange() && w.os < w.oe
    ensures w.Target() == Elms(w.newCh[..w.ns]) + Remaining(w.oldCh[w.os..w.oe - 1])
                          + (if w.oldCh[w.oe - 1].Kept? then [w.oldCh[w.oe - 1].elm] else []) + Elms(w.newCh[w.ne..])
  {
    RemainingSplit(w.oldCh, w.os, w.oe - 1, w.oe);
    assert w.oldCh[w.oe..w.oe] == [];
  }

  lemma NewAtHead(w: Windows, e: Elm, old': seq<OldSlot>, os': int, oe': int)
    requires w.InRange() && w.ns < w.ne && 0 <= os' <= oe' <= |old'|
    ensures Windows(old', Patched(w.newCh, w.ns, e), os', oe', w.ns + 1, w.ne).Target()
         == Elms(w.newCh[..w.ns]) + [e] + Remaining(old'[os'..oe']) + Elms(w.newCh[w.ne..])
  {
    PatchedElms(w.newCh, w.ns, e);
  }

  lemma NewAtTail(w: Windows, e: Elm, old': seq<OldSlot>, os': int, oe': int)
    requires w.InRange() && w.ns < w.ne && 0 <= os' <= oe' <= |old'|
    ensures Windows(old', Patched(w.newCh, w.ne - 1, e), os', oe', w.ns, w.ne - 1).Target()
         == Elms(w.newCh[..w.ns]) + Remaining(old'[os'..oe']) + [e] + Elms(w.newCh[w.ne..])
  {
    PatchedElms(w.newCh, w.ne - 1, e);
    assert Elms(w.newCh[..w.ns]) + Remaining(old'[os'..oe']) + ([e] + Elms(w.newCh[w.ne..]))
        == Elms(w.newCh[..w.ns]) + Remaining(old'[os'..oe']) + [e] + Elms(w.newCh[w.ne..]);
  }

  // How one step changes the nodes.

  lemma SkipNodes(input: Input, w: Windows, w': Windows)
    requires Nodes(input, w) && w.os < w.oe
    requires (w' == w.(os := w.os + 1) && w.oldCh[w.os].Undefined?)
          || (w' == w.(oe := w.oe - 1) && w.oldCh[w.oe - 1].Undefined?)
    ensures Nodes(input, w')
  {
  }

  // Old j was matched with new i: each is an end of its window, or old j is taken out of the middle.
  predicate Matched(w: Windows, w': Windows, i: int, j: int)
    requires w.InRange()
  {
    && w.ns <= i < w.ne && w.os <= j < w.oe && w.oldCh[j].Kept? && SameVnode(w.oldCh[j].v, w.newCh[i].v)
    && w'.newCh == Patched(w.newCh, i, w.oldCh[j].elm)
    && (|| (w'.ns == w.ns + 1 && w'.ne == w.ne && i == w.ns)
        || (w'.ns == w.ns && w'.ne == w.ne - 1 && i == w.ne - 1))
    && (|| (w'.oldCh == w.oldCh && w'.os == w.os + 1 && w'.oe == w.oe && j == w.os)
        || (w'.oldCh == w.oldCh && w'.os == w.os && w'.oe == w.oe - 1 && j == w.oe - 1)
        || (w'.oldCh == w.oldCh[j := Undefined] && w'.os == w.os && w'.oe == w.oe))
  }

  lemma MatchFinished(input: Input, w: Windows, w': Windows, i: int, j: int)
    requires Nodes(input, w) && Matched(w, w', i, j)
    ensures FinishedRight(input, w')
  {
    var e := w.oldCh[j].elm;
    assert FromOld(input, input.newCh[i].v, e);
    if UniqueOldKeys(input.oldCh) && input.newCh[i].v.key.Some? {
      forall k | 0 <= k < |input.oldCh| && input.oldCh[k].Kept? && SameVnode(input.oldCh[k].v, input.newCh[i].v)
        ensures input.oldCh[k].elm == e
      {
        assert SameProperty(input.oldCh[k].v, input.oldCh[j].v);
        assert SameProperty(input.oldCh[j].v, input.oldCh[k].v);
        assert !(k < j) && !(j < k);
      }
      assert Reuses(input, input.newCh[i].v, e);
    }
    assert forall n | 0 <= n < |w.newCh| && w'.Done(n) :: n == i || w.Done(n);
  }

  lemma DistinctProperties(newCh: seq<NewSlot>, i: int, n: int)
    requires UniqueKeys(newCh) && 0 <= i < |newCh| && 0 <= n < |newCh| && i != n
    ensures !SameProperty(newCh[i].v, newCh[n].v)
  {
    assert !SameProperty(newCh[if i < n then i else n].v, newCh[if i < n then n else i].v);
  }

  lemma MatchWaiting(input: Input, w: Windows, w': Windows, i: int, j: int)
    requires Nodes(input, w) && Matched(w, w', i, j)
    ensures CounterpartsWait(input, w')
  {
    forall n, k | 0 <= n < |w.newCh| && !w'.Done(n) && 0 <= k < |input.oldCh| && input.oldCh[k].Kept?
                  && SameProperty(input.oldCh[k].v, input.newCh[n].v)
      ensures w'.os <= k < w'.oe && w'.oldCh[k] == input.oldCh[k]
    {
      assert !w.Done(n) && n != i;
      DistinctProperties(input.newCh, i, n);
    }
  }

  lemma MatchNodes(input: Input, w: Windows, w': Windows, i: int, j: int)
    requires Nodes(input, w) && Matched(w, w', i, j)
    ensures Nodes(input, w')
  {
    MatchFinished(input, w, w', i, j);
    MatchWaiting(input, w, w', i, j);
  }

  lemma CreateNodes(input: Input, w: Windows, e: Elm)
    requires Nodes(input, w) && w.ns < w.ne && input.firstFresh <= e
    requires UniqueOldKeys(input.oldCh) && w.newCh[w.ns].v.key.Some? ==>
      forall j | 0 <= j < |input.oldCh| :: !SameVnode(input.oldCh[j].v, w.newCh[w.ns].v)
    ensures Nodes(input, w.(newCh := Patched(w.newCh, w.ns, e), ns := w.ns + 1))
  {
    var w' := w.(newCh := Patched(w.newCh, w.ns, e), ns := w.ns + 1);
    assert UniqueOldKeys(input.oldCh) && w.newCh[w.ns].v.key.Some? ==> Reuses(input, input.newCh[w.ns].v, e);
    assert forall n | 0 <= n < |w.newCh| && w'.Done(n) :: n == w.ns || w.Done(n);
  }

  // One lemma per branch of the loop.

  lemma SkipHead(input: Input, w: Windows, children: seq<Elm>, nextElm: Elm)
    requires Inv(input, w, children, nextElm) && w.os < w.oe && w.oldCh[w.os].Undefined?
    ensures Inv(input, w.(os := w.os + 1), children, nextElm)
  {
    SkipNodes(input, w, w.(os := w.os + 1));
    TargetAtHead(w);
    assert w.(os := w.os + 1).Target() == w.Target();
  }

  lemma SkipTail(input: Input, w: Windows, children: seq<Elm>, nextElm: Elm)
    requires Inv(input, w, children, nextElm) && w.os < w.oe && w.oldCh[w.oe - 1].Undefined?
    ensures Inv(input, w.(oe := w.oe - 1), children, nextElm)
  {
    SkipNodes(input, w, w.(oe := w.oe - 1));
    TargetAtTail(w);
    assert w.(oe := w.oe - 1).Target() == w.Target();
  }

  lemma MatchHeads(input: Input, w: Windows, w': Windows, children: seq<Elm>, nextElm: Elm)
    requires Inv(input, w, children, nextElm) && w.os < w.oe && w.ns < w.ne
    requires w.oldCh[w.os].Kept? && SameVnode(w.oldCh[w.os].v, w.newCh[w.ns].v)
    requires w' == w.(newCh := Patched(w.newCh, w.ns, w.oldCh[w.os].elm), os := w.os + 1, ns := w.ns + 1)
    ensures Inv(input, w', children, nextElm)
  {
    MatchNodes(input, w, w', w.ns, w.os);
    TargetAtHead(w);
    NewAtHead(w, w.oldCh[w.os].elm, w.oldCh, w.os + 1, w.oe);
  }

  lemma MatchTails(input: Input, w: Windows, w': Windows, children: seq<Elm>, nextElm: Elm)
    requires Inv(input, w, children, nextElm) && w.os < w.oe && w.ns < w.ne
    requires w.oldCh[w.oe - 1].Kept? && SameVnode(w.oldCh[w.oe - 1].v, w.newCh[w.ne - 1].v)
    requires w' == w.(newCh := Patched(w.newCh, w.ne - 1, w.oldCh[w.oe - 1].elm), oe := w.oe - 1, ne := w.ne - 1)
    ensures Inv(input, w', children, nextElm)
  {
    MatchNodes(input, w, w', w.ne - 1, w.oe - 1);
    MatchTailsTarget(w, w');
  }

  lemma MatchTailsTarget(w: Windows, w': Windows)
    requires w.InRange() && w.os < w.oe && w.ns < w.ne && w.oldCh[w.oe - 1].Kept?
    requires w' == w.(newCh := Patched(w.newCh, w.ne - 1, w.oldCh[w.oe - 1].elm), oe := w.oe - 1, ne := w.ne - 1)
    ensures w'.Target() == w.Target()
  {
    TargetAtTail(w);
    NewAtTail(w, w.oldCh[w.oe - 1].elm, w.oldCh, w.os, w.oe - 1);
  }

  lemma FirstIsChild(input: Input, w: Windows, children: seq<Elm>, nextElm: Elm)
    requires Inv(input, w, children, nextElm) && w.os < w.oe && w.oldCh[w.os].Kept?
    ensures w.oldCh[w.os].elm in children && w.oldCh[w.os].elm in w.Target()
  {
    TargetAtHead(w);
    DomMember(input, w.Target(), children, nextElm, w.oldCh[w.os].elm);
  }

  lemma LastIsChild(input: Input, w: Windows, children: seq<Elm>, nextElm: Elm)
    requires Inv(input, w, children, nextElm) && w.os < w.oe && w.oldCh[w.oe - 1].Kept?
    ensures w.oldCh[w.oe - 1].elm in children
  {
    TargetAtTail(w);
    DomMember(input, w.Target(), children, nextElm, w.oldCh[w.oe - 1].elm);
  }

  /** The element after the last remaining old one heads the finished tail. */
  lemma AfterLast(input: Input, w: Windows, children: seq<Elm>, nextElm: Elm)
    requires Inv(input, w, children, nextElm) && w.os < w.oe && w.oldCh[w.oe - 1].Kept? && !input.removeOnly
    ensures w.oldCh[w.oe - 1].elm in children
    ensures Following(children, w.oldCh[w.oe - 1].elm) == Head(Elms(w.newCh[w.ne..]))
  {
    TargetAtTail(w);
    var a, e := Elms(w.newCh[..w.ns]) + Remaining(w.oldCh[w.os..w.oe - 1]), w.oldCh[w.oe - 1].elm;
    DistinctSplit(a, e, Elms(w.newCh[w.ne..]));
    IndexOfSplit(a, e, Elms(w.newCh[w.ne..]));
  }

  /** The first remaining child goes in front of whatever follows the last remaining one. */
  lemma MoveRight(input: Input, w: Windows, w': Windows, children: seq<Elm>, nextElm: Elm, ref: Option<Elm>)
    requires Inv(input, w, children, nextElm) && w.os < w.oe - 1 && w.ns < w.ne
    requires w.oldCh[w.os].Kept? && w.oldCh[w.oe - 1].Kept? && SameVnode(w.oldCh[w.os].v, w.newCh[w.ne - 1].v)
    requires w' == w.(newCh := Patched(w.newCh, w.ne - 1, w.oldCh[w.os].elm), os := w.os + 1, ne := w.ne - 1)
    requires ref.Some? ==> ref.value in children
    requires ref == Head(Elms(w.newCh[w.ne..]))
    ensures Inv(input, w', if input.removeOnly then children else Placed(children, w.oldCh[w.os].elm, ref), nextElm)
  {
    var e := w.oldCh[w.os].elm;
    MatchNodes(input, w, w', w.ne - 1, w.os);
    TargetAtHead(w);
    NewAtTail(w, e, w.oldCh, w.os + 1, w.oe);
    var l, a, r := Elms(w.newCh[..w.ns]), Remaining(w.oldCh[w.os + 1..w.oe]), Elms(w.newCh[w.ne..]);
    PushRight(l, e, a, r);
    if ref.Some? { DomMember(input, w.Target(), children, nextElm, ref.value); }
    DomMove(input, w.Target(), children, nextElm, e, ref);
  }

  lemma MoveLeft(input: Input, w: Windows, w': Windows, children: seq<Elm>, nextElm: Elm)
    requires Inv(input, w, children, nextElm) && w.os < w.oe - 1 && w.ns < w.ne
    requires w.oldCh[w.os].Kept? && w.oldCh[w.oe - 1].Kept? && SameVnode(w.oldCh[w.oe - 1].v, w.newCh[w.ns].v)
    requires w' == w.(newCh := Patched(w.newCh, w.ns, w.oldCh[w.oe - 1].elm), oe := w.oe - 1, ns := w.ns + 1)
    ensures w.oldCh[w.os].elm in children
    ensures Inv(input, w', if input.removeOnly then children
                           else Placed(children, w.oldCh[w.oe - 1].elm, Some(w.oldCh[w.os].elm)), nextElm)
  {
    var e := w.oldCh[w.oe - 1].elm;
    MatchNodes(input, w, w', w.ns, w.oe - 1);
    FirstIsChild(input, w, children, nextElm);
    MoveLeftTarget(w, w');
    DomMove(input, w.Target(), children, nextElm, e, Some(w.oldCh[w.os].elm));
  }

  lemma MoveLeftTarget(w: Windows, w': Windows)
    requires w.InRange() && w.os < w.oe - 1 && w.ns < w.ne && Distinct(w.Target())
    requires w.oldCh[w.os].Kept? && w.oldCh[w.oe - 1].Kept? && w.oldCh[w.os].elm in w.Target()
    requires w' == w.(newCh := Patched(w.newCh, w.ns, w.oldCh[w.oe - 1].elm), oe := w.oe - 1, ns := w.ns + 1)
    ensures w.oldCh[w.oe - 1].elm in w.Target()
    ensures w'.Target() == Placed(w.Target(), w.oldCh[w.oe - 1].elm, Some(w.oldCh[w.os].elm))
  {
    TargetAtTail(w);
    NewAtHead(w, w.oldCh[w.oe - 1].elm, w.oldCh, w.os, w.oe - 1);
    RemainingHead(w.oldCh, w.os, w.oe - 1);
    PullLeft(Elms(w.newCh[..w.ns]), Remaining(w.oldCh[w.os..w.oe - 1]), w.oldCh[w.oe - 1].elm, Elms(w.newCh[w.ne..]));
  }

  lemma RemainingHead(oldCh: seq<OldSlot>, lo: int, hi: int)
    requires 0 <= lo < hi <= |oldCh| && oldCh[lo].Kept?
    ensures Head(Remaining(oldCh[lo..hi])) == Some(oldCh[lo].elm)
  {
    RemainingSplit(oldCh, lo, lo, hi);
    assert oldCh[lo..lo] == [];
  }

  lemma TargetAtMiddle(w: Windows, i: int)
    requires w.InRange() && w.os <= i < w.oe && w.oldCh[i].Kept?
    ensures w.Target() == Elms(w.newCh[..w.ns]) + Remaining(w.oldCh[w.os..i]) + [w.oldCh[i].elm]
                          + (Remaining(w.oldCh[i + 1..w.oe]) + Elms(w.newCh[w.ne..]))
    ensures Remaining(w.oldCh[i := Undefined][w.os..w.oe])
         == Remaining(w.oldCh[w.os..i]) + Remaining(w.oldCh[i + 1..w.oe])
  {
    RemainingSplit(w.oldCh, w.os, i, w.oe);
    RemainingWithout(w.oldCh, w.os, i, w.oe);
  }

  lemma RemainingWithout(oldCh: seq<OldSlot>, lo: int, i: int, hi: int)
    requires 0 <= lo <= i < hi <= |oldCh|
    ensures Remaining(oldCh[i := Undefined][lo..hi]) == Remaining(oldCh[lo..i]) + Remaining(oldCh[i + 1..hi])
  {
    var old' := oldCh[i := Undefined];
    RemainingSplit(old', lo, i, hi);
    assert old'[lo..i] == oldCh[lo..i] && old'[i + 1..hi] == oldCh[i + 1..hi];
  }

  lemma MoveMiddleTarget(w: Windows, w': Windows, i: int)
    requires w.InRange() && w.os < i < w.oe && w.ns < w.ne && Distinct(w.Target())
    requires w.oldCh[w.os].Kept? && w.oldCh[i].Kept? && w.oldCh[w.os].elm in w.Target()
    requires w' == w.(oldCh := w.oldCh[i := Undefined],
                      newCh := Patched(w.newCh, w.ns, w.oldCh[i].elm), ns := w.ns + 1)
    ensures w.oldCh[i].elm in w.Target()
    ensures w'.Target() == Placed(w.Target(), w.oldCh[i].elm, Some(w.oldCh[w.os].elm))
  {
    var e := w.oldCh[i].elm;
    TargetAtMiddle(w, i);
    NewAtHead(w, e, w'.oldCh, w.os, w.oe);
    RemainingHead(w.oldCh, w.os, i);
    var l, a := Elms(w.newCh[..w.ns]), Remaining(w.oldCh[w.os..i]);
    var b, r := Remaining(w.oldCh[i + 1..w.oe]), Elms(w.newCh[w.ne..]);
    assert w.Target() == l + a + [e] + (b + r);
    PullLeft(l, a, e, b + r);
    Regroup(l + [e], a, b, r);
  }

  lemma Regroup(x: seq<Elm>, a: seq<Elm>, b: seq<Elm>, r: seq<Elm>)
    ensures x + a + (b + r) == x + (a + b) + r
  {
  }

  lemma MoveMiddle(input: Input, w: Windows, w': Windows, children: seq<Elm>, nextElm: Elm, i: int)
    requires Inv(input, w, children, nextElm) && w.os < i < w.oe && w.ns < w.ne
    requires w.oldCh[w.os].Kept? && w.oldCh[i].Kept? && SameVnode(w.oldCh[i].v, w.newCh[w.ns].v)
    requires w' == w.(oldCh := w.oldCh[i := Undefined],
                      newCh := Patched(w.newCh, w.ns, w.oldCh[i].elm), ns := w.ns + 1)
    ensures w.oldCh[w.os].elm in children
    ensures Inv(input, w', if input.removeOnly then children
                           else Placed(children, w.oldCh[i].elm, Some(w.oldCh[w.os].elm)), nextElm)
  {
    var e := w.oldCh[i].elm;
    MatchNodes(input, w, w', w.ns, i);
    FirstIsChild(input, w, children, nextElm);
    MoveMiddleTarget(w, w', i);
    DomMove(input, w.Target(), children, nextElm, e, Some(w.oldCh[w.os].elm));
  }

  lemma CreateHeadTarget(w: Windows, w': Windows, e: Elm)
    requires w.InRange() && w.os < w.oe && w.ns < w.ne && Distinct(w.Target()) && e !in w.Target()
    requires w.oldCh[w.os].Kept? && w.oldCh[w.os].elm in w.Target()
    requires w' == w.(newCh := Patched(w.newCh, w.ns, e), ns := w.ns + 1)
    ensures w'.Target() == Placed(w.Target(), e, Some(w.oldCh[w.os].elm))
  {
    NewAtHead(w, e, w.oldCh, w.os, w.oe);
    RemainingHead(w.oldCh, w.os, w.oe);
    InsertBetween(Elms(w.newCh[..w.ns]), e, Remaining(w.oldCh[w.os..w.oe]), Elms(w.newCh[w.ne..]));
  }

  lemma CreateHead(input: Input, w: Windows, w': Windows, children: seq<Elm>, nextElm: Elm)
    requires Inv(input, w, children, nextElm) && w.os < w.oe && w.ns < w.ne
    requires w.oldCh[w.os].Kept?
    requires UniqueOldKeys(input.oldCh) && w.newCh[w.ns].v.key.Some? ==>
      forall j | 0 <= j < |input.oldCh| :: !SameVnode(input.oldCh[j].v, w.newCh[w.ns].v)
    requires w' == w.(newCh := Patched(w.newCh, w.ns, nextElm), ns := w.ns + 1)
    ensures w.oldCh[w.os].elm in children
    ensures Inv(input, w', Placed(children, nextElm, Some(w.oldCh[w.os].elm)), nextElm + 1)
  {
    CreateNodes(input, w, nextElm);
    FirstIsChild(input, w, children, nextElm);
    CreateHeadTarget(w, w', nextElm);
    DomInsert(input, w.Target(), children, nextElm, Some(w.oldCh[w.os].elm));
  }

  // After the loop one of the two windows is empty.

  lemma AddOne(input: Input, w: Windows, w': Windows, children: seq<Elm>, nextElm: Elm, ref: Option<Elm>)
    requires Inv(input, w, children, nextElm) && w.os == w.oe && w.ns < w.ne
    requires ref == Head(Elms(w.newCh[w.ne..]))
    requires w' == w.(newCh := Patched(w.newCh, w.ns, nextElm), ns := w.ns + 1)
    ensures ref.Some? ==> ref.value in children
    ensures Inv(input, w', Placed(children, nextElm, ref), nextElm + 1)
    ensures ref == Head(Elms(w'.newCh[w'.ne..]))
  {
    CreateNodes(input, w, nextElm) by {
      assert forall j | 0 <= j < |input.oldCh| && w.newCh[w.ns].v.key.Some? ::
          SameVnode(input.oldCh[j].v, w.newCh[w.ns].v) ==> SameProperty(input.oldCh[j].v, w.newCh[w.ns].v);
    }
    if ref.Some? { DomMember(input, w.Target(), children, nextElm, ref.value); }
    AddOneTarget(w, w', nextElm, ref);
    DomInsert(input, w.Target(), children, nextElm, ref);
    PatchedElms(w.newCh, w.ns, nextElm);
  }

  lemma AddOneTarget(w: Windows, w': Windows, e: Elm, ref: Option<Elm>)
    requires w.InRange() && w.os == w.oe && w.ns < w.ne && Distinct(w.Target()) && e !in w.Target()
    requires ref == Head(Elms(w.newCh[w.ne..])) && (ref.Some? ==> ref.value in w.Target())
    requires w' == w.(newCh := Patched(w.newCh, w.ns, e), ns := w.ns + 1)
    ensures w'.Target() == Placed(w.Target(), e, ref)
  {
    NewAtHead(w, e, w.oldCh, w.os, w.oe);
    var l, r := Elms(w.newCh[..w.ns]), Elms(w.newCh[w.ne..]);
    assert Remaining(w.oldCh[w.os..w.oe]) == [];
    assert w.Target() == l + r && w'.Target() == l + [e] + r;
    InsertFresh(w.Target(), l, e, r);
  }

  lemma RemoveOne(input: Input, w: Windows, children: seq<Elm>, nextElm: Elm)
    requires Inv(input, w, children, nextElm) && w.os < w.oe && w.ns == w.ne && w.oldCh[w.os].Kept?
    ensures w.oldCh[w.os].elm in children
    ensures Inv(input, w.(os := w.os + 1), Without(children, w.oldCh[w.os].elm), nextElm)
  {
    var e, w' := w.oldCh[w.os].elm, w.(os := w.os + 1);
    FirstIsChild(input, w, children, nextElm);
    RemoveOneTarget(w, w');
    RemoveOneNodes(input, w);
    DomRemove(input, w.Target(), children, nextElm, e);
  }

  lemma RemoveOneNodes(input: Input, w: Windows)
    requires Nodes(input, w) && w.os < w.oe && w.ns == w.ne
    ensures Nodes(input, w.(os := w.os + 1))
  {
  }

  lemma DomRemove(input: Input, t: seq<Elm>, children: seq<Elm>, nextElm: Elm, e: Elm)
    requires Dom(input, t, children, nextElm) && Distinct(Without(t, e))
    ensures Dom(input, Without(t, e), Without(children, e), nextElm)
  {
    WithoutMultiset(t, e);
    WithoutMultiset(children, e);
    forall x | x in Without(t, e) ensures x < nextElm {
      assert x in multiset(Without(t, e));
      assert x in multiset(t);
      assert x in t;
    }
  }

  lemma RemoveOneTarget(w: Windows, w': Windows)
    requires w.InRange() && w.os < w.oe && w.oldCh[w.os].Kept? && Distinct(w.Target())
    requires w' == w.(os := w.os + 1)
    ensures w'.Target() == Without(w.Target(), w.oldCh[w.os].elm) && Distinct(w'.Target())
  {
    var e := w.oldCh[w.os].elm;
    TargetAtHead(w);
    var l, r := Elms(w.newCh[..w.ns]), Remaining(w.oldCh[w.os + 1..w.oe]) + Elms(w.newCh[w.ne..]);
    assert w.Target() == l + [e] + r && w'.Target() == l + r;
    DistinctSplit(l, e, r);
    WithoutSplit(l, e, r);
  }

  method CreateKeyToOldIdx(oldCh: array<OldSlot>, beginIdx: int, endIdx: int) returns (m: map<string, nat>)
    requires 0 <= beginIdx <= endIdx + 1 <= oldCh.Length
    requires forall j | beginIdx <= j <= endIdx :: oldCh[j].Kept?
    ensures m == OwnSlots(oldCh[..], beginIdx, endIdx + 1)
    ensures forall k | k in m :: beginIdx <= m[k] <= endIdx && oldCh[m[k]].v.key.Some?
                                 && PropertyName(oldCh[m[k]].v.key.value) == k != PROTO
    ensures forall j | beginIdx <= j <= endIdx && oldCh[j].v.key.Some? ::
              PropertyName(oldCh[j].v.key.value) == PROTO
              || (PropertyName(oldCh[j].v.key.value) in m && j <= m[PropertyName(oldCh[j].v.key.value)])
  {
    m := map[];
    for i := beginIdx to endIdx + 1
      invariant m == OwnSlots(oldCh[..], beginIdx, i)
      invariant forall k | k in m :: beginIdx <= m[k] < i && oldCh[m[k]].v.key.Some?
                                     && PropertyName(oldCh[m[k]].v.key.value) == k != PROTO
      invariant forall j | beginIdx <= j < i && oldCh[j].v.key.Some? ::
                  PropertyName(oldCh[j].v.key.value) == PROTO
                  || (PropertyName(oldCh[j].v.key.value) in m && j <= m[PropertyName(oldCh[j].v.key.value)])
    {
      var key := oldCh[i].v.key;
      // The setter of __proto__ ignores a number.
      if key.Some? && PropertyName(key.value) != PROTO {
        m := m[PropertyName(key.value) := i];
      }
    }
  }

  // The search leaves out the last index: that vnode was already compared.
  method FindIdxInOld(node: VNode, oldCh: array<OldSlot>, start: int, end: int) returns (r: Option<nat>)
    requires 0 <= start <= end <= oldCh.Length
    ensures r.Some? ==> start <= r.value < end && oldCh[r.value].Kept? && SameVnode(node, oldCh[r.value].v)
    ensures forall j | start <= j < (if r.Some? then r.value else end) ::
              oldCh[j].Kept? ==> !SameVnode(node, oldCh[j].v)
    ensures r == FirstSame(oldCh[..], node, start, end)
  {
    for i := start to end
      invariant FirstSame(oldCh[..], node, start, end) == FirstSame(oldCh[..], node, i, end)
      invariant forall j | start <= j < i :: oldCh[j].Kept? ==> !SameVnode(node, oldCh[j].v)
    {
      if oldCh[i].Kept? && SameVnode(node, oldCh[i].v) {
        return Some(i);
      }
    }
    return None;
  }

  // createElm overwrites a copy when the vnode had an element already, so the slot's element is fresh.
  method CreateElm(parent: Parent, newCh: array<NewSlot>, i: int, refElm: Option<Elm>)
    requires 0 <= i < newCh.Length && (refElm.Some? ==> refElm.value in parent.children)
    modifies parent, newCh
    ensures newCh[..] == Patched(old(newCh[..]), i, old(parent.nextElm)) && Vnodes(newCh[..]) == Vnodes(old(newCh[..]))
    ensures parent.nextElm == old(parent.nextElm) + 1
    ensures parent.children == Placed(old(parent.children), old(parent.nextElm), refElm)
  {
    var e := parent.CreateElement();
    newCh[i] := newCh[i].(elm := Some(e));
    parent.InsertBefore(e, refElm);
  }

  method PatchVnode(elm: Elm, newCh: array<NewSlot>, i: int)
    requires 0 <= i < newCh.Length
    modifies newCh
    ensures newCh[..] == Patched(old(newCh[..]), i, elm) && Vnodes(newCh[..]) == Vnodes(old(newCh[..]))
  {
    newCh[i] := newCh[i].(elm := Some(elm));
  }

  method AddVnodes(ghost input: Input, parent: Parent, refElm: Option<Elm>, ghost oldCh: seq<OldSlot>, ghost os: int,
                   newCh: array<NewSlot>, startIdx: int, endIdx: int)
    requires Windows(oldCh, newCh[..], os, os, startIdx, endIdx + 1).InRange()
    requires Inv(input, Windows(oldCh, newCh[..], os, os, startIdx, endIdx + 1), parent.children, parent.nextElm)
    requires startIdx <= endIdx ==> refElm == Head(Elms(newCh[..][endIdx + 1..]))
    modifies parent, newCh
    ensures Windows(oldCh, newCh[..], os, os, endIdx + 1, endIdx + 1).InRange()
    ensures Inv(input, Windows(oldCh, newCh[..], os, os, endIdx + 1, endIdx + 1), parent.children, parent.nextElm)
    ensures startIdx > endIdx ==>
              newCh[..] == old(newCh[..]) && parent.children == old(parent.children)
              && parent.nextElm == old(parent.nextElm)
  {
    hide Inv, SameVnode, Elms, Remaining, Placed, Patched;
    for i := startIdx to endIdx + 1
      invariant startIdx > endIdx ==>
                  newCh[..] == old(newCh[..]) && parent.children == old(parent.children)
                  && parent.nextElm == old(parent.nextElm)
      invariant Windows(oldCh, newCh[..], os, os, i, endIdx + 1).InRange()
      invariant Inv(input, Windows(oldCh, newCh[..], os, os, i, endIdx + 1), parent.children, parent.nextElm)
      invariant i <= endIdx ==> refElm == Head(Elms(newCh[..][endIdx + 1..]))
    {
      ghost var w := Windows(oldCh, newCh[..], os, os, i, endIdx + 1);
      assert |w.newCh[endIdx + 1..]| <= |w.newCh|;
      AddOne(input, w, w.(newCh := Patched(w.newCh, i, parent.nextElm), ns := i + 1),
             parent.children, parent.nextElm, refElm);
      CreateElm(parent, newCh, i, refElm);
    }
  }

  method RemoveVnodes(ghost input: Input, parent: Parent, ghost newCh: seq<NewSlot>, ghost ns: int,
                      oldCh: array<OldSlot>, startIdx: int, endIdx: int)
    requires Windows(oldCh[..], newCh, startIdx, endIdx + 1, ns, ns).InRange()
    requires Inv(input, Windows(oldCh[..], newCh, startIdx, endIdx + 1, ns, ns), parent.children, parent.nextElm)
    modifies parent
    ensures Inv(input, Windows(oldCh[..], newCh, endIdx + 1, endIdx + 1, ns, ns), parent.children, parent.nextElm)
  {
    hide Inv, SameVnode, Elms, Remaining, Placed, Patched;
    for i := startIdx to endIdx + 1
      invariant Inv(input, Windows(oldCh[..], newCh, i, endIdx + 1, ns, ns), parent.children, parent.nextElm)
    {
      ghost var w := Windows(oldCh[..], newCh, i, endIdx + 1, ns, ns);
      var ch := oldCh[i];
      if ch.Kept? {
        RemoveOne(input, w, parent.children, parent.nextElm);
        parent.RemoveChild(ch.elm);
      } else {
        SkipHead(input, w, parent.children, parent.nextElm);
      }
    }
  }

  lemma IndexShrinks(input: Input, old': seq<OldSlot>, os: int, oe: int, os': int, oe': int,
                     keyToIdx: Option<map<string, nat>>)
    requires 0 <= os <= os' <= oe' <= oe <= |old'| && IndexRight(input, old', os, oe, keyToIdx)
    ensures IndexRight(input, old', os', oe', keyToIdx)
  {
  }

  lemma IndexAfterMove(input: Input, old': seq<OldSlot>, os: int, oe: int, m: map<string, nat>, i: int)
    requires 0 <= os <= oe <= |old'| && 0 <= i < |old'| && IndexRight(input, old', os, oe, Some(m))
    ensures IndexRight(input, old'[i := Undefined], os, oe, Some(m))
  {
  }

  /** Where an unfinished new vnode's key points: a remaining old vnode with that key, if there is one. */
  lemma LookupRight(input: Input, w: Windows, m: map<string, nat>, i: int)
    requires Nodes(input, w) && IndexRight(input, w.oldCh, w.os, w.oe, Some(m))
    requires w.ns <= i < w.ne && w.newCh[i].v.key.Some?
    ensures var k := PropertyName(w.newCh[i].v.key.value);
            match LookUp(m, k)
            case Own(j) => w.os <= j < w.oe && w.oldCh[j].Kept? && w.oldCh[j] == input.oldCh[j]
            case Inherited => Unslotted(input.oldCh, w.newCh[i].v)
            case Absent => forall j | 0 <= j < |input.oldCh| :: !SameVnode(input.oldCh[j].v, w.newCh[i].v)
    ensures var k := PropertyName(w.newCh[i].v.key.value);
            k in m && UniqueOldKeys(input.oldCh) && !SameVnode(w.oldCh[m[k]].v, w.newCh[i].v) ==>
              forall j | 0 <= j < |input.oldCh| :: !SameVnode(input.oldCh[j].v, w.newCh[i].v)
  {
    var v := w.newCh[i].v;
    var k := PropertyName(v.key.value);
    if k in m {
      assert SameProperty(input.oldCh[m[k]].v, input.newCh[i].v);
      if UniqueOldKeys(input.oldCh) {
        forall j | 0 <= j < |input.oldCh| && j != m[k] ensures !SameVnode(input.oldCh[j].v, v) {
          assert !SameProperty(input.oldCh[if j < m[k] then j else m[k]].v, input.oldCh[if j < m[k] then m[k] else j].v);
        }
      }
    } else if k != PROTO {
      forall j | 0 <= j < |input.oldCh| ensures !SameProperty(input.oldCh[j].v, v) {
        assert SameProperty(input.oldCh[j].v, input.newCh[i].v) ==> w.os <= j < w.oe;
      }
    }
  }

  /** What the diff promises: the children are the new vnodes' elements, in order unless moving was
      forbidden, and elements of same-vnode old vnodes are reused. */
  ghost predicate Showing(input: Input, newCh: seq<NewSlot>, children: seq<Elm>) {
    && |newCh| == |input.newCh|
    && (forall i | 0 <= i < |newCh| :: newCh[i].v == input.newCh[i].v && newCh[i].elm.Some?)
    && (!input.removeOnly ==> children == Elms(newCh))
    && multiset(children) == multiset(Elms(newCh)) && Distinct(Elms(newCh))
    && (UniqueOldKeys(input.oldCh) ==>
          forall i, j | 0 <= i < |newCh| && 0 <= j < |input.oldCh| && input.oldCh[j].Kept? && newCh[i].v.key.Some?
                        && SameVnode(input.oldCh[j].v, newCh[i].v) ::
            newCh[i].elm == Some(input.oldCh[j].elm))
    && (forall i | 0 <= i < |newCh| && newCh[i].elm.value < input.firstFresh ::
          FromOld(input, newCh[i].v, newCh[i].elm.value))
  }

  /** Both windows empty: the children are the new elements. */
  lemma Finished(input: Input, w: Windows, children: seq<Elm>, nextElm: Elm)
    requires Inv(input, w, children, nextElm) && w.os == w.oe && w.ns == w.ne
    ensures Showing(input, w.newCh, children)
  {
    assert w.oldCh[w.os..w.oe] == [];
    assert w.newCh[..w.ns] + w.newCh[w.ne..] == w.newCh;
    assert w.Target() == Elms(w.newCh);
    assert forall i | 0 <= i < |w.newCh| :: w.Done(i);
    forall i, j | UniqueOldKeys(input.oldCh) && 0 <= i < |w.newCh| && 0 <= j < |input.oldCh|
                  && w.newCh[i].v.key.Some? && SameVnode(input.oldCh[j].v, w.newCh[i].v)
      ensures w.newCh[i].elm == Some(input.oldCh[j].elm)
    {
      assert Reuses(input, input.newCh[i].v, w.newCh[i].elm.value);
    }
  }

  method FindOld(ghost input: Input, ghost w: Windows, parent: Parent, oldCh: array<OldSlot>, node: VNode,
                 keyToIdx: map<string, nat>, oldStartIdx: int, oldEndIdx: int) returns (idxInOld: Lookup)
    requires w.InRange() && Inv(input, w, parent.children, parent.nextElm) && w.ns < w.ne
    requires IndexRight(input, w.oldCh, w.os, w.oe, Some(keyToIdx))
    requires w.oldCh == oldCh[..] && node == w.newCh[w.ns].v
    requires w.os == oldStartIdx <= oldEndIdx == w.oe - 1
    ensures idxInOld == Find(oldCh[..], node, keyToIdx, oldStartIdx, oldEndIdx)
    ensures idxInOld.Own? ==>
              w.os <= idxInOld.index < w.oe && idxInOld.index < oldCh.Length && oldCh[idxInOld.index].Kept?
    ensures idxInOld.Inherited? ==> Unslotted(input.oldCh, node)
    ensures (idxInOld.Absent? || (idxInOld.Own? && !SameVnode(oldCh[idxInOld.index].v, node)))
            && UniqueOldKeys(input.oldCh) && node.key.Some? ==>
              forall j | 0 <= j < |input.oldCh| :: !SameVnode(input.oldCh[j].v, node)
  {
    if node.key.Some? {
      LookupRight(input, w, keyToIdx, w.ns);
      idxInOld := LookUp(keyToIdx, PropertyName(node.key.value));
    } else {
      var first := FindIdxInOld(node, oldCh, oldStartIdx, oldEndIdx);
      idxInOld := if first.Some? then Own(first.value) else Absent;
    }
  }

  /** The last branch of the loop: finds the first unfinished new vnode among the remaining old ones
      by its key, or by comparison when it has none, and moves that old vnode or creates an element. */
  method PlaceByKey(ghost input: Input, ghost w: Windows, parent: Parent, oldCh: array<OldSlot>,
                    newCh: array<NewSlot>, removeOnly: bool, keyToIdx: map<string, nat>,
                    oldStartIdx: int, oldEndIdx: int, newStartIdx: int) returns (thrown: bool)
    requires w.InRange() && |w.oldCh| == |input.oldCh|
    requires Inv(input, w, parent.children, parent.nextElm)
    requires IndexRight(input, w.oldCh, w.os, w.oe, Some(keyToIdx))
    requires w.oldCh == oldCh[..] && w.newCh == newCh[..] && removeOnly == input.removeOnly
    requires w.os == oldStartIdx <= oldEndIdx == w.oe - 1 && w.ns == newStartIdx < w.ne
    requires w.oldCh[w.os].Kept? && !SameVnode(w.oldCh[w.os].v, w.newCh[w.ns].v)
    modifies parent, oldCh, newCh
    ensures var found := Find(w.oldCh, w.newCh[w.ns].v, keyToIdx, w.os, w.oe - 1);
            && (thrown <==> found.Inherited?)
            && (thrown ==> Unslotted(input.oldCh, w.newCh[w.ns].v))
            && (found.Own? ==> found.index < |w.oldCh| && w.oldCh[found.index].Kept?)
            && (!thrown ==> oldCh[..] == if found.Own? && SameVnode(w.oldCh[found.index].v, w.newCh[w.ns].v)
                                         then w.oldCh[found.index := Undefined] else w.oldCh)
    ensures Vnodes(newCh[..]) == Vnodes(w.newCh)
    ensures !thrown ==>
              && Inv(input, w.(oldCh := oldCh[..], newCh := newCh[..], ns := w.ns + 1), parent.children, parent.nextElm)
              && IndexRight(input, oldCh[..], w.os, w.oe, Some(keyToIdx))
  {
    hide Inv, SameVnode, IndexRight, Elms, Remaining, Following, Placed, Patched, ValidInput, Showing;
    var node := newCh[newStartIdx].v;
    var oldStartElm := oldCh[oldStartIdx].elm;
    var idxInOld := FindOld(input, w, parent, oldCh, node, keyToIdx, oldStartIdx, oldEndIdx);
    FirstIsChild(input, w, parent.children, parent.nextElm);
    if idxInOld.Inherited? {
      // What is selected by something that is no index is undefined, and has no key to compare.
      return true;
    }
    thrown := false;
    if idxInOld.Own? && SameVnode(oldCh[idxInOld.index].v, node) {
      var vnodeToMove := oldCh[idxInOld.index];
      MoveMiddle(input, w,
                 w.(oldCh := w.oldCh[idxInOld.index := Undefined],
                    newCh := Patched(w.newCh, w.ns, vnodeToMove.elm), ns := w.ns + 1),
                 parent.children, parent.nextElm, idxInOld.index);
      PatchVnode(vnodeToMove.elm, newCh, newStartIdx);
      oldCh[idxInOld.index] := Undefined;
      assert oldCh[..] == w.oldCh[idxInOld.index := Undefined];
      IndexAfterMove(input, w.oldCh, w.os, w.oe, keyToIdx, idxInOld.index);
      if !removeOnly {
        parent.InsertBefore(vnodeToMove.elm, Some(oldStartElm));
      }
    } else {
      // A new element, also when the key is known but the vnodes differ.
      CreateHead(input, w, w.(newCh := Patched(w.newCh, w.ns, parent.nextElm), ns := w.ns + 1),
                 parent.children, parent.nextElm);
      CreateElm(parent, newCh, newStartIdx, Some(oldStartElm));
    }
  }

  lemma Begin(input: Input, children: seq<Elm>)
    requires forall j | 0 <= j < |input.oldCh| :: input.oldCh[j].Kept? && input.oldCh[j].elm < input.firstFresh
    requires Distinct(children) && children == Remaining(input.oldCh) && UniqueKeys(input.newCh)
    ensures var w := Windows(input.oldCh, input.newCh, 0, |input.oldCh|, 0, |input.newCh|);
            Inv(input, w, children, input.firstFresh) && IndexRight(input, w.oldCh, 0, |input.oldCh|, None)
  {
    var w := Windows(input.oldCh, input.newCh, 0, |input.oldCh|, 0, |input.newCh|);
    assert input.oldCh[0..|input.oldCh|] == input.oldCh;
    assert w.Target() == children;
    forall e | e in w.Target() ensures e < input.firstFresh { RemainingHas(input.oldCh, e); }
  }

  /** The loop's first four branches: skips vnodes that were moved away, then compares the two first
      and the two last vnodes of the windows. */
  method MatchEnds(ghost input: Input, ghost w: Windows, parent: Parent, oldCh: array<OldSlot>,
                   newCh: array<NewSlot>, os: int, oe: int, ns: int, ne: int)
    returns (matched: bool, os': int, oe': int, ns': int, ne': int)
    requires w == Windows(oldCh[..], newCh[..], os, oe + 1, ns, ne + 1) && w.InRange() && os <= oe && ns <= ne
    requires Inv(input, w, parent.children, parent.nextElm)
    modifies newCh
    ensures os <= os' && oe' <= oe && ns <= ns' && ne' <= ne
    ensures matched ==> oe' - os' < oe - os
                        && Windows(oldCh[..], newCh[..], os', oe' + 1, ns', ne' + 1).InRange()
                        && Inv(input, Windows(oldCh[..], newCh[..], os', oe' + 1, ns', ne' + 1),
                               parent.children, parent.nextElm)
    ensures Vnodes(newCh[..]) == Vnodes(w.newCh)
    ensures matched ==> MatchedEnds(w.oldCh, Vnodes(w.newCh), Ends(os, oe, ns, ne)) == Some(Ends(os', oe', ns', ne'))
    ensures HeadsMatch(w.oldCh, w.newCh, os, oe, ns) ==>
              matched && (os', oe', ns', ne') == (os + 1, oe, ns + 1, ne)
              && newCh[..] == HeadPatched(w.oldCh, w.newCh, os, ns)
    ensures !matched ==> (os', oe', ns', ne') == (os, oe, ns, ne) && newCh[..] == old(newCh[..])
                         && oldCh[os].Kept? && oldCh[oe].Kept? && !SameVnode(oldCh[os].v, newCh[ns].v)
                         && !SameVnode(oldCh[oe].v, newCh[ne].v)
  {
    hide Inv, SameVnode, Elms, Remaining, Following, Placed, Patched;
    matched, os', oe', ns', ne' := true, os, oe, ns, ne;
    var oldStartVnode, oldEndVnode := oldCh[os], oldCh[oe];
    if oldStartVnode.Undefined? {
      SkipHead(input, w, parent.children, parent.nextElm);
      os' := os + 1;
    } else if oldEndVnode.Undefined? {
      SkipTail(input, w, parent.children, parent.nextElm);
      oe' := oe - 1;
    } else if SameVnode(oldStartVnode.v, newCh[ns].v) {
      PatchVnode(oldStartVnode.elm, newCh, ns);
      os', ns' := os + 1, ns + 1;
      MatchHeads(input, w, Windows(oldCh[..], newCh[..], os', oe + 1, ns', ne + 1), parent.children, parent.nextElm);
    } else if SameVnode(oldEndVnode.v, newCh[ne].v) {
      PatchVnode(oldEndVnode.elm, newCh, ne);
      oe', ne' := oe - 1, ne - 1;
      MatchTails(input, w, Windows(oldCh[..], newCh[..], os, oe' + 1, ns, ne' + 1), parent.children, parent.nextElm);
    } else {
      matched := false;
    }
  }

  /** The next two branches: the first old vnode became the last new one, or the last the first. */
  method MatchCrossed(ghost input: Input, ghost w: Windows, parent: Parent, oldCh: array<OldSlot>,
                      newCh: array<NewSlot>, removeOnly: bool, os: int, oe: int, ns: int, ne: int)
    returns (matched: bool, os': int, oe': int, ns': int, ne': int)
    requires w == Windows(oldCh[..], newCh[..], os, oe + 1, ns, ne + 1) && w.InRange() && os <= oe && ns <= ne
    requires Inv(input, w, parent.children, parent.nextElm) && removeOnly == input.removeOnly
    requires oldCh[os].Kept? && oldCh[oe].Kept? && !SameVnode(oldCh[os].v, newCh[ns].v)
    requires !SameVnode(oldCh[oe].v, newCh[ne].v)
    modifies parent, newCh
    ensures os <= os' && oe' <= oe && ns <= ns' && ne' <= ne
    ensures matched ==> oe' - os' < oe - os
                        && Windows(oldCh[..], newCh[..], os', oe' + 1, ns', ne' + 1).InRange()
                        && Inv(input, Windows(oldCh[..], newCh[..], os', oe' + 1, ns', ne' + 1),
                               parent.children, parent.nextElm)
    ensures Vnodes(newCh[..]) == Vnodes(w.newCh)
    ensures MatchedEnds(w.oldCh, Vnodes(w.newCh), Ends(os, oe, ns, ne))
         == if matched then Some(Ends(os', oe', ns', ne')) else None
    ensures !matched ==> (os', oe', ns', ne') == (os, oe, ns, ne) && newCh[..] == old(newCh[..])
                         && parent.children == old(parent.children) && parent.nextElm == old(parent.nextElm)
  {
    hide Inv, SameVnode, Elms, Remaining, Following, Placed, Patched;
    matched, os', oe', ns', ne' := true, os, oe, ns, ne;
    var oldStartVnode, oldEndVnode := oldCh[os], oldCh[oe];
    if SameVnode(oldStartVnode.v, newCh[ne].v) {
      // Vnode moved right.
      LastIsChild(input, w, parent.children, parent.nextElm);
      var ref := parent.NextSibling(oldEndVnode.elm);
      PatchVnode(oldStartVnode.elm, newCh, ne);
      os', ne' := os + 1, ne - 1;
      ghost var w' := Windows(oldCh[..], newCh[..], os', oe + 1, ns, ne' + 1);
      if removeOnly {
        HeldBack(input, w, w', parent.children, parent.nextElm);
      } else {
        AfterLast(input, w, parent.children, parent.nextElm);
        MoveRight(input, w, w', parent.children, parent.nextElm, ref);
        parent.InsertBefore(oldStartVnode.elm, ref);
      }
    } else if SameVnode(oldEndVnode.v, newCh[ns].v) {
      // Vnode moved left.
      PatchVnode(oldEndVnode.elm, newCh, ns);
      oe', ns' := oe - 1, ns + 1;
      MoveLeft(input, w, Windows(oldCh[..], newCh[..], os, oe' + 1, ns', ne + 1), parent.children, parent.nextElm);
      if !removeOnly {
        parent.InsertBefore(oldEndVnode.elm, Some(oldStartVnode.elm));
      }
    } else {
      matched := false;
    }
  }

  lemma RefOfFinished(input: Input, w: Windows, children: seq<Elm>, nextElm: Elm)
    requires Inv(input, w, children, nextElm)
    ensures Head(Elms(w.newCh[w.ne..])) == if w.ne < |w.newCh| then w.newCh[w.ne].elm else None
  {
  }

  /** After the loop: adds the new vnodes that are left, or removes the old ones that are. */
  method AddOrRemoveRest(ghost input: Input, parent: Parent, oldCh: array<OldSlot>, newCh: array<NewSlot>,
                         os: int, oe: int, ns: int, ne: int)
    requires Windows(oldCh[..], newCh[..], os, oe + 1, ns, ne + 1).InRange() && (oe < os || ne < ns)
    requires Inv(input, Windows(oldCh[..], newCh[..], os, oe + 1, ns, ne + 1), parent.children, parent.nextElm)
    modifies parent, newCh
    ensures Showing(input, newCh[..], parent.children)
    ensures oe < os && ne < ns ==>
              newCh[..] == old(newCh[..]) && parent.children == old(parent.children)
              && parent.nextElm == old(parent.nextElm)
  {
    hide Inv, SameVnode, Elms, Remaining, Showing;
    if os > oe {
      var refElm := if ne + 1 < newCh.Length then newCh[ne + 1].elm else None;
      RefOfFinished(input, Windows(oldCh[..], newCh[..], os, os, ns, ne + 1), parent.children, parent.nextElm);
      AddVnodes(input, parent, refElm, oldCh[..], os, newCh, ns, ne);
      Finished(input, Windows(oldCh[..], newCh[..], os, os, ne + 1, ne + 1), parent.children, parent.nextElm);
    } else {
      ghost var oc, nc := oldCh[..], newCh[..];
      assert ne + 1 == ns;
      RemoveVnodes(input, parent, nc, ns, oldCh, os, oe);
      assert oldCh[..] == oc && newCh[..] == nc;
      Finished(input, Windows(oc, nc, oe + 1, oe + 1, ns, ns), parent.children, parent.nextElm);
    }
  }

  /** One iteration of the loop. */
  method Step(ghost input: Input, parent: Parent, oldCh: array<OldSlot>, newCh: array<NewSlot>, removeOnly: bool,
              os: int, oe: int, ns: int, ne: int, keyToIdx: Option<map<string, nat>>)
    returns (thrown: bool, os': int, oe': int, ns': int, ne': int, keyToIdx': Option<map<string, nat>>)
    requires Windows(oldCh[..], newCh[..], os, oe + 1, ns, ne + 1).InRange() && os <= oe && ns <= ne
    requires oldCh.Length == |input.oldCh| && removeOnly == input.removeOnly
    requires Inv(input, Windows(oldCh[..], newCh[..], os, oe + 1, ns, ne + 1), parent.children, parent.nextElm)
    requires IndexRight(input, oldCh[..], os, oe + 1, keyToIdx)
    modifies parent, oldCh, newCh
    ensures Vnodes(newCh[..]) == Vnodes(old(newCh[..]))
    ensures thrown ==> Trips(old(oldCh[..]), Vnodes(newCh[..]), Ends(os, oe, ns, ne), keyToIdx) == Some(ns)
                       && Unslotted(input.oldCh, Vnodes(newCh[..])[ns])
    ensures !thrown ==> Within(oldCh[..], Vnodes(newCh[..]), Ends(os', oe', ns', ne'))
                        && Trips(old(oldCh[..]), Vnodes(newCh[..]), Ends(os, oe, ns, ne), keyToIdx)
                           == Trips(oldCh[..], Vnodes(newCh[..]), Ends(os', oe', ns', ne'), keyToIdx')
    ensures os <= os' && oe' <= oe && ns <= ns' && ne' <= ne
    ensures HeadsMatch(old(oldCh[..]), old(newCh[..]), os, oe, ns) ==>
              && !thrown && (os', oe', ns', ne') == (os + 1, oe, ns + 1, ne)
              && oldCh[..] == old(oldCh[..]) && newCh[..] == HeadPatched(old(oldCh[..]), old(newCh[..]), os, ns)
              && parent.children == old(parent.children) && parent.nextElm == old(parent.nextElm)
    ensures !thrown ==>
              && oe' - os' + ne' - ns' < oe - os + ne - ns
              && Windows(oldCh[..], newCh[..], os', oe' + 1, ns', ne' + 1).InRange()
              && Inv(input, Windows(oldCh[..], newCh[..], os', oe' + 1, ns', ne' + 1), parent.children, parent.nextElm)
              && IndexRight(input, oldCh[..], os', oe' + 1, keyToIdx')
  {
    hide Inv, SameVnode, IndexRight, Elms, Remaining, Following, Placed, Patched, ValidInput, Showing,
      Trips, MatchedEnds, Find, Unslotted, HeadsMatch, HeadPatched;
    ghost var w := Windows(oldCh[..], newCh[..], os, oe + 1, ns, ne + 1);
    ghost var vs, e := Vnodes(newCh[..]), Ends(os, oe, ns, ne);
    var matched;
    keyToIdx', thrown := keyToIdx, false;
    matched, os', oe', ns', ne' := MatchEnds(input, w, parent, oldCh, newCh, os, oe, ns, ne);
    if !matched {
      matched, os', oe', ns', ne' := MatchCrossed(input, w, parent, oldCh, newCh, removeOnly, os, oe, ns, ne);
    }
    if matched {
      IndexShrinks(input, oldCh[..], os, oe + 1, os', oe' + 1, keyToIdx);
      EndsTurn(oldCh[..], vs, e, keyToIdx);
    } else {
      keyToIdx' := BuildIndex(input, w, parent, keyToIdx, oldCh, os, oe);
      LookupTurn(w.oldCh, vs, e, keyToIdx);
      thrown := PlaceByKey(input, w, parent, oldCh, newCh, removeOnly, keyToIdx'.value, os, oe, ns);
      ns' := ns + 1;
    }
  }

  lemma SameAsItself(input: Input, old': seq<OldSlot>, new': seq<NewSlot>, vs: seq<VNode>, e: Ends, same: bool)
    requires Vnodes(new') == vs && (same ==> Unchanged(input.oldCh, vs) && InPlace(input, old', new', e))
    requires 0 <= e.os <= e.oe < |old'| && 0 <= e.ns < |new'|
    ensures same ==> HeadsMatch(old', new', e.os, e.oe, e.ns)
  {
  }

  lemma AllInPlace(input: Input, old': seq<OldSlot>, new': seq<NewSlot>, e: Ends)
    requires (e.oe < e.os || e.ne < e.ns) && e.os <= |old'|
    ensures InPlace(input, old', new', e) ==> InTurn(input.oldCh, new', |new'|) && e.oe < e.os && e.ne < e.ns
  {
  }

  lemma NextInPlace(
    input: Input, old': seq<OldSlot>, new': seq<NewSlot>, new'': seq<NewSlot>, vs: seq<VNode>, e: Ends, same: bool)
    requires 0 <= e.os <= e.oe < |old'| && 0 <= e.ns < |new'|
    requires same ==> Unchanged(input.oldCh, vs) && InPlace(input, old', new', e)
    requires same ==> HeadsMatch(old', new', e.os, e.oe, e.ns) && new'' == HeadPatched(old', new', e.os, e.ns)
    ensures same ==> InPlace(input, old', new'', e.(os := e.os + 1, ns := e.ns + 1))
  {
  }

  /** What the loop keeps: the children, the index, where the run will trip, and, when nothing has changed,
      every element at its place. */
  ghost predicate Loop(
    input: Input, oldCh: seq<OldSlot>, newCh: seq<NewSlot>, e: Ends, keyToIdx: Option<map<string, nat>>,
    children0: seq<Elm>, nextElm0: Elm, children: seq<Elm>, nextElm: Elm)
  {
    && Windows(oldCh, newCh, e.os, e.oe + 1, e.ns, e.ne + 1).InRange()
    && |oldCh| == |input.oldCh| && Vnodes(newCh) == Vnodes(input.newCh)
    && Inv(input, Windows(oldCh, newCh, e.os, e.oe + 1, e.ns, e.ne + 1), children, nextElm)
    && IndexRight(input, oldCh, e.os, e.oe + 1, keyToIdx)
    && TripsAt(input.oldCh, input.newCh) == Trips(oldCh, Vnodes(newCh), e, keyToIdx)
    && (Unchanged(input.oldCh, Vnodes(input.newCh)) ==>
          InPlace(input, oldCh, newCh, e) && children == children0 && nextElm == nextElm0)
  }

  lemma StartLoop(input: Input, oldCh: seq<OldSlot>, newCh: seq<NewSlot>, children: seq<Elm>, nextElm: Elm)
    requires input.oldCh == oldCh && input.newCh == newCh
    requires Inv(input, Windows(oldCh, newCh, 0, |oldCh|, 0, |newCh|), children, nextElm)
    requires IndexRight(input, oldCh, 0, |oldCh|, None)
    ensures Loop(input, oldCh, newCh, Ends(0, |oldCh| - 1, 0, |newCh| - 1), None, children, nextElm, children, nextElm)
  {
    hide Inv, IndexRight, Trips;
  }

  lemma EndLoop(
    input: Input, oldCh: seq<OldSlot>, newCh: seq<NewSlot>, e: Ends, keyToIdx: Option<map<string, nat>>,
    children0: seq<Elm>, nextElm0: Elm, children: seq<Elm>, nextElm: Elm)
    requires Loop(input, oldCh, newCh, e, keyToIdx, children0, nextElm0, children, nextElm)
    requires e.oe < e.os || e.ne < e.ns
    ensures TripsAt(input.oldCh, input.newCh) == None
    ensures Inv(input, Windows(oldCh, newCh, e.os, e.oe + 1, e.ns, e.ne + 1), children, nextElm)
    ensures Unchanged(input.oldCh, Vnodes(input.newCh)) ==>
              InPlace(input, oldCh, newCh, e) && children == children0 && nextElm == nextElm0
  {
    hide Inv, IndexRight, Trips, Unchanged, InPlace;
    NoTurn(oldCh, Vnodes(newCh), e, keyToIdx);
  }

  // One iteration, and what the loop keeps.
  method Turn(ghost input: Input, parent: Parent, oldCh: array<OldSlot>, newCh: array<NewSlot>, removeOnly: bool,
              os: int, oe: int, ns: int, ne: int, keyToIdx: Option<map<string, nat>>, ghost children0: seq<Elm>,
              ghost nextElm0: Elm)
    returns (thrown: bool, os': int, oe': int, ns': int, ne': int, keyToIdx': Option<map<string, nat>>)
    requires Loop(input, oldCh[..], newCh[..], Ends(os, oe, ns, ne), keyToIdx, children0, nextElm0, parent.children,
                  parent.nextElm)
    requires os <= oe && ns <= ne && removeOnly == input.removeOnly
    modifies parent, oldCh, newCh
    ensures thrown ==>
              && TripsAt(input.oldCh, input.newCh) == Some(ns) && ns < newCh.Length == |input.newCh|
              && Unslotted(input.oldCh, input.newCh[ns].v) && !Unchanged(input.oldCh, Vnodes(input.newCh))
    ensures !thrown ==>
              && oe' - os' + ne' - ns' < oe - os + ne - ns
              && Windows(oldCh[..], newCh[..], os', oe' + 1, ns', ne' + 1).InRange()
              && Loop(input, oldCh[..], newCh[..], Ends(os', oe', ns', ne'), keyToIdx', children0, nextElm0,
                      parent.children, parent.nextElm)
  {
    hide Inv, IndexRight, Elms, Trips, TripsAt, Unslotted, Unchanged, InPlace, HeadsMatch, HeadPatched, SameVnode;
    ghost var vs, e, new' := Vnodes(newCh[..]), Ends(os, oe, ns, ne), newCh[..];
    ghost var same := Unchanged(input.oldCh, vs);
    SameAsItself(input, oldCh[..], new', vs, e, same);
    thrown, os', oe', ns', ne', keyToIdx' :=
      Step(input, parent, oldCh, newCh, removeOnly, os, oe, ns, ne, keyToIdx);
    if !thrown {
      NextInPlace(input, oldCh[..], new', newCh[..], vs, e, same);
    }
  }

  /** Patches a parent's children from oldCh to newCh. Where the run trips over an inherited name it
      throws, at exactly that new vnode; otherwise it shows the new vnodes. It trips over nothing but
      inherited names that no old key makes a slot for. */
  method UpdateChildren(parent: Parent, oldCh: array<OldSlot>, newCh: array<NewSlot>, removeOnly: bool)
    returns (thrown: Option<nat>)
    requires forall j | 0 <= j < oldCh.Length :: oldCh[j].Kept? && oldCh[j].elm < parent.nextElm
    requires Distinct(parent.children) && parent.children == Remaining(oldCh[..])
    requires UniqueKeys(newCh[..])
    modifies parent, oldCh, newCh
    ensures thrown == TripsAt(old(oldCh[..]), old(newCh[..]))
    ensures thrown.Some? ==>
              thrown.value < newCh.Length && Unslotted(old(oldCh[..]), old(newCh[..])[thrown.value].v)
    ensures NoInheritedKeys(old(newCh[..])) ==> thrown.None?
    ensures thrown.None? ==>
              Showing(Input(old(oldCh[..]), old(newCh[..]), old(parent.nextElm), removeOnly), newCh[..], parent.children)
    ensures Unchanged(old(oldCh[..]), Vnodes(old(newCh[..]))) ==>
              && thrown.None? && parent.children == old(parent.children) && parent.nextElm == old(parent.nextElm)
              && InTurn(old(oldCh[..]), newCh[..], newCh.Length)
  {
    ghost var input := Input(oldCh[..], newCh[..], parent.nextElm, removeOnly);
    Begin(input, parent.children);
    hide Inv, Elms, Remaining, Showing, Distinct, TripsAt, Unslotted, UniqueKeys, NoInheritedKeys, Unchanged, InPlace,
      InTurn;
    var oldStartIdx, oldEndIdx, newStartIdx, newEndIdx;
    thrown, oldStartIdx, oldEndIdx, newStartIdx, newEndIdx := Walk(input, parent, oldCh, newCh, removeOnly);
    if thrown.Some? {
      UnslottedIsInherited(input.oldCh, input.newCh, thrown.value);
      return;
    }
    AllInPlace(input, oldCh[..], newCh[..], Ends(oldStartIdx, oldEndIdx, newStartIdx, newEndIdx));
    AddOrRemoveRest(input, parent, oldCh, newCh, oldStartIdx, oldEndIdx, newStartIdx, newEndIdx);
  }

  // The loop, until one of the windows is empty.
  method Walk(ghost input: Input, parent: Parent, oldCh: array<OldSlot>, newCh: array<NewSlot>, removeOnly: bool)
    returns (thrown: Option<nat>, oldStartIdx: int, oldEndIdx: int, newStartIdx: int, newEndIdx: int)
    requires input == Input(oldCh[..], newCh[..], parent.nextElm, removeOnly)
    requires Inv(input, Windows(oldCh[..], newCh[..], 0, oldCh.Length, 0, newCh.Length), parent.children, parent.nextElm)
    requires IndexRight(input, oldCh[..], 0, oldCh.Length, None)
    modifies parent, oldCh, newCh
    ensures thrown == TripsAt(input.oldCh, input.newCh)
    ensures thrown.Some? ==>
              thrown.value < newCh.Length && Unslotted(input.oldCh, input.newCh[thrown.value].v)
    ensures thrown.None? ==>
              && Windows(oldCh[..], newCh[..], oldStartIdx, oldEndIdx + 1, newStartIdx, newEndIdx + 1).InRange()
              && (oldEndIdx < oldStartIdx || newEndIdx < newStartIdx)
              && Inv(input, Windows(oldCh[..], newCh[..], oldStartIdx, oldEndIdx + 1, newStartIdx, newEndIdx + 1),
                     parent.children, parent.nextElm)
    ensures Unchanged(input.oldCh, Vnodes(input.newCh)) ==>
              && thrown.None? && parent.children == old(parent.children) && parent.nextElm == old(parent.nextElm)
              && InPlace(input, oldCh[..], newCh[..], Ends(oldStartIdx, oldEndIdx, newStartIdx, newEndIdx))
  {
    hide Loop, TripsAt, Unslotted, Inv, IndexRight, Unchanged, InPlace, Elms, Remaining;
    StartLoop(input, oldCh[..], newCh[..], parent.children, parent.nextElm);
    ghost var children, nextElm := parent.children, parent.nextElm;
    thrown := None;
    oldStartIdx, newStartIdx := 0, 0;
    oldEndIdx, newEndIdx := oldCh.Length - 1, newCh.Length - 1;
    var keyToIdx: Option<map<string, nat>> := None;
    while oldStartIdx <= oldEndIdx && newStartIdx <= newEndIdx
      invariant Windows(oldCh[..], newCh[..], oldStartIdx, oldEndIdx + 1, newStartIdx, newEndIdx + 1).InRange()
      invariant Loop(input, oldCh[..], newCh[..], Ends(oldStartIdx, oldEndIdx, newStartIdx, newEndIdx), keyToIdx,
                     children, nextElm, parent.children, parent.nextElm)
      decreases oldEndIdx - oldStartIdx + newEndIdx - newStartIdx
    {
      var throws;
      var at := newStartIdx;
      throws, oldStartIdx, oldEndIdx, newStartIdx, newEndIdx, keyToIdx :=
        Turn(input, parent, oldCh, newCh, removeOnly, oldStartIdx, oldEndIdx, newStartIdx, newEndIdx, keyToIdx, children,
             nextElm);
      if throws {
        thrown := Some(at);
        return;
      }
    }
    EndLoop(input, oldCh[..], newCh[..], Ends(oldStartIdx, oldEndIdx, newStartIdx, newEndIdx), keyToIdx,
            children, nextElm, parent.children, parent.nextElm);
  }

  // createKeyToOldIdx runs the first time a key is looked up, before any old vnode was moved away.
  method BuildIndex(ghost input: Input, ghost w: Windows, parent: Parent, keyToIdx: Option<map<string, nat>>,
                    oldCh: array<OldSlot>, oldStartIdx: int, oldEndIdx: int) returns (index: Option<map<string, nat>>)
    requires w.InRange() && Inv(input, w, parent.children, parent.nextElm)
    requires IndexRight(input, w.oldCh, w.os, w.oe, keyToIdx)
    requires w.oldCh == oldCh[..] && w.os == oldStartIdx <= oldEndIdx == w.oe - 1
    ensures index.Some? && IndexRight(input, w.oldCh, w.os, w.oe, index)
    ensures index == Some(IndexAt(w.oldCh, Ends(oldStartIdx, oldEndIdx, w.ns, w.ne - 1), keyToIdx))
  {
    index := keyToIdx;
    if keyToIdx.None? {
      var m := CreateKeyToOldIdx(oldCh, oldStartIdx, oldEndIdx);
      index := Some(m);
    }
  }

  /** With removeOnly a vnode that moved right keeps its place in the DOM. */
  lemma HeldBack(input: Input, w: Windows, w': Windows, children: seq<Elm>, nextElm: Elm)
    requires Inv(input, w, children, nextElm) && w.os < w.oe - 1 && w.ns < w.ne && input.removeOnly
    requires w.oldCh[w.os].Kept? && w.oldCh[w.oe - 1].Kept? && SameVnode(w.oldCh[w.os].v, w.newCh[w.ne - 1].v)
    requires w' == w.(newCh := Patched(w.newCh, w.ne - 1, w.oldCh[w.os].elm), os := w.os + 1, ne := w.ne - 1)
    ensures Inv(input, w', children, nextElm)
  {
    var ref := Head(Elms(w.newCh[w.ne..]));
    if ref.Some? { DomMember(input, w.Target(), children, nextElm, ref.value); }
    MoveRight(input, w, w', children, nextElm, ref);
  }

  // ---- Which elements are taken over, in terms of the vnodes' attributes ----

  /** An element that is taken over was shown by an old vnode with the same key. Unless that one is the
      placeholder of an asynchronous component with the same factory, which has not failed, both have the
      same tag, are both comments or neither, both with data or neither; and inputs have the same type or
      two types for text. */
  lemma TakenOverIsAlike(input: Input, newCh: seq<NewSlot>, children: seq<Elm>, i: nat) returns (j: nat)
    requires Showing(input, newCh, children) && i < |newCh| && newCh[i].elm.value < input.firstFresh
    ensures j < |input.oldCh| && input.oldCh[j].Kept? && newCh[i].elm == Some(input.oldCh[j].elm)
    ensures var a, b := input.oldCh[j].v, input.newCh[i].v;
            && a.key == b.key
            && (|| (a.isAsyncPlaceholder && a.asyncFactory == b.asyncFactory && b.asyncFactory.Some?
                    && !b.asyncFactory.value.failed)
                || (&& a.tag == b.tag && (a.isComment <==> b.isComment) && (a.hasData <==> b.hasData)
                    && (a.tag == Some("input") && a.inputType != b.inputType ==>
                          && a.inputType.Type? && b.inputType.Type?
                          && a.inputType.name in {"text", "number", "password", "search", "email", "tel", "url"}
                          && b.inputType.name in {"text", "number", "password", "search", "email", "tel", "url"})))
  {
    assert FromOld(input, newCh[i].v, newCh[i].elm.value);
    j :| 0 <= j < |input.oldCh| && input.oldCh[j].Kept? && input.oldCh[j].elm == newCh[i].elm.value
      && SameVnode(input.oldCh[j].v, newCh[i].v);
  }

  /** The other way round, for vnodes with keys where old keys are unique: whoever agrees in all of these
      takes the element over. */
  lemma AlikeIsTakenOver(input: Input, newCh: seq<NewSlot>, children: seq<Elm>, i: nat, j: nat)
    requires Showing(input, newCh, children) && UniqueOldKeys(input.oldCh)
    requires i < |newCh| && j < |input.oldCh| && input.oldCh[j].Kept?
    requires var a, b := input.oldCh[j].v, input.newCh[i].v;
             && b.key.Some? && a.key == b.key
             && (|| (a.isAsyncPlaceholder && a.asyncFactory == b.asyncFactory && b.asyncFactory.Some?
                     && !b.asyncFactory.value.failed)
                 || (&& a.tag == b.tag && (a.isComment <==> b.isComment) && (a.hasData <==> b.hasData)
                     && (a.tag == Some("input") && a.inputType != b.inputType ==>
                           && a.inputType.Type? && b.inputType.Type?
                           && a.inputType.name in {"text", "number", "password", "search", "email", "tel", "url"}
                           && b.inputType.name in {"text", "number", "password", "search", "email", "tel", "url"})))
    ensures newCh[i].elm == Some(input.oldCh[j].elm)
  {
    assert SameVnode(input.oldCh[j].v, newCh[i].v);
  }

  /** A div becomes a span: the div's element goes and a new one is there. */
  method DivBecomesSpan(parent: Parent, oldCh: array<OldSlot>, newCh: array<NewSlot>, div: VNode)
    requires div.tag == Some("div") && div.key.None? && !div.isAsyncPlaceholder
    requires oldCh[..] == [Kept(div, 0)] && newCh[..] == [NewSlot(div.(tag := Some("span")), None)]
    requires parent.children == [0] && parent.nextElm == 1
    modifies parent, oldCh, newCh
    ensures |parent.children| == 1 && parent.children[0] >= 1
  {
    ghost var input := Input(oldCh[..], newCh[..], 1, false);
    OneChild(oldCh[..], newCh[..]);
    var thrown := UpdateChildren(parent, oldCh, newCh, false);
    assert NoInheritedKeys(input.newCh);
    assert |newCh[..]| == 1 && parent.children == Elms(newCh[..]);
    if newCh[0].elm.value < 1 {
      var j := TakenOverIsAlike(input, newCh[..], parent.children, 0);
      assert false;
    }
  }

  lemma OneChild(oldCh: seq<OldSlot>, newCh: seq<NewSlot>)
    requires |oldCh| == 1 && oldCh[0].Kept? && |newCh| == 1
    ensures Remaining(oldCh) == [oldCh[0].elm] && Distinct(Remaining(oldCh)) && UniqueKeys(newCh)
  {
    assert oldCh[1..] == [];
  }
}
