/** Dependency bookkeeping of the vendored Vue runtime: watchers list the deps they use, deps list their
    subscribers, and the two lists agree. Which watcher a dep is noted for depends on a stack of targets. */
module VueDeps {
  import opened Wrappers

  // Removes the first occurrence, if there is one.
  function Removed<T(==)>(s: seq<T>, x: T): seq<T> {
    if s == [] then [] else if s[0] == x then s[1..] else [s[0]] + Removed(s[1..], x)
  }

  lemma {:induction false} RemovedOnce<T>(s: seq<T>, x: T)
    requires NoRepeats(s)
    ensures NoRepeats(Removed(s, x)) && forall y :: y in Removed(s, x) <==> y in s && y != x
  {
    if s != [] && s[0] != x {
      RemovedOnce(s[1..], x);
      var rest := Removed(s[1..], x);
      assert forall y :: y in Removed(s, x) <==> y == s[0] || y in rest;
      assert s[0] !in rest;
    }
  }

  class Dep {
    const id: int
    var subs: seq<Watcher>

    constructor (id: int)
      ensures this.id == id && subs == []
    {
      this.id, subs := id, [];
    }

    method AddSub(sub: Watcher)
      modifies this
      ensures subs == old(subs) + [sub]
    {
      subs := subs + [sub];
    }

    method RemoveSub(sub: Watcher)
      modifies this
      ensures subs == Removed(old(subs), sub)
    {
      subs := Removed(subs, sub);
    }
  }

  class Watcher {
    const id: int
    var active: bool
    var deps: seq<Dep>
    var newDeps: seq<Dep>
    var depIds: set<int>
    var newDepIds: set<int>

    constructor (id: int)
      ensures this.id == id && active && deps == [] && newDeps == [] && depIds == {} && newDepIds == {}
    {
      this.id, active := id, true;
      deps, newDeps, depIds, newDepIds := [], [], {}, {};
    }

    // While the getter runs.
    method AddDep(dep: Dep, ghost ws: set<Watcher>, ghost ds: set<Dep>)
      requires Linked(ws, ds) && this in ws && dep in ds && active
      modifies this`newDeps, this`newDepIds, dep
      ensures Linked(ws, ds) && dep in newDeps
      ensures forall d :: d in newDeps <==> d in old(newDeps) || d == dep
    {
      MarkedById(this, ds, dep);
      if dep.id !in newDepIds {
        newDepIds := newDepIds + {dep.id};
        newDeps := newDeps + [dep];
        if dep.id !in depIds {
          dep.AddSub(this);
        }
      }
    }

    // After the getter has run: what it did not use is given up, and the new list takes over.
    method CleanupDeps(ghost ws: set<Watcher>, ghost ds: set<Dep>)
      requires Linked(ws, ds) && this in ws && active
      modifies this, deps
      ensures Linked(ws, ds) && active && newDeps == [] && deps == old(newDeps)
    {
      var i := |deps|;
      while i > 0
        invariant 0 <= i <= |deps|
        invariant active && deps == old(deps) && newDeps == old(newDeps) && depIds == old(depIds)
            && newDepIds == old(newDepIds)
        invariant CleanedFrom(this, i, ws, ds)
      {
        i := i - 1;
        MarkedById(this, ds, deps[i]);
        if deps[i].id !in newDepIds {
          WithoutSub(deps[i].subs, this, ws);
          deps[i].RemoveSub(this);
        }
      }
      depIds, newDepIds := newDepIds, {};
      deps, newDeps := newDeps, [];
    }

    /** Whatever the getter does and whether or not it throws: afterwards the watcher depends on exactly the
        deps that were touched while it was the target, and is subscribed to each exactly once and to nothing
        else. A balanced getter leaves the targets alone, and those are the deps it touches itself. */
    method Get(getter: seq<Action>, runtime: Runtime, ghost ws: set<Watcher>, ghost ds: set<Dep>,
        ghost busy: set<Watcher>)
      requires Linked(ws, ds) && Prepared(NotesOf(ws), runtime.Current(), getter, ws, ds, busy)
      requires this in ws && this !in busy && this !in Evaluated(getter) && active && newDeps == []
      modifies runtime, ws, ds
      ensures Linked(ws, ds) && active && newDeps == []
      ensures var t := Push(old(runtime.Current()), Some(this));
              && runtime.Current() == Pop(After(t, getter))
              && Set(deps) == Collected(t, getter, this)
              && (forall d | d in ds :: this in d.subs <==> d in deps)
              && Noted(old(NotesOf(ws)), NotesOf(ws), t, getter, ws - {this}, busy)
      ensures Balanced(getter) ==>
                && Set(deps) == Direct(getter)
                && (old(runtime.target) != null || old(runtime.targetStack) == [] ==>
                      runtime.Current() == old(runtime.Current()))
      decreases getter, 2
    {
      hide Linked, Prepared, Noted, After, Collected;
      ghost var n, t := NotesOf(ws), Push(runtime.Current(), Some(this));
      Collect(getter, runtime, ws, ds, busy);
      BalancedGetter(t, getter, this);
      ghost var n1 := NotesOf(ws);
      DepsAreKnown(this, ws, ds);
      CleanupDeps(ws, ds);
      SubscribedExactly(this, ws, ds);
      StillNoted(n, n1, NotesOf(ws), t, getter, ws - {this}, busy);
    }

    // The getter with this watcher as the target.
    method Collect(getter: seq<Action>, runtime: Runtime, ghost ws: set<Watcher>, ghost ds: set<Dep>,
        ghost busy: set<Watcher>)
      requires Linked(ws, ds) && Prepared(NotesOf(ws), runtime.Current(), getter, ws, ds, busy)
      requires this in ws && this !in busy && this !in Evaluated(getter) && active && newDeps == []
      modifies runtime, ws, ds
      ensures Linked(ws, ds) && active
      ensures var t := Push(old(runtime.Current()), Some(this));
              && runtime.Current() == Pop(After(t, getter))
              && Set(newDeps) == Collected(t, getter, this)
              && Noted(old(NotesOf(ws)), NotesOf(ws), t, getter, ws - {this}, busy)
      decreases getter, 1
    {
      hide Linked, Prepared, Noted, After, Collected;
      ghost var n, t := NotesOf(ws), Push(runtime.Current(), Some(this));
      BusyToo(n, runtime.Current(), getter, ws, ds, busy, this);
      runtime.PushTarget(this);
      runtime.Run(getter, ws, ds, busy + {this});
      OthersNoted(n, NotesOf(ws), t, getter, ws, busy, this);
      runtime.PopTarget();
    }

    // The watcher is subscribed to nothing any more.
    method Teardown(ghost ws: set<Watcher>, ghost ds: set<Dep>)
      requires Linked(ws, ds) && this in ws && newDeps == []
      modifies this, deps
      ensures Linked(ws, ds) && !active
      ensures forall d | d in ds :: this !in d.subs
    {
      if active {
        var i := |deps|;
        while i > 0
          invariant 0 <= i <= |deps|
          invariant active && deps == old(deps) && newDeps == [] && depIds == old(depIds) && newDepIds == old(newDepIds)
          invariant TornFrom(this, i, ws, ds)
        {
          i := i - 1;
          WithoutSub(deps[i].subs, this, ws);
          deps[i].RemoveSub(this);
        }
        active := false;
      }
    }
  }

  // The target for which deps are noted, and the targets it has replaced.
  class Runtime {
    var target: Watcher?
    var targetStack: seq<Watcher>

    constructor ()
      ensures target == null && targetStack == []
    {
      target, targetStack := null, [];
    }

    function Current(): Targets
      reads this
    {
      Targets(if target == null then None else Some(target), targetStack)
    }

    // Only a target is pushed; hooks and data functions push nothing when there is none.
    method PushTarget(w: Watcher?)
      modifies this
      ensures Current() == Push(old(Current()), if w == null then None else Some(w))
    {
      if target != null {
        targetStack := targetStack + [target];
      }
      target := w;
    }

    method PopTarget()
      modifies this
      ensures Current() == Pop(old(Current()))
    {
      if targetStack == [] {
        target := null;
      } else {
        target, targetStack := targetStack[|targetStack| - 1], targetStack[..|targetStack| - 1];
      }
    }

    /** The actions of a getter. Every dep is noted for the watcher that is the target at that moment. */
    method Run(actions: seq<Action>, ghost ws: set<Watcher>, ghost ds: set<Dep>, ghost busy: set<Watcher>)
      requires Linked(ws, ds) && Prepared(NotesOf(ws), Current(), actions, ws, ds, busy)
      modifies this, ws, ds
      ensures Linked(ws, ds) && Current() == After(old(Current()), actions)
      ensures Noted(old(NotesOf(ws)), NotesOf(ws), old(Current()), actions, ws, busy)
      decreases actions, 0
    {
      hide Linked, Noted, Prepared;
      if actions == [] {
        NothingNoted(NotesOf(ws), Current(), ws, busy);
        return;
      }
      ghost var n, t := NotesOf(ws), Current();
      PreparedInside(n, t, actions, ws, ds, busy);
      match actions[0] {
        case Touch(dep) =>
          Depend(dep, ws, ds, busy);
        case Evaluate(w, getter) =>
          w.Get(getter, this, ws, ds, busy);
        case Untracked(body) =>
          PushTarget(null);
          Run(body, ws, ds, busy);
          PopTarget();
      }
      ghost var n1, t1 := NotesOf(ws), Current();
      StillPrepared(n, n1, t, actions, ws, ds, busy);
      Run(actions[1..], ws, ds, busy);
      NotedInTurn(n, n1, NotesOf(ws), t, actions, ws, busy);
    }

    method Depend(dep: Dep, ghost ws: set<Watcher>, ghost ds: set<Dep>, ghost busy: set<Watcher>)
      requires Linked(ws, ds) && dep in ds && busy <= ws
      requires forall w | w in Chain(Current()) :: w in busy && w in ws && w.active
      modifies ws, ds
      ensures Linked(ws, ds) && Noted(old(NotesOf(ws)), NotesOf(ws), Current(), [Touch(dep)], ws, busy)
    {
      assert Evaluated([Touch(dep)]) == {};
      if target != null {
        assert target in Chain(Current());
        target.AddDep(dep, ws, ds);
      }
    }
  }

  // What a watcher keeps.
  datatype Notes = Notes(active: bool, deps: seq<Dep>, depIds: set<int>, newDeps: seq<Dep>, newDepIds: set<int>)

  ghost function NotesOf(ws: set<Watcher>): map<Watcher, Notes>
    reads ws
  {
    map w | w in ws :: Notes(w.active, w.deps, w.depIds, w.newDeps, w.newDepIds)
  }

  // The targets are busy watchers; those that are to be evaluated are not busy.
  ghost predicate Prepared(
    n: map<Watcher, Notes>, t: Targets, actions: seq<Action>, ws: set<Watcher>, ds: set<Dep>, busy: set<Watcher>)
  {
    && NeverWithinItself(actions) && Touched(actions) <= ds && Evaluated(actions) <= ws
    && busy <= ws <= n.Keys && Evaluated(actions) !! busy
    && (forall w | w in Chain(t) :: w in busy)
    && (forall w | w in busy :: n[w].active)
    && (forall w | w in Evaluated(actions) :: n[w].active && n[w].newDeps == [])
  }

  // Busy watchers have noted what they were the target for; those evaluated are done; others are as before.
  ghost predicate Noted(
    n: map<Watcher, Notes>, n': map<Watcher, Notes>, t: Targets, actions: seq<Action>, ws: set<Watcher>,
    busy: set<Watcher>)
  {
    && ws <= n.Keys && ws <= n'.Keys
    && forall w | w in ws ::
      if w in busy
      then n'[w] == n[w].(newDeps := n'[w].newDeps, newDepIds := n'[w].newDepIds)
           && Set(n'[w].newDeps) == Set(n[w].newDeps) + Collected(t, actions, w)
      else if w in Evaluated(actions) then n'[w].active && n'[w].newDeps == []
      else n'[w] == n[w]
  }

  lemma NothingNoted(n: map<Watcher, Notes>, t: Targets, ws: set<Watcher>, busy: set<Watcher>)
    requires ws <= n.Keys
    ensures Noted(n, n, t, [], ws, busy)
  {
  }

  lemma BusyToo(
    n: map<Watcher, Notes>, t: Targets, getter: seq<Action>, ws: set<Watcher>, ds: set<Dep>, busy: set<Watcher>,
    w: Watcher)
    requires Prepared(n, t, getter, ws, ds, busy) && w in ws && w !in Evaluated(getter) && n[w].active
    ensures Prepared(n, Push(t, Some(w)), getter, ws, ds, busy + {w})
  {
  }

  lemma OthersNoted(
    n: map<Watcher, Notes>, n': map<Watcher, Notes>, t: Targets, getter: seq<Action>, ws: set<Watcher>,
    busy: set<Watcher>, w: Watcher)
    requires Noted(n, n', t, getter, ws, busy + {w}) && w in ws
    ensures Noted(n, n', t, getter, ws - {w}, busy)
    ensures n'[w] == n[w].(newDeps := n'[w].newDeps, newDepIds := n'[w].newDepIds)
    ensures Set(n'[w].newDeps) == Set(n[w].newDeps) + Collected(t, getter, w)
  {
  }

  lemma StillNoted(
    n: map<Watcher, Notes>, n1: map<Watcher, Notes>, n2: map<Watcher, Notes>, t: Targets, actions: seq<Action>,
    ws: set<Watcher>, busy: set<Watcher>)
    requires Noted(n, n1, t, actions, ws, busy) && ws <= n2.Keys && forall w | w in ws :: w in n1 && n2[w] == n1[w]
    ensures Noted(n, n2, t, actions, ws, busy)
  {
  }

  lemma DepsAreKnown(w: Watcher, ws: set<Watcher>, ds: set<Dep>)
    requires Linked(ws, ds) && w in ws
    ensures forall d | d in w.deps :: d in ds
  {
  }

  lemma SubscribedExactly(w: Watcher, ws: set<Watcher>, ds: set<Dep>)
    requires Linked(ws, ds) && w in ws && w.active && w.newDeps == []
    ensures forall d | d in ds :: w in d.subs <==> d in w.deps
  {
  }

  // What the first action does on its own.
  ghost predicate FirstNoted(
    n: map<Watcher, Notes>, n': map<Watcher, Notes>, t: Targets, actions: seq<Action>, ws: set<Watcher>,
    busy: set<Watcher>)
    requires actions != []
  {
    match actions[0]
    case Touch(d) => Noted(n, n', t, [Touch(d)], ws, busy)
    case Evaluate(w, getter) =>
      && Noted(n, n', Push(t, Some(w)), getter, ws - {w}, busy)
      && w in n && w in n' && n'[w].active && n'[w].newDeps == []
    case Untracked(body) => Noted(n, n', Push(t, None), body, ws, busy)
  }

  function AfterFirst(t: Targets, actions: seq<Action>): Targets
    requires actions != []
  {
    match actions[0]
    case Touch(_) => t
    case Evaluate(w, getter) => Pop(After(Push(t, Some(w)), getter))
    case Untracked(body) => Pop(After(Push(t, None), body))
  }

  lemma PreparedInside(
    n: map<Watcher, Notes>, t: Targets, actions: seq<Action>, ws: set<Watcher>, ds: set<Dep>, busy: set<Watcher>)
    requires actions != [] && Prepared(n, t, actions, ws, ds, busy)
    ensures match actions[0]
            case Touch(d) => d in ds && busy <= ws && forall w | w in Chain(t) :: w in busy && w in ws && n[w].active
            case Evaluate(w, getter) =>
              && Prepared(n, t, getter, ws, ds, busy) && w in ws && w !in busy && w !in Evaluated(getter)
              && n[w].active && n[w].newDeps == []
            case Untracked(body) => Prepared(n, Push(t, None), body, ws, ds, busy)
  {
  }

  lemma StillPrepared(
    n: map<Watcher, Notes>, n': map<Watcher, Notes>, t: Targets, actions: seq<Action>, ws: set<Watcher>, ds: set<Dep>,
    busy: set<Watcher>)
    requires actions != [] && Prepared(n, t, actions, ws, ds, busy) && FirstNoted(n, n', t, actions, ws, busy)
    requires n'.Keys == n.Keys
    ensures Prepared(n', AfterFirst(t, actions), actions[1..], ws, ds, busy)
  {
    var t1 := AfterFirst(t, actions);
    if !actions[0].Touch? {
      var w := if actions[0].Evaluate? then Some(actions[0].watcher) else None;
      var inner := if actions[0].Evaluate? then actions[0].getter else actions[0].body;
      TargetsShrink(Push(t, w), inner);
      PopShrinks(t, w, After(Push(t, w), inner));
    }
    assert Chain(t1) <= Chain(t);
    forall w | w in Chain(t1) ensures w in busy {
      assert w in Chain(t);
    }
  }

  lemma NotedInTurn(
    n: map<Watcher, Notes>, n1: map<Watcher, Notes>, n2: map<Watcher, Notes>, t: Targets, actions: seq<Action>,
    ws: set<Watcher>, busy: set<Watcher>)
    requires actions != [] && FirstNoted(n, n1, t, actions, ws, busy)
    requires Evaluated(actions) !! busy
    requires Noted(n1, n2, AfterFirst(t, actions), actions[1..], ws, busy)
    ensures Noted(n, n2, t, actions, ws, busy)
  {
    var t1, rest := AfterFirst(t, actions), actions[1..];
    forall w | w in busy && w in ws
      ensures Set(n2[w].newDeps) == Set(n[w].newDeps) + Collected(t, actions, w)
    {
      if actions[0].Touch? {
        OneTouch(t, actions[0].dep, w);
      }
      assert Set(n2[w].newDeps) == Set(n1[w].newDeps) + Collected(t1, rest, w);
    }
    if actions[0].Touch? {
      assert Evaluated([Touch(actions[0].dep)]) == {};
    }
    hide Set, Collected;
  }

  lemma OneTouch(t: Targets, d: Dep, w: Watcher)
    ensures Collected(t, [Touch(d)], w) == if t.target == Some(w) then {d} else {}
  {
    assert [Touch(d)][1..] == [];
  }

  // ---- What a getter does ----

  // It touches properties, has computed properties evaluated by their own watchers, and runs hooks and
  // data functions, for which no dep is to be noted.
  datatype Action =
    | Touch(dep: Dep)
    | Evaluate(watcher: Watcher, getter: seq<Action>)
    | Untracked(body: seq<Action>)

  datatype Targets = Targets(target: Option<Watcher>, stack: seq<Watcher>)

  function Push(t: Targets, w: Option<Watcher>): Targets {
    Targets(w, Chain(t))
  }

  function Pop(t: Targets): Targets {
    if t.stack == [] then Targets(None, [])
    else Targets(Some(t.stack[|t.stack| - 1]), t.stack[..|t.stack| - 1])
  }

  // The stack with the target on top, if there is one.
  function Chain(t: Targets): seq<Watcher> {
    t.stack + if t.target.Some? then [t.target.value] else []
  }

  /** The targets after some actions. */
  function After(t: Targets, actions: seq<Action>): Targets
    decreases actions
  {
    if actions == [] then t
    else
      var t1 :=
        match actions[0]
        case Touch(_) => t
        case Evaluate(w, getter) => Pop(After(Push(t, Some(w)), getter))
        case Untracked(body) => Pop(After(Push(t, None), body));
      After(t1, actions[1..])
  }

  /** The deps that are touched while `w` is the target. */
  function Collected(t: Targets, actions: seq<Action>, w: Watcher): set<Dep>
    decreases actions
  {
    if actions == [] then {}
    else
      match actions[0]
      case Touch(d) => (if t.target == Some(w) then {d} else {}) + Collected(t, actions[1..], w)
      case Evaluate(x, getter) =>
        var t1 := Push(t, Some(x));
        Collected(t1, getter, w) + Collected(Pop(After(t1, getter)), actions[1..], w)
      case Untracked(body) =>
        var t1 := Push(t, None);
        Collected(t1, body, w) + Collected(Pop(After(t1, body)), actions[1..], w)
  }

  function Evaluated(actions: seq<Action>): set<Watcher>
    decreases actions
  {
    if actions == [] then {}
    else
      (match actions[0]
       case Touch(_) => {}
       case Evaluate(w, getter) => {w} + Evaluated(getter)
       case Untracked(body) => Evaluated(body))
      + Evaluated(actions[1..])
  }

  function Touched(actions: seq<Action>): set<Dep>
    decreases actions
  {
    if actions == [] then {}
    else
      (match actions[0]
       case Touch(d) => {d}
       case Evaluate(_, getter) => Touched(getter)
       case Untracked(body) => Touched(body))
      + Touched(actions[1..])
  }

  // No watcher is evaluated while it is being evaluated.
  predicate NeverWithinItself(actions: seq<Action>)
    decreases actions
  {
    actions == []
    || ((match actions[0]
         case Touch(_) => true
         case Evaluate(w, getter) => w !in Evaluated(getter) && NeverWithinItself(getter)
         case Untracked(body) => NeverWithinItself(body))
        && NeverWithinItself(actions[1..]))
  }

  // What the getter touches itself.
  function Direct(actions: seq<Action>): set<Dep> {
    if actions == [] then {}
    else (if actions[0].Touch? then {actions[0].dep} else {}) + Direct(actions[1..])
  }

  predicate OnlyTouches(actions: seq<Action>) {
    forall a | a in actions :: a.Touch?
  }

  /** Nothing is evaluated, and no hook runs, where no dep is to be noted. */
  predicate Balanced(actions: seq<Action>)
    decreases actions
  {
    actions == []
    || ((match actions[0]
         case Touch(_) => true
         case Evaluate(_, getter) => Balanced(getter)
         case Untracked(body) => OnlyTouches(body))
        && Balanced(actions[1..]))
  }

  lemma PopShrinks(t: Targets, w: Option<Watcher>, r: Targets)
    requires Chain(r) <= Chain(Push(t, w)) && r.stack <= Push(t, w).stack
    ensures Chain(Pop(r)) <= Chain(t) && Pop(r).stack <= t.stack && |Pop(r).stack| <= |r.stack|
    ensures r.stack != [] ==> Chain(Pop(r)) == r.stack && |Pop(r).stack| < |r.stack|
    ensures r.stack == [] ==> Pop(r) == Targets(None, [])
  {
  }

  /** Targets are taken off too early, but never too late. */
  lemma {:induction false} TargetsShrink(t: Targets, actions: seq<Action>)
    ensures Chain(After(t, actions)) <= Chain(t) && After(t, actions).stack <= t.stack
    ensures After(t, actions).target.None? ==> After(t, actions) == t || After(t, actions).stack == []
    decreases actions
  {
    if actions != [] && actions[0].Touch? {
      TargetsShrink(t, actions[1..]);
    } else if actions != [] {
      var w := if actions[0].Evaluate? then Some(actions[0].watcher) else None;
      var inner := if actions[0].Evaluate? then actions[0].getter else actions[0].body;
      var r := After(Push(t, w), inner);
      TargetsShrink(Push(t, w), inner);
      PopShrinks(t, w, r);
      TargetsShrink(Pop(r), actions[1..]);
    }
  }

  lemma OnlyTouchesStay(t: Targets, actions: seq<Action>)
    requires OnlyTouches(actions)
    ensures After(t, actions) == t
  {
    if actions != [] {
      OnlyTouchesStay(t, actions[1..]);
    }
  }

  /** Where there is no target every evaluation and every hook takes one off the stack that was not theirs. */
  lemma {:induction false} NestedWithoutTarget(t: Targets, actions: seq<Action>)
    requires t.target.None? && t.stack != [] && !OnlyTouches(actions)
    ensures |After(t, actions).stack| < |t.stack|
    decreases actions
  {
    if actions[0].Touch? {
      NestedWithoutTarget(t, actions[1..]);
    } else {
      var w := if actions[0].Evaluate? then Some(actions[0].watcher) else None;
      var inner := if actions[0].Evaluate? then actions[0].getter else actions[0].body;
      var r := After(Push(t, w), inner);
      TargetsShrink(Push(t, w), inner);
      TargetsShrink(Pop(r), actions[1..]);
      PopShrinks(t, w, r);
      assert Push(t, w).stack == t.stack;
    }
  }

  /** The target and the stack come back if and only if the actions are balanced; if not, some are lost. */
  lemma {:induction false} TargetsReturn(t: Targets, actions: seq<Action>)
    requires t.target.Some?
    ensures if Balanced(actions) then After(t, actions) == t else |Chain(After(t, actions))| < |Chain(t)|
    decreases actions
  {
    if actions != [] && actions[0].Touch? {
      TargetsReturn(t, actions[1..]);
    } else if actions != [] {
      var w := if actions[0].Evaluate? then Some(actions[0].watcher) else None;
      var inner := if actions[0].Evaluate? then actions[0].getter else actions[0].body;
      var p := Push(t, w);
      var r := After(p, inner);
      assert Pop(p) == t;
      TargetsShrink(p, inner);
      PopShrinks(t, w, r);
      if actions[0].Evaluate? {
        TargetsReturn(p, inner);
        assert Balanced(inner) || |Chain(Pop(r))| < |Chain(t)|;
      } else if OnlyTouches(inner) {
        OnlyTouchesStay(p, inner);
      } else {
        NestedWithoutTarget(p, inner);
      }
      TargetsShrink(Pop(r), actions[1..]);
      if Pop(r) == t {
        TargetsReturn(t, actions[1..]);
      }
    }
  }

  lemma {:induction false} OthersCollectNothing(t: Targets, actions: seq<Action>, w: Watcher)
    requires t.target != Some(w) && Balanced(actions) && w !in Evaluated(actions)
    requires t.target.Some? || OnlyTouches(actions)
    ensures Collected(t, actions, w) == {}
    decreases actions
  {
    if actions != [] && actions[0].Touch? {
      OthersCollectNothing(t, actions[1..], w);
    } else if actions != [] {
      var x := if actions[0].Evaluate? then Some(actions[0].watcher) else None;
      var inner := if actions[0].Evaluate? then actions[0].getter else actions[0].body;
      assert actions[0] in actions;
      if actions[0].Untracked? {
        OnlyTouchesAreBalanced(inner);
      }
      OthersCollectNothing(Push(t, x), inner, w);
      BalancedInside(t, x, inner);
      OthersCollectNothing(t, actions[1..], w);
    }
  }

  lemma BalancedInside(t: Targets, x: Option<Watcher>, inner: seq<Action>)
    requires t.target.Some? && if x.Some? then Balanced(inner) else OnlyTouches(inner)
    ensures Pop(After(Push(t, x), inner)) == t
  {
    if x.Some? {
      TargetsReturn(Push(t, x), inner);
    } else {
      OnlyTouchesStay(Push(t, x), inner);
    }
  }

  lemma OnlyTouchesAreBalanced(actions: seq<Action>)
    requires OnlyTouches(actions)
    ensures Balanced(actions)
  {
    if actions != [] {
      OnlyTouchesAreBalanced(actions[1..]);
    }
  }

  /** Balanced actions are noted for the target exactly as far as it does them itself. */
  lemma {:induction false} BalancedCollects(t: Targets, actions: seq<Action>, w: Watcher)
    requires t.target == Some(w) && Balanced(actions) && w !in Evaluated(actions)
    ensures Collected(t, actions, w) == Direct(actions)
    decreases actions
  {
    if actions != [] && actions[0].Touch? {
      BalancedCollects(t, actions[1..], w);
    } else if actions != [] {
      var x := if actions[0].Evaluate? then Some(actions[0].watcher) else None;
      var inner := if actions[0].Evaluate? then actions[0].getter else actions[0].body;
      if actions[0].Untracked? {
        OnlyTouchesAreBalanced(inner);
      }
      OthersCollectNothing(Push(t, x), inner, w);
      BalancedInside(t, x, inner);
      BalancedCollects(t, actions[1..], w);
    }
  }

  lemma {:induction false} CollectedInTurn(t: Targets, a: seq<Action>, d: Dep, w: Watcher)
    ensures Collected(t, a + [Touch(d)], w) == Collected(t, a, w) + if After(t, a).target == Some(w) then {d} else {}
    decreases a
  {
    if a == [] {
      assert a + [Touch(d)] == [Touch(d)] && [Touch(d)][1..] == [];
    } else {
      assert (a + [Touch(d)])[0] == a[0] && (a + [Touch(d)])[1..] == a[1..] + [Touch(d)];
      var t1 :=
        match a[0]
        case Touch(_) => t
        case Evaluate(x, getter) => Pop(After(Push(t, Some(x)), getter))
        case Untracked(body) => Pop(After(Push(t, None), body));
      CollectedInTurn(t1, a[1..], d, w);
    }
  }

  /** A dep that the getter touches at last, and has not touched before, is noted for its watcher if and
      only if what came before was balanced. */
  lemma LastTouchIsNoted(t: Targets, actions: seq<Action>, d: Dep, w: Watcher)
    requires t.target == Some(w) && w !in t.stack && d !in Collected(t, actions, w)
    ensures d in Collected(t, actions + [Touch(d)], w) <==> Balanced(actions)
  {
    CollectedInTurn(t, actions, d, w);
    TargetsReturn(t, actions);
    TargetsShrink(t, actions);
    assert After(t, actions).target == Some(w) ==> After(t, actions).stack == t.stack by {
      var r := After(t, actions);
      if r.target == Some(w) {
        assert Chain(r)[|r.stack|] == w == Chain(t)[|r.stack|];
      }
    }
  }

  lemma BalancedGetter(t: Targets, getter: seq<Action>, w: Watcher)
    requires t.target == Some(w) && w !in Evaluated(getter)
    ensures Balanced(getter) ==> After(t, getter) == t && Collected(t, getter, w) == Direct(getter)
  {
    if Balanced(getter) {
      TargetsReturn(t, getter);
      BalancedCollects(t, getter, w);
    }
  }

  // ---- The two sides ----

  ghost predicate ListSound(list: seq<Dep>, ids: set<int>, ds: set<Dep>) {
    NoRepeats(list) && (forall d | d in list :: d in ds) && ids == (set d | d in list :: d.id)
  }

  ghost predicate SubsSound(subs: seq<Watcher>, ws: set<Watcher>) {
    NoRepeats(subs) && forall w | w in subs :: w in ws
  }

  lemma WithoutSub(subs: seq<Watcher>, w: Watcher, ws: set<Watcher>)
    requires SubsSound(subs, ws)
    ensures SubsSound(Removed(subs, w), ws)
    ensures forall x | x in ws :: x in Removed(subs, w) <==> x in subs && x != w
    ensures w !in Removed(subs, w)
  {
    RemovedOnce(subs, w);
  }

  ghost predicate IdsDistinct(ds: set<Dep>) {
    forall d, e | d in ds && e in ds && d.id == e.id :: d == e
  }

  /** A watcher stands in a dep's list, and then once, exactly if it is active and the dep stands in one of
      its own lists. */
  ghost predicate Linked(ws: set<Watcher>, ds: set<Dep>)
    reads ws, ds
  {
    && IdsDistinct(ds)
    && (forall w | w in ws :: ListSound(w.deps, w.depIds, ds) && ListSound(w.newDeps, w.newDepIds, ds))
    && (forall d | d in ds :: SubsSound(d.subs, ws))
    && (forall w, d | w in ws && d in ds :: w in d.subs <==> w.active && (d in w.deps || d in w.newDeps))
  }

  ghost predicate Otherwise(w0: Watcher, ws: set<Watcher>, ds: set<Dep>)
    reads ws, ds
  {
    && IdsDistinct(ds)
    && (forall w | w in ws :: ListSound(w.deps, w.depIds, ds) && ListSound(w.newDeps, w.newDepIds, ds))
    && (forall d | d in ds :: SubsSound(d.subs, ws))
    && (forall w, d | w in ws && d in ds && w != w0 :: w in d.subs <==> w.active && (d in w.deps || d in w.newDeps))
  }

  ghost predicate CleanedFrom(w: Watcher, i: nat, ws: set<Watcher>, ds: set<Dep>)
    requires i <= |w.deps|
    reads w, ws, ds
  {
    Otherwise(w, ws, ds) && forall d | d in ds :: w in d.subs <==> d in w.newDeps || d in w.deps[..i]
  }

  ghost predicate TornFrom(w: Watcher, i: nat, ws: set<Watcher>, ds: set<Dep>)
    requires i <= |w.deps|
    reads w, ws, ds
  {
    Otherwise(w, ws, ds) && forall d | d in ds :: w in d.subs <==> d in w.deps[..i]
  }

  lemma MarkedById(w: Watcher, ds: set<Dep>, d: Dep)
    requires IdsDistinct(ds) && d in ds
    requires ListSound(w.deps, w.depIds, ds) && ListSound(w.newDeps, w.newDepIds, ds)
    ensures d.id in w.depIds <==> d in w.deps
    ensures d.id in w.newDepIds <==> d in w.newDeps
  {
  }

  /** A watcher whose getter has a hook run in which a computed property is evaluated, and then touches a
      property: it does not get to know of changes to the property. */
  method ChangesAreMissed(watcher: Watcher, computed: Watcher, dep: Dep, runtime: Runtime) returns (subscribed: bool)
    requires watcher != computed && runtime.Current() == Targets(None, []) && dep.subs == []
    requires forall w | w in {watcher, computed} ::
               w.active && w.deps == [] && w.newDeps == [] && w.depIds == {} && w.newDepIds == {}
    modifies watcher, computed, dep, runtime
    ensures !subscribed && watcher !in dep.subs
  {
    hide Linked, Prepared, Noted, After, Balanced, Evaluated, Touched, NeverWithinItself, Collected, Pop, Direct;
    ghost var ws, ds := {watcher, computed}, {dep};
    var getter := [Untracked([Evaluate(computed, [])])] + [Touch(dep)];
    NothingLinked(watcher, computed, dep);
    MissedByGetter(watcher, computed, dep);
    NothingBusy(NotesOf(ws), getter, ws, ds);
    watcher.Get(getter, runtime, ws, ds, {});
    assert dep !in Set(watcher.deps) && dep in ds;
    subscribed := watcher in dep.subs;
  }

  lemma NothingLinked(watcher: Watcher, computed: Watcher, dep: Dep)
    requires forall w | w in {watcher, computed} ::
               w.active && w.deps == [] && w.newDeps == [] && w.depIds == {} && w.newDepIds == {}
    requires dep.subs == []
    ensures Linked({watcher, computed}, {dep})
  {
  }

  lemma NothingBusy(n: map<Watcher, Notes>, getter: seq<Action>, ws: set<Watcher>, ds: set<Dep>)
    requires NeverWithinItself(getter) && Touched(getter) <= ds && Evaluated(getter) <= ws <= n.Keys
    requires forall w | w in ws :: n[w].active && n[w].newDeps == []
    ensures Prepared(n, Targets(None, []), getter, ws, ds, {})
  {
  }

  lemma MissedByGetter(watcher: Watcher, computed: Watcher, dep: Dep)
    requires watcher != computed
    ensures var getter := [Untracked([Evaluate(computed, [])])] + [Touch(dep)];
            && Evaluated(getter) == {computed} && Touched(getter) == {dep} && NeverWithinItself(getter)
            && Collected(Push(Targets(None, []), Some(watcher)), getter, watcher) == {}
  {
    var none: seq<Action> := [];
    var hook := [Evaluate(computed, none)];
    var before := [Untracked(hook)];
    var getter := before + [Touch(dep)];
    var t := Push(Targets(None, []), Some(watcher));
    assert hook[1..] == [] && before[1..] == [] && [Touch(dep)][1..] == [];
    assert getter[0] == before[0] && getter[1..] == [Touch(dep)];
    assert !OnlyTouches(hook) by {
      assert hook[0] in hook;
    }
    assert Collected(Push(Push(t, None), Some(computed)), none, watcher) == {};
    assert Collected(Push(t, None), hook, watcher) == {};
    assert Collected(t, before, watcher) == {};
    LastTouchIsNoted(t, before, dep, watcher);
    CollectedInTurn(t, before, dep, watcher);
    assert Evaluated(hook) == {computed} && Evaluated([Touch(dep)]) == {};
    var last := [Touch(dep)];
    assert Touched(none) == {} && Touched(last[1..]) == {};
    assert Touched(hook) == {} && Touched(last) == {dep};
    assert last[1..] == none && NeverWithinItself(none);
    assert NeverWithinItself(last[1..]);
    assert NeverWithinItself(last);
    assert NeverWithinItself(hook);
  }
}
