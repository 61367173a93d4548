/** The watcher queue of the vendored Vue runtime: watchers queued before or during a flush run in the
    order of their ids, each once for every time it was queued. */
module VueScheduler {
  import opened Wrappers

  type Id = int

  const MAX_UPDATE_COUNT := 100

  predicate Ascending(s: seq<Id>) {
    forall i, j | 0 <= i < j < |s| :: s[i] < s[j]
  }

  function Ids(s: seq<Id>): set<Id> {
    set x | x in s
  }

  // ---- The simple form: a set of pending watchers, the least of which runs next ----

  predicate Least(s: set<Id>, m: Id) {
    m in s && forall x | x in s :: m <= x
  }

  lemma {:induction false} SomeIsLeast(s: set<Id>)
    requires s != {}
    ensures exists m :: Least(s, m)
  {
    var a := SomeElement(s);
    var rest := s - {a};
    assert forall x :: x in s <==> x in rest || x == a;
    if rest == {} {
      assert Least(s, a);
    } else {
      SomeIsLeast(rest);
      var b :| Least(rest, b);
      assert Least(s, if a < b then a else b);
    }
  }

  function Min(s: set<Id>): (m: Id)
    requires s != {}
    ensures Least(s, m)
  {
    SomeIsLeast(s);
    var m :| m in s && Least(s, m);
    m
  }

  function Count(circular: map<Id, nat>, id: Id): nat {
    if id in circular then circular[id] else 0
  }

  datatype Outcome = Outcome(ran: seq<Id>, stopped: bool)

  /** What a flush runs. `pushes` are the watchers that each run queues in turn; after the last of them
      runs queue nothing more. A watcher that queues itself more than a hundred times ends the flush. */
  function Rounds(pending: set<Id>, pushes: seq<seq<Id>>, circular: map<Id, nat>): Outcome
    decreases |pushes|, |pending|
  {
    if pending == {} then Outcome([], false)
    else
      var m := Min(pending);
      var pushed := if pushes == [] then {} else Ids(pushes[0]);
      var left := pending - {m} + pushed;
      var again := if m in left then circular[m := Count(circular, m) + 1] else circular;
      if m in left && again[m] > MAX_UPDATE_COUNT then Outcome([m], true)
      else
        assert pushes == [] ==> left == pending - {m} && |left| < |pending|;
        Before([m], Rounds(left, if pushes == [] then [] else pushes[1..], again))
  }

  function Before(ran: seq<Id>, later: Outcome): Outcome {
    Outcome(ran + later.ran, later.stopped)
  }

  function Left(pending: set<Id>, pushes: seq<seq<Id>>): set<Id>
    requires pending != {}
  {
    pending - {Min(pending)} + (if pushes == [] then {} else Ids(pushes[0]))
  }

  function Again(pending: set<Id>, pushes: seq<seq<Id>>, circular: map<Id, nat>): map<Id, nat>
    requires pending != {}
  {
    var m := Min(pending);
    if m in Left(pending, pushes) then circular[m := Count(circular, m) + 1] else circular
  }

  function Rest(pushes: seq<seq<Id>>): seq<seq<Id>> {
    if pushes == [] then [] else pushes[1..]
  }

  lemma GoesOn(pending: set<Id>, pushes: seq<seq<Id>>, circular: map<Id, nat>)
    requires pending != {} && !Rounds(pending, pushes, circular).stopped
    ensures Rounds(pending, pushes, circular)
         == Before([Min(pending)], Rounds(Left(pending, pushes), Rest(pushes), Again(pending, pushes, circular)))
    ensures pushes == [] ==> Left(pending, pushes) == pending - {Min(pending)} && |Left(pending, pushes)| < |pending|
    ensures forall id | id in pending && id != Min(pending) :: id in Left(pending, pushes)
  {
    if pushes == [] {
      assert Left(pending, pushes) == pending - {Min(pending)};
    }
  }

  /** A flush that is not stopped runs every watcher that was pending when it began. */
  lemma {:induction false} PendingIsRun(pending: set<Id>, pushes: seq<seq<Id>>, circular: map<Id, nat>, id: Id)
    requires id in pending && !Rounds(pending, pushes, circular).stopped
    ensures id in Rounds(pending, pushes, circular).ran
    decreases |pushes|, |pending|
  {
    hide Rounds, Left, Again;
    GoesOn(pending, pushes, circular);
    if id != Min(pending) {
      PendingIsRun(Left(pending, pushes), Rest(pushes), Again(pending, pushes, circular), id);
    }
  }

  /** And every watcher a run queued is run after that run. */
  lemma {:induction false} PushedIsRunLater(
    pending: set<Id>, pushes: seq<seq<Id>>, circular: map<Id, nat>, k: nat, id: Id)
    requires !Rounds(pending, pushes, circular).stopped
    requires k < |Rounds(pending, pushes, circular).ran| && k < |pushes| && id in pushes[k]
    ensures id in Rounds(pending, pushes, circular).ran[k + 1..]
    decreases |pushes|
  {
    SomePending(pending, pushes, circular);
    hide Rounds, Again;
    GoesOn(pending, pushes, circular);
    var ran := Rounds(pending, pushes, circular).ran;
    var left, again := Left(pending, pushes), Again(pending, pushes, circular);
    var later := Rounds(left, Rest(pushes), again).ran;
    if k == 0 {
      PendingIsRun(left, Rest(pushes), again, id);
      assert ran[1..] == later;
    } else {
      PushedIsRunLater(left, Rest(pushes), again, k - 1, id);
      assert ran[k + 1..] == later[k..];
    }
  }

  lemma SomePending(pending: set<Id>, pushes: seq<seq<Id>>, circular: map<Id, nat>)
    requires Rounds(pending, pushes, circular).ran != []
    ensures pending != {}
  {
  }

  /** How often the runs of a watcher queued the watcher itself again. */
  function SelfQueued(ran: seq<Id>, pushes: seq<seq<Id>>, id: Id): nat
    decreases |ran|
  {
    if ran == [] || pushes == [] then 0
    else (if ran[0] == id && id in pushes[0] then 1 else 0) + SelfQueued(ran[1..], pushes[1..], id)
  }

  lemma SelfQueuedNext(m: Id, later: seq<Id>, pending: set<Id>, pushes: seq<seq<Id>>, circular: map<Id, nat>, id: Id)
    requires pending != {} && m == Min(pending)
    ensures Count(circular, id) + SelfQueued([m] + later, pushes, id)
         == Count(Again(pending, pushes, circular), id) + SelfQueued(later, Rest(pushes), id)
  {
    assert ([m] + later)[1..] == later;
    assert m in Left(pending, pushes) <==> pushes != [] && m in pushes[0];
    if pushes == [] {
      assert SelfQueued(later, Rest(pushes), id) == 0;
    }
  }

  lemma CountsBounded(pending: set<Id>, pushes: seq<seq<Id>>, circular: map<Id, nat>)
    requires pending != {} && forall id :: Count(circular, id) <= 100
    requires var again := Again(pending, pushes, circular);
             Min(pending) in Left(pending, pushes) ==> again[Min(pending)] <= MAX_UPDATE_COUNT
    ensures forall id :: Count(Again(pending, pushes, circular), id) <= 100
  {
    hide Left;
    var m, again := Min(pending), Again(pending, pushes, circular);
    forall id ensures Count(again, id) <= 100 {
      assert Count(circular, id) <= 100;
      assert id != m ==> Count(again, id) == Count(circular, id);
    }
  }

  lemma {:induction false} StopsByCount(pending: set<Id>, pushes: seq<seq<Id>>, circular: map<Id, nat>)
    requires forall id :: Count(circular, id) <= 100
    ensures var r := Rounds(pending, pushes, circular);
            if r.stopped
            then r.ran != [] && var last := r.ran[|r.ran| - 1];
                 Count(circular, last) + SelfQueued(r.ran, pushes, last) == 101
            else forall id :: Count(circular, id) + SelfQueued(r.ran, pushes, id) <= 100
    decreases |pushes|, |pending|
  {
    if pending != {} {
      var m := Min(pending);
      var left, again := Left(pending, pushes), Again(pending, pushes, circular);
      if m in left && again[m] > MAX_UPDATE_COUNT {
        StopsNow(pending, pushes, circular);
      } else {
        if pushes == [] {
          assert left == pending - {m};
        }
        CountsBounded(pending, pushes, circular);
        StopsByCount(left, Rest(pushes), again);
        var later := Rounds(left, Rest(pushes), again);
        RoundsGoOn(pending, pushes, circular);
        forall id
          ensures Count(circular, id) + SelfQueued([m] + later.ran, pushes, id)
               == Count(again, id) + SelfQueued(later.ran, Rest(pushes), id)
        {
          SelfQueuedNext(m, later.ran, pending, pushes, circular, id);
        }
      }
    }
  }

  lemma StopsNow(pending: set<Id>, pushes: seq<seq<Id>>, circular: map<Id, nat>)
    requires pending != {} && Min(pending) in Left(pending, pushes) && Count(circular, Min(pending)) <= 100
    requires Again(pending, pushes, circular)[Min(pending)] > MAX_UPDATE_COUNT
    ensures Rounds(pending, pushes, circular) == Outcome([Min(pending)], true)
    ensures Count(circular, Min(pending)) + SelfQueued([Min(pending)], pushes, Min(pending)) == 101
  {
    assert [Min(pending)][1..] == [];
  }

  lemma RoundsGoOn(pending: set<Id>, pushes: seq<seq<Id>>, circular: map<Id, nat>)
    requires pending != {}
    requires var again := Again(pending, pushes, circular);
             Min(pending) in Left(pending, pushes) ==> again[Min(pending)] <= MAX_UPDATE_COUNT
    ensures Rounds(pending, pushes, circular)
         == Before([Min(pending)], Rounds(Left(pending, pushes), Rest(pushes), Again(pending, pushes, circular)))
  {
  }

  /** A flush is stopped by the run in which a watcher queues itself for the hundred and first time, and not
      at all if none does so more than a hundred times. */
  lemma StopsExactly(pending: set<Id>, pushes: seq<seq<Id>>)
    ensures var r := Rounds(pending, pushes, map[]);
            && (r.stopped ==> r.ran != [] && SelfQueued(r.ran, pushes, r.ran[|r.ran| - 1]) == 101)
            && (!r.stopped ==> forall id :: SelfQueued(r.ran, pushes, id) <= 100)
  {
    assert forall id :: Count(map[], id) == 0;
    StopsByCount(pending, pushes, map[]);
    hide Rounds;
  }

  /** When runs queue nothing, the pending watchers run once each in the order of their ids. */
  lemma {:induction false} QuietFlushIsInOrder(pending: set<Id>, circular: map<Id, nat>)
    ensures var r := Rounds(pending, [], circular); !r.stopped && Ascending(r.ran) && Ids(r.ran) == pending
    decreases |pending|
  {
    if pending == {} {
      assert Ids([]) == {};
    } else {
      QuietNeverStops(pending, circular);
      GoesOn(pending, [], circular);
      hide Rounds;
      var m, again := Min(pending), Again(pending, [], circular);
      QuietFlushIsInOrder(pending - {m}, again);
      LeastFirst(m, Rounds(pending - {m}, [], again).ran, pending);
    }
  }

  lemma {:induction false} QuietNeverStops(pending: set<Id>, circular: map<Id, nat>)
    ensures !Rounds(pending, [], circular).stopped
    decreases |pending|
  {
    if pending != {} {
      assert pending - {Min(pending)} + {} == pending - {Min(pending)};
      QuietNeverStops(pending - {Min(pending)}, circular);
    }
  }

  lemma LeastFirst(m: Id, later: seq<Id>, pending: set<Id>)
    requires Least(pending, m) && Ascending(later) && Ids(later) == pending - {m}
    ensures Ascending([m] + later) && Ids([m] + later) == pending
  {
    assert forall i | 0 <= i < |later| :: later[i] in Ids(later);
    assert Ids([m] + later) == {m} + Ids(later);
  }

  // ---- The queue ----

  class Scheduler {
    var queue: seq<Id>
    var has: set<Id>
    var circular: map<Id, nat>
    var waiting: bool
    var flushing: bool
    var index: nat
    var ticks: nat

    constructor ()
      ensures Valid() && queue == [] && !flushing && circular == map[] && ticks == 0
    {
      queue, has, circular := [], {}, map[];
      waiting, flushing, index, ticks := false, false, 0, 0;
    }

    // What is still to run: everything, or what comes after the watcher that is running.
    function Tail(): seq<Id>
      reads this
    {
      if !flushing then queue else if index < |queue| then queue[index + 1..] else []
    }

    /** Nothing is queued twice and nothing queued is forgotten; during a flush the rest of the queue is
        in order. A flush is asked for exactly when there is something to run. */
    ghost predicate Valid()
      reads this
    {
      && has == Ids(Tail())
      && (forall i, j | 0 <= i < j < |Tail()| :: Tail()[i] != Tail()[j])
      && (flushing ==> index < |queue| && Ascending(Tail()) && waiting)
      && (!flushing ==> (waiting <==> queue != []))
    }

    method QueueWatcher(id: Id)
      requires Valid()
      modifies this`queue, this`has, this`waiting, this`ticks
      ensures Valid()
      ensures has == old(has) + {id}
      ensures id in old(has) ==> queue == old(queue)
      ensures !flushing && id !in old(has) ==> queue == old(queue) + [id]
      ensures flushing
          ==> index < |queue| && index < |old(queue)| && forall k | 0 <= k <= index :: queue[k] == old(queue)[k]
      ensures ticks == old(ticks) + if waiting && !old(waiting) then 1 else 0
    {
      if id in has {
        assert has == has + {id};
        return;
      }
      has := has + {id};
      if !flushing {
        queue := queue + [id];
      } else {
        SpliceById(id);
      }
      if !waiting {
        waiting := true;
        ticks := ticks + 1;
      }
    }

    // Puts a watcher into the rest of the queue by its id; one that is already past its id comes next.
    method SpliceById(id: Id)
      requires index < |queue| && Ascending(queue[index + 1..]) && id !in queue[index + 1..]
      modifies this`queue
      ensures |queue| > index && forall k | 0 <= k <= index :: queue[k] == old(queue)[k]
      ensures Ascending(queue[index + 1..]) && Ids(queue[index + 1..]) == Ids(old(queue)[index + 1..]) + {id}
    {
      hide Ascending, Ids;
      var i := |queue| - 1;
      while i > index && queue[i] > id
        invariant index <= i < |queue|
        invariant forall k | i < k < |queue| :: queue[k] > id
      {
        i := i - 1;
      }
      Spliced(queue, index, i + 1, id);
      queue := queue[..i + 1] + [id] + queue[i + 1..];
    }

    method ResetSchedulerState()
      modifies this
      ensures Valid() && queue == [] && has == {} && circular == map[] && !waiting && !flushing && index == 0
      ensures ticks == old(ticks)
    {
      index, queue := 0, [];
      has, circular := {}, map[];
      waiting, flushing := false, false;
    }

    // What is left from a position on is in order, and exactly that is marked.
    ghost predicate InOrder(from: nat)
      reads this
    {
      from <= |queue| && Ascending(queue[from..]) && has == Ids(queue[from..])
    }

    // A watcher's run, as far as the scheduler sees it.
    method RunWatcher(pushed: seq<Id>)
      requires Valid() && flushing && index < |queue|
      modifies this`queue, this`has, this`waiting, this`ticks
      ensures Valid() && waiting && ticks == old(ticks)
      ensures has == old(has) + Ids(pushed)
      ensures index < |queue| && queue[index] == old(queue)[index]
      ensures pushed == [] ==> queue == old(queue)
      decreases |pushed|
    {
      FlushIsAskedFor();
      hide Valid, Ascending, Ids;
      FirstPush(pushed, has);
      if pushed != [] {
        QueueWatcher(pushed[0]);
        FlushIsAskedFor();
        RunWatcher(pushed[1..]);
      }
    }

    lemma FlushIsAskedFor()
      requires Valid() && flushing
      ensures waiting
    {
    }

    // One step of the flush: the watcher at the index is unmarked and run.
    method RunNext(pushed: seq<Id>)
      requires flushing && index < |queue| && InOrder(index) && waiting
      modifies this`queue, this`has, this`waiting, this`ticks
      ensures waiting && ticks == old(ticks)
      ensures index < |queue| && queue[index] == old(queue)[index] && InOrder(index + 1)
      ensures has == old(has) - {old(queue)[index]} + Ids(pushed)
      ensures Least(old(has), old(queue)[index])
      ensures pushed == [] ==> queue == old(queue)
    {
      var id := queue[index];
      NextToRun(queue, index);
      has := has - {id};
      assert Valid();
      RunWatcher(pushed);
    }

    /** The flush runs what the simple form runs, and leaves the scheduler empty. Watchers that are still
        pending are dropped only when the flush is stopped. */
    method FlushSchedulerQueue(pushes: seq<seq<Id>>) returns (ran: seq<Id>, stopped: bool)
      requires Valid() && !flushing
      modifies this
      ensures Outcome(ran, stopped) == Rounds(old(has), pushes, old(circular))
      ensures Valid() && queue == [] && has == {} && circular == map[] && !waiting && !flushing && index == 0
      ensures ticks == old(ticks)
    {
      hide Rounds, Before;
      ran, stopped := [], false;
      ghost var total := Rounds(has, pushes, circular);
      NothingBefore(total);
      var rest := pushes;
      SortedIds(queue);
      flushing, queue, index := true, Sort(queue), 0;
      assert queue[0..] == queue;
      while index < |queue|
        invariant flushing && !stopped && ticks == old(ticks) && InOrder(index) && (waiting || index == |queue|)
        invariant total == Before(ran, Rounds(has, rest, circular))
        decreases |rest|, |queue| - index
      {
        hide InOrder, Valid;
        var id, pushed := queue[index], if rest == [] then [] else rest[0];
        ghost var pending := has;
        RunNext(pushed);
        RoundStep(total, ran, pending, rest, circular, id, has);
        ran := ran + [id];
        rest := if rest == [] then [] else rest[1..];
        if id in has {
          circular := circular[id := Count(circular, id) + 1];
          if circular[id] > MAX_UPDATE_COUNT {
            stopped := true;
            ResetSchedulerState();
            return;
          }
        }
        index := index + 1;
      }
      assert queue[index..] == [] && has == {};
      NothingPending(rest, circular, ran);
      ResetSchedulerState();
    }
  }

  lemma NothingBefore(later: Outcome)
    ensures Before([], later) == later
  {
  }

  lemma RoundStep(
    total: Outcome, ran: seq<Id>, pending: set<Id>, pushes: seq<seq<Id>>, circular: map<Id, nat>, id: Id, has: set<Id>)
    requires total == Before(ran, Rounds(pending, pushes, circular))
    requires Least(pending, id) && has == pending - {id} + (if pushes == [] then {} else Ids(pushes[0]))
    ensures var again := if id in has then circular[id := Count(circular, id) + 1] else circular;
            total == if id in has && again[id] > MAX_UPDATE_COUNT then Outcome(ran + [id], true)
                     else Before(ran + [id], Rounds(has, if pushes == [] then [] else pushes[1..], again))
  {
    var again := if id in has then circular[id := Count(circular, id) + 1] else circular;
    NextRound(pending, pushes, circular, id, has);
    BeforeTwice(ran, id, Rounds(has, if pushes == [] then [] else pushes[1..], again));
  }

  lemma BeforeTwice(ran: seq<Id>, id: Id, later: Outcome)
    ensures Before(ran, Before([id], later)) == Before(ran + [id], later)
  {
    assert ran + ([id] + later.ran) == ran + [id] + later.ran;
  }

  lemma NothingPending(pushes: seq<seq<Id>>, circular: map<Id, nat>, ran: seq<Id>)
    ensures Before(ran, Rounds({}, pushes, circular)) == Outcome(ran, false)
  {
  }

  lemma FirstPush(pushed: seq<Id>, has: set<Id>)
    ensures pushed == [] ==> has + Ids(pushed) == has
    ensures pushed != [] ==> has + Ids(pushed) == has + {pushed[0]} + Ids(pushed[1..])
  {
  }

  lemma BetweenIds(a: seq<Id>, id: Id, b: seq<Id>)
    requires Ascending(a + b) && (forall x | x in a :: x < id) && (forall x | x in b :: x > id)
    ensures Ascending(a + [id] + b) && Ids(a + [id] + b) == Ids(a + b) + {id}
  {
    var s, t := a + b, a + [id] + b;
    forall i, j | 0 <= i < j < |t| ensures t[i] < t[j] {
      var i', j' := if i > |a| then i - 1 else i, if j > |a| then j - 1 else j;
      if i != |a| && j != |a| {
        assert t[i] == s[i'] && t[j] == s[j'];
      } else if i == |a| {
        assert t[j] == b[j - |a| - 1] && t[j] in b;
      } else {
        assert t[i] == a[i] && t[i] in a;
      }
    }
  }

  lemma SpliceParts(queue: seq<Id>, index: nat, at: nat, id: Id)
    requires index < at <= |queue|
    ensures var a, b := queue[index + 1..at], queue[at..];
            && queue[index + 1..] == a + b
            && (queue[..at] + [id] + queue[at..])[index + 1..] == a + [id] + b
            && (queue[..at] + [id] + queue[at..])[..index + 1] == queue[..index + 1]
  {
  }

  lemma LastIsGreatest(a: seq<Id>, b: seq<Id>, id: Id)
    requires Ascending(a + b) && id !in a + b && (a != [] ==> a[|a| - 1] <= id)
    ensures forall x | x in a :: x < id
  {
    var s := a + b;
    forall i | 0 <= i < |a| ensures a[i] < id {
      assert s[i] == a[i] && s[|a| - 1] == a[|a| - 1] && a[i] in s;
    }
  }

  lemma Spliced(queue: seq<Id>, index: nat, at: nat, id: Id)
    requires index < at <= |queue| && Ascending(queue[index + 1..]) && id !in queue[index + 1..]
    requires forall k | at <= k < |queue| :: queue[k] > id
    requires at > index + 1 ==> queue[at - 1] <= id
    ensures var spliced := queue[..at] + [id] + queue[at..];
            && Ascending(spliced[index + 1..]) && Ids(spliced[index + 1..]) == Ids(queue[index + 1..]) + {id}
            && spliced[..index + 1] == queue[..index + 1]
  {
    hide Ascending, Ids;
    var a, b := queue[index + 1..at], queue[at..];
    SpliceParts(queue, index, at, id);
    LastIsGreatest(a, b, id);
    BetweenIds(a, id, b);
  }

  function Insert(s: seq<Id>, x: Id): seq<Id> {
    if s == [] || x <= s[0] then [x] + s else [s[0]] + Insert(s[1..], x)
  }

  function Sort(s: seq<Id>): seq<Id> {
    if s == [] then [] else Insert(Sort(s[1..]), s[0])
  }

  lemma {:induction false} InsertedIds(s: seq<Id>, x: Id)
    requires Ascending(s) && x !in s
    ensures Ascending(Insert(s, x)) && Ids(Insert(s, x)) == Ids(s) + {x}
  {
    if s != [] && x > s[0] {
      InsertedIds(s[1..], x);
      var rest := Insert(s[1..], x);
      forall i | 0 <= i < |rest| ensures s[0] < rest[i] {
        assert rest[i] in Ids(rest);
      }
    }
  }

  lemma {:induction false} SortedIds(s: seq<Id>)
    requires forall i, j | 0 <= i < j < |s| :: s[i] != s[j]
    ensures Ascending(Sort(s)) && Ids(Sort(s)) == Ids(s)
  {
    if s != [] {
      SortedIds(s[1..]);
      assert forall x :: x in Sort(s[1..]) <==> x in Ids(Sort(s[1..]));
      InsertedIds(Sort(s[1..]), s[0]);
    }
  }

  // The watcher at the index is the least of those left, and the others come after it.
  lemma NextToRun(queue: seq<Id>, index: nat)
    requires index < |queue| && Ascending(queue[index..])
    ensures Least(Ids(queue[index..]), queue[index])
    ensures Ids(queue[index + 1..]) == Ids(queue[index..]) - {queue[index]}
    ensures Ascending(queue[index + 1..])
  {
    var rest := queue[index..];
    assert rest[0] == queue[index] && rest[1..] == queue[index + 1..];
  }

  lemma NextRound(pending: set<Id>, pushes: seq<seq<Id>>, circular: map<Id, nat>, id: Id, has: set<Id>)
    requires Least(pending, id) && has == pending - {id} + (if pushes == [] then {} else Ids(pushes[0]))
    ensures var again := if id in has then circular[id := Count(circular, id) + 1] else circular;
            Rounds(pending, pushes, circular)
            == if id in has && again[id] > MAX_UPDATE_COUNT then Outcome([id], true)
               else Before([id], Rounds(has, if pushes == [] then [] else pushes[1..], again))
  {
    assert Min(pending) == id;
  }
}
