/** Order ids from database segments: any number of processes and threads draw from ranges that are
    refilled and prefetched concurrently. Ids are mathematical integers. */
module IdSegments {
  import opened Wrappers
  import opened SeckillTypes
  import Decimals

  // ---- The allocator ----

  datatype Segment = Segment(maxId: int, step: int, version: int)

  datatype Range = Range(start: int, end: int)

  datatype AllocationError = NotConfigured | Exhausted

  class IdSegmentMapper {
    var segments: map<string, Segment>

    method Advance(bizTag: string, step: int) returns (updated: nat)
      modifies this
      ensures updated == if bizTag in old(segments) then 1 else 0
      ensures segments == if bizTag in old(segments)
                          then old(segments)[bizTag := Advanced(old(segments)[bizTag], step)] else old(segments)
    {
      if bizTag !in segments {
        return 0;
      }
      segments := segments[bizTag := Advanced(segments[bizTag], step)];
      return 1;
    }
  }

  function Advanced(segment: Segment, step: int): Segment {
    segment.(maxId := segment.maxId + step, version := segment.version + 1)
  }

  function ChosenStep(segment: Segment, configuredStep: int): int {
    if configuredStep > 0 then configuredStep else segment.step
  }

  class IdSegmentAllocator {
    const mapper: IdSegmentMapper

    constructor (mapper: IdSegmentMapper)
      ensures this.mapper == mapper
    {
      this.mapper := mapper;
    }

    /** The ids from the old high-water mark up to the new one, which still is a long; on an error the
        mark stays where it is. */
    method Allocate(bizTag: string, configuredStep: int) returns (r: Result<Range, AllocationError>)
      modifies mapper
      ensures r == Err(NotConfigured) <==> bizTag !in old(mapper.segments)
      ensures r == Err(Exhausted) <==>
                && bizTag in old(mapper.segments)
                && var segment := old(mapper.segments)[bizTag];
                   var step := if configuredStep > 0 then configuredStep else segment.step;
                   step <= 0 || segment.maxId + step > Decimals.LONG_MAX
      ensures r.Err? ==> mapper.segments == old(mapper.segments)
      ensures r.Ok? ==>
                && bizTag in mapper.segments && bizTag in old(mapper.segments)
                && r.value.start == old(mapper.segments)[bizTag].maxId < r.value.end == mapper.segments[bizTag].maxId
                && r.value.end - r.value.start
                   == (if configuredStep > 0 then configuredStep else old(mapper.segments)[bizTag].step)
                && mapper.segments - {bizTag} == old(mapper.segments) - {bizTag}
                && (IsLong(old(mapper.segments)[bizTag].maxId) ==> IsLong(r.value.end))
    {
      if bizTag !in mapper.segments {
        return Err(NotConfigured);
      }
      var segment := mapper.segments[bizTag];
      var step := ChosenStep(segment, configuredStep);
      if step <= 0 || segment.maxId > Decimals.LONG_MAX - step {
        return Err(Exhausted);
      }
      var _ := mapper.Advance(bizTag, step);
      return Ok(Range(segment.maxId, segment.maxId + step));
    }
  }

  // ---- The generators ----

  type InstanceId = int
  type RangeRef = nat

  datatype Thread = Thread(instance: InstanceId, number: int)

  // A range an instance draws from; `next` may run past the end.
  datatype LocalRange = LocalRange(owner: InstanceId, start: int, end: int, next: int)

  // Where a thread stands in nextId.
  datatype Place =
    | Looping
    | Loaded(range: RangeRef)
    | Holding(id: int)
    | Refilling
    | InMonitor
    | AllocatingInMonitor

  datatype Prefetch = NotPrefetching | Asked | Fetched(range: RangeRef)

  datatype Instance = Instance(
    current: Option<RangeRef>, next: Option<RangeRef>, prefetch: Prefetch, monitor: Option<Thread>)

  datatype Issue = Issue(id: int, range: RangeRef, thread: Thread)

  // `ranges` holds every range ever allocated, `issued` every id ever drawn; neither is forgotten when
  // an instance goes away.
  datatype Generators = Generators(
    maxId: int, ranges: seq<LocalRange>, instances: map<InstanceId, Instance>, threads: map<Thread, Place>,
    issued: seq<Issue>)

  datatype Step =
    | StartInstance(instance: InstanceId)
    | StopInstance(instance: InstanceId)
    | Call(thread: Thread)
    | Load(thread: Thread)
    | Draw(thread: Thread)
    | Return(thread: Thread, askPrefetch: bool)
    | Enter(thread: Thread)
    | Check(thread: Thread, askPrefetch: bool)
    | Allocate(thread: Thread, step: int, askPrefetch: bool)
    | FailInMonitor(thread: Thread)
    | AskPrefetch(instance: InstanceId)
    | PrefetchAllocate(instance: InstanceId, step: int)
    | PrefetchFail(instance: InstanceId)
    | PrefetchInstall(instance: InstanceId)

  predicate At(g: Generators, t: Thread, place: Place) {
    t in g.threads && g.threads[t] == place && t.instance in g.instances
  }

  predicate Allocatable(g: Generators, step: int) {
    step > 0 && g.maxId + step <= Decimals.LONG_MAX
  }

  predicate HasLeft(g: Generators, range: Option<RangeRef>) {
    range.Some? && range.value < |g.ranges| && g.ranges[range.value].next < g.ranges[range.value].end
  }

  predicate Enabled(g: Generators, step: Step) {
    match step
    case StartInstance(i) => i !in g.instances && forall k | 0 <= k < |g.ranges| :: g.ranges[k].owner != i
    case StopInstance(i) => i in g.instances
    case Call(t) => t !in g.threads && t.instance in g.instances
    case Load(t) => At(g, t, Looping)
    case Draw(t) => t in g.threads && g.threads[t].Loaded? && g.threads[t].range < |g.ranges|
    case Return(t, _) => t in g.threads && g.threads[t].Holding? && t.instance in g.instances
    case Enter(t) => At(g, t, Refilling) && g.instances[t.instance].monitor.None?
    case Check(t, _) => At(g, t, InMonitor)
    case Allocate(t, n, _) => At(g, t, AllocatingInMonitor) && Allocatable(g, n)
    case FailInMonitor(t) => At(g, t, AllocatingInMonitor)
    case AskPrefetch(i) => i in g.instances && g.instances[i].prefetch.NotPrefetching?
    case PrefetchAllocate(i, n) => i in g.instances && g.instances[i].prefetch.Asked? && Allocatable(g, n)
    case PrefetchFail(i) => i in g.instances && !g.instances[i].prefetch.NotPrefetching?
    case PrefetchInstall(i) => i in g.instances && g.instances[i].prefetch.Fetched? && g.instances[i].monitor.None?
  }

  // Asking again while a prefetch is under way does nothing. The look at `next` before is left out: it
  // may be outdated by the time the request is made.
  function Ask(instance: Instance, ask: bool): Instance {
    if ask && instance.prefetch.NotPrefetching? then instance.(prefetch := Asked) else instance
  }

  function WithRange(g: Generators, owner: InstanceId, step: int): Generators {
    g.(maxId := g.maxId + step, ranges := g.ranges + [LocalRange(owner, g.maxId, g.maxId + step, g.maxId)])
  }

  function Put(g: Generators, i: InstanceId, instance: Instance): Generators {
    g.(instances := g.instances[i := instance])
  }

  function Go(g: Generators, t: Thread, place: Place): Generators {
    g.(threads := g.threads[t := place])
  }

  // getAndIncrement: the id is drawn if it lies in the range.
  function AfterDraw(g: Generators, t: Thread): Generators
    requires t in g.threads && g.threads[t].Loaded? && g.threads[t].range < |g.ranges|
  {
    var ref := g.threads[t].range;
    var range := g.ranges[ref];
    var g1 := g.(ranges := g.ranges[ref := range.(next := range.next + 1)]);
    if range.next < range.end
    then Go(g1.(issued := g1.issued + [Issue(range.next, ref, t)]), t, Holding(range.next))
    else Go(g1, t, Refilling)
  }

  function Apply(g: Generators, step: Step): Generators
    requires Enabled(g, step)
  {
    match step
    case StartInstance(i) => Put(g, i, Instance(None, None, NotPrefetching, None))
    case StopInstance(i) =>
      g.(instances := g.instances - {i}, threads := map t | t in g.threads && t.instance != i :: g.threads[t])
    case Call(t) => Go(g, t, Looping)
    case Load(t) =>
      var current := g.instances[t.instance].current;
      Go(g, t, if current.Some? then Loaded(current.value) else Refilling)
    case Draw(t) => AfterDraw(g, t)
    case Return(t, ask) =>
      Put(g, t.instance, Ask(g.instances[t.instance], ask)).(threads := g.threads - {t})
    case Enter(t) => Go(Put(g, t.instance, g.instances[t.instance].(monitor := Some(t))), t, InMonitor)
    case Check(t, ask) =>
      var instance := g.instances[t.instance];
      if HasLeft(g, instance.current) then Go(Put(g, t.instance, instance.(monitor := None)), t, Looping)
      else if instance.next.Some? then
        Go(Put(g, t.instance, Ask(instance.(current := instance.next, next := None, monitor := None), ask)), t, Looping)
      else Go(g, t, AllocatingInMonitor)
    case Allocate(t, n, ask) =>
      var instance := g.instances[t.instance].(current := Some(|g.ranges|), monitor := None);
      Go(Put(WithRange(g, t.instance, n), t.instance, Ask(instance, ask)), t, Looping)
    case FailInMonitor(t) =>
      Put(g, t.instance, g.instances[t.instance].(monitor := None)).(threads := g.threads - {t})
    case AskPrefetch(i) => Put(g, i, Ask(g.instances[i], true))
    case PrefetchAllocate(i, n) => Put(WithRange(g, i, n), i, g.instances[i].(prefetch := Fetched(|g.ranges|)))
    case PrefetchFail(i) => Put(g, i, g.instances[i].(prefetch := NotPrefetching))
    case PrefetchInstall(i) =>
      var instance := g.instances[i];
      Put(g, i, instance.(next := if instance.next.None? then Some(instance.prefetch.range) else instance.next,
                          prefetch := NotPrefetching))
  }

  function Run(g: Generators, steps: seq<Step>): Generators
    decreases |steps|
  {
    if steps == [] then g else Run(if Enabled(g, steps[0]) then Apply(g, steps[0]) else g, steps[1..])
  }

  function Initial(maxId: int): Generators {
    Generators(maxId, [], map[], map[], [])
  }

  // ---- What every run keeps ----

  ghost predicate Apart(ranges: seq<LocalRange>) {
    forall i, j | 0 <= i < j < |ranges| :: ranges[i].end <= ranges[j].start
  }

  ghost predicate RangesSound(g: Generators) {
    && Apart(g.ranges)
    && (forall k | 0 <= k < |g.ranges| ::
          g.ranges[k].start < g.ranges[k].end <= g.maxId && g.ranges[k].start <= g.ranges[k].next)
  }

  predicate Owns(g: Generators, i: InstanceId, range: RangeRef) {
    range < |g.ranges| && g.ranges[range].owner == i
  }

  predicate InstanceSound(g: Generators, i: InstanceId, instance: Instance) {
    && (instance.current.Some? ==> Owns(g, i, instance.current.value))
    && (instance.next.Some? ==> Owns(g, i, instance.next.value))
    && (instance.prefetch.Fetched? ==> Owns(g, i, instance.prefetch.range))
  }

  ghost predicate OwnersSound(g: Generators) {
    && (forall i | i in g.instances :: InstanceSound(g, i, g.instances[i]))
    && (forall t | t in g.threads && g.threads[t].Loaded? :: Owns(g, t.instance, g.threads[t].range))
  }

  // An issued id was drawn from its range and not yet from anywhere else.
  predicate DrawnFrom(g: Generators, issue: Issue) {
    && issue.range < |g.ranges|
    && g.ranges[issue.range].start <= issue.id < g.ranges[issue.range].end
    && issue.id < g.ranges[issue.range].next
    && g.ranges[issue.range].owner == issue.thread.instance
  }

  ghost predicate IssuedSound(g: Generators) {
    && (forall k | 0 <= k < |g.issued| :: DrawnFrom(g, g.issued[k]))
    && (forall j, k | 0 <= j < k < |g.issued| :: g.issued[j].id != g.issued[k].id)
  }

  ghost predicate Inv(g: Generators) {
    RangesSound(g) && OwnersSound(g) && IssuedSound(g)
  }

  lemma DrawKeepsRanges(g: Generators, t: Thread)
    requires RangesSound(g) && Enabled(g, Draw(t))
    ensures RangesSound(AfterDraw(g, t))
  {
  }

  lemma DrawKeepsOwners(g: Generators, t: Thread)
    requires OwnersSound(g) && Enabled(g, Draw(t))
    ensures OwnersSound(AfterDraw(g, t))
  {
    var g' := AfterDraw(g, t);
    assert forall i, r :: Owns(g, i, r) ==> Owns(g', i, r);
    forall i | i in g'.instances ensures InstanceSound(g', i, g'.instances[i]) {
      assert InstanceSound(g, i, g.instances[i]);
    }
  }

  lemma DrawKeepsIssued(g: Generators, t: Thread)
    requires RangesSound(g) && OwnersSound(g) && IssuedSound(g) && Enabled(g, Draw(t))
    ensures IssuedSound(AfterDraw(g, t))
  {
    var g', ref := AfterDraw(g, t), g.threads[t].range;
    assert Owns(g, t.instance, ref);
    hide OwnersSound;
    forall k | 0 <= k < |g.issued|
      ensures DrawnFrom(g', g.issued[k])
      ensures g.ranges[ref].next < g.ranges[ref].end ==> g.issued[k].id != g.ranges[ref].next
    {
      assert DrawnFrom(g, g.issued[k]);
    }
  }

  lemma DrawKeeps(g: Generators, t: Thread)
    requires Inv(g) && Enabled(g, Draw(t))
    ensures Inv(AfterDraw(g, t))
  {
    hide RangesSound, OwnersSound, IssuedSound;
    DrawKeepsRanges(g, t);
    DrawKeepsOwners(g, t);
    DrawKeepsIssued(g, t);
  }

  lemma NewRangeKeeps(g: Generators, owner: InstanceId, step: int)
    requires Inv(g) && Allocatable(g, step)
    ensures Inv(WithRange(g, owner, step)) && Owns(WithRange(g, owner, step), owner, |g.ranges|)
  {
    var g' := WithRange(g, owner, step);
    forall i | i in g'.instances ensures InstanceSound(g', i, g'.instances[i]) {
      assert InstanceSound(g, i, g.instances[i]);
    }
  }

  lemma PutKeeps(g: Generators, i: InstanceId, instance: Instance)
    requires Inv(g) && InstanceSound(g, i, instance)
    ensures Inv(Put(g, i, instance))
  {
    var g' := Put(g, i, instance);
    forall j | j in g'.instances ensures InstanceSound(g', j, g'.instances[j]) {
      assert j != i ==> InstanceSound(g, j, g.instances[j]);
    }
  }

  lemma GoKeeps(g: Generators, t: Thread, place: Place)
    requires Inv(g) && (place.Loaded? ==> Owns(g, t.instance, place.range))
    ensures Inv(Go(g, t, place))
  {
    var g' := Go(g, t, place);
    forall j | j in g'.instances ensures InstanceSound(g', j, g'.instances[j]) {
      assert InstanceSound(g, j, g.instances[j]);
    }
  }

  lemma FewerKeep(g: Generators, g': Generators)
    requires Inv(g) && g' == g.(instances := g'.instances, threads := g'.threads)
    requires forall i | i in g'.instances :: i in g.instances && g'.instances[i] == g.instances[i]
    requires forall t | t in g'.threads :: t in g.threads && g'.threads[t] == g.threads[t]
    ensures Inv(g')
  {
    forall i | i in g'.instances ensures InstanceSound(g', i, g'.instances[i]) {
      assert InstanceSound(g, i, g.instances[i]);
    }
  }

  lemma StepKeeps(g: Generators, step: Step)
    requires Inv(g) && Enabled(g, step)
    ensures Inv(Apply(g, step))
  {
    InstancesAreSound(g);
    hide Inv;
    match step
    case StartInstance(i) => PutKeeps(g, i, Instance(None, None, NotPrefetching, None));
    case StopInstance(i) => FewerKeep(g, Apply(g, step));
    case Call(t) => GoKeeps(g, t, Looping);
    case Load(t) =>
      var current := g.instances[t.instance].current;
      GoKeeps(g, t, if current.Some? then Loaded(current.value) else Refilling);
    case Draw(t) => DrawKeeps(g, t);
    case Return(t, ask) =>
      var instance := Ask(g.instances[t.instance], ask);
      PutKeeps(g, t.instance, instance);
      FewerKeep(Put(g, t.instance, instance), Apply(g, step));
    case Enter(t) =>
      var instance := g.instances[t.instance].(monitor := Some(t));
      PutKeeps(g, t.instance, instance);
      GoKeeps(Put(g, t.instance, instance), t, InMonitor);
    case Check(t, ask) => CheckKeeps(g, t, ask);
    case Allocate(t, n, ask) =>
      var instance := Ask(g.instances[t.instance].(current := Some(|g.ranges|), monitor := None), ask);
      NewRangeKeeps(g, t.instance, n);
      var g1 := WithRange(g, t.instance, n);
      StillOwned(g, g1, t.instance);
      PutKeeps(g1, t.instance, instance);
      GoKeeps(Put(g1, t.instance, instance), t, Looping);
    case FailInMonitor(t) =>
      var instance := g.instances[t.instance].(monitor := None);
      PutKeeps(g, t.instance, instance);
      FewerKeep(Put(g, t.instance, instance), Apply(g, step));
    case AskPrefetch(i) => PutKeeps(g, i, Ask(g.instances[i], true));
    case PrefetchAllocate(i, n) =>
      NewRangeKeeps(g, i, n);
      StillOwned(g, WithRange(g, i, n), i);
      PutKeeps(WithRange(g, i, n), i, g.instances[i].(prefetch := Fetched(|g.ranges|)));
    case PrefetchFail(i) => PutKeeps(g, i, g.instances[i].(prefetch := NotPrefetching));
    case PrefetchInstall(i) => PutKeeps(g, i, Apply(g, step).instances[i]);
  }

  lemma InstancesAreSound(g: Generators)
    requires Inv(g)
    ensures forall i | i in g.instances :: InstanceSound(g, i, g.instances[i])
  {
  }

  lemma StillOwned(g: Generators, g': Generators, i: InstanceId)
    requires i in g.instances && InstanceSound(g, i, g.instances[i])
    requires |g.ranges| <= |g'.ranges| && forall k | 0 <= k < |g.ranges| :: g'.ranges[k] == g.ranges[k]
    ensures InstanceSound(g', i, g.instances[i])
  {
  }

  lemma CheckKeeps(g: Generators, t: Thread, ask: bool)
    requires Inv(g) && Enabled(g, Check(t, ask)) && InstanceSound(g, t.instance, g.instances[t.instance])
    ensures Inv(Apply(g, Check(t, ask)))
  {
    hide Inv;
    var instance := g.instances[t.instance];
    if HasLeft(g, instance.current) {
      PutKeeps(g, t.instance, instance.(monitor := None));
      GoKeeps(Put(g, t.instance, instance.(monitor := None)), t, Looping);
    } else if instance.next.Some? {
      var swapped := Ask(instance.(current := instance.next, next := None, monitor := None), ask);
      PutKeeps(g, t.instance, swapped);
      GoKeeps(Put(g, t.instance, swapped), t, Looping);
    } else {
      GoKeeps(g, t, AllocatingInMonitor);
    }
  }

  lemma {:induction false} RunKeeps(g: Generators, steps: seq<Step>)
    requires Inv(g)
    ensures Inv(Run(g, steps)) && Run(g, steps).maxId >= g.maxId
    decreases |steps|
  {
    hide Inv, Enabled, Apply;
    if steps != [] {
      if Enabled(g, steps[0]) {
        StepKeeps(g, steps[0]);
        MarkNeverFalls(g, steps[0]);
        RunKeeps(Apply(g, steps[0]), steps[1..]);
      } else {
        RunKeeps(g, steps[1..]);
      }
    }
  }

  lemma MarkNeverFalls(g: Generators, step: Step)
    requires Enabled(g, step)
    ensures Apply(g, step).maxId >= g.maxId
  {
  }

  /** No id is ever issued twice, whatever instances and threads do and however refills and prefetches
      race; each issued id lies in a range that was allocated to the issuing instance. */
  lemma IdsAreUnique(maxId: int, steps: seq<Step>, j: nat, k: nat)
    requires j < |Run(Initial(maxId), steps).issued| && k < |Run(Initial(maxId), steps).issued|
    ensures var g := Run(Initial(maxId), steps);
            && (j != k ==> g.issued[j].id != g.issued[k].id)
            && g.issued[k].range < |g.ranges|
            && g.ranges[g.issued[k].range].start <= g.issued[k].id < g.ranges[g.issued[k].range].end
            && g.ranges[g.issued[k].range].owner == g.issued[k].thread.instance
  {
    RunKeeps(Initial(maxId), steps);
    var g := Run(Initial(maxId), steps);
    assert DrawnFrom(g, g.issued[k]);
  }

  // ---- No gaps ----

  predicate IsIssued(g: Generators, ref: RangeRef, id: int) {
    exists j | 0 <= j < |g.issued| :: g.issued[j].range == ref && g.issued[j].id == id
  }

  // What has been passed in a range has been issued, and ranges follow each other from `first` to the mark.
  ghost predicate Gapless(g: Generators, first: int) {
    && (forall k, id | 0 <= k < |g.ranges| && g.ranges[k].start <= id < g.ranges[k].end && id < g.ranges[k].next ::
          IsIssued(g, k, id))
    && (if g.ranges == [] then g.maxId == first
        else g.ranges[0].start == first && g.ranges[|g.ranges| - 1].end == g.maxId)
    && (forall k | 0 < k < |g.ranges| :: g.ranges[k - 1].end == g.ranges[k].start)
  }

  lemma DrawLeavesNoGap(g: Generators, t: Thread, first: int)
    requires Gapless(g, first) && Enabled(g, Draw(t))
    ensures Gapless(AfterDraw(g, t), first)
  {
    var g', ref := AfterDraw(g, t), g.threads[t].range;
    forall k, id | 0 <= k < |g'.ranges| && g'.ranges[k].start <= id < g'.ranges[k].end && id < g'.ranges[k].next
      ensures IsIssued(g', k, id)
    {
      if k == ref && id == g.ranges[ref].next {
        assert g'.issued[|g.issued|].range == ref && g'.issued[|g.issued|].id == id;
      } else {
        assert IsIssued(g, k, id);
        var j :| 0 <= j < |g.issued| && g.issued[j].range == k && g.issued[j].id == id;
        assert g'.issued[j] == g.issued[j];
      }
    }
  }

  lemma StepLeavesNoGap(g: Generators, step: Step, first: int)
    requires Gapless(g, first) && Enabled(g, step)
    ensures Gapless(Apply(g, step), first)
  {
    if step.Draw? {
      DrawLeavesNoGap(g, step.thread, first);
    } else {
      var g' := Apply(g, step);
      assert g'.issued == g.issued;
      forall k, id | 0 <= k < |g'.ranges| && g'.ranges[k].start <= id < g'.ranges[k].end && id < g'.ranges[k].next
        ensures IsIssued(g', k, id)
      {
        assert k < |g.ranges| && g'.ranges[k] == g.ranges[k] && IsIssued(g, k, id);
      }
    }
  }

  lemma {:induction false} RunLeavesNoGap(g: Generators, steps: seq<Step>, first: int)
    requires Gapless(g, first)
    ensures Gapless(Run(g, steps), first)
    decreases |steps|
  {
    hide Gapless, Enabled, Apply;
    if steps != [] {
      if Enabled(g, steps[0]) {
        StepLeavesNoGap(g, steps[0], first);
        RunLeavesNoGap(Apply(g, steps[0]), steps[1..], first);
      } else {
        RunLeavesNoGap(g, steps[1..], first);
      }
    }
  }

  /** The issued ids of a range are its beginning without gaps: whatever lies in the range before an issued
      id has been issued, too. */
  lemma IssuedWithoutGaps(maxId: int, steps: seq<Step>, j: nat, id: int)
    requires var g := Run(Initial(maxId), steps);
             j < |g.issued| && g.issued[j].range < |g.ranges|
             && g.ranges[g.issued[j].range].start <= id <= g.issued[j].id
    ensures var g := Run(Initial(maxId), steps); IsIssued(g, g.issued[j].range, id)
  {
    RunKeeps(Initial(maxId), steps);
    RunLeavesNoGap(Initial(maxId), steps, maxId);
    var g := Run(Initial(maxId), steps);
    assert DrawnFrom(g, g.issued[j]);
  }

  /** The ranges follow each other without gaps from the initial mark to the present one. */
  lemma RangesFollowEachOther(maxId: int, steps: seq<Step>, k: nat)
    ensures var g := Run(Initial(maxId), steps);
            && (k + 1 < |g.ranges| ==> g.ranges[k].end == g.ranges[k + 1].start)
            && (g.ranges != [] ==> g.ranges[0].start == maxId && g.ranges[|g.ranges| - 1].end == g.maxId)
  {
    RunLeavesNoGap(Initial(maxId), steps, maxId);
  }

  /** The allocated ranges are pairwise disjoint and lie below the high-water mark. */
  lemma RangesAreDisjoint(maxId: int, steps: seq<Step>, i: nat, j: nat)
    requires i < j < |Run(Initial(maxId), steps).ranges|
    ensures var g := Run(Initial(maxId), steps);
            g.ranges[i].start < g.ranges[i].end <= g.ranges[j].start < g.ranges[j].end <= g.maxId
  {
    RunKeeps(Initial(maxId), steps);
  }

  ghost predicate Above(g: Generators, floor: int) {
    floor <= g.maxId <= Decimals.LONG_MAX && forall k | 0 <= k < |g.ranges| :: g.ranges[k].start >= floor
  }

  lemma StepStaysAbove(g: Generators, step: Step, floor: int)
    requires Above(g, floor) && Enabled(g, step)
    ensures Above(Apply(g, step), floor)
  {
  }

  lemma {:induction false} RunStaysAbove(g: Generators, steps: seq<Step>, floor: int)
    requires Above(g, floor)
    ensures Above(Run(g, steps), floor)
    decreases |steps|
  {
    hide Above, Enabled, Apply;
    if steps != [] {
      if Enabled(g, steps[0]) {
        StepStaysAbove(g, steps[0], floor);
        RunStaysAbove(Apply(g, steps[0]), steps[1..], floor);
      } else {
        RunStaysAbove(g, steps[1..], floor);
      }
    }
  }

  /** Issued ids are longs not below the mark the table was created with, which keeps them out of the
      namespace of the older ids. */
  lemma IdsAreAboveTheOldOnes(maxId: int, steps: seq<Step>, k: nat)
    requires maxId <= Decimals.LONG_MAX && k < |Run(Initial(maxId), steps).issued|
    ensures maxId <= Run(Initial(maxId), steps).issued[k].id < Decimals.LONG_MAX
  {
    RunKeeps(Initial(maxId), steps);
    RunStaysAbove(Initial(maxId), steps, maxId);
    assert DrawnFrom(Run(Initial(maxId), steps), Run(Initial(maxId), steps).issued[k]);
  }

  // ---- Ids can be drawn ----

  lemma {:induction false} RunConcat(g: Generators, a: seq<Step>, b: seq<Step>)
    ensures Run(g, a + b) == Run(Run(g, a), b)
    decreases |a|
  {
    hide Enabled, Apply;
    if a == [] {
      assert a + b == b;
    } else {
      assert (a + b)[0] == a[0] && (a + b)[1..] == a[1..] + b;
      RunConcat(if Enabled(g, a[0]) then Apply(g, a[0]) else g, a[1..], b);
    }
  }

  lemma RunOne(g: Generators, step: Step)
    requires Enabled(g, step)
    ensures Run(g, [step]) == Apply(g, step)
  {
    assert [step][1..] == [];
  }

  lemma RunTwo(g: Generators, a: Step, b: Step)
    requires Enabled(g, a) && Enabled(Apply(g, a), b)
    ensures Run(g, [a, b]) == Apply(Apply(g, a), b)
  {
    hide Enabled, Apply;
    RunOne(g, a);
    RunOne(Apply(g, a), b);
    RunConcat(g, [a], [b]);
    assert [a, b] == [a] + [b];
  }

  // The thread is about to look for an id, and nobody of its instance is in the monitor.
  predicate Ready(g: Generators, t: Thread) {
    && At(g, t, Looping) && g.instances[t.instance].monitor.None?
    && (g.instances[t.instance].current.Some? ==> g.instances[t.instance].current.value < |g.ranges|)
    && (g.instances[t.instance].next.Some? ==> g.instances[t.instance].next.value < |g.ranges|)
  }

  // The thread has drawn the next id of the range, and no range was allocated.
  predicate Drew(g: Generators, g': Generators, t: Thread, range: Option<RangeRef>) {
    && range.Some? && range.value < |g.ranges|
    && g'.issued == g.issued + [Issue(g.ranges[range.value].next, range.value, t)] && g'.maxId == g.maxId
  }

  /** From the current range, as long as it has ids left. */
  lemma DrawsFromCurrent(g: Generators, t: Thread)
    requires Ready(g, t) && HasLeft(g, g.instances[t.instance].current)
    ensures Drew(g, Run(g, [Load(t), Draw(t)]), t, g.instances[t.instance].current)
  {
    RunTwo(g, Load(t), Draw(t));
  }

  // Without an id left the thread gets to the monitor.
  lemma Refills(g: Generators, t: Thread)
    requires Ready(g, t) && !HasLeft(g, g.instances[t.instance].current)
    ensures var g' := Run(g, [Load(t), Draw(t)]);
            && At(g', t, Refilling) && g'.instances == g.instances && g'.maxId == g.maxId && g'.issued == g.issued
            && |g'.ranges| == |g.ranges|
            && (forall k | 0 <= k < |g.ranges| && g.instances[t.instance].current != Some(k) ::
                  g'.ranges[k] == g.ranges[k])
            && !HasLeft(g', g.instances[t.instance].current)
  {
    if g.instances[t.instance].current.Some? {
      RunTwo(g, Load(t), Draw(t));
    } else {
      var g1 := Apply(g, Load(t));
      RunOne(g, Load(t));
      assert !Enabled(g1, Draw(t));
      assert [Load(t), Draw(t)] == [Load(t)] + [Draw(t)];
      RunConcat(g, [Load(t)], [Draw(t)]);
      assert Run(g1, [Draw(t)]) == Run(g1, [Draw(t)][1..]);
    }
  }

  /** A range that was fetched ahead takes over when the current one is used up: its first id is drawn
      without a look at the database. */
  lemma FetchedRangeTakesOver(g: Generators, t: Thread)
    requires Ready(g, t) && !HasLeft(g, g.instances[t.instance].current) && HasLeft(g, g.instances[t.instance].next)
    ensures Drew(g, Run(g, ([Load(t), Draw(t)] + [Enter(t), Check(t, false)]) + [Load(t), Draw(t)]), t,
                 g.instances[t.instance].next)
  {
    var g1 := Run(g, [Load(t), Draw(t)]);
    Refills(g, t);
    RunTwo(g1, Enter(t), Check(t, false));
    var g2 := Apply(Apply(g1, Enter(t)), Check(t, false));
    RunConcat(g, [Load(t), Draw(t)], [Enter(t), Check(t, false)]);
    RunConcat(g, [Load(t), Draw(t)] + [Enter(t), Check(t, false)], [Load(t), Draw(t)]);
    DrawsFromCurrent(g2, t);
  }

  /** An instance that has no next range has the one it fetched ahead as its next. */
  lemma FetchedRangeIsNext(g: Generators, i: InstanceId, n: int)
    requires i in g.instances && g.instances[i].prefetch.NotPrefetching? && g.instances[i].next.None?
    requires g.instances[i].monitor.None? && Allocatable(g, n)
    ensures var g' := Run(g, [AskPrefetch(i)] + [PrefetchAllocate(i, n), PrefetchInstall(i)]);
            && i in g'.instances && g'.instances[i] == g.instances[i].(next := Some(|g.ranges|))
            && g'.ranges == g.ranges + [LocalRange(i, g.maxId, g.maxId + n, g.maxId)]
  {
    RunOne(g, AskPrefetch(i));
    var g1 := Apply(g, AskPrefetch(i));
    RunTwo(g1, PrefetchAllocate(i, n), PrefetchInstall(i));
    RunConcat(g, [AskPrefetch(i)], [PrefetchAllocate(i, n), PrefetchInstall(i)]);
  }

  // With nothing fetched ahead a range is allocated.
  lemma DrawsFromNew(g: Generators, t: Thread, n: int) returns (steps: seq<Step>)
    requires Ready(g, t) && !HasLeft(g, g.instances[t.instance].current) && g.instances[t.instance].next.None?
    requires Allocatable(g, n)
    ensures Run(g, steps).issued == g.issued + [Issue(g.maxId, |g.ranges|, t)]
  {
    var g1 := Run(g, [Load(t), Draw(t)]);
    Refills(g, t);
    RunTwo(g1, Enter(t), Check(t, false));
    var g2 := Apply(Apply(g1, Enter(t)), Check(t, false));
    RunOne(g2, Allocate(t, n, false));
    var g3 := Apply(g2, Allocate(t, n, false));
    DrawsFromCurrent(g3, t);
    RunConcat(g, [Load(t), Draw(t)], [Enter(t), Check(t, false)]);
    steps := [Load(t), Draw(t)] + [Enter(t), Check(t, false)];
    RunConcat(g, steps, [Allocate(t, n, false)]);
    steps := steps + [Allocate(t, n, false)];
    RunConcat(g, steps, [Load(t), Draw(t)]);
    steps := steps + [Load(t), Draw(t)];
  }

  /** No dead end: after any run a thread that looks for an id can get one, whoever of its instance is in
      the monitor, as long as the segment is not exhausted. */
  lemma IdCanBeDrawn(maxId: int, steps: seq<Step>, t: Thread, n: int) returns (more: seq<Step>)
    requires var g := Run(Initial(maxId), steps); At(g, t, Looping) && Allocatable(g, n)
    ensures var issued, issued' := Run(Initial(maxId), steps).issued, Run(Initial(maxId), steps + more).issued;
            |issued'| == |issued| + 1 && issued <= issued' && issued'[|issued|].thread == t
  {
    var g := Run(Initial(maxId), steps);
    RunKeeps(Initial(maxId), steps);
    RunKeepsMonitors(Initial(maxId), steps);
    var left := MonitorIsLeft(g, t);
    var g1 := Run(g, left);
    RunKeeps(g, left);
    assert InstanceSound(g1, t.instance, g1.instances[t.instance]);
    hide Inv, Initial, Apply;
    var rest := ReadyThreadDraws(g1, t, n);
    RunConcat(g, left, rest);
    more := left + rest;
    RunConcat(Initial(maxId), steps, more);
  }

  lemma ReadyThreadDraws(g: Generators, t: Thread, n: int) returns (more: seq<Step>)
    requires Ready(g, t) && Allocatable(g, n)
    ensures var issued, issued' := g.issued, Run(g, more).issued;
            |issued'| == |issued| + 1 && issued <= issued' && issued'[|issued|].thread == t
  {
    var instance := g.instances[t.instance];
    if HasLeft(g, instance.current) {
      DrawsFromCurrent(g, t);
      more := [Load(t), Draw(t)];
    } else if HasLeft(g, instance.next) {
      FetchedRangeTakesOver(g, t);
      more := ([Load(t), Draw(t)] + [Enter(t), Check(t, false)]) + [Load(t), Draw(t)];
    } else if instance.next.None? {
      more := DrawsFromNew(g, t, n);
    } else {
      more := DrawsAfterNext(g, t, n);
    }
  }

  // The range that was fetched ahead takes over and is used up, too.
  lemma DrawsAfterNext(g: Generators, t: Thread, n: int) returns (steps: seq<Step>)
    requires Ready(g, t) && !HasLeft(g, g.instances[t.instance].current) && g.instances[t.instance].next.Some?
    requires !HasLeft(g, g.instances[t.instance].next) && Allocatable(g, n)
    ensures Run(g, steps).issued == g.issued + [Issue(g.maxId, |g.ranges|, t)]
  {
    var g1 := Run(g, [Load(t), Draw(t)]);
    Refills(g, t);
    RunTwo(g1, Enter(t), Check(t, false));
    var g2 := Apply(Apply(g1, Enter(t)), Check(t, false));
    RunConcat(g, [Load(t), Draw(t)], [Enter(t), Check(t, false)]);
    var rest := DrawsFromNew(g2, t, n);
    steps := [Load(t), Draw(t)] + [Enter(t), Check(t, false)] + rest;
    RunConcat(g, [Load(t), Draw(t)] + [Enter(t), Check(t, false)], rest);
  }

  // ---- The monitor ----

  predicate InMonitorOf(g: Generators, t: Thread) {
    t in g.threads && (g.threads[t].InMonitor? || g.threads[t].AllocatingInMonitor?)
  }

  // Threads belong to instances that are there, and who is in a monitor is whom it names.
  ghost predicate MonitorsSound(g: Generators) {
    && (forall t | t in g.threads :: t.instance in g.instances)
    && (forall t | InMonitorOf(g, t) :: t.instance in g.instances && g.instances[t.instance].monitor == Some(t))
    && (forall i | i in g.instances && g.instances[i].monitor.Some? ::
          g.instances[i].monitor.value.instance == i && InMonitorOf(g, g.instances[i].monitor.value))
  }

  // Nobody enters or leaves a monitor.
  lemma SameMonitors(g: Generators, g': Generators)
    requires MonitorsSound(g) && g'.instances.Keys == g.instances.Keys
    requires forall i | i in g.instances :: g'.instances[i].monitor == g.instances[i].monitor
    requires forall t | t in g'.threads :: t.instance in g.instances
    requires forall t :: InMonitorOf(g', t) <==> InMonitorOf(g, t)
    ensures MonitorsSound(g')
  {
  }

  // One thread enters the monitor of its instance, leaves it, or stays there.
  lemma OneMovesInMonitor(g: Generators, g': Generators, t: Thread)
    requires MonitorsSound(g) && g'.instances.Keys == g.instances.Keys && t.instance in g.instances
    requires InMonitorOf(g, t) || g.instances[t.instance].monitor.None?
    requires forall i | i in g.instances && i != t.instance :: g'.instances[i].monitor == g.instances[i].monitor
    requires g'.instances[t.instance].monitor == if InMonitorOf(g', t) then Some(t) else None
    requires forall x | x in g'.threads :: x.instance in g.instances
    requires forall x | x != t :: InMonitorOf(g', x) <==> InMonitorOf(g, x)
    ensures MonitorsSound(g')
  {
  }

  lemma StepKeepsMonitors(g: Generators, step: Step)
    requires MonitorsSound(g) && Enabled(g, step)
    ensures MonitorsSound(Apply(g, step))
  {
    var g' := Apply(g, step);
    if step.StartInstance? || step.StopInstance? {
      forall t | t in g'.threads ensures t.instance in g'.instances && g'.threads[t] == g.threads[t] {}
      forall i | i in g'.instances && i in g.instances ensures g'.instances[i] == g.instances[i] {}
    } else if step.Enter? || step.Check? || step.Allocate? || step.FailInMonitor? {
      hide MonitorsSound;
      OneStepInMonitor(g, step);
    } else {
      hide MonitorsSound;
      StepOutsideMonitors(g, step);
    }
  }

  lemma OneStepInMonitor(g: Generators, step: Step)
    requires MonitorsSound(g) && Enabled(g, step)
    requires step.Enter? || step.Check? || step.Allocate? || step.FailInMonitor?
    ensures MonitorsSound(Apply(g, step))
  {
    assert forall x | x in g.threads :: x.instance in g.instances;
    assert forall x | InMonitorOf(g, x) :: g.instances[x.instance].monitor == Some(x);
    hide MonitorsSound;
    OneMovesInMonitor(g, Apply(g, step), step.thread);
  }

  lemma StepOutsideMonitors(g: Generators, step: Step)
    requires MonitorsSound(g) && Enabled(g, step)
    requires !(step.Enter? || step.Check? || step.Allocate? || step.FailInMonitor?)
    requires !(step.StartInstance? || step.StopInstance?)
    ensures MonitorsSound(Apply(g, step))
  {
    assert forall x | x in g.threads :: x.instance in g.instances;
    hide MonitorsSound;
    SameMonitors(g, Apply(g, step));
  }

  lemma {:induction false} RunKeepsMonitors(g: Generators, steps: seq<Step>)
    requires MonitorsSound(g)
    ensures MonitorsSound(Run(g, steps))
    decreases |steps|
  {
    if steps != [] {
      hide MonitorsSound, Enabled, Apply;
      if Enabled(g, steps[0]) {
        StepKeepsMonitors(g, steps[0]);
        RunKeepsMonitors(Apply(g, steps[0]), steps[1..]);
      } else {
        RunKeepsMonitors(g, steps[1..]);
      }
    }
  }

  /** After any run one thread of an instance at most is in its monitor. */
  lemma OneInMonitor(maxId: int, steps: seq<Step>, t: Thread, t': Thread)
    requires var g := Run(Initial(maxId), steps); InMonitorOf(g, t) && InMonitorOf(g, t') && t.instance == t'.instance
    ensures t == t'
  {
    RunKeepsMonitors(Initial(maxId), steps);
  }

  // Whoever is in the monitor of a thread's instance can leave it.
  lemma MonitorIsLeft(g: Generators, t: Thread) returns (steps: seq<Step>)
    requires MonitorsSound(g) && At(g, t, Looping)
    ensures var g' := Run(g, steps);
            && At(g', t, Looping) && g'.instances[t.instance].monitor.None? && g'.maxId == g.maxId
            && g'.issued == g.issued
  {
    steps := [];
    if g.instances[t.instance].monitor.Some? {
      var t' := g.instances[t.instance].monitor.value;
      if g.threads[t'].InMonitor? {
        var g1 := Apply(g, Check(t', false));
        RunOne(g, Check(t', false));
        steps := [Check(t', false)];
        if g1.instances[t.instance].monitor.Some? {
          RunTwo(g, Check(t', false), FailInMonitor(t'));
          steps := [Check(t', false), FailInMonitor(t')];
        }
      } else {
        RunOne(g, FailInMonitor(t'));
        steps := [FailInMonitor(t')];
      }
    }
  }
}
