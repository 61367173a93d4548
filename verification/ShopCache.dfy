/** One shop in the two cache levels: every instance's own L1, the shared L2 in Redis, and the database,
    under the shop's read/write lock. Values are told apart by the number of updates they reflect. */
module ShopCache {
  import opened Wrappers

  type InstanceId = int
  type Version = nat

  datatype Reader = Reader(instance: InstanceId, number: int)

  // How far a query has come; it holds the read lock all the time. `locked` is the rebuild lock, which
  // has a lease and so does not keep others out for certain.
  datatype Progress =
    | Begun
    | MissedL1
    | MissedL2
    | Again(locked: bool)
    | AgainMissedL1(locked: bool)
    | ToDatabase
    | FoundInDatabase(version: Version)
    | ToL1(version: Version)

  // Who holds the write lock: an update, before and after its commit, or the consumer of an
  // invalidation event.
  datatype Writer =
    | NoWriter
    | Updating(instance: InstanceId)
    | Committed(instance: InstanceId)
    | EvictedL1(instance: InstanceId)
    | Consuming(instance: InstanceId, event: Version)
    | ConsumedL1(instance: InstanceId, event: Version)

  // Update number k stores version k and, in the same transaction, event k. `applied` holds the events
  // each instance's consumer has been through with.
  datatype Shop = Shop(
    db: Version, l2: Option<Version>, l1: map<InstanceId, Version>, applied: map<InstanceId, set<Version>>,
    readers: map<Reader, Progress>, writer: Writer)

  datatype Step =
    | BeginRead(reader: Reader)
    | LookInL1(reader: Reader)
    | LookInL2(reader: Reader)
    | TryRebuildLock(reader: Reader, locked: bool)
    | ReadDatabase(reader: Reader)
    | WriteL2(reader: Reader)
    | PutL1(reader: Reader)
    | AbortRead(reader: Reader)
    | BeginUpdate(instance: InstanceId)
    | Commit
    | BeginConsume(instance: InstanceId, event: Version)
    | EvictL1
    | DeleteL2
    | Release
    | ExpireL1(instance: InstanceId)
    | ExpireL2

  function Initial(instances: set<InstanceId>): Shop {
    Shop(0, None, map[], map i | i in instances :: {}, map[], NoWriter)
  }

  predicate Reading(s: Shop, r: Reader) {
    r in s.readers
  }

  predicate Enabled(s: Shop, step: Step) {
    match step
    case BeginRead(r) => s.writer.NoWriter? && r !in s.readers && r.instance in s.applied
    case LookInL1(r) => Reading(s, r) && (s.readers[r].Begun? || s.readers[r].Again?)
    case LookInL2(r) => Reading(s, r) && (s.readers[r].MissedL1? || s.readers[r].AgainMissedL1?)
    case TryRebuildLock(r, _) => Reading(s, r) && s.readers[r].MissedL2?
    case ReadDatabase(r) => Reading(s, r) && s.readers[r].ToDatabase?
    case WriteL2(r) => Reading(s, r) && s.readers[r].FoundInDatabase?
    case PutL1(r) => Reading(s, r) && s.readers[r].ToL1?
    case AbortRead(r) => Reading(s, r)
    case BeginUpdate(i) => s.writer.NoWriter? && s.readers == map[] && i in s.applied
    case Commit => s.writer.Updating?
    case BeginConsume(i, k) => s.writer.NoWriter? && s.readers == map[] && i in s.applied && 0 < k <= s.db
    case EvictL1 => s.writer.Committed? || s.writer.Consuming?
    case DeleteL2 => s.writer.EvictedL1? || s.writer.ConsumedL1?
    case Release => !s.writer.NoWriter?
    case ExpireL1(i) => i in s.l1
    case ExpireL2 => s.l2.Some?
  }

  function Go(s: Shop, r: Reader, progress: Progress): Shop {
    s.(readers := s.readers[r := progress])
  }

  function Done(s: Shop, r: Reader): Shop {
    s.(readers := s.readers - {r})
  }

  function AfterL1(s: Shop, r: Reader): Shop
    requires Enabled(s, LookInL1(r))
  {
    if r.instance in s.l1 then Done(s, r)
    else if s.readers[r].Begun? then Go(s, r, MissedL1)
    else Go(s, r, AgainMissedL1(s.readers[r].locked))
  }

  // Without the rebuild lock there is no way on to the database: the query fails.
  function AfterL2(s: Shop, r: Reader): Shop
    requires Enabled(s, LookInL2(r))
  {
    if s.l2.Some? then Go(s, r, ToL1(s.l2.value))
    else if s.readers[r].MissedL1? then Go(s, r, MissedL2)
    else if s.readers[r].locked then Go(s, r, ToDatabase)
    else Done(s, r)
  }

  function Apply(s: Shop, step: Step): Shop
    requires Enabled(s, step)
  {
    match step
    case BeginRead(r) => Go(s, r, Begun)
    case LookInL1(r) => AfterL1(s, r)
    case LookInL2(r) => AfterL2(s, r)
    case TryRebuildLock(r, locked) => Go(s, r, Again(locked))
    case ReadDatabase(r) => Go(s, r, FoundInDatabase(s.db))
    case WriteL2(r) => Go(s.(l2 := Some(s.readers[r].version)), r, ToL1(s.readers[r].version))
    case PutL1(r) => Done(s.(l1 := s.l1[r.instance := s.readers[r].version]), r)
    case AbortRead(r) => Done(s, r)
    case BeginUpdate(i) => s.(writer := Updating(i))
    case Commit => s.(db := s.db + 1, writer := Committed(s.writer.instance))
    case BeginConsume(i, k) => s.(writer := Consuming(i, k))
    case EvictL1 =>
      s.(l1 := s.l1 - {s.writer.instance},
         writer := if s.writer.Committed? then EvictedL1(s.writer.instance)
             else ConsumedL1(s.writer.instance, s.writer.event))
    case DeleteL2 =>
      // Only an event whose eviction went through in both levels counts as applied.
      var s1 := s.(l2 := None, writer := NoWriter);
      if s.writer.ConsumedL1? && s.writer.instance in s.applied
      then s1.(applied := s.applied[s.writer.instance := s.applied[s.writer.instance] + {s.writer.event}])
      else s1
    case Release =>
      // A rollback, a failed delete in Redis or a crash: the lock goes, what was done stays.
      s.(writer := NoWriter)
    case ExpireL1(i) => s.(l1 := s.l1 - {i})
    case ExpireL2 => s.(l2 := None)
  }

  function Run(s: Shop, steps: seq<Step>): Shop
    decreases |steps|
  {
    if steps == [] then s else Run(if Enabled(s, steps[0]) then Apply(s, steps[0]) else s, steps[1..])
  }

  // ---- Coherence ----

  // The instance has been told of no update beyond this version.
  predicate NotToldBeyond(s: Shop, i: InstanceId, version: Version) {
    i in s.applied ==> forall k | k in s.applied[i] :: k <= version
  }

  predicate NobodyToldBeyond(s: Shop, version: Version) {
    forall i | i in s.applied :: forall k | k in s.applied[i] :: k <= version
  }

  predicate ProgressSound(s: Shop, r: Reader, progress: Progress) {
    && (progress.FoundInDatabase? ==> progress.version == s.db)
    && (progress.ToL1? ==> progress.version <= s.db && NobodyToldBeyond(s, progress.version))
    && r.instance in s.applied
  }

  ghost predicate Inv(s: Shop) {
    && NobodyToldBeyond(s, s.db)
    && (s.l2.Some? ==> s.l2.value <= s.db && NobodyToldBeyond(s, s.l2.value))
    && (forall i | i in s.l1 :: s.l1[i] <= s.db && NotToldBeyond(s, i, s.l1[i]))
    && (!s.writer.NoWriter? ==> s.readers == map[])
    && (forall r | r in s.readers :: ProgressSound(s, r, s.readers[r]))
    && (s.writer.Consuming? || s.writer.ConsumedL1? ==> s.writer.event <= s.db)
    && (s.writer.ConsumedL1? ==> s.writer.instance !in s.l1)
  }

  lemma StepKeeps(s: Shop, step: Step)
    requires Inv(s) && Enabled(s, step)
    ensures Inv(Apply(s, step))
  {
    var s' := Apply(s, step);
    if step.Commit? || step.DeleteL2? {
      assert s'.readers == map[];
    }
    forall r | r in s'.readers ensures ProgressSound(s', r, s'.readers[r]) {
      assert r in s.readers ==> ProgressSound(s, r, s.readers[r]);
    }
  }

  lemma {:induction false} RunKeeps(s: Shop, steps: seq<Step>)
    requires Inv(s)
    ensures Inv(Run(s, steps))
    decreases |steps|
  {
    hide Inv, Enabled, Apply;
    if steps != [] {
      if Enabled(s, steps[0]) {
        StepKeeps(s, steps[0]);
        RunKeeps(Apply(s, steps[0]), steps[1..]);
      } else {
        RunKeeps(s, steps[1..]);
      }
    }
  }

  /** Coherence: after any run, an L1 value that is not the database's has an invalidation event its
      instance has still to apply, and an L2 value that is not the database's has one that every
      instance has still to apply, even if deletes in Redis fail and processes stop halfway. */
  lemma StaleValuesAreBeingInvalidated(instances: set<InstanceId>, steps: seq<Step>, i: InstanceId)
    requires i in Run(Initial(instances), steps).applied
    ensures var s := Run(Initial(instances), steps);
            && (i in s.l1 && s.l1[i] != s.db ==>
                  s.l1[i] < s.db && forall k | s.l1[i] < k <= s.db :: k !in s.applied[i])
            && (s.l2.Some? && s.l2.value != s.db ==>
                  s.l2.value < s.db && forall k | s.l2.value < k <= s.db :: k !in s.applied[i])
  {
    RunKeeps(Initial(instances), steps);
  }

  // What a step answers a query with.
  function Answer(s: Shop, step: Step): Option<Version>
    requires Enabled(s, step)
  {
    match step
    case LookInL1(r) => if r.instance in s.l1 then Some(s.l1[r.instance]) else None
    case PutL1(r) => Some(s.readers[r].version)
    case _ => None
  }

  /** Whatever an instance answers reflects every update whose event it has applied. */
  lemma AnswersReflectAppliedEvents(instances: set<InstanceId>, steps: seq<Step>, step: Step, k: Version)
    requires var s := Run(Initial(instances), steps);
             && Enabled(s, step) && Answer(s, step).Some?
             && step.reader.instance in s.applied && k in s.applied[step.reader.instance]
    ensures k <= Answer(Run(Initial(instances), steps), step).value <= Run(Initial(instances), steps).db
  {
    RunKeeps(Initial(instances), steps);
    var s := Run(Initial(instances), steps);
    assert ProgressSound(s, step.reader, s.readers[step.reader]);
  }

  /** Once an instance has applied the event of the last update, both levels have the database's value or
      none, as far as that instance can see. */
  lemma AppliedMeansFresh(instances: set<InstanceId>, steps: seq<Step>, i: InstanceId)
    requires var s := Run(Initial(instances), steps); i in s.applied && s.db in s.applied[i]
    ensures var s := Run(Initial(instances), steps);
            (i in s.l1 ==> s.l1[i] == s.db) && (s.l2.Some? ==> s.l2.value == s.db)
  {
    RunKeeps(Initial(instances), steps);
  }

  // ---- What a read and an update leave in the caches ----

  lemma RunFirst(s: Shop, step: Step, rest: seq<Step>)
    requires Enabled(s, step)
    ensures Run(s, [step] + rest) == Run(Apply(s, step), rest)
  {
    assert ([step] + rest)[0] == step && ([step] + rest)[1..] == rest;
  }

  /** A reader that gets through to the database leaves what it found there in both levels. */
  lemma RebuildFillsBothLevels(s: Shop, r: Reader)
    requires Reading(s, r) && s.readers[r].ToDatabase?
    ensures var s' := Run(s, [ReadDatabase(r)] + ([WriteL2(r)] + ([PutL1(r)] + [])));
            s'.l2 == Some(s.db) && s'.l1 == s.l1[r.instance := s.db] && s'.db == s.db && !Reading(s', r)
  {
    var s1 := Apply(s, ReadDatabase(r));
    var s2 := Apply(s1, WriteL2(r));
    RunFirst(s, ReadDatabase(r), [WriteL2(r)] + ([PutL1(r)] + []));
    RunFirst(s1, WriteL2(r), [PutL1(r)] + []);
    RunFirst(s2, PutL1(r), []);
  }

  /** A query that finds a value in its first level is answered with it and leaves everything as it is. */
  lemma FirstLevelAnswers(s: Shop, r: Reader)
    requires s.writer.NoWriter? && !Reading(s, r) && r.instance in s.applied && r.instance in s.l1
    ensures var s1 := Apply(s, BeginRead(r));
            && Enabled(s1, LookInL1(r)) && Answer(s1, LookInL1(r)) == Some(s.l1[r.instance])
            && Apply(s1, LookInL1(r)) == s
  {
    assert s.readers[r := Begun] - {r} == s.readers;
  }

  /** One that finds a value in the second level only is answered with that one, puts it into its first
      level, and does not get to the database. */
  lemma SecondLevelAnswers(s: Shop, r: Reader)
    requires s.writer.NoWriter? && !Reading(s, r) && r.instance in s.applied && r.instance !in s.l1 && s.l2.Some?
    ensures var s' := Run(s, [BeginRead(r)] + ([LookInL1(r)] + ([LookInL2(r)] + [])));
            && Enabled(s', PutL1(r)) && Answer(s', PutL1(r)) == s.l2
            && Apply(s', PutL1(r)) == s.(l1 := s.l1[r.instance := s.l2.value])
  {
    var s1 := Apply(s, BeginRead(r));
    var s2 := Apply(s1, LookInL1(r));
    RunFirst(s, BeginRead(r), [LookInL1(r)] + ([LookInL2(r)] + []));
    RunFirst(s1, LookInL1(r), [LookInL2(r)] + []);
    RunFirst(s2, LookInL2(r), []);
    var s3 := Apply(s2, LookInL2(r));
    assert s3.readers - {r} == s.readers;
  }

  /** One that finds none gets to the database if and only if it gets the rebuild lock; otherwise it ends
      without an answer. */
  lemma EmptyCachesAnswer(s: Shop, r: Reader, locked: bool)
    requires s.writer.NoWriter? && !Reading(s, r) && r.instance in s.applied && r.instance !in s.l1 && s.l2.None?
    ensures var looks := [LookInL1(r)] + ([LookInL2(r)] + []);
            var s' := Run(s, [BeginRead(r)] + ([LookInL1(r)] + ([LookInL2(r)] + ([TryRebuildLock(r, locked)] + looks))));
            if locked then Reading(s', r) && s'.readers[r].ToDatabase? else s' == s
  {
    var looks := [LookInL1(r)] + ([LookInL2(r)] + []);
    var s1 := Apply(s, BeginRead(r));
    var s2 := Apply(s1, LookInL1(r));
    var s3 := Apply(s2, LookInL2(r));
    var s4 := Apply(s3, TryRebuildLock(r, locked));
    var s5 := Apply(s4, LookInL1(r));
    RunFirst(s, BeginRead(r), [LookInL1(r)] + ([LookInL2(r)] + ([TryRebuildLock(r, locked)] + looks)));
    RunFirst(s1, LookInL1(r), [LookInL2(r)] + ([TryRebuildLock(r, locked)] + looks));
    RunFirst(s2, LookInL2(r), [TryRebuildLock(r, locked)] + looks);
    RunFirst(s3, TryRebuildLock(r, locked), looks);
    RunFirst(s4, LookInL1(r), [LookInL2(r)] + []);
    RunFirst(s5, LookInL2(r), []);
    assert s5.readers - {r} == s.readers;
  }

  // Nobody holds the shop's lock, for reading or for writing.
  predicate Unlocked(s: Shop) {
    s.writer.NoWriter? && s.readers == map[]
  }

  /** An undisturbed update leaves the new value in the database, and none in the second level and its own
      first level. */
  lemma UpdateEmptiesCaches(s: Shop, i: InstanceId)
    requires Unlocked(s) && i in s.applied
    ensures var s' := Run(s, [BeginUpdate(i)] + ([Commit] + ([EvictL1] + ([DeleteL2] + []))));
            s'.db == s.db + 1 && s'.l2.None? && s'.l1 == s.l1 - {i} && s'.writer.NoWriter? && s'.applied == s.applied
  {
    var s1 := Apply(s, BeginUpdate(i));
    var s2 := Apply(s1, Commit);
    var s3 := Apply(s2, EvictL1);
    RunFirst(s, BeginUpdate(i), [Commit] + ([EvictL1] + ([DeleteL2] + [])));
    RunFirst(s1, Commit, [EvictL1] + ([DeleteL2] + []));
    RunFirst(s2, EvictL1, [DeleteL2] + []);
    RunFirst(s3, DeleteL2, []);
  }

  /** An event that is consumed undisturbed is applied, with no value left in the instance's first level or
      in the second. */
  lemma EventEmptiesCaches(s: Shop, i: InstanceId, k: Version)
    requires Unlocked(s) && i in s.applied && 0 < k <= s.db
    ensures var s' := Run(s, [BeginConsume(i, k)] + ([EvictL1] + ([DeleteL2] + [])));
            && s'.l2.None? && s'.l1 == s.l1 - {i} && s'.writer.NoWriter? && s'.db == s.db
            && s'.applied == s.applied[i := s.applied[i] + {k}]
  {
    var s1 := Apply(s, BeginConsume(i, k));
    var s2 := Apply(s1, EvictL1);
    RunFirst(s, BeginConsume(i, k), [EvictL1] + ([DeleteL2] + []));
    RunFirst(s1, EvictL1, [DeleteL2] + []);
    RunFirst(s2, DeleteL2, []);
  }

  // ---- Stale values can go ----

  lemma {:induction false} RunConcat(s: Shop, a: seq<Step>, b: seq<Step>)
    ensures Run(s, a + b) == Run(Run(s, a), b)
    decreases |a|
  {
    hide Enabled, Apply;
    if a == [] {
      assert a + b == b;
    } else {
      assert (a + b)[0] == a[0] && (a + b)[1..] == a[1..] + b;
      RunConcat(if Enabled(s, a[0]) then Apply(s, a[0]) else s, a[1..], b);
    }
  }

  // Whoever reads gives up.
  lemma {:induction false} ReadersCanGo(s: Shop) returns (steps: seq<Step>)
    ensures Run(s, steps) == s.(readers := map[])
    decreases |s.readers|
  {
    steps := [];
    if s.readers != map[] {
      var r := SomeElement(s.readers.Keys);
      var s1 := Apply(s, AbortRead(r));
      assert s1.readers.Keys == s.readers.Keys - {r};
      var rest := ReadersCanGo(s1);
      RunFirst(s, AbortRead(r), rest);
      steps := [AbortRead(r)] + rest;
    } else {
      assert s == s.(readers := map[]);
    }
  }

  /** No dead end: after any run, whoever holds the lock or has died with it, an instance can still get to
      where the last event is applied and no stale value is left in either of its levels. */
  lemma CanBecomeFresh(instances: set<InstanceId>, steps: seq<Step>, i: InstanceId) returns (more: seq<Step>)
    requires i in Run(Initial(instances), steps).applied
    ensures var s, s' := Run(Initial(instances), steps), Run(Initial(instances), steps + more);
            && s'.db == s.db && i in s'.applied && (s.db > 0 ==> s.db in s'.applied[i])
            && (i in s'.l1 ==> s'.l1[i] == s.db) && (s'.l2.Some? ==> s'.l2.value == s.db)
  {
    var s := Run(Initial(instances), steps);
    RunKeeps(Initial(instances), steps);
    var released := if s.writer.NoWriter? then [] else [Release];
    var s1 := s.(writer := NoWriter);
    assert Run(s, released) == s1 by {
      if !s.writer.NoWriter? {
        RunFirst(s, Release, []);
        assert [Release] + [] == [Release];
      } else {
        assert s1 == s;
      }
    }
    var gone := ReadersCanGo(s1);
    var s2 := s1.(readers := map[]);
    RunConcat(s, released, gone);
    more := released + gone;
    if s.db > 0 {
      var applied := [BeginConsume(i, s.db)] + ([EvictL1] + ([DeleteL2] + []));
      EventEmptiesCaches(s2, i, s.db);
      RunConcat(s, more, applied);
      more := more + applied;
    }
    RunConcat(Initial(instances), steps, more);
  }
}
