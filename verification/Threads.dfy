/** The receiving thread, the main thread and the mode listener, interleaved step by step.

    Every access to a field of the shared `deviInfo` and every read of the mode is a step of its own. A
    schedule is any sequence of actions; an action whose thread cannot move leaves the state as it is. */
module Threads {
  import opened Folds
  import opened SharedData
  import opened CustomerFilter

  datatype Owner = Free | ByProducer | ByConsumer

  /** `recCustomerPack`. `Writing(p, n)` has done `n` of the seven field accesses. */
  datatype Producer =
    | Receiving
    | Offering(local: Package)
    | Writing(local: Package, done: nat)
    | Notifying
    | Leaving

  /** The main thread: `dmTrigger` up to `Triggered`, then the body. `Reading(got, n)` has read `n` of the
      four fields; `Choosing` and `ChoosingAgain` are before the two tests of the mode in `dmTrigger`,
      `Testing` and `TestingAgain` before the two in the body. */
  datatype Consumer =
    | Outside
    | Entered
    | Waiting
    | Woken
    | Reading(got: Package, done: nat)
    | Choosing(got: Package)
    | ChoosingAgain(got: Package, first: nat)
    | Triggered
    | Between
    | Testing
    | TestingAgain
    | InBody

  /** A completed `dmTrigger`: what it read, how many packages had been published, and the mode at its tests.
      The second test is not made if the first succeeds. */
  datatype Snapshot = Snapshot(seen: Package, age: nat, mode: nat, mode': nat)

  /** A body: how many packages had been published, and the mode at the tests made so far. */
  datatype BodyRun = BodyRun(age: nat, modes: seq<nat>)

  datatype State = State(
    lock: Owner, deviInfo: Package, mode: nat,
    producer: Producer, idRecord: DmId,
    consumer: Consumer,
    // history
    received: seq<Recv>, published: seq<Package>, triggers: seq<Snapshot>, bodies: seq<BodyRun>,
    delivered: nat, missed: nat)  // notifications that found the main thread waiting, or elsewhere

  datatype Action = Receive(recv: Recv) | ProducerMoves | ConsumerMoves | SpuriousWakeup | WriteMode(mode: nat)

  const INITIAL :=
    State(Free, ZERO, INIT, Receiving, UINT32_MAX, Outside, [], [], [], [], 0, 0)

  // ---------- steps ----------

  function AfterReceive(s: State, r: Recv): State {
    if !s.producer.Receiving? then s
    else
      var s' := s.(received := s.received + [r]);
      match r
      case Failed => s'
      case Closed => s'.(idRecord := UINT32_MAX)
      case Packet(p) => if p.dmId != s.idRecord then s'.(producer := Offering(p)) else s'
  }

  /** The `n`-th field access: copy the four fields, then negate the three deviations. */
  function WriteField(dev: Package, local: Package, n: nat): Package {
    if n == 0 then dev.(dmId := local.dmId)
    else if n == 1 then dev.(x := local.x)
    else if n == 2 then dev.(y := local.y)
    else if n == 3 then dev.(a := local.a)
    else if n == 4 then dev.(x := -dev.x)
    else if n == 5 then dev.(y := -dev.y)
    else dev.(a := -dev.a)
  }

  function AfterProducer(s: State): State {
    match s.producer
    case Receiving => s
    case Offering(p) =>
      if s.lock.Free? then s.(lock := ByProducer, idRecord := p.dmId, producer := Writing(p, 0)) else s
    case Writing(p, n) =>
      var s' := s.(deviInfo := WriteField(s.deviInfo, p, n));
      if n < 6 then s'.(producer := Writing(p, n + 1))
      else s'.(producer := Notifying, published := s.published + [p])
    case Notifying =>
      if s.consumer.Waiting? then s.(producer := Leaving, consumer := Woken, delivered := s.delivered + 1)
      else s.(producer := Leaving, missed := s.missed + 1)
    case Leaving => s.(lock := Free, producer := Receiving)
  }

  function ReadField(got: Package, dev: Package, n: nat): Package {
    if n == 0 then got.(x := dev.x)
    else if n == 1 then got.(y := dev.y)
    else if n == 2 then got.(a := dev.a)
    else got.(dmId := dev.dmId)
  }

  function AfterConsumer(s: State): State {
    match s.consumer
    case Outside => if s.lock.Free? then s.(lock := ByConsumer, consumer := Entered) else s
    case Entered => s.(lock := Free, consumer := Waiting)
    case Waiting => s
    case Woken => if s.lock.Free? then s.(lock := ByConsumer, consumer := Reading(ZERO, 0)) else s
    case Reading(got, n) =>
      var got' := ReadField(got, s.deviInfo, n);
      s.(consumer := if n < 3 then Reading(got', n + 1) else Choosing(got'))
    case Choosing(got) =>
      if s.mode == RECORDING then AfterTrigger(s, got, s.mode) else s.(consumer := ChoosingAgain(got, s.mode))
    case ChoosingAgain(got, first) => AfterTrigger(s, got, first)
    case Triggered => s.(lock := Free, consumer := Between)
    case Between =>
      if s.lock.Free? then
        s.(lock := ByConsumer, consumer := Testing, bodies := s.bodies + [BodyRun(|s.published|, [])])
      else s
    case Testing => AfterTest(s, TestingAgain)
    case TestingAgain => AfterTest(s, InBody)
    case InBody => s.(lock := Free, consumer := Outside)
  }

  function AfterTrigger(s: State, got: Package, first: nat): State {
    s.(consumer := Triggered, triggers := s.triggers + [Snapshot(got, |s.published|, first, s.mode)])
  }

  /** The latest body tests the mode once more. */
  function AfterTest(s: State, next: Consumer): State {
    if s.bodies == [] then s
    else
      var last := |s.bodies| - 1;
      var b := s.bodies[last];
      s.(consumer := next, bodies := s.bodies[last := b.(modes := b.modes + [s.mode])])
  }

  function Apply(s: State, action: Action): State {
    match action
    case Receive(r) => AfterReceive(s, r)
    case ProducerMoves => AfterProducer(s)
    case ConsumerMoves => AfterConsumer(s)
    case SpuriousWakeup => if s.consumer.Waiting? then s.(consumer := Woken) else s
    case WriteMode(m) => s.(mode := m)
  }

  function Exec(schedule: seq<Action>): State {
    FoldLeft(INITIAL, Apply, schedule)
  }

  // ---------- mutual exclusion and integrity ----------

  /** The shared package once `n` packages have been published. */
  function Current(published: seq<Package>, n: nat): Package
    requires n <= |published|
  {
    if n == 0 then ZERO else Negated(published[n - 1])
  }

  ghost predicate LockDiscipline(s: State) {
    && (s.lock == ByProducer <==> s.producer.Writing? || s.producer.Notifying? || s.producer.Leaving?)
    && (s.lock == ByConsumer <==>
        !(s.consumer.Outside? || s.consumer.Waiting? || s.consumer.Woken? || s.consumer.Between?))
  }

  ghost predicate SharedPackage(s: State) {
    match s.producer
    case Writing(p, n) =>
      && n <= 6
      && (n > 0 ==> s.deviInfo.dmId == p.dmId)
      && (n > 1 ==> s.deviInfo.x == if n > 4 then -p.x else p.x)
      && (n > 2 ==> s.deviInfo.y == if n > 5 then -p.y else p.y)
      && (n > 3 ==> s.deviInfo.a == p.a)
    case _ => s.deviInfo == Current(s.published, |s.published|)
  }

  ghost predicate PartialRead(s: State) {
    match s.consumer
    case Reading(got, n) =>
      && n <= 3
      && (n > 0 ==> got.x == s.deviInfo.x)
      && (n > 1 ==> got.y == s.deviInfo.y)
      && (n > 2 ==> got.a == s.deviInfo.a)
    case Choosing(got) => got == s.deviInfo
    case ChoosingAgain(got, first) => got == s.deviInfo && first != RECORDING
    case _ => true
  }

  /** Every snapshot is one published package, and they come in the order of publication. */
  ghost predicate WholeSnapshots(s: State) {
    && (forall i | 0 <= i < |s.triggers| ::
          s.triggers[i].age <= |s.published| && s.triggers[i].seen == Current(s.published, s.triggers[i].age))
    && (forall i, j | 0 <= i <= j < |s.triggers| :: s.triggers[i].age <= s.triggers[j].age)
  }

  /** A body works with the package of its trigger or a later one. */
  ghost predicate BodiesFollowTriggers(s: State) {
    && |s.triggers| == |s.bodies| + (if s.consumer.Triggered? || s.consumer.Between? then 1 else 0)
    && (forall i | 0 <= i < |s.bodies| :: s.triggers[i].age <= s.bodies[i].age <= |s.published|)
  }

  /** Every body tests the mode twice. */
  ghost predicate ModeTested(s: State) {
    && (forall i | 0 <= i < |s.bodies| ::
          |s.bodies[i].modes| == if i < |s.bodies| - 1 then 2 else TestsMade(s.consumer))
    && (s.consumer.Testing? || s.consumer.TestingAgain? || s.consumer.InBody? ==> s.bodies != [])
  }

  function TestsMade(c: Consumer): nat {
    if c.Testing? then 0 else if c.TestingAgain? then 1 else 2
  }

  ghost predicate Filtered(s: State) {
    && s.idRecord == (if s.producer.Offering? then s.idRecord else PreviousId(s.received))
    && Destutter(s.received) == s.published + Pending(s)
    && (s.producer.Offering? || s.producer.Writing? ==> PreviousId(s.received) == s.producer.local.dmId)
  }

  /** The packet that has passed the filter and is not published yet. */
  function Pending(s: State): seq<Package> {
    if s.producer.Offering? || s.producer.Writing? then [s.producer.local] else []
  }

  ghost predicate Safe(s: State) {
    LockDiscipline(s) && SharedPackage(s) && PartialRead(s) && WholeSnapshots(s) && BodiesFollowTriggers(s)
    && ModeTested(s) && Filtered(s)
  }

  // ---------- every action keeps them ----------

  /** Publishing more leaves the history as it was. */
  lemma HistoryStands(s: State, s': State)
    requires WholeSnapshots(s) && BodiesFollowTriggers(s) && ModeTested(s)
    requires s'.triggers == s.triggers && s'.bodies == s.bodies && s.published <= s'.published
    requires s'.consumer == s.consumer || (s.consumer.Waiting? && s'.consumer.Woken?)
    ensures WholeSnapshots(s') && BodiesFollowTriggers(s') && ModeTested(s')
  {
    assert forall n | 0 <= n <= |s.published| :: Current(s'.published, n) == Current(s.published, n);
  }

  lemma ReceiveKeepsFilter(s: State, r: Recv)
    requires Filtered(s)
    ensures Filtered(AfterReceive(s, r))
  {
    Push(s.received, r);
  }

  lemma ReceiveLeavesAlone(s: State, r: Recv)
    ensures var s' := AfterReceive(s, r);
      && s'.lock == s.lock && s'.deviInfo == s.deviInfo && s'.consumer == s.consumer
      && s'.published == s.published && s'.triggers == s.triggers && s'.bodies == s.bodies
      && (s'.producer == s.producer || (s.producer.Receiving? && s'.producer.Offering?))
  {}

  lemma ReceiveKeepsSafe(s: State, r: Recv)
    requires Safe(s)
    ensures Safe(AfterReceive(s, r))
  {
    ReceiveKeepsFilter(s, r);
    ReceiveLeavesAlone(s, r);
    HistoryStands(s, AfterReceive(s, r));
  }

  lemma ProducerKeepsLock(s: State)
    requires LockDiscipline(s)
    ensures LockDiscipline(AfterProducer(s))
  {}

  lemma ProducerKeepsPackage(s: State)
    requires SharedPackage(s)
    ensures SharedPackage(AfterProducer(s))
  {}

  lemma ProducerKeepsFilter(s: State)
    requires Filtered(s)
    ensures Filtered(AfterProducer(s))
  {}

  lemma ProducerLeavesAlone(s: State)
    ensures var s' := AfterProducer(s);
      && s'.triggers == s.triggers && s'.bodies == s.bodies && s.published <= s'.published
      && (s'.consumer == s.consumer || (s.consumer.Waiting? && s'.consumer.Woken?))
      && (s.producer.Writing? || s'.deviInfo == s.deviInfo)
  {}

  lemma ProducerKeepsSafe(s: State)
    requires Safe(s)
    ensures Safe(AfterProducer(s))
  {
    ProducerKeepsLock(s);
    ProducerKeepsPackage(s);
    ProducerKeepsFilter(s);
    ProducerLeavesAlone(s);
    HistoryStands(s, AfterProducer(s));
  }

  predicate ReadsPackage(c: Consumer) {
    c.Reading? || c.Choosing? || c.ChoosingAgain?
  }

  lemma PackageWhileReading(s: State)
    requires LockDiscipline(s) && SharedPackage(s) && ReadsPackage(s.consumer)
    ensures s.deviInfo == Current(s.published, |s.published|)
  {}

  lemma ConsumerKeepsLock(s: State)
    requires LockDiscipline(s)
    ensures LockDiscipline(AfterConsumer(s))
  {}

  lemma ConsumerLeavesAlone(s: State)
    ensures var s' := AfterConsumer(s);
      && s'.deviInfo == s.deviInfo && s'.producer == s.producer && s'.idRecord == s.idRecord
      && s'.received == s.received && s'.published == s.published
  {}

  lemma SameProducerSide(s: State, s': State)
    requires SharedPackage(s) && Filtered(s)
    requires s'.deviInfo == s.deviInfo && s'.producer == s.producer && s'.idRecord == s.idRecord
    requires s'.received == s.received && s'.published == s.published
    ensures SharedPackage(s') && Filtered(s')
  {}

  lemma ConsumerKeepsSnapshots(s: State)
    requires PartialRead(s) && WholeSnapshots(s)
    requires ReadsPackage(s.consumer) ==> s.deviInfo == Current(s.published, |s.published|)
    ensures PartialRead(AfterConsumer(s)) && WholeSnapshots(AfterConsumer(s))
  {}

  lemma ConsumerKeepsBodies(s: State)
    requires WholeSnapshots(s) && BodiesFollowTriggers(s)
    ensures BodiesFollowTriggers(AfterConsumer(s))
  {}

  lemma ConsumerKeepsTests(s: State)
    requires ModeTested(s)
    ensures ModeTested(AfterConsumer(s))
  {}

  lemma ConsumerKeepsSafe(s: State)
    requires Safe(s)
    ensures Safe(AfterConsumer(s))
  {
    if ReadsPackage(s.consumer) {
      PackageWhileReading(s);
    }
    ConsumerKeepsLock(s);
    ConsumerLeavesAlone(s);
    SameProducerSide(s, AfterConsumer(s));
    ConsumerKeepsSnapshots(s);
    ConsumerKeepsBodies(s);
    ConsumerKeepsTests(s);
  }

  lemma OthersKeepSafe(s: State, action: Action)
    requires Safe(s) && (action.SpuriousWakeup? || action.WriteMode?)
    ensures Safe(Apply(s, action))
  {
    HistoryStands(s, Apply(s, action));
    SameProducerSide(s, Apply(s, action));
  }

  lemma ApplyKeepsSafe(s: State, action: Action)
    requires Safe(s)
    ensures Safe(Apply(s, action))
  {
    match action
    case Receive(r) => ReceiveKeepsSafe(s, r);
    case ProducerMoves => ProducerKeepsSafe(s);
    case ConsumerMoves => ConsumerKeepsSafe(s);
    case SpuriousWakeup => OthersKeepSafe(s, action);
    case WriteMode(_) => OthersKeepSafe(s, action);
  }

  lemma ExecPush(schedule: seq<Action>, action: Action)
    ensures Exec(schedule + [action]) == Apply(Exec(schedule), action)
  {
    FoldPush(INITIAL, Apply, schedule, action);
  }

  /** Under every schedule, spurious wake-ups included: at most one thread is in its critical section,
      every completed `dmTrigger` has read exactly one published package with its three deviations
      negated (or the zero package, before the first), every body works with that package or a later
      one, and the published packages are the de-stuttered stream of received ones. */
  lemma {:induction false} EveryScheduleIsSafe(schedule: seq<Action>)
    ensures Safe(Exec(schedule))
  {
    if schedule == [] {
    } else {
      var front, action := schedule[..|schedule| - 1], schedule[|schedule| - 1];
      EveryScheduleIsSafe(front);
      ApplyKeepsSafe(Exec(front), action);
      ExecPush(front, action);
      assert front + [action] == schedule;
    }
  }

  /** So every trigger but those before the first package has read a published package with each of its three
      deviations negated. */
  lemma TriggersReadNegated(schedule: seq<Action>, i: nat)
    requires i < |Exec(schedule).triggers| && Exec(schedule).triggers[i].age != 0
    ensures var s := Exec(schedule);
      var t := s.triggers[i];
      t.age <= |s.published| &&
        var p := s.published[t.age - 1];
        && Packet(p) in s.received
        && t.seen.dmId == p.dmId && t.seen.x == -p.x && t.seen.y == -p.y && t.seen.a == -p.a
  {
    EveryScheduleIsSafe(schedule);
    var s := Exec(schedule);
    var p := s.published[s.triggers[i].age - 1];
    assert p in Destutter(s.received);
    KeptWasReceived(s.received, p);
  }

  lemma OthersRespectTheLock(s: State, action: Action)
    requires LockDiscipline(s) && s.lock == ByConsumer && action != ConsumerMoves
    ensures var s' := Apply(s, action);
      && s'.deviInfo == s.deviInfo && s'.published == s.published && s'.lock == ByConsumer
      && s'.consumer == s.consumer
      && s'.mode == if action.WriteMode? then action.mode else s.mode
  {}

  /** No action of another thread changes the shared package while the main thread is in its critical
      sections, in which it tests the mode four times; the mode is not protected. */
  lemma PackageIsStableUnderLock(schedule: seq<Action>, action: Action)
    requires Exec(schedule).lock == ByConsumer && action != ConsumerMoves
    ensures var s, s' := Exec(schedule), Exec(schedule + [action]);
      && s'.deviInfo == s.deviInfo && s'.published == s.published && s'.lock == ByConsumer
      && s'.consumer == s.consumer
      && s'.mode == if action.WriteMode? then action.mode else s.mode
  {
    EveryScheduleIsSafe(schedule);
    ExecPush(schedule, action);
    OthersRespectTheLock(Exec(schedule), action);
  }

  // ---------- without spurious wake-ups ----------

  function LastAge(s: State): nat {
    if s.triggers == [] then 0 else s.triggers[|s.triggers| - 1].age
  }

  /** A trigger has been notified and is not complete. */
  predicate InProgress(c: Consumer) {
    c.Woken? || ReadsPackage(c)
  }

  /** Once the main thread has been notified, a package newer than its last snapshot is there. */
  ghost predicate Notified(s: State) {
    && (InProgress(s.consumer) || (s.consumer.Waiting? && s.producer.Notifying?) ==> LastAge(s) < |s.published|)
    && LastAge(s) <= |s.published|
  }

  ghost predicate AgesIncrease(s: State) {
    && (forall i, j | 0 <= i < j < |s.triggers| :: s.triggers[i].age < s.triggers[j].age)
    && (forall i | 0 <= i < |s.triggers| :: i < s.triggers[i].age)
  }

  /** Every package published has been notified once, except the one being notified; and every notification
      that found the main thread waiting has led to a trigger, except the one in progress. */
  ghost predicate Accounted(s: State) {
    && s.delivered + s.missed + (if s.producer.Notifying? then 1 else 0) == |s.published|
    && s.delivered == |s.triggers| + (if InProgress(s.consumer) then 1 else 0)
  }

  lemma ProducerAdvances(s: State)
    requires LockDiscipline(s) && Notified(s) && Accounted(s)
    ensures Notified(AfterProducer(s)) && Accounted(AfterProducer(s))
    ensures AfterProducer(s).triggers == s.triggers
  {}

  lemma ConsumerAdvances(s: State)
    requires LockDiscipline(s) && Notified(s) && Accounted(s)
    ensures Notified(AfterConsumer(s)) && Accounted(AfterConsumer(s))
    ensures var s' := AfterConsumer(s);
      || s'.triggers == s.triggers
      || exists t: Snapshot :: s'.triggers == s.triggers + [t] && LastAge(s) < t.age
  {}

  lemma NewerTrigger(s: State, s': State, t: Snapshot)
    requires AgesIncrease(s) && s'.triggers == s.triggers + [t] && LastAge(s) < t.age
    ensures AgesIncrease(s')
  {
    assert s.triggers != [] ==> |s.triggers| <= LastAge(s);
  }

  lemma StepAdvances(s: State, action: Action)
    requires LockDiscipline(s) && Notified(s) && AgesIncrease(s) && Accounted(s) && action != SpuriousWakeup
    ensures var s' := Apply(s, action);
      Notified(s') && AgesIncrease(s') && Accounted(s')
  {
    match action
    case Receive(r) => ReceiveLeavesAlone(s, r);
    case ProducerMoves => ProducerAdvances(s);
    case ConsumerMoves =>
      ConsumerAdvances(s);
      var s' := AfterConsumer(s);
      if s'.triggers != s.triggers {
        var t: Snapshot :| s'.triggers == s.triggers + [t] && LastAge(s) < t.age;
        NewerTrigger(s, s', t);
      }
    case WriteMode(_) =>
  }

  /** Without spurious wake-ups each completed `dmTrigger` reads a strictly newer package than the one
      before, so no package is processed twice, and notifications are accounted for. */
  lemma {:induction false} TriggersAdvance(schedule: seq<Action>)
    requires SpuriousWakeup !in schedule
    ensures Notified(Exec(schedule)) && AgesIncrease(Exec(schedule)) && Accounted(Exec(schedule))
  {
    if schedule == [] {
    } else {
      var front, action := schedule[..|schedule| - 1], schedule[|schedule| - 1];
      assert forall a | a in front :: a in schedule;
      assert action in schedule;
      TriggersAdvance(front);
      EveryScheduleIsSafe(front);
      StepAdvances(Exec(front), action);
      ExecPush(front, action);
      assert front + [action] == schedule;
    }
  }

  /** Every trigger has read one published package whole, and they are no more than the packages. */
  ghost predicate ReadsPublished(s: State) {
    && |s.triggers| <= |s.published|
    && forall i | 0 <= i < |s.triggers| ::
         exists k | i <= k < |s.published| ::
           s.triggers[i].seen == Negated(s.published[k]) && s.triggers[i].age == k + 1
  }

  lemma SnapshotsReadPublished(s: State)
    requires WholeSnapshots(s) && AgesIncrease(s)
    ensures ReadsPublished(s)
  {
    if s.triggers != [] {
      var last := |s.triggers| - 1;
      assert last < s.triggers[last].age <= |s.published|;
    }
    forall i | 0 <= i < |s.triggers|
      ensures exists k | i <= k < |s.published| ::
        s.triggers[i].seen == Negated(s.published[k]) && s.triggers[i].age == k + 1
    {
      var k := s.triggers[i].age - 1;
      assert s.triggers[i].seen == Negated(s.published[k]);
    }
  }

  /** So completed triggers never outnumber published packages, and each has read one of them whole. */
  lemma TriggersNeverExceedPackages(schedule: seq<Action>)
    requires SpuriousWakeup !in schedule
    ensures ReadsPublished(Exec(schedule))
  {
    TriggersAdvance(schedule);
    EveryScheduleIsSafe(schedule);
    SnapshotsReadPublished(Exec(schedule));
  }
}
