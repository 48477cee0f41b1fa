/** Which published packages no trigger ever reads. */
module LostPackages {
  import opened Folds
  import opened SharedData
  import opened CustomerFilter
  import opened Threads

  // ---------- which packages are lost ----------

  /** Some trigger has read the `k`-th published package. */
  ghost predicate WasRead(s: State, k: nat) {
    exists i :: 0 <= i < |s.triggers| && s.triggers[i].age == k + 1
  }

  lemma {:induction false} ReadIndex(s: State, k: nat) returns (i: nat)
    requires AgesIncrease(s) && forall j: nat | j <= k :: WasRead(s, j)
    ensures k <= i < |s.triggers| && s.triggers[i].age == k + 1
  {
    assert WasRead(s, k);
    i :| i < |s.triggers| && s.triggers[i].age == k + 1;
    if k == 0 {
    } else {
      var before := ReadIndex(s, k - 1);
      assert before < i;
    }
  }

  lemma {:induction false} AgesAreFull(s: State, i: nat)
    requires AgesIncrease(s) && i < |s.triggers|
    requires forall j | 0 <= j < |s.triggers| :: s.triggers[j].age <= |s.triggers|
    ensures s.triggers[i].age == i + 1
    decreases |s.triggers| - i
  {
    if i == |s.triggers| - 1 {
    } else {
      AgesAreFull(s, i + 1);
    }
  }

  lemma AllReadIffNoneMissed(s: State)
    requires WholeSnapshots(s) && AgesIncrease(s) && Accounted(s)
    requires !s.producer.Notifying? && !InProgress(s.consumer)
    ensures (forall k: nat | k < |s.published| :: WasRead(s, k)) <==> s.missed == 0
  {
    var n := |s.published|;
    if s.missed == 0 {
      forall k: nat | k < n
        ensures WasRead(s, k)
      {
        AgesAreFull(s, k);
      }
    } else if forall k: nat | k < n :: WasRead(s, k) {
      var i := ReadIndex(s, n - 1);
      assert false;
    }
  }

  /** Without spurious wake-ups, and with no notification under way: every published package has been read
      exactly if no notification has found the main thread elsewhere than waiting. */
  lemma EveryPackageReadIff(schedule: seq<Action>)
    requires SpuriousWakeup !in schedule
    requires !Exec(schedule).producer.Notifying? && !InProgress(Exec(schedule).consumer)
    ensures var s := Exec(schedule);
      (forall k: nat | k < |s.published| :: WasRead(s, k)) <==> s.missed == 0
  {
    TriggersAdvance(schedule);
    EveryScheduleIsSafe(schedule);
    AllReadIffNoneMissed(Exec(schedule));
  }

  // ---------- a schedule that loses packages ----------

  function Moves(s: State, action: Action, n: nat): State {
    Iterate(s, Apply, action, n)
  }

  lemma ExecConcat(schedule: seq<Action>, more: seq<Action>)
    ensures Exec(schedule + more) == FoldLeft(Exec(schedule), Apply, more)
  {
    FoldConcat(INITIAL, Apply, schedule, more);
  }

  lemma ExecRepeat(schedule: seq<Action>, action: Action, n: nat)
    ensures Exec(schedule + Repeat(action, n)) == Moves(Exec(schedule), action, n)
  {
    ExecConcat(schedule, Repeat(action, n));
    FoldRepeat(Exec(schedule), Apply, action, n);
  }

  lemma MovesOn(s: State, action: Action, n: nat)
    ensures Moves(s, action, n + 1) == Apply(Moves(s, action, n), action)
    ensures Moves(s, action, 0) == s
  {}

  /** Receive a package and publish it without a pause. */
  function Publish(p: Package): seq<Action> {
    [Receive(Packet(p))] + Repeat(ProducerMoves, 10)
  }

  /** The state in which the producer has published `p` on its own. */
  function Published(s: State, p: Package): State {
    var waiting := s.consumer.Waiting?;
    s.(deviInfo := Negated(p), idRecord := p.dmId, received := s.received + [Packet(p)],
       published := s.published + [p], consumer := if waiting then Woken else s.consumer,
       delivered := s.delivered + (if waiting then 1 else 0), missed := s.missed + (if waiting then 0 else 1))
  }

  lemma WritesPackage(s: State, p: Package)
    requires s.producer == Writing(p, 0)
    ensures Moves(s, ProducerMoves, 7)
         == s.(deviInfo := Negated(p), producer := Notifying, published := s.published + [p])
  {
    CopiesPackage(s, p);
    var s4 := s.(deviInfo := p, producer := Writing(p, 4));
    var s5 := s.(deviInfo := p.(x := -p.x), producer := Writing(p, 5));
    var s6 := s.(deviInfo := p.(x := -p.x, y := -p.y), producer := Writing(p, 6));
    MovesOn(s, ProducerMoves, 4);
    assert AfterProducer(s4) == s5;
    MovesOn(s, ProducerMoves, 5);
    assert AfterProducer(s5) == s6;
    MovesOn(s, ProducerMoves, 6);
  }

  lemma CopiesPackage(s: State, p: Package)
    requires s.producer == Writing(p, 0)
    ensures Moves(s, ProducerMoves, 4) == s.(deviInfo := p, producer := Writing(p, 4))
  {
    var d := s.deviInfo;
    var s1 := s.(deviInfo := d.(dmId := p.dmId), producer := Writing(p, 1));
    var s2 := s.(deviInfo := d.(dmId := p.dmId, x := p.x), producer := Writing(p, 2));
    var s3 := s.(deviInfo := d.(dmId := p.dmId, x := p.x, y := p.y), producer := Writing(p, 3));
    MovesOn(s, ProducerMoves, 0);
    assert AfterProducer(s) == s1;
    MovesOn(s, ProducerMoves, 1);
    assert AfterProducer(s1) == s2;
    MovesOn(s, ProducerMoves, 2);
    assert AfterProducer(s2) == s3;
    MovesOn(s, ProducerMoves, 3);
  }

  lemma ProducerAlone(s: State, p: Package)
    requires s.producer == Offering(p) && s.lock.Free?
    ensures var waiting := s.consumer.Waiting?;
      Moves(s, ProducerMoves, 10)
        == s.(deviInfo := Negated(p), idRecord := p.dmId, producer := Receiving,
              published := s.published + [p], consumer := if waiting then Woken else s.consumer,
              delivered := s.delivered + (if waiting then 1 else 0), missed := s.missed + (if waiting then 0 else 1))
  {
    var s1 := s.(lock := ByProducer, idRecord := p.dmId, producer := Writing(p, 0));
    MovesOn(s, ProducerMoves, 0);
    assert AfterProducer(s) == s1;
    IterateAdd(s, Apply, ProducerMoves, 1, 7);
    WritesPackage(s1, p);
    var s8 := s1.(deviInfo := Negated(p), producer := Notifying, published := s.published + [p]);
    MovesOn(s, ProducerMoves, 8);
    MovesOn(s, ProducerMoves, 9);
    assert Moves(s, ProducerMoves, 9) == AfterProducer(s8);
  }

  lemma PublishAlone(schedule: seq<Action>, p: Package)
    requires Exec(schedule).producer.Receiving? && Exec(schedule).lock.Free?
    requires p.dmId != Exec(schedule).idRecord
    ensures Exec(schedule + Publish(p)) == Published(Exec(schedule), p)
  {
    var s, received := Exec(schedule), schedule + [Receive(Packet(p))];
    ExecPush(schedule, Receive(Packet(p)));
    assert Exec(received) == s.(received := s.received + [Packet(p)], producer := Offering(p));
    ExecRepeat(received, ProducerMoves, 10);
    assert received + Repeat(ProducerMoves, 10) == schedule + Publish(p);
    ProducerAlone(Exec(received), p);
  }

  /** Whenever the producer can publish while the main thread is not waiting, it can publish two packages of
      which no trigger will ever be notified. */
  lemma TwoPackagesMissed(schedule: seq<Action>, p: Package, q: Package)
    requires Exec(schedule).producer.Receiving? && Exec(schedule).lock.Free?
    requires !Exec(schedule).consumer.Waiting?
    requires p.dmId != Exec(schedule).idRecord && q.dmId != p.dmId
    ensures var s, s' := Exec(schedule), Exec(schedule + Publish(p) + Publish(q));
      && s'.published == s.published + [p, q] && s'.missed == s.missed + 2
      && s'.triggers == s.triggers && s'.bodies == s.bodies
      && s'.consumer == s.consumer && s'.producer.Receiving? && s'.lock.Free?
  {
    PublishAlone(schedule, p);
    PublishAlone(schedule + Publish(p), q);
    assert [p] + [q] == [p, q];
  }

  /** The main thread waits, `p` is published, and the main thread completes a trigger and releases the lock. */
  function TriggerOnce(p: Package): seq<Action> {
    Repeat(ConsumerMoves, 2) + Publish(p) + Repeat(ConsumerMoves, 8)
  }

  lemma StartsWaiting()
    ensures Exec(Repeat(ConsumerMoves, 2)) == INITIAL.(consumer := Waiting)
  {
    ExecRepeat([], ConsumerMoves, 2);
    assert [] + Repeat(ConsumerMoves, 2) == Repeat<Action>(ConsumerMoves, 2);
    MovesOn(INITIAL, ConsumerMoves, 0);
    assert AfterConsumer(INITIAL) == INITIAL.(lock := ByConsumer, consumer := Entered);
    MovesOn(INITIAL, ConsumerMoves, 1);
  }

  lemma ReadsFields(s: State)
    requires s.consumer == Reading(ZERO, 0)
    ensures Moves(s, ConsumerMoves, 4) == s.(consumer := Choosing(s.deviInfo))
  {
    var d := s.deviInfo;
    var s1 := s.(consumer := Reading(ZERO.(x := d.x), 1));
    var s2 := s.(consumer := Reading(ZERO.(x := d.x, y := d.y), 2));
    var s3 := s.(consumer := Reading(ZERO.(x := d.x, y := d.y, a := d.a), 3));
    MovesOn(s, ConsumerMoves, 0);
    assert AfterConsumer(s) == s1;
    MovesOn(s, ConsumerMoves, 1);
    assert AfterConsumer(s1) == s2;
    MovesOn(s, ConsumerMoves, 2);
    assert AfterConsumer(s2) == s3;
    MovesOn(s, ConsumerMoves, 3);
  }

  lemma ReadsAll(s: State)
    requires s.consumer.Woken? && s.lock.Free? && s.mode == INIT
    ensures Moves(s, ConsumerMoves, 8)
         == s.(consumer := Between, triggers := s.triggers + [Snapshot(s.deviInfo, |s.published|, INIT, INIT)])
  {
    var d := s.deviInfo;
    var locked := s.(lock := ByConsumer, consumer := Reading(ZERO, 0));
    MovesOn(s, ConsumerMoves, 0);
    assert AfterConsumer(s) == locked;
    IterateAdd(s, Apply, ConsumerMoves, 1, 4);
    ReadsFields(locked);
    var s6 := locked.(consumer := ChoosingAgain(d, INIT));
    MovesOn(s, ConsumerMoves, 5);
    assert AfterConsumer(locked.(consumer := Choosing(d))) == s6;
    MovesOn(s, ConsumerMoves, 6);
    assert AfterConsumer(s6)
        == locked.(consumer := Triggered, triggers := s.triggers + [Snapshot(d, |s.published|, INIT, INIT)]);
    MovesOn(s, ConsumerMoves, 7);
  }

  lemma TriggeredOnce(p: Package)
    requires p.dmId != UINT32_MAX
    ensures var s := Exec(TriggerOnce(p));
      && s.consumer.Between? && s.producer.Receiving? && s.lock.Free? && s.idRecord == p.dmId
      && s.published == [p] && s.missed == 0 && s.bodies == []
      && |s.triggers| == 1 && s.triggers[0].age == 1
  {
    StartsWaiting();
    var start := Repeat(ConsumerMoves, 2);
    PublishAlone(start, p);
    ExecRepeat(start + Publish(p), ConsumerMoves, 8);
    ReadsAll(Exec(start + Publish(p)));
  }

  function LosingSchedule(p: Package, q: Package, r: Package): seq<Action> {
    TriggerOnce(p) + Publish(q) + Publish(r) + [ConsumerMoves]
  }

  lemma LosingScheduleHasNoSpuriousWakeup(p: Package, q: Package, r: Package)
    ensures SpuriousWakeup !in LosingSchedule(p, q, r)
  {}

  /** Between a trigger and its body: two packages are published and never read, and the body sees the second
      of them although its trigger read the package before both. */
  lemma PackagesLostInOneTurn(p: Package, q: Package, r: Package)
    requires p.dmId != UINT32_MAX && q.dmId != p.dmId && r.dmId != q.dmId
    ensures SpuriousWakeup !in LosingSchedule(p, q, r)
    ensures var s := Exec(LosingSchedule(p, q, r));
      && s.published == [p, q, r] && s.missed == 2
      && |s.triggers| == 1 && s.triggers[0].age == 1 && s.bodies == [BodyRun(3, [])]
      && WasRead(s, 0) && !WasRead(s, 1) && !WasRead(s, 2)
  {
    LosingScheduleHasNoSpuriousWakeup(p, q, r);
    TriggeredOnce(p);
    TwoPackagesMissed(TriggerOnce(p), q, r);
    var s := Exec(TriggerOnce(p) + Publish(q) + Publish(r));
    assert s.published == [p, q, r];
    ExecPush(TriggerOnce(p) + Publish(q) + Publish(r), ConsumerMoves);
    assert AfterConsumer(s) == s.(lock := ByConsumer, consumer := Testing, bodies := [BodyRun(3, [])]);
    assert s.triggers[0].age == 0 + 1;
  }

  // ---------- a schedule that reads a package twice ----------

  /** The wait has no condition: a spurious wake-up completes a trigger on whatever was published last, which the
      trigger before may have read already, or on the zero package. */
  lemma SpuriousWakeupRereads(schedule: seq<Action>)
    requires var s := Exec(schedule); s.consumer.Waiting? && s.lock.Free? && s.mode == INIT
    ensures var s, s' := Exec(schedule), Exec(schedule + [SpuriousWakeup] + Repeat(ConsumerMoves, 8));
      && s'.published == s.published && |s'.triggers| == |s.triggers| + 1
      && var t := s'.triggers[|s.triggers|];
         && t.age == |s.published|
         && t.seen == if s.published == [] then ZERO else Negated(s.published[|s.published| - 1])
  {
    EveryScheduleIsSafe(schedule);
    var woken := schedule + [SpuriousWakeup];
    ExecPush(schedule, SpuriousWakeup);
    ExecRepeat(woken, ConsumerMoves, 8);
    ReadsAll(Exec(woken));
  }
}
