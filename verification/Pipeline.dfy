/** The threads feed the loop: what a schedule of the threads says about the rows of the tables. */
module Pipeline {
  import opened Windows
  import opened Poses
  import opened SharedData
  import opened CustomerFilter
  import opened Threads
  import opened MarkerTables
  import opened LoopMachine
  import opened LoopRuns
  import opened CarriedRecord

  /** The k-th turn of the loop uses what the k-th trigger and the k-th body of the schedule have read. The
      poses read from the sockets and the operator's edits are free. */
  ghost predicate Feeds(s: State, ticks: seq<Tick>) {
    && |ticks| <= |s.triggers| && |ticks| <= |s.bodies|
    && forall k | 0 <= k < |ticks| ::
         && ticks[k].package == s.triggers[k].seen
         && ticks[k].triggerMode == s.triggers[k].mode && ticks[k].triggerMode' == s.triggers[k].mode'
         && s.bodies[k].modes == [ticks[k].bodyMode, ticks[k].bodyMode']
  }

  /** The package on which the `n`-th turn is booked, as the number of packages published when it was read; 0
      if no package has been composed. */
  function BookedAge(s: State, ticks: seq<Tick>, n: nat): nat
    requires n <= |ticks| <= |s.triggers|
  {
    var k := LastComposed(ticks[..n]);
    if k < 0 then 0 else s.triggers[k].age
  }

  lemma LastComposedGrows(ticks: seq<Tick>, m: nat, n: nat)
    requires m <= n <= |ticks|
    ensures LastComposed(ticks[..m]) <= LastComposed(ticks[..n])
  {
    var k := LastComposed(ticks[..m]);
    if 0 <= k {
      assert ticks[..n][k] == ticks[..m][k];
    }
  }

  lemma BookedId(cfg: Config, ticks: seq<Tick>)
    ensures var k := LastComposed(ticks);
      After(cfg, ticks).dm.id == if k < 0 then 0 else ticks[k].package.dmId
  {
    CarriedIdAndPose(cfg, ticks);
  }

  lemma BookedOnPublished(s: State, cfg: Config, ticks: seq<Tick>, n: nat)
    requires WholeSnapshots(s) && Feeds(s, ticks) && n <= |ticks|
    ensures var age := BookedAge(s, ticks, n);
      && age <= |s.published|
      && After(cfg, ticks[..n]).dm.id == (if age == 0 then 0 else s.published[age - 1].dmId)
  {
    BookedId(cfg, ticks[..n]);
    var k := LastComposed(ticks[..n]);
    if 0 <= k {
      assert ticks[..n][k] == ticks[k];
      assert s.triggers[k].seen == Current(s.published, s.triggers[k].age);
    }
  }

  lemma BookedAgesGrow(s: State, ticks: seq<Tick>, m: nat, n: nat)
    requires WholeSnapshots(s) && Feeds(s, ticks) && m <= n <= |ticks|
    ensures BookedAge(s, ticks, m) <= BookedAge(s, ticks, n)
  {
    LastComposedGrows(ticks, m, n);
  }

  lemma SnapshotsAreWhole(schedule: seq<Action>)
    ensures WholeSnapshots(Exec(schedule))
  {
    EveryScheduleIsSafe(schedule);
  }

  /** Under every schedule, spurious wake-ups included: a turn is booked on a published package, or on id 0, and
      turns are booked in the order of publication. */
  lemma BookedInOrder(schedule: seq<Action>, cfg: Config, ticks: seq<Tick>, m: nat, n: nat)
    requires Feeds(Exec(schedule), ticks) && m <= n <= |ticks|
    ensures var s := Exec(schedule);
      var age := BookedAge(s, ticks, n);
      && age <= |s.published|
      && After(cfg, ticks[..n]).dm.id == (if age == 0 then 0 else s.published[age - 1].dmId)
      && BookedAge(s, ticks, m) <= age
  {
    SnapshotsAreWhole(schedule);
    var s := Exec(schedule);
    BookedOnPublished(s, cfg, ticks, n);
    BookedAgesGrow(s, ticks, m, n);
  }

  /** End to end, under every schedule: a turn that composes and that a received package has triggered books that
      package's id and the sensed pose minus its three deviations; and that is what each of its branches logs. */
  lemma ComposedFromReceived(schedule: seq<Action>, cfg: Config, ticks: seq<Tick>, k: nat)
    requires Feeds(Exec(schedule), ticks) && k < |ticks| && Exec(schedule).triggers[k].age != 0
    requires ticks[k].triggerMode == 0xff || ticks[k].triggerMode' == 0xfe
    ensures var s, tick, before := Exec(schedule), ticks[k], After(cfg, ticks[..k]);
      var age, dm := s.triggers[k].age, AtTrigger(cfg, ticks[..k], tick).dm;
      age <= |s.published| &&
        var p := s.published[age - 1];
        var sensed := if tick.triggerMode == 0xff then tick.recorded
                      else if tick.localized.Some? then tick.localized.value
                      else before.dm.pose;
        && Packet(p) in s.received
        && dm.id == p.dmId
        && dm.pose.x == sensed.x - p.x && dm.pose.y == sensed.y - p.y && dm.pose.yaw == sensed.yaw - p.a
        && forall e | e in Appended(TickEvents(ViewOf(before), tick)) :: e == Entry(p.dmId, Quantise(dm.pose))
  {
    TriggersReadNegated(schedule, k);
    TriggerComposes(EditState(cfg, After(cfg, ticks[..k]), ticks[k].edits), ticks[k]);
    AppendedByTurn(ViewOf(After(cfg, ticks[..k])), ticks[k]);
  }

  lemma BranchAddsBookedKey(cfg: Config, s: LoopState, kind: Kind, ori: DmInfo)
    ensures var s' := BranchState(cfg, s, kind, ori);
      s'.dm.id == s.dm.id && s'.user.Keys <= s.user.Keys + {s.dm.id}
  {}

  lemma TurnAddsBookedKey(cfg: Config, s: LoopState, tick: Tick, id: DmId)
    ensures var s' := TickState(cfg, s, tick);
      id in s'.user ==> id in s.user || id == s'.dm.id
  {
    EditsKeepCount(cfg, TablesOf(s), tick.edits, id);
    var w := TriggerState(EditState(cfg, s, tick.edits), tick);
    BranchAddsBookedKey(cfg, w, Recording, w.dm);
    if tick.bodyMode == RECORDING {
      BranchAddsBookedKey(cfg, BranchState(cfg, w, Recording, w.dm), Localization, Logged(cfg, w, Recording, w.dm));
    } else {
      BranchAddsBookedKey(cfg, w, Localization, w.dm);
    }
  }

  lemma NewKeyIsBooked(cfg: Config, front: seq<Tick>, tick: Tick, id: DmId)
    requires id in After(cfg, front + [tick]).user
    ensures id in After(cfg, front).user || id == After(cfg, front + [tick]).dm.id
  {
    OneMoreTurn(cfg, front, tick);
    TurnAddsBookedKey(cfg, After(cfg, front), tick, id);
  }

  lemma {:induction false} KeysWereBooked(cfg: Config, ticks: seq<Tick>, id: DmId) returns (n: nat)
    requires id in After(cfg, ticks).user
    ensures 0 < n <= |ticks| && After(cfg, ticks[..n]).dm.id == id
  {
    var front, tick := ticks[..|ticks| - 1], ticks[|ticks| - 1];
    assert ticks == front + [tick];
    NewKeyIsBooked(cfg, front, tick, id);
    if id in After(cfg, front).user {
      n := KeysWereBooked(cfg, front, id);
      assert front[..n] == ticks[..n];
    } else {
      n := |ticks|;
      assert ticks[..n] == ticks;
    }
  }

  /** Every row of the user table, except one for id 0, is for an id that was received and published. */
  lemma RowsArePublished(schedule: seq<Action>, cfg: Config, ticks: seq<Tick>, id: DmId)
    requires Feeds(Exec(schedule), ticks)
    requires id != 0 && id in After(cfg, ticks).user
    ensures exists k :: 0 <= k < |Exec(schedule).published| && Exec(schedule).published[k].dmId == id
  {
    var n := KeysWereBooked(cfg, ticks, id);
    BookedInOrder(schedule, cfg, ticks, n, n);
    var age := BookedAge(Exec(schedule), ticks, n);
    assert Exec(schedule).published[age - 1].dmId == id;
  }

  lemma {:induction false} AtMostTwoRowsATurn(cfg: Config, v: View, ticks: seq<Tick>)
    ensures |Appended(Trace(cfg, v, ticks))| <= 2 * |ticks|
  {
    if ticks == [] {
    } else {
      var front := ticks[..|ticks| - 1];
      AtMostTwoRowsATurn(cfg, v, front);
      var u := LoopView(cfg, v, front);
      AppendedConcat(Trace(cfg, v, front), TickEvents(u, ticks[|ticks| - 1]));
      AppendedByTurn(u, ticks[|ticks| - 1]);
    }
  }

  lemma CounterWithinRows(cfg: Config, events: seq<Event>, id: DmId)
    requires id != 0
    ensures var user := Run(cfg, EMPTY, events).user;
      id in user ==> user[id].cnt <= |Appended(events)|
  {
    CountIsSightings(cfg, events, id);
  }

  /** Without spurious wake-ups the loop logs at most two rows per published package. */
  lemma AtMostTwoRowsAPackage(schedule: seq<Action>, cfg: Config, ticks: seq<Tick>)
    requires SpuriousWakeup !in schedule
    requires Feeds(Exec(schedule), ticks)
    ensures |Appended(Trace(cfg, START, ticks))| <= 2 * |Exec(schedule).published|
  {
    TriggersNeverExceedPackages(schedule);
    AtMostTwoRowsATurn(cfg, START, ticks);
  }

  /** So every counter stays within twice the number of packages. */
  lemma CountersWithinPackages(schedule: seq<Action>, cfg: Config, ticks: seq<Tick>, id: DmId)
    requires SpuriousWakeup !in schedule
    requires Feeds(Exec(schedule), ticks)
    requires id != 0
    ensures var user := LoopView(cfg, START, ticks).tables.user;
      id in user ==> user[id].cnt <= 2 * |Exec(schedule).published|
  {
    AtMostTwoRowsAPackage(schedule, cfg, ticks);
    LoopIsRun(cfg, START, ticks);
    CounterWithinRows(cfg, Trace(cfg, START, ticks), id);
  }
}
