/** What the record carried from turn to turn holds, and what it does to the rows that are logged. */
module CarriedRecord {
  import opened Windows
  import opened Poses
  import opened SharedData
  import opened MarkerTables
  import opened LoopMachine
  import opened LoopRuns

  /** The latest turn that ran a branch, or -1. */
  function LastBranch(ticks: seq<Tick>): (m: int)
    ensures -1 <= m < |ticks|
    ensures 0 <= m ==> RunsBranch(ticks[m])
    ensures forall j | m < j < |ticks| :: !RunsBranch(ticks[j])
  {
    if ticks == [] then -1
    else if RunsBranch(ticks[|ticks| - 1]) then |ticks| - 1
    else LastBranch(ticks[..|ticks| - 1])
  }

  /** The latest turn that composed a package, or -1. */
  function LastComposed(ticks: seq<Tick>): (k: int)
    ensures -1 <= k < |ticks|
    ensures 0 <= k ==> Composes(ticks[k])
    ensures forall j | k < j < |ticks| :: !Composes(ticks[j])
  {
    if ticks == [] then -1
    else if Composes(ticks[|ticks| - 1]) then |ticks| - 1
    else LastComposed(ticks[..|ticks| - 1])
  }

  function After(cfg: Config, ticks: seq<Tick>): LoopState {
    StateAfter(cfg, INITIAL_STATE, ticks)
  }

  /** The state at the end of the latest turn that ran a branch. */
  function AfterLastBranch(cfg: Config, ticks: seq<Tick>): LoopState {
    After(cfg, ticks[..LastBranch(ticks) + 1])
  }

  lemma OneMoreTurn(cfg: Config, front: seq<Tick>, tick: Tick)
    ensures After(cfg, front + [tick]) == TickState(cfg, After(cfg, front), tick)
    ensures AfterLastBranch(cfg, front + [tick])
         == if RunsBranch(tick) then After(cfg, front + [tick]) else AfterLastBranch(cfg, front)
  {
    var ticks := front + [tick];
    assert ticks[..|front|] == front && ticks[..|ticks|] == ticks;
    assert ticks[..LastBranch(front) + 1] == front[..LastBranch(front) + 1];
  }

  // ---------- after a branch the record is the stored row ----------

  /** The carried record is what its row prints; for id 0, what a fresh row would. */
  predicate Stored(s: LoopState) {
    if s.dm.id == 0 then s.dm == DmInfo(0, s.dm.pose, 1, 0, false, false, false)
    else s.dm.id in s.user && s.user[s.dm.id] == ToRow(s.dm)
  }

  lemma BranchStoresRecord(cfg: Config, s: LoopState, kind: Kind, ori: DmInfo)
    ensures var s' := BranchState(cfg, s, kind, ori);
      s'.dm.id == s.dm.id && Stored(s') && (s.dm.id == 0 ==> s'.dm.pose == s.dm.pose)
  {}

  lemma TurnStoresRecord(cfg: Config, s: LoopState, tick: Tick)
    ensures var s', w := TickState(cfg, s, tick), TriggerState(EditState(cfg, s, tick.edits), tick);
      && s'.dm.id == w.dm.id
      && (RunsBranch(tick) ==> Stored(s'))
      && (!RunsBranch(tick) ==> s' == w)
      && (w.dm.id == 0 ==> s'.dm.pose == w.dm.pose)
  {
    var w := TriggerState(EditState(cfg, s, tick.edits), tick);
    BranchStoresRecord(cfg, w, Recording, w.dm);
    if tick.bodyMode == RECORDING {
      BranchStoresRecord(cfg, BranchState(cfg, w, Recording, w.dm), Localization, Logged(cfg, w, Recording, w.dm));
    } else {
      BranchStoresRecord(cfg, w, Localization, w.dm);
    }
  }

  /** Over every run: the metadata that the record carries into a turn is that of the row it wrote in the
      latest turn that ran a branch, whichever marker that was for. */
  lemma {:induction false} CarriedMetadata(cfg: Config, ticks: seq<Tick>)
    ensures var s, u := After(cfg, ticks), AfterLastBranch(cfg, ticks);
      && s.dm == u.dm.(id := s.dm.id, pose := s.dm.pose)
      && (if LastBranch(ticks) < 0 then u.dm == BLANK else Stored(u))
  {
    if ticks == [] {
    } else {
      var front, tick := ticks[..|ticks| - 1], ticks[|ticks| - 1];
      assert ticks == front + [tick];
      OneMoreTurn(cfg, front, tick);
      TurnStoresRecord(cfg, After(cfg, front), tick);
      CarriedMetadata(cfg, front);
    }
  }

  // ---------- which marker, and which pose ----------

  /** No package composed so far has been used by a branch that can store it. */
  predicate NotYetStored(ticks: seq<Tick>, id: DmId) {
    id == 0 || LastBranch(ticks) < LastComposed(ticks)
  }

  /** The claim below, for a state `s` after `ticks` with the state `u` after their latest branch. */
  predicate CarriesTrigger(cfg: Config, ticks: seq<Tick>, s: LoopState, u: LoopState) {
    var k := LastComposed(ticks);
    && s.dm.id == (if k < 0 then 0 else ticks[k].package.dmId)
    && if NotYetStored(ticks, s.dm.id) then
         s.dm.pose == if k < 0 then ORIGIN else Composed(After(cfg, ticks[..k]).dm.pose, ticks[k])
       else
         s.dm == u.dm && s.dm.id in u.user && u.user[s.dm.id].pose == Quantise(s.dm.pose)
  }

  lemma ComposedNow(cfg: Config, front: seq<Tick>, tick: Tick, s: LoopState, s': LoopState)
    requires s == After(cfg, front) && s' == TickState(cfg, s, tick) && Composes(tick)
    ensures CarriesTrigger(cfg, front + [tick], s', s') || !RunsBranch(tick)
    ensures CarriesTrigger(cfg, front + [tick], s', AfterLastBranch(cfg, front)) || RunsBranch(tick)
  {
    var ticks := front + [tick];
    assert ticks[..|front|] == front;
    TurnStoresRecord(cfg, s, tick);
  }

  lemma ComposedEarlier(cfg: Config, front: seq<Tick>, tick: Tick, s: LoopState, s': LoopState)
    requires CarriesTrigger(cfg, front, s, AfterLastBranch(cfg, front))
    requires s' == TickState(cfg, s, tick) && !Composes(tick)
    ensures CarriesTrigger(cfg, front + [tick], s', s') || !RunsBranch(tick)
    ensures CarriesTrigger(cfg, front + [tick], s', AfterLastBranch(cfg, front)) || RunsBranch(tick)
  {
    var ticks := front + [tick];
    assert ticks[..|front|] == front;
    TurnStoresRecord(cfg, s, tick);
    if 0 <= LastComposed(front) {
      assert front[..LastComposed(front)] == ticks[..LastComposed(ticks)];
    }
  }

  /** Over every run: a turn is booked on the latest package composed, or on id 0 before the first. Its record
      carries the pose composed in that turn until a branch has run for it; from then on a pose that prints
      as the one that the latest branch stored. */
  lemma {:induction false} CarriedIdAndPose(cfg: Config, ticks: seq<Tick>)
    ensures CarriesTrigger(cfg, ticks, After(cfg, ticks), AfterLastBranch(cfg, ticks))
  {
    if ticks == [] {
    } else {
      var front, tick := ticks[..|ticks| - 1], ticks[|ticks| - 1];
      assert ticks == front + [tick];
      if Composes(tick) {
        ComposedNow(cfg, front, tick, After(cfg, front), After(cfg, ticks));
      } else {
        CarriedIdAndPose(cfg, front);
        ComposedEarlier(cfg, front, tick, After(cfg, front), After(cfg, ticks));
      }
      OneMoreTurn(cfg, front, tick);
    }
  }

  lemma {:induction false} EditsKeepPose(cfg: Config, t: Tables, edits: seq<Edit>, id: DmId)
    requires id in t.user && forall e | e in edits :: !(e.SetPose? && e.id == id)
    ensures var user := Run(cfg, t, edits).user;
      id in user && user[id].pose == t.user[id].pose
  {
    if edits == [] {
    } else {
      assert forall e | e in edits[..|edits| - 1] :: e in edits;
      assert edits[|edits| - 1] in edits;
      EditsKeepPose(cfg, t, edits[..|edits| - 1], id);
    }
  }

  /** The operator has not moved `id` since the latest branch. */
  ghost predicate Unmoved(ticks: seq<Tick>, id: DmId) {
    forall j, e | LastBranch(ticks) < j < |ticks| && e in ticks[j].edits :: !(e.SetPose? && e.id == id)
  }

  lemma {:induction false} UnmovedRow(cfg: Config, ticks: seq<Tick>, id: DmId)
    requires id in AfterLastBranch(cfg, ticks).user && Unmoved(ticks, id)
    ensures var s, u := After(cfg, ticks), AfterLastBranch(cfg, ticks);
      id in s.user && s.user[id].pose == u.user[id].pose
  {
    if LastBranch(ticks) == |ticks| - 1 {
      assert ticks[..|ticks|] == ticks;
    } else {
      var front, tick := ticks[..|ticks| - 1], ticks[|ticks| - 1];
      assert ticks == front + [tick];
      OneMoreTurn(cfg, front, tick);
      UnmovedRow(cfg, front, id);
      EditsKeepPose(cfg, TablesOf(After(cfg, front)), tick.edits, id);
    }
  }

  /** What a turn that composes nothing logs, in either mode, after any run: one row per branch, with the id of
      the latest package composed. If a branch has run for it, the row repeats the pose that branch stored,
      which is still the stored pose unless the operator moved the marker. If none has, the row is the
      observation composed in that earlier turn, late. */
  lemma UncomposedTurnLogs(cfg: Config, ticks: seq<Tick>, tick: Tick)
    requires !Composes(tick)
    ensures var k, s, u := LastComposed(ticks), After(cfg, ticks), AfterLastBranch(cfg, ticks);
      var id, logged := s.dm.id, Appended(TickEvents(ViewOf(s), tick));
      && id == (if k < 0 then 0 else ticks[k].package.dmId)
      && |logged| == (if tick.bodyMode == RECORDING then 1 else 0) + (if tick.bodyMode' == LOCALIZATION then 1 else 0)
      && if NotYetStored(ticks, id) then
           var p := if k < 0 then ORIGIN else Composed(After(cfg, ticks[..k]).dm.pose, ticks[k]);
           forall e | e in logged :: e == Entry(id, Quantise(p))
         else
           && id in u.user && (forall e | e in logged :: e == Entry(id, u.user[id].pose))
           && (Unmoved(ticks, id) ==> id in s.user && s.user[id].pose == u.user[id].pose)
  {
    CarriedIdAndPose(cfg, ticks);
    var s := After(cfg, ticks);
    AppendedByTurn(ViewOf(s), tick);
    if !NotYetStored(ticks, s.dm.id) && Unmoved(ticks, s.dm.id) {
      UnmovedRow(cfg, ticks, s.dm.id);
    }
  }

  lemma {:induction false} AppendedConcat(a: seq<Event>, b: seq<Event>)
    ensures Appended(a + b) == Appended(a) + Appended(b)
  {
    if b == [] {
      assert a + b == a;
    } else {
      var front, e := b[..|b| - 1], b[|b| - 1];
      AppendedConcat(a, front);
      assert (a + b)[..|a + b| - 1] == a + front;
    }
  }

  lemma {:induction false} EditsAppendNothing(edits: seq<Edit>)
    ensures Appended(edits) == []
  {
    if edits == [] {
    } else {
      EditsAppendNothing(edits[..|edits| - 1]);
    }
  }

  lemma AppendedByTurn(v: View, tick: Tick)
    ensures var v', logged := TriggerView(v, tick), Appended(TickEvents(v, tick));
      && (forall e | e in logged :: e == Entry(v'.id, Quantise(v'.pose)))
      && |logged| == (if tick.bodyMode == RECORDING then 1 else 0) + (if tick.bodyMode' == LOCALIZATION then 1 else 0)
  {
    var v' := TriggerView(v, tick);
    var body := BodyEvents(v'.id, v'.pose, tick.bodyMode, tick.bodyMode');
    AppendedConcat(tick.edits, body);
    EditsAppendNothing(tick.edits);
    if |body| == 2 {
      assert body[..1] == [Branch(v'.id, Recording, v'.pose)];
    }
  }

  // ---------- when the logged metadata is right ----------

  /** Column by column, when the row that a branch logs agrees with the row that it stores. A localization
      branch that inserts a row logs the counter 0. The user table has no `haveSloppy`: there the right value
      is whether this trigger was sloppy, which it cannot be for a row that is only inserted. */
  lemma LoggedMetadataIff(cfg: Config, s: LoopState, kind: Kind, ori: DmInfo)
    requires Ready(s, ori)
    requires s.dm.id != 0
    ensures var logged, id := Logged(cfg, s, kind, ori), s.dm.id;
      var user := BranchState(cfg, s, kind, ori).user;
      && id in user
      && if id in s.user then
           var r, row := s.user[id], user[id];
           && (logged.cnt == row.cnt <==> ori.cnt == r.cnt + (if kind.Recording? then 1 else 0))
           && (logged.sloppyCnt == row.sloppyCnt <==> ori.sloppyCnt == r.sloppyCnt)
           && (logged.enable == row.enable <==> ori.enable == r.enable)
           && (logged.recommend == row.recommend <==>
                 ori.recommend == r.recommend || Fires(cfg, r, kind) || (kind.Recording? && r.enable))
           && (logged.haveSloppy == Slipped(cfg, r, ori.pose) <==> (ori.haveSloppy ==> Slipped(cfg, r, ori.pose)))
         else
           && user[id].cnt == 1 && logged.cnt == (if kind.Recording? then 1 else 0)
           && logged.sloppyCnt == user[id].sloppyCnt && !logged.haveSloppy
           && logged.enable == user[id].enable && logged.recommend == user[id].recommend
  {}

  /** The counter of the marker that the latest branch was for. */
  function CarriedCount(cfg: Config, ticks: seq<Tick>): nat {
    var u := AfterLastBranch(cfg, ticks);
    if LastBranch(ticks) < 0 then 0
    else if u.dm.id == 0 || u.dm.id !in u.user then 1
    else u.user[u.dm.id].cnt
  }

  /** The state in which the branches of a turn start, and the first of them. */
  function AtTrigger(cfg: Config, ticks: seq<Tick>, tick: Tick): LoopState {
    TriggerState(EditState(cfg, After(cfg, ticks), tick.edits), tick)
  }

  function FirstKind(tick: Tick): Kind {
    if tick.bodyMode == RECORDING then Recording else Localization
  }

  /** After any run: the first branch of a turn, for a marker with a row, logs the counter that it stores
      exactly if the counter of the marker that the latest branch was for stands one above the counter of this
      one in recording mode, and level with it in localization mode. */
  lemma LoggedCounterIsRightIff(cfg: Config, ticks: seq<Tick>, tick: Tick)
    requires RunsBranch(tick)
    requires Retrievable(TablesOf(AtTrigger(cfg, ticks, tick)), AtTrigger(cfg, ticks, tick).dm.id)
    ensures var w, kind := AtTrigger(cfg, ticks, tick), FirstKind(tick);
      var w' := BranchState(cfg, w, kind, w.dm);
      && w.dm.id in w'.user
      && (Logged(cfg, w, kind, w.dm).cnt == w'.user[w.dm.id].cnt
          <==> CarriedCount(cfg, ticks) == w.user[w.dm.id].cnt + (if kind.Recording? then 1 else 0))
  {
    var w := AtTrigger(cfg, ticks, tick);
    LoggedMetadataIff(cfg, w, FirstKind(tick), w.dm);
    CarriedMetadata(cfg, ticks);
  }

  lemma {:induction false} EditsKeepCount(cfg: Config, t: Tables, edits: seq<Edit>, id: DmId)
    ensures var user := Run(cfg, t, edits).user;
      (id in user <==> id in t.user) && (id in user ==> user[id].cnt == t.user[id].cnt)
  {
    if edits == [] {
    } else {
      EditsKeepCount(cfg, t, edits[..|edits| - 1], id);
    }
  }

  /** So when a marker is seen in two turns running, its second row carries the right counter exactly in
      localization mode; in recording mode the counter is one too low, always. */
  lemma SeenTwiceRunning(cfg: Config, ticks: seq<Tick>, tick: Tick)
    requires RunsBranch(tick) && ticks != [] && RunsBranch(ticks[|ticks| - 1])
    requires AtTrigger(cfg, ticks, tick).dm.id == After(cfg, ticks).dm.id != 0
    ensures var w, kind := AtTrigger(cfg, ticks, tick), FirstKind(tick);
      var w', logged := BranchState(cfg, w, kind, w.dm), Logged(cfg, w, kind, w.dm);
      && w.dm.id in w'.user
      && w'.user[w.dm.id].cnt == logged.cnt + if kind.Recording? then 1 else 0
  {
    var s := After(cfg, ticks);
    assert ticks[..|ticks|] == ticks;
    CarriedMetadata(cfg, ticks);
    EditsKeepCount(cfg, TablesOf(s), tick.edits, s.dm.id);
    LoggedCounterIsRightIff(cfg, ticks, tick);
  }

  /** A turn that only records: the row it logs, the row it stores, and the record it leaves. */
  lemma RecordingTurn(cfg: Config, s: LoopState, tick: Tick)
    requires 1 <= cfg.maxRowSelfDb
    requires tick.edits == [] && Composes(tick) && tick.package.dmId != 0
    requires tick.bodyMode == RECORDING && tick.bodyMode' != LOCALIZATION
    ensures var s', id := TickState(cfg, s, tick), tick.package.dmId;
      && s'.rows != [] && s'.rows[|s'.rows| - 1].id == id
      && s'.rows[|s'.rows| - 1].cnt == (if id in s.user then s.dm.cnt else 1)
      && id in s'.user && s'.dm.cnt == s'.user[id].cnt == (if id in s.user then s.user[id].cnt + 1 else 1)
  {
    assert Run(cfg, TablesOf(s), tick.edits) == TablesOf(s);
    var w := TriggerState(s, tick);
    var logged := Printed(Logged(cfg, w, Recording, w.dm));
    assert TickState(cfg, s, tick).rows == Slide(s.rows, logged, cfg.maxRowSelfDb);
    var rows := Slide(s.rows, logged, cfg.maxRowSelfDb);
    assert rows != [] && rows[|rows| - 1] == logged;
  }

  /** From empty tables: the second of two equal recording turns logs 1, while the row says 2. */
  lemma SecondRecordingLogsOne(cfg: Config, tick: Tick)
    requires 1 <= cfg.maxRowSelfDb
    requires tick.edits == [] && Composes(tick) && tick.package.dmId != 0
    requires tick.bodyMode == RECORDING && tick.bodyMode' != LOCALIZATION
    ensures var s, id := After(cfg, [tick, tick]), tick.package.dmId;
      && s.rows != [] && s.rows[|s.rows| - 1].id == id && s.rows[|s.rows| - 1].cnt == 1
      && id in s.user && s.user[id].cnt == 2
  {
    OneMoreTurn(cfg, [], tick);
    OneMoreTurn(cfg, [tick], tick);
    assert [] + [tick] == [tick] && [tick] + [tick] == [tick, tick];
    var s0, s1 := After(cfg, []), After(cfg, [tick]);
    RecordingTurn(cfg, s0, tick);
    RecordingTurn(cfg, s1, tick);
  }

  // ---------- when the logged sloppy flag is right ----------

  /** A branch that starts in `s` finds its marker enabled and its trigger at `p` too far away. */
  predicate FindsSloppy(cfg: Config, s: LoopState, p: Pose) {
    Retrievable(TablesOf(s), s.dm.id) && Slipped(cfg, s.user[s.dm.id], p)
  }

  /** Of a body that starts in `w`: the state in which its last branch starts. */
  function BeforeLastBranch(cfg: Config, w: LoopState, tick: Tick): LoopState {
    if tick.bodyMode == RECORDING && tick.bodyMode' == LOCALIZATION then BranchState(cfg, w, Recording, w.dm) else w
  }

  /** The latest branch of the run was for an enabled marker that had been seen out of place. */
  predicate LastBranchSloppy(cfg: Config, ticks: seq<Tick>) {
    var m := LastBranch(ticks);
    0 <= m &&
      var w := AtTrigger(cfg, ticks[..m], ticks[m]);
      FindsSloppy(cfg, BeforeLastBranch(cfg, w, ticks[m]), w.dm.pose)
  }

  lemma BranchSetsFlag(cfg: Config, s: LoopState, kind: Kind, ori: DmInfo)
    ensures BranchState(cfg, s, kind, ori).dm.haveSloppy == FindsSloppy(cfg, s, ori.pose)
    ensures Logged(cfg, s, kind, ori).pose == ori.pose
  {}

  lemma TurnSetsFlag(cfg: Config, s: LoopState, tick: Tick)
    ensures var s', w := TickState(cfg, s, tick), TriggerState(EditState(cfg, s, tick.edits), tick);
      s'.dm.haveSloppy
      == if RunsBranch(tick) then FindsSloppy(cfg, BeforeLastBranch(cfg, w, tick), w.dm.pose) else s.dm.haveSloppy
  {
    var w := TriggerState(EditState(cfg, s, tick.edits), tick);
    BranchSetsFlag(cfg, w, Recording, w.dm);
    if tick.bodyMode == RECORDING {
      BranchSetsFlag(cfg, BranchState(cfg, w, Recording, w.dm), Localization, Logged(cfg, w, Recording, w.dm));
    } else {
      BranchSetsFlag(cfg, w, Localization, w.dm);
    }
  }

  /** Over every run: the flag carried into a turn tells how the latest branch went, whichever marker that was
      for. */
  lemma {:induction false} CarriedFlag(cfg: Config, ticks: seq<Tick>)
    ensures After(cfg, ticks).dm.haveSloppy == LastBranchSloppy(cfg, ticks)
  {
    if ticks == [] {
    } else {
      var front, tick := ticks[..|ticks| - 1], ticks[|ticks| - 1];
      assert ticks == front + [tick];
      OneMoreTurn(cfg, front, tick);
      TurnSetsFlag(cfg, After(cfg, front), tick);
      CarriedFlag(cfg, front);
      var m := LastBranch(front);
      if !RunsBranch(tick) && 0 <= m {
        assert front[..m] == ticks[..m];
      }
    }
  }

  /** After any run: the first branch of a turn, for a marker with a row, logs whether this trigger is sloppy,
      except for a trigger that is not sloppy after a latest branch that was. */
  lemma LoggedFlagIsRightIff(cfg: Config, ticks: seq<Tick>, tick: Tick)
    requires RunsBranch(tick)
    requires Retrievable(TablesOf(AtTrigger(cfg, ticks, tick)), AtTrigger(cfg, ticks, tick).dm.id)
    ensures var w := AtTrigger(cfg, ticks, tick);
      var logged, sloppy := Logged(cfg, w, FirstKind(tick), w.dm), FindsSloppy(cfg, w, w.dm.pose);
      logged.haveSloppy == sloppy <==> (LastBranchSloppy(cfg, ticks) ==> sloppy)
  {
    var w := AtTrigger(cfg, ticks, tick);
    LoggedMetadataIff(cfg, w, FirstKind(tick), w.dm);
    CarriedFlag(cfg, ticks);
  }

  /** Marker 1 is seen at `p` in recording mode, after these edits. */
  function Sighting(p: Pose, edits: seq<Edit>): Tick {
    Tick(edits, ZERO.(dmId := 1), p, None, 0, RECORDING, RECORDING, RECORDING, RECORDING, 0, 0)
  }

  /** Marker 1 is enabled and stands at the origin, with one sloppy trigger counted. */
  predicate EnabledAtOrigin(s: LoopState, sloppyCnt: nat) {
    1 in s.user && s.user[1].enable && s.user[1].pose == ORIGIN && s.user[1].sloppyCnt == sloppyCnt
  }

  predicate LogsSloppy(s: LoopState) {
    s.rows != [] && s.rows[|s.rows| - 1].haveSloppy
  }

  lemma SightingTurn(cfg: Config, s: LoopState, p: Pose, edits: seq<Edit>, sloppyCnt: nat)
    requires 1 <= cfg.maxRowSelfDb && EnabledAtOrigin(EditState(cfg, s, edits), sloppyCnt)
    ensures var s', sloppy := TickState(cfg, s, Sighting(p, edits)), Sloppy(cfg.locErrThreshold, ORIGIN, p);
      && EnabledAtOrigin(s', sloppyCnt + if sloppy then 1 else 0)
      && s'.dm.haveSloppy == sloppy && LogsSloppy(s') == (s.dm.haveSloppy || sloppy)
  {
    var w := TriggerState(EditState(cfg, s, edits), Sighting(p, edits));
    assert w.dm.pose == p;
    var logged := Printed(Logged(cfg, w, Recording, w.dm));
    var rows := Slide(s.rows, logged, cfg.maxRowSelfDb);
    assert rows != [] && rows[|rows| - 1] == logged;
    RoundProperties(0.0);
  }

  lemma AnnouncingTurn(cfg: Config, s: LoopState, p: Pose)
    requires 1 !in s.user
    ensures var s' := TickState(cfg, s, Sighting(p, []));
      1 in s'.user && s'.user[1] == FirstRow(p)
  {}

  function Away(cfg: Config): Pose {
    Pose(cfg.locErrThreshold + 1.0, 0.0, 0.0)
  }

  lemma AwayIsSloppy(t: real)
    requires 0.0 <= t
    ensures Sloppy(t, ORIGIN, Pose(t + 1.0, 0.0, 0.0)) && !Sloppy(t, ORIGIN, ORIGIN)
  {
    SquareOrder(t, t + 1.0);
  }

  lemma EnableEdit(cfg: Config, s: LoopState)
    requires 1 in s.user
    ensures EditState(cfg, s, [SetEnable(1, true)]) == s.(user := s.user[1 := s.user[1].(enable := true)])
  {
    RunPush(cfg, TablesOf(s), [], SetEnable(1, true));
    assert [] + [SetEnable(1, true)] == [SetEnable(1, true)];
  }

  lemma AnnouncedAndEnabled(cfg: Config, s: LoopState)
    requires 1 !in s.user
    ensures EnabledAtOrigin(EditState(cfg, TickState(cfg, s, Sighting(ORIGIN, [])), [SetEnable(1, true)]), 0)
  {
    AnnouncingTurn(cfg, s, ORIGIN);
    EnableEdit(cfg, TickState(cfg, s, Sighting(ORIGIN, [])));
    RoundProperties(0.0);
  }

  lemma AwayAndBack(cfg: Config, s: LoopState, edits: seq<Edit>)
    requires 1 <= cfg.maxRowSelfDb && 0.0 <= cfg.locErrThreshold && EnabledAtOrigin(EditState(cfg, s, edits), 0)
    ensures var s' := TickState(cfg, TickState(cfg, s, Sighting(Away(cfg), edits)), Sighting(ORIGIN, []));
      EnabledAtOrigin(s', 1) && LogsSloppy(s') && !s'.dm.haveSloppy
  {
    AwayIsSloppy(cfg.locErrThreshold);
    SightingTurn(cfg, s, Away(cfg), edits, 0);
    var s1 := TickState(cfg, s, Sighting(Away(cfg), edits));
    assert EditState(cfg, s1, []) == s1;
    SightingTurn(cfg, s1, ORIGIN, [], 1);
  }

  lemma ThreeTurns(cfg: Config, a: Tick, b: Tick, c: Tick)
    ensures After(cfg, [a, b, c]) == TickState(cfg, TickState(cfg, TickState(cfg, INITIAL_STATE, a), b), c)
  {
    OneMoreTurn(cfg, [], a);
    OneMoreTurn(cfg, [a], b);
    OneMoreTurn(cfg, [a, b], c);
    assert [] + [a] == [a] && [a] + [b] == [a, b] && [a, b] + [c] == [a, b, c];
  }

  /** With any configuration: marker 1 is announced at the origin, enabled, seen too far away, and seen at the
      origin again. The last row in the log calls that sloppy, while the row counts one sloppy trigger. */
  lemma FlagStaysUp(cfg: Config)
    requires 1 <= cfg.maxRowSelfDb && 0.0 <= cfg.locErrThreshold
    ensures var announced, away := Sighting(ORIGIN, []), Sighting(Away(cfg), [SetEnable(1, true)]);
      var s := After(cfg, [announced, away, announced]);
      EnabledAtOrigin(s, 1) && LogsSloppy(s) && !s.dm.haveSloppy
  {
    var announced, edits: seq<Edit> := Sighting(ORIGIN, []), [SetEnable(1, true)];
    AnnouncedAndEnabled(cfg, INITIAL_STATE);
    AwayAndBack(cfg, TickState(cfg, INITIAL_STATE, announced), edits);
    ThreeTurns(cfg, announced, Sighting(Away(cfg), edits), announced);
  }
}
