/** The main loop over the two databases, in place, and its refinement of the loop machine.

    SQL statements succeed. What the loop cannot control arrives as parameters: the operator's edits,
    each unsynchronised read of the mode, the package and the sensed poses, the order in which SQLite
    delivers unordered rows, and the uninitialised id in `retrieveUsrDb`. */
module MainLoop {
  import opened Windows
  import opened Poses
  import opened SharedData
  import opened MarkerTables
  import opened SelfLog
  import opened LoopMachine

  class DM {
    var dmInfo: DmInfo

    constructor (info: DmInfo)
      ensures dmInfo == info
    {
      dmInfo := info;
    }

    method UpdateCnt()
      modifies this
      ensures dmInfo == old(dmInfo).(cnt := old(dmInfo.cnt) + 1)
    {
      dmInfo := dmInfo.(cnt := dmInfo.cnt + 1);
    }

    method UpdateSloppyCnt()
      modifies this
      ensures dmInfo == old(dmInfo).(sloppyCnt := old(dmInfo.sloppyCnt) + 1, haveSloppy := true)
    {
      dmInfo := dmInfo.(sloppyCnt := dmInfo.sloppyCnt + 1);
      dmInfo := dmInfo.(haveSloppy := true);
    }

    method SetRecommend()
      modifies this
      ensures dmInfo == old(dmInfo).(recommend := true)
    {
      dmInfo := dmInfo.(recommend := true);
    }

    method SetHaveSloppy()
      modifies this
      ensures dmInfo == old(dmInfo).(haveSloppy := true)
    {
      dmInfo := dmInfo.(haveSloppy := true);
    }

    method ClearRemainingInfo()
      modifies this
      ensures dmInfo == DmInfo(old(dmInfo.id), old(dmInfo.pose), 0, 0, false, false, false)
    {
      dmInfo := dmInfo.(cnt := 0);
      dmInfo := dmInfo.(enable := false);
      dmInfo := dmInfo.(haveSloppy := false);
      dmInfo := dmInfo.(recommend := false);
      dmInfo := dmInfo.(sloppyCnt := 0);
    }
  }

  // ---------- the user database ----------

  class UserDbController {
    var rows: map<DmId, UserRow>
    var whetherCb: bool  // the global flag that the callback raises

    constructor ()
      ensures rows == map[] && !whetherCb
    {
      rows := map[];
      whetherCb := false;
    }

    /** `garbage` is the id of the uninitialised local record. It decides nothing. */
    method RetrieveUsrDb(dm: DM, garbage: DmId) returns (found: bool)
      requires !whetherCb
      modifies this`whetherCb, dm
      ensures !whetherCb
      ensures found <==> old(dm.dmInfo.id) != 0 && old(dm.dmInfo.id) in rows
      ensures dm.dmInfo == if found then FromRow(old(dm.dmInfo.id), rows[old(dm.dmInfo.id)]) else old(dm.dmInfo)
    {
      var id := dm.dmInfo.id;
      var local := DmInfo(garbage, ORIGIN, 0, 0, false, false, false);
      if id in rows {
        whetherCb := true;
        local := FromRow(id, rows[id]);
      }
      if local.id == 0 {
        whetherCb := false;
        return false;
      }
      if !whetherCb {
        return false;
      }
      dm.dmInfo := local;
      whetherCb := false;
      return true;
    }

    /** The insert fails on an id that has a row already: `DM_id` is the primary key. */
    method AddContent(dm: DM)
      modifies this`rows
      ensures rows == if dm.dmInfo.id in old(rows) then old(rows) else old(rows)[dm.dmInfo.id := ToRow(dm.dmInfo)]
    {
      if dm.dmInfo.id !in rows {
        rows := rows[dm.dmInfo.id := ToRow(dm.dmInfo)];
      }
    }

    method UpdateDataBase(dm: DM)
      modifies this`rows
      ensures rows == if dm.dmInfo.id in old(rows) then old(rows)[dm.dmInfo.id := ToRow(dm.dmInfo)] else old(rows)
    {
      if dm.dmInfo.id in rows {
        rows := rows[dm.dmInfo.id := ToRow(dm.dmInfo)];
      }
    }
  }

  // ---------- the self database ----------

  /** `SELECT ... LIMIT limit` without `ORDER BY`: any rows, in any order, but as many as there are. */
  ghost predicate IsLimitScan(matches: seq<Pose>, limit: nat, scan: seq<Pose>) {
    |scan| == Min(limit, |matches|) && multiset(scan) <= multiset(matches)
  }

  lemma ScanOfFewRows(matches: seq<Pose>, limit: nat, scan: seq<Pose>)
    requires IsLimitScan(matches, limit, scan) && |matches| <= limit
    ensures Sum(scan) == Sum(matches)
  {
    SizeOfMultiset(scan);
    SizeOfMultiset(matches);
    assert |multiset(matches) - multiset(scan)| == 0;
    assert multiset(matches) == multiset(scan) + (multiset(matches) - multiset(scan));
    SumOfPermutation(scan, matches);
  }

  class SelfDbController {
    var table: seq<Stored<DmInfo>>
    const maxRowSelfDb: nat

    constructor (maxRowSelfDb: nat)
      ensures this.maxRowSelfDb == maxRowSelfDb && table == []
    {
      this.maxRowSelfDb := maxRowSelfDb;
      table := [];
    }

    ghost function Log(): seq<Entry>
      reads this
    {
      Entries(Rows(table))
    }

    method AddContent(dm: DM)
      requires Ascending(table)
      modifies this
      ensures Ascending(table)
      ensures Rows(table) == Slide(old(Rows(table)), Printed(dm.dmInfo), maxRowSelfDb)
      ensures Log() == WithEntry(old(Log()), dm.dmInfo.id, dm.dmInfo.pose, maxRowSelfDb)
    {
      var row := Printed(dm.dmInfo);
      InsertSlides(table, row, maxRowSelfDb);
      EntriesSlide(Rows(table), row, maxRowSelfDb);
      table := Insert(table, row, maxRowSelfDb);
    }

    /** The pose columns of the rows that SQLite delivers. Callers may rely on the contract only. */
    method SelectPoses(id: DmId, limit: nat) returns (scan: seq<Pose>)
      ensures IsLimitScan(PosesOf(Log(), id), limit, scan)
    {
      var matches := PosesOf(Entries(Rows(table)), id);
      scan := matches[..Min(limit, |matches|)];
      assert matches == scan + matches[|scan|..];
    }

    /** The callback adds up the delivered rows; the sum is divided by the threshold, not by the number
        of rows. When no more rows match than the threshold, their order and choice do not matter. */
    method FitPose(threshold: nat, dm: DM) returns (ghost scan: seq<Pose>)
      requires 0 < threshold
      modifies dm
      ensures IsLimitScan(PosesOf(Log(), dm.dmInfo.id), threshold, scan)
      ensures dm.dmInfo == old(dm.dmInfo).(pose := Over(Sum(scan), threshold))
      ensures var matches := PosesOf(Log(), dm.dmInfo.id);
        |matches| <= threshold ==> dm.dmInfo.pose == Over(Sum(matches), threshold)
    {
      var local := ORIGIN;
      var rows := SelectPoses(dm.dmInfo.id, threshold);
      for i := 0 to |rows|
        invariant local == Sum(rows[..i])
      {
        assert rows[..i + 1][..i] == rows[..i];
        local := Plus(local, rows[i]);
      }
      assert rows[..|rows|] == rows;
      scan := rows;
      if |PosesOf(Log(), dm.dmInfo.id)| <= threshold {
        ScanOfFewRows(PosesOf(Log(), dm.dmInfo.id), threshold, scan);
      }
      dm.dmInfo := dm.dmInfo.(pose := Over(local, threshold));
    }
  }

  // ---------- the loop ----------

  class AddOn {
    const config: Config
    const userDb: UserDbController
    const selfDb: SelfDbController
    const dm: DM
    var diagnostics: seq<nat>  // the words handed to sendDiagMessage

    var locStat: int         // for the seed request only
    var rokitPose: DmInfo    // for the seed request only

    constructor (config: Config)
      ensures this.config == config
      ensures Valid() && CurrentState() == INITIAL_STATE
      ensures fresh(userDb) && fresh(selfDb) && fresh(dm)
    {
      this.config := config;
      userDb := new UserDbController();
      selfDb := new SelfDbController(config.maxRowSelfDb);
      dm := new DM(BLANK);
      diagnostics := [];
      locStat := 2;
      rokitPose := BLANK;
    }

    ghost function CurrentState(): LoopState
      reads this, userDb, selfDb, dm
    {
      LoopState(userDb.rows, Rows(selfDb.table), diagnostics, dm.dmInfo)
    }

    ghost predicate Valid()
      reads this, userDb, selfDb, dm
    {
      && selfDb.maxRowSelfDb == config.maxRowSelfDb
      && Ascending(selfDb.table)
      && !userDb.whetherCb
      && Bounded(TablesOf(CurrentState()))
    }

    method SendDiagMessage(word: nat)
      modifies this`diagnostics
      ensures diagnostics == old(diagnostics) + [word]
    {
      diagnostics := diagnostics + [word];
    }

    /** The branch for a marker without a retrievable row, the same in both modes but for one counter. */
    method Announce(ori: DM, kind: Kind)
      requires Ascending(selfDb.table) && selfDb.maxRowSelfDb == config.maxRowSelfDb
      requires ori != dm && Ready(CurrentState(), ori.dmInfo)
      requires !Retrievable(TablesOf(CurrentState()), dm.dmInfo.id)
      modifies userDb`rows, selfDb, dm, ori, this`diagnostics
      ensures Ascending(selfDb.table)
      ensures ori.dmInfo == FirstLoggedInfo(old(ori.dmInfo), kind)
      ensures CurrentState() == BranchState(config, old(CurrentState()), kind, old(ori.dmInfo))
    {
      dm.ClearRemainingInfo();
      ori.ClearRemainingInfo();
      dm.UpdateCnt();
      if kind.Recording? {
        ori.UpdateCnt();
      }
      userDb.AddContent(dm);
      SendDiagMessage(NEW_MARKER);
      selfDb.AddContent(ori);
    }

    /** `computeSloppy` against the threshold, and the report of a sloppy marker. */
    method ReportSloppy(ori: DM)
      requires ori != dm
      modifies dm, ori, this`diagnostics
      ensures var sloppy := Sloppy(config.locErrThreshold, old(dm.dmInfo.pose), old(ori.dmInfo.pose));
        && diagnostics == old(diagnostics) + (if sloppy then [SLOPPY_MARKER] else [])
        && dm.dmInfo == WithSloppy(old(dm.dmInfo), sloppy)
        && ori.dmInfo == WithSloppy(old(ori.dmInfo), sloppy)
    {
      if Sloppy(config.locErrThreshold, dm.dmInfo.pose, ori.dmInfo.pose) {
        dm.UpdateSloppyCnt();
        ori.UpdateSloppyCnt();
        ori.SetHaveSloppy();
        SendDiagMessage(SLOPPY_MARKER);
      }
    }

    /** A marker that is not enabled: log the trigger, and fit at the threshold. The callers test `enable`
        once for both cases. */
    method LogAndFit(ori: DM, threshold: nat)
      requires ori != dm && ori.dmInfo.id == dm.dmInfo.id && 2 <= dm.dmInfo.cnt
      requires Ascending(selfDb.table) && selfDb.maxRowSelfDb == config.maxRowSelfDb
      requires |PosesOf(WithEntry(selfDb.Log(), ori.dmInfo.id, ori.dmInfo.pose, config.maxRowSelfDb), ori.dmInfo.id)|
               <= dm.dmInfo.cnt
      modifies selfDb, dm, ori
      ensures Ascending(selfDb.table)
      ensures ori.dmInfo == WithRecommend(old(ori.dmInfo), old(dm.dmInfo.cnt) == threshold)
      ensures Rows(selfDb.table) == Slide(old(Rows(selfDb.table)), Printed(ori.dmInfo), config.maxRowSelfDb)
      ensures selfDb.Log() == WithEntry(old(selfDb.Log()), ori.dmInfo.id, ori.dmInfo.pose, config.maxRowSelfDb)
      ensures dm.dmInfo == if old(dm.dmInfo.cnt) != threshold then old(dm.dmInfo) else
        old(dm.dmInfo).(recommend := true, pose := Over(Sum(PosesOf(selfDb.Log(), ori.dmInfo.id)), threshold))
    {
      if dm.dmInfo.cnt == threshold {
        dm.SetRecommend();
        ori.SetRecommend();
        selfDb.AddContent(ori);
        var _ := selfDb.FitPose(threshold, dm);
      } else {
        selfDb.AddContent(ori);
      }
    }

    /** The RECORDING branch for a marker whose row has been retrieved. */
    method RecordingKnown(ori: DM, ghost row: UserRow)
      requires Ascending(selfDb.table) && selfDb.maxRowSelfDb == config.maxRowSelfDb
      requires ori != dm && ori.dmInfo.id == dm.dmInfo.id
      requires dm.dmInfo == FromRow(dm.dmInfo.id, row)
      requires 1 <= row.cnt
      requires |PosesOf(WithEntry(selfDb.Log(), ori.dmInfo.id, ori.dmInfo.pose, config.maxRowSelfDb), ori.dmInfo.id)|
               <= row.cnt + 1
      modifies selfDb, dm, ori, this`diagnostics
      ensures Ascending(selfDb.table)
      ensures ori.dmInfo == LoggedInfo(config, old(ori.dmInfo), row, Recording)
      ensures Rows(selfDb.table) == Slide(old(Rows(selfDb.table)), Printed(ori.dmInfo), config.maxRowSelfDb)
      ensures selfDb.Log() == WithEntry(old(selfDb.Log()), ori.dmInfo.id, ori.dmInfo.pose, config.maxRowSelfDb)
      ensures dm.dmInfo == HeldInfo(config, ori.dmInfo.id, row, Recording, ori.dmInfo.pose,
                                    PosesOf(selfDb.Log(), ori.dmInfo.id))
      ensures diagnostics == old(diagnostics) + if Slipped(config, row, ori.dmInfo.pose) then [SLOPPY_MARKER] else []
    {
      dm.UpdateCnt();
      var info := dm.dmInfo;
      if !info.enable {
        LogAndFit(ori, config.mappRepeatNum);
        DisabledRecords(config, old(ori.dmInfo), row, Recording, PosesOf(selfDb.Log(), ori.dmInfo.id));
      }
      if info.enable {
        dm.SetRecommend();
        ReportSloppy(ori);
        ori.SetRecommend();
        selfDb.AddContent(ori);
        EnabledRecords(config, old(ori.dmInfo), row, Recording, PosesOf(selfDb.Log(), ori.dmInfo.id));
      }
    }

    /** The LOCALIZATION branch for a marker whose row has been retrieved. */
    method LocalizationKnown(ori: DM, ghost row: UserRow)
      requires Ascending(selfDb.table) && selfDb.maxRowSelfDb == config.maxRowSelfDb
      requires ori != dm && ori.dmInfo.id == dm.dmInfo.id
      requires dm.dmInfo == FromRow(dm.dmInfo.id, row)
      requires 1 <= row.cnt
      requires |PosesOf(WithEntry(selfDb.Log(), ori.dmInfo.id, ori.dmInfo.pose, config.maxRowSelfDb), ori.dmInfo.id)|
               <= row.cnt + 1
      modifies selfDb, dm, ori, this`diagnostics
      ensures Ascending(selfDb.table)
      ensures ori.dmInfo == LoggedInfo(config, old(ori.dmInfo), row, Localization)
      ensures Rows(selfDb.table) == Slide(old(Rows(selfDb.table)), Printed(ori.dmInfo), config.maxRowSelfDb)
      ensures selfDb.Log() == WithEntry(old(selfDb.Log()), ori.dmInfo.id, ori.dmInfo.pose, config.maxRowSelfDb)
      ensures dm.dmInfo == HeldInfo(config, ori.dmInfo.id, row, Localization, ori.dmInfo.pose,
                                    PosesOf(selfDb.Log(), ori.dmInfo.id))
      ensures diagnostics == old(diagnostics) + if Slipped(config, row, ori.dmInfo.pose) then [SLOPPY_MARKER] else []
    {
      dm.UpdateCnt();
      ori.UpdateCnt();
      var info := dm.dmInfo;
      if info.enable {
        ReportSloppy(ori);
        selfDb.AddContent(ori);
        EnabledRecords(config, old(ori.dmInfo), row, Localization, PosesOf(selfDb.Log(), ori.dmInfo.id));
      }
      if !info.enable {
        LogAndFit(ori, config.locRepeatNum);
        DisabledRecords(config, old(ori.dmInfo), row, Localization, PosesOf(selfDb.Log(), ori.dmInfo.id));
      }
    }

    method RecordingBranch(ori: DM, garbage: DmId)
      requires Valid() && ori != dm && Ready(CurrentState(), ori.dmInfo)
      modifies userDb, selfDb, dm, ori, this`diagnostics
      ensures Valid() && Ready(CurrentState(), ori.dmInfo)
      ensures ori.dmInfo == Logged(config, old(CurrentState()), Recording, old(ori.dmInfo))
      ensures CurrentState() == BranchState(config, old(CurrentState()), Recording, old(ori.dmInfo))
    {
      ghost var s, id := CurrentState(), dm.dmInfo.id;
      BranchSees(config, s, Recording, ori.dmInfo);
      StepKeepsBounded(config, TablesOf(s), Branch(id, Recording, ori.dmInfo.pose));
      var found := userDb.RetrieveUsrDb(dm, garbage);
      if found {
        CallerMayFit(config, TablesOf(s), id, ori.dmInfo.pose);
        RecordingKnown(ori, s.user[id]);
        userDb.UpdateDataBase(dm);
      } else {
        assert CurrentState() == s;
        Announce(ori, Recording);
      }
    }

    method LocalizationBranch(ori: DM, garbage: DmId)
      requires Valid() && ori != dm && Ready(CurrentState(), ori.dmInfo)
      modifies userDb, selfDb, dm, ori, this`diagnostics
      ensures Valid() && Ready(CurrentState(), ori.dmInfo)
      ensures ori.dmInfo == Logged(config, old(CurrentState()), Localization, old(ori.dmInfo))
      ensures CurrentState() == BranchState(config, old(CurrentState()), Localization, old(ori.dmInfo))
    {
      ghost var s, id := CurrentState(), dm.dmInfo.id;
      BranchSees(config, s, Localization, ori.dmInfo);
      StepKeepsBounded(config, TablesOf(s), Branch(id, Localization, ori.dmInfo.pose));
      var found := userDb.RetrieveUsrDb(dm, garbage);
      if found {
        CallerMayFit(config, TablesOf(s), id, ori.dmInfo.pose);
        LocalizationKnown(ori, s.user[id]);
        userDb.UpdateDataBase(dm);
      } else {
        assert CurrentState() == s;
        Announce(ori, Localization);
      }
    }

    /** The body of the loop, under the lock. The mode may change between its two tests. */
    method Body(mode: nat, mode': nat, garbage: DmId, garbage': DmId)
      requires Valid()
      modifies userDb, selfDb, dm, this`diagnostics
      ensures Valid()
      ensures CurrentState() == BodyState(config, old(CurrentState()), mode, mode')
    {
      var ori := new DM(dm.dmInfo);
      if mode == RECORDING {
        RecordingBranch(ori, garbage);
      }
      if mode' == LOCALIZATION {
        LocalizationBranch(ori, garbage');
      }
    }

    /** The part of `dmTrigger` after the wait: copy the shared package, add a sensed pose. The two loops that
        read the poses are in StreamRead; what they deliver are the fields of the tick. */
    method DmTrigger(tick: Tick)
      modifies dm, this`locStat, this`rokitPose
      ensures dm.dmInfo == if Composes(tick) then
        old(dm.dmInfo).(id := tick.package.dmId, pose := Composed(old(dm.dmInfo.pose), tick))
      else
        old(dm.dmInfo)
      ensures var p, q := old(dm.dmInfo.pose), tick.package;
        if tick.triggerMode == 0xff then
          dm.dmInfo.id == q.dmId
          && dm.dmInfo.pose == Pose(tick.recorded.x + q.x, tick.recorded.y + q.y, tick.recorded.yaw + q.a)
        else if tick.triggerMode' == 0xfe && tick.localized.Some? then
          var l := tick.localized.value;
          dm.dmInfo.id == q.dmId && dm.dmInfo.pose == Pose(l.x + q.x, l.y + q.y, l.yaw + q.a)
        else if tick.triggerMode' == 0xfe then
          dm.dmInfo.id == q.dmId && dm.dmInfo.pose == Pose(p.x + q.x, p.y + q.y, p.yaw + q.a)
        else
          dm.dmInfo == old(dm.dmInfo)
      ensures if tick.triggerMode != RECORDING && tick.triggerMode' == LOCALIZATION && tick.localized.Some? then
        && locStat == tick.locState
        && rokitPose == old(dm.dmInfo).(id := tick.package.dmId, pose := tick.localized.value)
      else
        locStat == old(locStat) && rokitPose == old(rokitPose)
    {
      var local := dm.dmInfo;
      var deviation := Deviation(tick.package);
      local := local.(id := tick.package.dmId);
      if tick.triggerMode == RECORDING {
        local := local.(pose := Plus(tick.recorded, deviation));
        dm.dmInfo := local;
      } else if tick.triggerMode' == LOCALIZATION {
        if tick.localized.Some? {
          local := local.(pose := tick.localized.value);
          locStat := tick.locState;
          rokitPose := local;
        }
        local := local.(pose := Plus(local.pose, deviation));
        dm.dmInfo := local;
      }
    }

    /** The operator edits the user table. */
    method Operate(edits: seq<Edit>)
      requires Valid()
      modifies userDb`rows
      ensures Valid()
      ensures CurrentState() == EditState(config, old(CurrentState()), edits)
    {
      ghost var t := TablesOf(CurrentState());
      assert edits[..0] == [];
      for i := 0 to |edits|
        invariant Valid()
        invariant TablesOf(CurrentState()) == Run(config, t, edits[..i])
      {
        var e := edits[i];
        RunPush(config, t, edits[..i], e);
        assert edits[..i + 1] == edits[..i] + [e];
        StepKeepsBounded(config, TablesOf(CurrentState()), e);
        if e.id in userDb.rows {
          var row := userDb.rows[e.id];
          match e
          case SetEnable(id, on) => userDb.rows := userDb.rows[id := row.(enable := on)];
          case SetPose(id, p) => userDb.rows := userDb.rows[id := row.(pose := p)];
        }
      }
      assert edits[..|edits|] == edits;
    }

    /** The main while: the whole state after it, and the part of the state that evolves by itself. */
    method MainWhile(ticks: seq<Tick>)
      requires Valid()
      modifies userDb, selfDb, dm, this`diagnostics, this`locStat, this`rokitPose
      ensures Valid()
      ensures CurrentState() == StateAfter(config, old(CurrentState()), ticks)
      ensures ViewOf(CurrentState()) == LoopView(config, ViewOf(old(CurrentState())), ticks)
    {
      ghost var s := CurrentState();
      for i := 0 to |ticks|
        invariant Valid()
        invariant CurrentState() == StateAfter(config, s, ticks[..i])
      {
        assert ticks[..i + 1][..i] == ticks[..i];
        var tick := ticks[i];
        Operate(tick.edits);
        DmTrigger(tick);
        Body(tick.bodyMode, tick.bodyMode', tick.garbage, tick.garbage');
      }
      assert ticks[..|ticks|] == ticks;
      MetadataIsNotRead(config, s, ticks);
    }
  }

  /** What a fitting branch may rely on: after its own row is logged, the log holds at most as many rows
      for the id as the counter says, and the counter is at least 2. */
  lemma CallerMayFit(cfg: Config, t: Tables, id: DmId, p: Pose)
    requires Bounded(t) && Retrievable(t, id)
    ensures 1 <= t.user[id].cnt
    ensures |PosesOf(WithEntry(t.log, id, p, cfg.maxRowSelfDb), id)| <= t.user[id].cnt + 1
  {
    assert BoundedAt(t, id);
    PosesOfWithEntry(t.log, id, p, cfg.maxRowSelfDb, id);
  }
}
