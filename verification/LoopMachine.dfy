/** The main loop as a function of its whole state, and the part of the state that matters. */
module LoopMachine {
  import opened Windows
  import opened Poses
  import opened SharedData
  import opened MarkerTables

  datatype DmInfo = DmInfo(
    id: DmId, pose: Pose, cnt: nat, sloppyCnt: nat, recommend: bool, enable: bool, haveSloppy: bool)

  /** The record before the first turn: `make_shared` zeroes it. */
  const BLANK := DmInfo(0, ORIGIN, 0, 0, false, false, false)

  /** The row of a marker as `retrieveCallBack` reads it. */
  function FromRow(id: DmId, r: UserRow): DmInfo {
    DmInfo(id, r.pose, r.cnt, r.sloppyCnt, r.recommend, r.enable, false)
  }

  /** The row of a marker as an insert or update statement prints it. */
  function ToRow(d: DmInfo): UserRow {
    UserRow(Quantise(d.pose), d.cnt, d.sloppyCnt, d.recommend, d.enable)
  }

  /** A record as an insert into the log prints it, metadata included. */
  function Printed(d: DmInfo): DmInfo {
    d.(pose := Quantise(d.pose))
  }

  function EntryOf(d: DmInfo): Entry {
    Entry(d.id, d.pose)
  }

  function Entries(rows: seq<DmInfo>): (log: seq<Entry>)
    ensures |log| == |rows|
  {
    seq(|rows|, i requires 0 <= i < |rows| => EntryOf(rows[i]))
  }

  lemma EntriesSlide(rows: seq<DmInfo>, row: DmInfo, maxRow: nat)
    ensures Entries(Slide(rows, row, maxRow)) == Slide(Entries(rows), EntryOf(row), maxRow)
  {
    assert Entries(rows + [row]) == Entries(rows) + [EntryOf(row)];
  }

  // ---------- the records that a branch leaves behind ----------

  function WithSloppy(d: DmInfo, sloppy: bool): DmInfo {
    if sloppy then d.(sloppyCnt := d.sloppyCnt + 1, haveSloppy := true) else d
  }

  function WithRecommend(d: DmInfo, recommend: bool): DmInfo {
    if recommend then d.(recommend := true) else d
  }

  /** The carried record after a branch that found row `r`. */
  function HeldInfo(cfg: Config, id: DmId, r: UserRow, kind: Kind, p: Pose, logged: seq<Pose>): DmInfo {
    var row := Observe(cfg, r, kind, p, logged);
    DmInfo(id, HeldPose(cfg, r, kind, logged), row.cnt, row.sloppyCnt, row.recommend, r.enable, Slipped(cfg, r, p))
  }

  lemma HeldInfoIsStoredAsObserved(cfg: Config, id: DmId, r: UserRow, kind: Kind, p: Pose, logged: seq<Pose>)
    ensures ToRow(HeldInfo(cfg, id, r, kind, p, logged)) == Observe(cfg, r, kind, p, logged)
  {}

  /** The trigger record as logged by a branch that found row `r`. Its metadata is whatever the turn before
      left in it, changed by this turn's outcome. */
  function LoggedInfo(cfg: Config, ori: DmInfo, r: UserRow, kind: Kind): DmInfo {
    var counted := if kind.Localization? then ori.(cnt := ori.cnt + 1) else ori;
    WithRecommend(WithSloppy(counted, Slipped(cfg, r, ori.pose)),
                  Fires(cfg, r, kind) || (kind.Recording? && r.enable))
  }

  /** A marker that is enabled: both records after the sloppy test. */
  lemma EnabledRecords(cfg: Config, ori: DmInfo, r: UserRow, kind: Kind, logged: seq<Pose>)
    requires r.enable
    ensures var sloppy := Sloppy(cfg.locErrThreshold, r.pose, ori.pose);
      && HeldInfo(cfg, ori.id, r, kind, ori.pose, logged)
         == WithRecommend(WithSloppy(FromRow(ori.id, r.(cnt := r.cnt + 1)), sloppy), kind.Recording?)
      && LoggedInfo(cfg, ori, r, kind)
         == WithRecommend(WithSloppy(if kind.Localization? then ori.(cnt := ori.cnt + 1) else ori, sloppy),
                          kind.Recording?)
  {}

  /** A marker that is not: both records after the test for a fit. */
  lemma DisabledRecords(cfg: Config, ori: DmInfo, r: UserRow, kind: Kind, logged: seq<Pose>)
    requires !r.enable
    ensures var fires, d := r.cnt + 1 == Threshold(cfg, kind), FromRow(ori.id, r.(cnt := r.cnt + 1));
      && HeldInfo(cfg, ori.id, r, kind, ori.pose, logged)
         == (if fires then d.(recommend := true, pose := Over(Sum(logged), r.cnt + 1)) else d)
      && LoggedInfo(cfg, ori, r, kind)
         == WithRecommend(if kind.Localization? then ori.(cnt := ori.cnt + 1) else ori, fires)
  {}

  /** The carried record after a branch that inserts a row, or fails to. */
  function FirstInfo(d: DmInfo): DmInfo {
    DmInfo(d.id, d.pose, 1, 0, false, false, false)
  }

  /** The trigger record as logged by such a branch. */
  function FirstLoggedInfo(ori: DmInfo, kind: Kind): DmInfo {
    DmInfo(ori.id, ori.pose, if kind.Recording? then 1 else 0, 0, false, false, false)
  }

  // ---------- the whole state ----------

  /** Both tables with all their columns, the diagnostics, and the record carried from turn to turn. */
  datatype LoopState = LoopState(user: map<DmId, UserRow>, rows: seq<DmInfo>, diags: seq<nat>, dm: DmInfo)

  const INITIAL_STATE := LoopState(map[], [], [], BLANK)

  function TablesOf(s: LoopState): Tables {
    Tables(s.user, Entries(s.rows), s.diags)
  }

  /** What a turn is given: the operator's edits before it, the package, the poses read from the two
      sockets (none if the localization socket fails) with the localization state, the mode at each of its
      four tests, and the garbage in two uninitialised ids. */
  datatype Tick = Tick(
    edits: seq<Edit>, package: Package, recorded: Pose, localized: Option<Pose>, locState: int,
    triggerMode: nat, triggerMode': nat, bodyMode: nat, bodyMode': nat,
    garbage: DmId, garbage': DmId)

  /** In a mode other than the two, `dmTrigger` leaves the carried id and pose in place. */
  predicate Composes(tick: Tick) {
    tick.triggerMode == RECORDING || tick.triggerMode' == LOCALIZATION
  }

  /** The composed pose. A failed localization read composes with the pose that was carried. */
  function Composed(carried: Pose, tick: Tick): Pose {
    var sensed :=
      if tick.triggerMode == RECORDING then tick.recorded
      else if tick.localized.Some? then tick.localized.value
      else carried;
    Plus(sensed, Deviation(tick.package))
  }

  predicate RunsBranch(tick: Tick) {
    tick.bodyMode == RECORDING || tick.bodyMode' == LOCALIZATION
  }

  function TriggerState(s: LoopState, tick: Tick): LoopState {
    if Composes(tick) then s.(dm := s.dm.(id := tick.package.dmId, pose := Composed(s.dm.pose, tick))) else s
  }

  /** What a trigger composes, coordinate by coordinate: the sensed pose plus the deviations of the shared
      package, or the carried pose plus these if the localization socket fails. In other modes nothing changes. */
  lemma TriggerComposes(s: LoopState, tick: Tick)
    ensures var s', q := TriggerState(s, tick), tick.package;
      && s'.dm == s.dm.(id := s'.dm.id, pose := s'.dm.pose)
      && s' == s.(dm := s'.dm)
      && if tick.triggerMode == 0xff then
           var p := tick.recorded;
           s'.dm.id == q.dmId && s'.dm.pose == Pose(p.x + q.x, p.y + q.y, p.yaw + q.a)
         else if tick.triggerMode' == 0xfe then
           var p := if tick.localized.Some? then tick.localized.value else s.dm.pose;
           s'.dm.id == q.dmId && s'.dm.pose == Pose(p.x + q.x, p.y + q.y, p.yaw + q.a)
         else
           s' == s
  {}

  /** The trigger record as a branch logs it. */
  function Logged(cfg: Config, s: LoopState, kind: Kind, ori: DmInfo): DmInfo {
    if Retrievable(TablesOf(s), s.dm.id) then LoggedInfo(cfg, ori, s.user[s.dm.id], kind)
    else FirstLoggedInfo(ori, kind)
  }

  /** One branch: `ori` is the copy of the trigger record. */
  function BranchState(cfg: Config, s: LoopState, kind: Kind, ori: DmInfo): LoopState {
    var id, rows := s.dm.id, Slide(s.rows, Printed(Logged(cfg, s, kind, ori)), cfg.maxRowSelfDb);
    if Retrievable(TablesOf(s), id) then
      var r := s.user[id];
      var dm := HeldInfo(cfg, id, r, kind, ori.pose, PosesOf(Entries(rows), id));
      LoopState(s.user[id := ToRow(dm)], rows,
                s.diags + (if Slipped(cfg, r, ori.pose) then [SLOPPY_MARKER] else []), dm)
    else
      var dm := FirstInfo(s.dm);
      LoopState(if id in s.user then s.user else s.user[id := ToRow(dm)], rows, s.diags + [NEW_MARKER], dm)
  }

  function BodyState(cfg: Config, s: LoopState, mode: nat, mode': nat): LoopState {
    var ori := s.dm;
    var s', ori' :=
      if mode == RECORDING then BranchState(cfg, s, Recording, ori) else s,
      if mode == RECORDING then Logged(cfg, s, Recording, ori) else ori;
    if mode' == LOCALIZATION then BranchState(cfg, s', Localization, ori') else s'
  }

  function EditState(cfg: Config, s: LoopState, edits: seq<Edit>): LoopState {
    s.(user := Run(cfg, TablesOf(s), edits).user)
  }

  function TickState(cfg: Config, s: LoopState, tick: Tick): LoopState {
    BodyState(cfg, TriggerState(EditState(cfg, s, tick.edits), tick), tick.bodyMode, tick.bodyMode')
  }

  function StateAfter(cfg: Config, s: LoopState, ticks: seq<Tick>): LoopState {
    if ticks == [] then s
    else TickState(cfg, StateAfter(cfg, s, ticks[..|ticks| - 1]), ticks[|ticks| - 1])
  }

  // ---------- the part that matters ----------

  /** The tables and, of the carried record, the id and the pose only. */
  datatype View = View(tables: Tables, id: DmId, pose: Pose)

  const START := View(EMPTY, 0, ORIGIN)

  function ViewOf(s: LoopState): View {
    View(TablesOf(s), s.dm.id, s.dm.pose)
  }

  function TriggerView(v: View, tick: Tick): View {
    if Composes(tick) then v.(id := tick.package.dmId, pose := Composed(v.pose, tick)) else v
  }

  function BranchView(cfg: Config, v: View, kind: Kind, trigger: Pose): View {
    View(StepBranch(cfg, v.tables, v.id, kind, trigger),
         v.id,
         if Retrievable(v.tables, v.id) then
           HeldPose(cfg, v.tables.user[v.id], kind,
                    PosesOf(WithEntry(v.tables.log, v.id, trigger, cfg.maxRowSelfDb), v.id))
         else v.pose)
  }

  function BodyView(cfg: Config, v: View, mode: nat, mode': nat): View {
    var v' := if mode == RECORDING then BranchView(cfg, v, Recording, v.pose) else v;
    if mode' == LOCALIZATION then BranchView(cfg, v', Localization, v.pose) else v'
  }

  function TickView(cfg: Config, v: View, tick: Tick): View {
    BodyView(cfg, TriggerView(v.(tables := Run(cfg, v.tables, tick.edits)), tick), tick.bodyMode, tick.bodyMode')
  }

  function LoopView(cfg: Config, v: View, ticks: seq<Tick>): View {
    if ticks == [] then v
    else TickView(cfg, LoopView(cfg, v, ticks[..|ticks| - 1]), ticks[|ticks| - 1])
  }

  // ---------- the rest of the state does not matter ----------

  /** Before a branch `ori` holds the trigger. A branch that will insert needs the carried record to hold the
      trigger's pose too. */
  predicate Ready(s: LoopState, ori: DmInfo) {
    ori.id == s.dm.id && (Retrievable(TablesOf(s), s.dm.id) || s.dm.pose == ori.pose)
  }

  lemma BranchSees(cfg: Config, s: LoopState, kind: Kind, ori: DmInfo)
    requires Ready(s, ori)
    ensures ViewOf(BranchState(cfg, s, kind, ori)) == BranchView(cfg, ViewOf(s), kind, ori.pose)
    ensures Ready(BranchState(cfg, s, kind, ori), Logged(cfg, s, kind, ori))
    ensures Logged(cfg, s, kind, ori).pose == ori.pose
  {
    var logged := Logged(cfg, s, kind, ori);
    EntriesSlide(s.rows, Printed(logged), cfg.maxRowSelfDb);
    if Retrievable(TablesOf(s), s.dm.id) {
      var log := Entries(Slide(s.rows, Printed(logged), cfg.maxRowSelfDb));
      HeldInfoIsStoredAsObserved(cfg, s.dm.id, s.user[s.dm.id], kind, ori.pose, PosesOf(log, s.dm.id));
    }
  }

  lemma BodySees(cfg: Config, s: LoopState, mode: nat, mode': nat)
    ensures ViewOf(BodyState(cfg, s, mode, mode')) == BodyView(cfg, ViewOf(s), mode, mode')
  {
    var s', ori' := s, s.dm;
    if mode == RECORDING {
      BranchSees(cfg, s, Recording, s.dm);
      s', ori' := BranchState(cfg, s, Recording, s.dm), Logged(cfg, s, Recording, s.dm);
    }
    BranchSees(cfg, s', Localization, ori');
  }

  lemma {:induction false} EditsTouchRowsOnly(cfg: Config, t: Tables, edits: seq<Edit>)
    ensures Run(cfg, t, edits) == t.(user := Run(cfg, t, edits).user)
  {
    if edits == [] {
    } else {
      EditsTouchRowsOnly(cfg, t, edits[..|edits| - 1]);
    }
  }

  /** The tables, their trustworthy log columns, the diagnostics and the carried id and pose evolve as a
      function of themselves and the inputs. Neither the metadata that the record carries, nor that of the
      log, nor the garbage in uninitialised ids has a part in it. */
  lemma {:induction false} MetadataIsNotRead(cfg: Config, s: LoopState, ticks: seq<Tick>)
    ensures ViewOf(StateAfter(cfg, s, ticks)) == LoopView(cfg, ViewOf(s), ticks)
  {
    if ticks == [] {
    } else {
      var front, tick := ticks[..|ticks| - 1], ticks[|ticks| - 1];
      MetadataIsNotRead(cfg, s, front);
      var u := StateAfter(cfg, s, front);
      EditsTouchRowsOnly(cfg, TablesOf(u), tick.edits);
      BodySees(cfg, TriggerState(EditState(cfg, u, tick.edits), tick), tick.bodyMode, tick.bodyMode');
    }
  }
}
