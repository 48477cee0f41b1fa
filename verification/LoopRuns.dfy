/** Runs of the main loop are runs of the event machine. */
module LoopRuns {
  import opened Poses
  import opened SharedData
  import opened MarkerTables
  import opened OwnFold
  import opened LoopMachine
  import opened MainLoop

  /** The branch executions of one body. Both occur when the mode flips between the two tests. */
  function BodyEvents(id: DmId, pose: Pose, mode: nat, mode': nat): seq<Event> {
    (if mode == RECORDING then [Branch(id, Recording, pose)] else [])
    + (if mode' == LOCALIZATION then [Branch(id, Localization, pose)] else [])
  }

  function TickEvents(v: View, tick: Tick): seq<Event> {
    var v' := TriggerView(v, tick);
    tick.edits + BodyEvents(v'.id, v'.pose, tick.bodyMode, tick.bodyMode')
  }

  /** The events of a whole run of the loop. */
  function Trace(cfg: Config, v: View, ticks: seq<Tick>): seq<Event> {
    if ticks == [] then []
    else
      var front := ticks[..|ticks| - 1];
      Trace(cfg, v, front) + TickEvents(LoopView(cfg, v, front), ticks[|ticks| - 1])
  }

  lemma RunOne(cfg: Config, t: Tables, e: Event)
    ensures Run(cfg, t, [e]) == Step(cfg, t, e)
  {
    RunPush(cfg, t, [], e);
    assert [] + [e] == [e];
  }

  lemma BodyIsRun(cfg: Config, v: View, mode: nat, mode': nat)
    ensures BodyView(cfg, v, mode, mode').tables == Run(cfg, v.tables, BodyEvents(v.id, v.pose, mode, mode'))
    ensures BodyView(cfg, v, mode, mode').id == v.id
  {
    var a, b := Branch(v.id, Recording, v.pose), Branch(v.id, Localization, v.pose);
    RunOne(cfg, v.tables, a);
    RunOne(cfg, v.tables, b);
    RunPush(cfg, v.tables, [a], b);
    assert [a] + [b] == [a, b] && [a] + [] == [a] && [] + [b] == [b];
  }

  /** The tables after any run of the loop are those of the event machine on the run's trace. With
      `MainWhile`, every theorem about event runs is a theorem about the imperative loop. */
  lemma {:induction false} LoopIsRun(cfg: Config, v: View, ticks: seq<Tick>)
    ensures LoopView(cfg, v, ticks).tables == Run(cfg, v.tables, Trace(cfg, v, ticks))
  {
    if ticks == [] {
    } else {
      var front, tick := ticks[..|ticks| - 1], ticks[|ticks| - 1];
      LoopIsRun(cfg, v, front);
      var u := LoopView(cfg, v, front);
      var u' := TriggerView(u.(tables := Run(cfg, u.tables, tick.edits)), tick);
      BodyIsRun(cfg, u', tick.bodyMode, tick.bodyMode');
      var body := BodyEvents(u'.id, u'.pose, tick.bodyMode, tick.bodyMode');
      RunConcat(cfg, u.tables, tick.edits, body);
      RunConcat(cfg, v.tables, Trace(cfg, v, front), tick.edits + body);
    }
  }

  /** For the loop itself, started on empty tables: the row of every id but 0 is the fold of that id's
      own events and held rows, the plain fold of its own events if its fits are intact, and its counter is
      the number of rows ever logged for it. */
  lemma LoopRowIsFold(cfg: Config, ticks: seq<Tick>, id: DmId)
    requires id != 0
    ensures var events, user := Trace(cfg, START, ticks), LoopView(cfg, START, ticks).tables.user;
      && Lookup(user, id) == HeldFold(cfg, events, id).row
      && (FitsIntact(cfg, events, id) ==> Lookup(user, id) == Fold(cfg, Own(events, id)).row)
      && Counted(LoopView(cfg, START, ticks).tables, id, |Sightings(events, id)|)
  {
    var events := Trace(cfg, START, ticks);
    LoopIsRun(cfg, START, ticks);
    RowIsHeldFold(cfg, events, id);
    CountIsSightings(cfg, events, id);
    if FitsIntact(cfg, events, id) {
      RowIsFold(cfg, events, id);
    }
  }

  // ---------- what does not matter ----------

  predicate SameInputs(a: Tick, b: Tick) {
    a.(garbage := 0, garbage' := 0) == b.(garbage := 0, garbage' := 0)
  }

  /** For the method below. That the uninitialised ids decide nothing is the contract of `RetrieveUsrDb`. */
  lemma {:induction false} GarbageIsIrrelevant(cfg: Config, v: View, ticks: seq<Tick>, ticks': seq<Tick>)
    requires |ticks| == |ticks'|
    requires forall i | 0 <= i < |ticks| :: SameInputs(ticks[i], ticks'[i])
    ensures LoopView(cfg, v, ticks) == LoopView(cfg, v, ticks')
  {
    if ticks == [] {
    } else {
      var last := |ticks| - 1;
      GarbageIsIrrelevant(cfg, v, ticks[..last], ticks'[..last]);
      assert SameInputs(ticks[last], ticks'[last]);
    }
  }

  /** Two loops that start with equal tables and the same carried id and pose, and see the same inputs,
      keep equal user tables, log columns and diagnostics, whatever metadata their records and logs carry and
      whatever the uninitialised ids hold. */
  method MetadataIsIrrelevant(a: AddOn, b: AddOn, ticks: seq<Tick>, ticks': seq<Tick>)
    requires a.Valid() && b.Valid() && a.config == b.config
    requires a != b && a.userDb != b.userDb && a.selfDb != b.selfDb && a.dm != b.dm
    requires ViewOf(a.CurrentState()) == ViewOf(b.CurrentState())
    requires |ticks| == |ticks'| && forall i | 0 <= i < |ticks| :: SameInputs(ticks[i], ticks'[i])
    modifies a.userDb, a.selfDb, a.dm, a`diagnostics, a`locStat, a`rokitPose
    modifies b.userDb, b.selfDb, b.dm, b`diagnostics, b`locStat, b`rokitPose
    ensures ViewOf(a.CurrentState()) == ViewOf(b.CurrentState())
  {
    GarbageIsIrrelevant(a.config, ViewOf(a.CurrentState()), ticks, ticks');
    a.MainWhile(ticks);
    b.MainWhile(ticks');
  }
}
