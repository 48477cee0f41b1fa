/** A marker's row is a fold over that marker's own events. */
module OwnFold {
  import opened Windows
  import opened Poses
  import opened SharedData
  import opened MarkerTables
  import opened Recommendation

  function About(id: DmId): Event -> bool {
    (e: Event) => e.id == id
  }

  /** The subsequence of a run that concerns `id`. */
  function Own(events: seq<Event>, id: DmId): seq<Event> {
    Select(events, About(id))
  }

  datatype Summary = Summary(row: Option<UserRow>, seen: seq<Pose>)

  /** One marker on its own: no tables, no log, no other ids. */
  function Fold(cfg: Config, own: seq<Event>): Summary {
    if own == [] then Summary(None, [])
    else
      var s := Fold(cfg, own[..|own| - 1]);
      FoldStep(cfg, s, own[|own| - 1], |s.seen| + 1)
  }

  /** The next own event, when the log still holds the newest `held` rows of the marker. */
  function FoldStep(cfg: Config, s: Summary, e: Event, held: nat): Summary {
    match e
    case Branch(_, kind, p) =>
      var seen := s.seen + [Quantise(p)];
      if s.row.None? then Summary(Some(FirstRow(p)), seen)
      else Summary(Some(Observe(cfg, s.row.value, kind, p, Last(seen, Min(held, |seen|)))), seen)
    case SetEnable(_, on) =>
      if s.row.None? then s else s.(row := Some(s.row.value.(enable := on)))
    case SetPose(_, p) =>
      if s.row.None? then s else s.(row := Some(s.row.value.(pose := p)))
  }

  function Lookup(user: map<DmId, UserRow>, id: DmId): Option<UserRow> {
    if id in user then Some(user[id]) else None
  }

  // ---------- eviction ----------

  /** No row of `id` has fallen out of the newest `maxRowSelfDb` rows of the run. */
  predicate StillHeld(cfg: Config, events: seq<Event>, id: DmId) {
    var all := Appended(events);
    forall i | 0 <= i < |all| - cfg.maxRowSelfDb :: all[i].id != id
  }

  lemma NoneOf(log: seq<Entry>, id: DmId)
    ensures PosesOf(log, id) == [] <==> forall i | 0 <= i < |log| :: log[i].id != id
  {
    SelectNothing(log, HasId(id));
    assert forall i | 0 <= i < |log| :: log[i] in log;
  }

  lemma PosesOfConcat(a: seq<Entry>, b: seq<Entry>, id: DmId)
    ensures PosesOf(a + b, id) == PosesOf(a, id) + PosesOf(b, id)
  {
    SelectConcat(a, b, HasId(id));
  }

  /** The log counts as many rows for the id as the run has sightings exactly if none fell out. */
  lemma HeldIffComplete(cfg: Config, events: seq<Event>, id: DmId)
    ensures StillHeld(cfg, events, id)
       <==> |PosesOf(Run(cfg, EMPTY, events).log, id)| == |Sightings(events, id)|
    ensures StillHeld(cfg, events, id)
       ==> PosesOf(Run(cfg, EMPTY, events).log, id) == Sightings(events, id)
  {
    LogIsWindow(cfg, events);
    var all := Appended(events);
    var n := Min(|all|, cfg.maxRowSelfDb);
    var lost := all[..|all| - n];
    assert all == lost + Last(all, n);
    PosesOfConcat(lost, Last(all, n), id);
    NoneOf(lost, id);
  }

  /** The next event fits `id`: a sighting, while the marker is not enabled, that brings its count to the
      threshold of the mode. Reads the events only. */
  predicate FitDue(cfg: Config, front: seq<Event>, e: Event, id: DmId) {
    var seen := |Sightings(front, id)|;
    && e.Branch? && e.id == id && id != 0
    && seen != 0 && !EnabledBy(front, id)
    && seen + 1 == if e.kind.Recording? then cfg.mappRepeatNum else cfg.locRepeatNum
  }

  lemma FitDueIffFires(cfg: Config, front: seq<Event>, e: Event, id: DmId)
    ensures FitDue(cfg, front, e, id) <==> FiresAt(cfg, Run(cfg, EMPTY, front), e, id)
  {
    CountIsSightings(cfg, front, id);
    EnableIsTheOperators(cfg, front, id);
  }

  /** Whenever a fit is due for the id, all its rows are held. */
  ghost predicate FitsIntact(cfg: Config, events: seq<Event>, id: DmId) {
    forall k | 0 < k <= |events| ::
      FitDue(cfg, events[..k - 1], events[k - 1], id) ==> StillHeld(cfg, events[..k], id)
  }

  lemma FitsIntactPrefix(cfg: Config, events: seq<Event>, id: DmId)
    requires events != [] && FitsIntact(cfg, events, id)
    ensures FitsIntact(cfg, events[..|events| - 1], id)
  {
    var front := events[..|events| - 1];
    forall k | 0 < k <= |front| && FitDue(cfg, front[..k - 1], front[k - 1], id)
      ensures StillHeld(cfg, front[..k], id)
    {
      assert front[..k] == events[..k] && front[..k - 1] == events[..k - 1];
    }
  }

  lemma {:induction false} AppendedPrefix(events: seq<Event>, k: nat)
    requires k <= |events|
    ensures |Appended(events[..k])| <= |Appended(events)|
  {
    if k == |events| {
      assert events[..k] == events;
    } else {
      AppendedPrefix(events[..|events| - 1], k);
      assert events[..|events| - 1][..k] == events[..k];
    }
  }

  /** A run shorter than the log keeps every fit intact. */
  lemma ShortRunsAreIntact(cfg: Config, events: seq<Event>, id: DmId)
    requires |Appended(events)| <= cfg.maxRowSelfDb
    ensures FitsIntact(cfg, events, id)
  {
    forall k | 0 < k <= |events|
      ensures StillHeld(cfg, events[..k], id)
    {
      AppendedPrefix(events, k);
    }
  }

  // ---------- the row is the fold ----------

  lemma {:induction false} SeenIsSightings(cfg: Config, events: seq<Event>, id: DmId)
    ensures Fold(cfg, Own(events, id)).seen == Sightings(events, id)
  {
    if events == [] {
    } else {
      var front, e := events[..|events| - 1], events[|events| - 1];
      SeenIsSightings(cfg, front, id);
      SightingsPush(events, id);
      OwnPush(cfg, events, id);
      var s := Fold(cfg, Own(front, id));
      FoldStepSeen(cfg, s, e, |s.seen| + 1);
    }
  }

  lemma OwnPush(cfg: Config, events: seq<Event>, id: DmId)
    requires events != []
    ensures var front, e := events[..|events| - 1], events[|events| - 1];
      Fold(cfg, Own(events, id))
        == if e.id != id then Fold(cfg, Own(front, id)) else
             var s := Fold(cfg, Own(front, id));
             FoldStep(cfg, s, e, |s.seen| + 1)
  {
    var front, e := events[..|events| - 1], events[|events| - 1];
    assert events == front + [e];
    SelectPush(front, e, About(id));
    if e.id == id {
      assert Own(events, id)[..|Own(events, id)| - 1] == Own(front, id);
    } else {
      assert Own(events, id) == Own(front, id);
    }
  }

  lemma StepIsFoldStep(cfg: Config, t: Tables, s: Summary, e: Event, held: nat)
    requires e.id != 0 && Lookup(t.user, e.id) == s.row
    requires FiresAt(cfg, t, e, e.id) ==>
      held <= |s.seen| + 1 && PosesOf(Step(cfg, t, e).log, e.id) == Last(s.seen + [Quantise(e.pose)], held)
    ensures Lookup(Step(cfg, t, e).user, e.id) == FoldStep(cfg, s, e, held).row
  {}

  lemma StepElsewhere(cfg: Config, t: Tables, e: Event, id: DmId)
    requires e.id != id
    ensures Lookup(Step(cfg, t, e).user, id) == Lookup(t.user, id)
  {}

  lemma FoldStepSeen(cfg: Config, s: Summary, e: Event, held: nat)
    ensures FoldStep(cfg, s, e, held).seen == s.seen + if e.Branch? then [Quantise(e.pose)] else []
  {
    assert s.seen + [] == s.seen;
  }

  lemma IntactFitSeesAll(cfg: Config, events: seq<Event>, id: DmId)
    requires events != [] && FitsIntact(cfg, events, id)
    requires FiresAt(cfg, Run(cfg, EMPTY, events[..|events| - 1]), events[|events| - 1], id)
    ensures PosesOf(Run(cfg, EMPTY, events).log, id) == Sightings(events, id)
  {
    FitDueIffFires(cfg, events[..|events| - 1], events[|events| - 1], id);
    assert events[..|events|] == events;
    HeldIffComplete(cfg, events, id);
  }

  /** The incrementally kept row agrees, field by field, with the fold of the marker's own events,
      operator edits included. */
  lemma {:induction false} RowIsFold(cfg: Config, events: seq<Event>, id: DmId)
    requires id != 0
    requires FitsIntact(cfg, events, id)
    ensures Lookup(Run(cfg, EMPTY, events).user, id) == Fold(cfg, Own(events, id)).row
  {
    if events == [] {
    } else {
      var front, e := events[..|events| - 1], events[|events| - 1];
      var t := Run(cfg, EMPTY, front);
      FitsIntactPrefix(cfg, events, id);
      RowIsFold(cfg, front, id);
      OwnPush(cfg, events, id);
      if e.id == id {
        SeenIsSightings(cfg, front, id);
        SightingsPush(events, id);
        if FiresAt(cfg, t, e, id) {
          IntactFitSeesAll(cfg, events, id);
        }
        var s := Fold(cfg, Own(front, id));
        StepIsFoldStep(cfg, t, s, e, |s.seen| + 1);
      } else {
        StepElsewhere(cfg, t, e, id);
      }
    }
  }

  // ---------- the row is a fold, eviction included ----------

  /** How many rows of `id` the newest `maxRowSelfDb` rows of the run contain. */
  function Held(cfg: Config, events: seq<Event>, id: DmId): nat {
    var all := Appended(events);
    |PosesOf(Last(all, Min(|all|, cfg.maxRowSelfDb)), id)|
  }

  /** The fold of the marker's own events, each with the number of its rows held by then. */
  function HeldFold(cfg: Config, events: seq<Event>, id: DmId): Summary {
    if events == [] then Summary(None, [])
    else
      var s, e := HeldFold(cfg, events[..|events| - 1], id), events[|events| - 1];
      if e.id == id then FoldStep(cfg, s, e, Held(cfg, events, id)) else s
  }

  lemma {:induction false} HeldFoldSeen(cfg: Config, events: seq<Event>, id: DmId)
    ensures HeldFold(cfg, events, id).seen == Sightings(events, id)
  {
    if events == [] {
    } else {
      var front, e := events[..|events| - 1], events[|events| - 1];
      HeldFoldSeen(cfg, front, id);
      SightingsPush(events, id);
      FoldStepSeen(cfg, HeldFold(cfg, front, id), e, Held(cfg, events, id));
    }
  }

  lemma LogHoldsNewest(cfg: Config, events: seq<Event>, id: DmId)
    ensures Held(cfg, events, id) <= |Sightings(events, id)|
    ensures PosesOf(Run(cfg, EMPTY, events).log, id) == Last(Sightings(events, id), Held(cfg, events, id))
  {
    LogIsWindow(cfg, events);
    NewestSightings(cfg, events, id);
  }

  /** Over every run, without any condition: all that other markers can do to a row is to change how many
      of the marker's own newest sightings the log still holds when it is fitted. */
  lemma {:induction false} RowIsHeldFold(cfg: Config, events: seq<Event>, id: DmId)
    requires id != 0
    ensures Lookup(Run(cfg, EMPTY, events).user, id) == HeldFold(cfg, events, id).row
  {
    if events == [] {
    } else {
      var front, e := events[..|events| - 1], events[|events| - 1];
      RowIsHeldFold(cfg, front, id);
      if e.id == id {
        LogHoldsNewest(cfg, events, id);
        HeldFoldSeen(cfg, front, id);
        SightingsPush(events, id);
        StepIsFoldStep(cfg, Run(cfg, EMPTY, front), HeldFold(cfg, front, id), e, Held(cfg, events, id));
      } else {
        StepElsewhere(cfg, Run(cfg, EMPTY, front), e, id);
      }
    }
  }

  // ---------- what other markers can change ----------

  /** How many of the id's rows the log holds at each of its fits. */
  function HeldAtFits(cfg: Config, events: seq<Event>, id: DmId): seq<nat> {
    if events == [] then []
    else
      var front, e := events[..|events| - 1], events[|events| - 1];
      HeldAtFits(cfg, front, id) + if FitDue(cfg, front, e, id) then [Held(cfg, events, id)] else []
  }

  /** A fold of own events that counts its fits. */
  datatype FoldProgress = FoldProgress(summary: Summary, fits: nat)

  predicate Due(cfg: Config, s: Summary, e: Event) {
    e.Branch? && s.row.Some? && Fires(cfg, s.row.value, e.kind)
  }

  /** The fold of own events when the n-th fit finds `held[n]` rows. */
  function FoldWith(cfg: Config, own: seq<Event>, held: seq<nat>): FoldProgress {
    if own == [] then FoldProgress(Summary(None, []), 0)
    else
      var f, e := FoldWith(cfg, own[..|own| - 1], held), own[|own| - 1];
      if Due(cfg, f.summary, e) then
        FoldProgress(FoldStep(cfg, f.summary, e, if f.fits < |held| then held[f.fits] else 0), f.fits + 1)
      else
        FoldProgress(FoldStep(cfg, f.summary, e, 0), f.fits)
  }

  lemma {:induction false} FoldWithPrefix(cfg: Config, own: seq<Event>, held: seq<nat>, more: seq<nat>)
    requires FoldWith(cfg, own, held).fits <= |held|
    ensures FoldWith(cfg, own, held + more) == FoldWith(cfg, own, held)
  {
    if own == [] {
    } else {
      FoldWithPrefix(cfg, own[..|own| - 1], held, more);
    }
  }

  lemma UndueStep(cfg: Config, s: Summary, e: Event, held: nat, held': nat)
    requires !Due(cfg, s, e)
    ensures FoldStep(cfg, s, e, held) == FoldStep(cfg, s, e, held')
  {}

  lemma {:induction false} HeldFoldIsFoldWith(cfg: Config, events: seq<Event>, id: DmId)
    requires id != 0
    ensures var held := HeldAtFits(cfg, events, id);
      FoldWith(cfg, Own(events, id), held) == FoldProgress(HeldFold(cfg, events, id), |held|)
  {
    if events == [] {
    } else {
      var front, e := events[..|events| - 1], events[|events| - 1];
      HeldFoldIsFoldWith(cfg, front, id);
      assert events == front + [e];
      SelectPush(front, e, About(id));
      var held := HeldAtFits(cfg, front, id);
      if e.id == id {
        assert Own(events, id)[..|Own(events, id)| - 1] == Own(front, id);
        RowIsHeldFold(cfg, front, id);
        FitDueIffFires(cfg, front, e, id);
        if FitDue(cfg, front, e, id) {
          FoldWithPrefix(cfg, Own(front, id), held, [Held(cfg, events, id)]);
        } else {
          assert held + [] == held;
          UndueStep(cfg, HeldFold(cfg, front, id), e, 0, Held(cfg, events, id));
        }
      } else {
        assert held + [] == held && Own(events, id) == Own(front, id);
      }
    }
  }

  /** Other markers do not matter, under any eviction, as long as they leave the same number of rows to each
      fit: two runs that agree on the events of one id and on these numbers, at most two, agree on its row. */
  lemma InterleavingIsIrrelevant(cfg: Config, events: seq<Event>, events': seq<Event>, id: DmId)
    requires id != 0
    requires Own(events, id) == Own(events', id)
    requires HeldAtFits(cfg, events, id) == HeldAtFits(cfg, events', id)
    ensures Lookup(Run(cfg, EMPTY, events).user, id) == Lookup(Run(cfg, EMPTY, events').user, id)
  {
    RowIsHeldFold(cfg, events, id);
    RowIsHeldFold(cfg, events', id);
    HeldFoldIsFoldWith(cfg, events, id);
    HeldFoldIsFoldWith(cfg, events', id);
  }

  /** In particular if the fits of both runs are intact. */
  lemma IntactInterleavingIsIrrelevant(cfg: Config, events: seq<Event>, events': seq<Event>, id: DmId)
    requires id != 0
    requires Own(events, id) == Own(events', id)
    requires FitsIntact(cfg, events, id) && FitsIntact(cfg, events', id)
    ensures Lookup(Run(cfg, EMPTY, events).user, id) == Lookup(Run(cfg, EMPTY, events').user, id)
  {
    RowIsFold(cfg, events, id);
    RowIsFold(cfg, events', id);
  }

  // ---------- what eviction does to a fit ----------

  /** A fit adds up all N sightings exactly if none of them fell out. */
  lemma FitSumsAllIffHeld(cfg: Config, front: seq<Event>, e: Event)
    requires FiresAt(cfg, Run(cfg, EMPTY, front), e, e.id)
    ensures var t, seen := Run(cfg, EMPTY, front + [e]), Sightings(front + [e], e.id);
      var kept := |PosesOf(t.log, e.id)|;
      && kept <= |seen|
      && (kept == |seen| <==> StillHeld(cfg, front + [e], e.id))
      && t.user[e.id].pose == Quantise(Over(Sum(Last(seen, kept)), |seen|))
  {
    FitIsSurvivingSum(cfg, front, e);
    HeldIffComplete(cfg, front + [e], e.id);
  }

  /** The pose that a fit holds, before it is printed. */
  function Fitted(cfg: Config, front: seq<Event>, e: Event): Pose
    requires e.Branch? && e.id in Run(cfg, EMPTY, front).user
  {
    HeldPose(cfg, Run(cfg, EMPTY, front).user[e.id], e.kind, PosesOf(Run(cfg, EMPTY, front + [e]).log, e.id))
  }

  lemma FittedPose(cfg: Config, front: seq<Event>, e: Event)
    requires FiresAt(cfg, Run(cfg, EMPTY, front), e, e.id)
    ensures var t, seen := Run(cfg, EMPTY, front + [e]), Sightings(front + [e], e.id);
      var kept := |PosesOf(t.log, e.id)|;
      && 0 < |seen| && kept <= |seen|
      && t.user[e.id].pose == Quantise(Fitted(cfg, front, e))
      && Fitted(cfg, front, e) == Over(Sum(Last(seen, kept)), |seen|)
  {
    FitIsSurvivingSum(cfg, front, e);
    RunPush(cfg, EMPTY, front, e);
  }

  /** The fitted pose, before it is printed, is the mean of all sightings exactly if those that fell out add up
      to the origin: so in particular if none did. */
  lemma FitIsMeanIff(cfg: Config, front: seq<Event>, e: Event)
    requires FiresAt(cfg, Run(cfg, EMPTY, front), e, e.id)
    ensures var seen := Sightings(front + [e], e.id);
      var lost := |seen| - |PosesOf(Run(cfg, EMPTY, front + [e]).log, e.id)|;
      && 0 <= lost <= |seen| != 0
      && Run(cfg, EMPTY, front + [e]).user[e.id].pose == Quantise(Fitted(cfg, front, e))
      && (Fitted(cfg, front, e) == Over(Sum(seen), |seen|) <==> Sum(seen[..lost]) == ORIGIN)
      && (StillHeld(cfg, front + [e], e.id) <==> lost == 0)
      && (StillHeld(cfg, front + [e], e.id) ==> Fitted(cfg, front, e) == Over(Sum(seen), |seen|))
  {
    FittedPose(cfg, front, e);
    HeldIffComplete(cfg, front + [e], e.id);
    var seen := Sightings(front + [e], e.id);
    var kept := |PosesOf(Run(cfg, EMPTY, front + [e]).log, e.id)|;
    var lost := |seen| - kept;
    assert seen == seen[..lost] + Last(seen, kept);
    SumConcat(seen[..lost], Last(seen, kept));
    OverPlusIff(Sum(seen[..lost]), Sum(Last(seen, kept)), |seen|);
  }

  const FAR := Pose(8.0, 8.0, 8.0)

  lemma AfterTwoSightings(cfg: Config, a: Event, b: Event)
    requires a.Branch? && b.Branch? && a.id != 0 && a.id != b.id
    requires cfg.maxRowSelfDb == 1 || cfg.maxRowSelfDb == 3
    ensures var t := Run(cfg, EMPTY, [a, b]);
      var e, f := Entry(a.id, Quantise(a.pose)), Entry(b.id, Quantise(b.pose));
      && a.id in t.user && t.user[a.id] == FirstRow(a.pose)
      && t.log == if cfg.maxRowSelfDb == 1 then [f] else [e, f]
  {
    RunPush(cfg, EMPTY, [], a);
    RunPush(cfg, EMPTY, [a], b);
    assert [] + [a] == [a] && [a] + [b] == [a, b];
    var e, f := Entry(a.id, Quantise(a.pose)), Entry(b.id, Quantise(b.pose));
    assert Run(cfg, EMPTY, [a]).log == [e];
    assert ([e] + [f])[1..] == [f];
  }

  lemma PosesOfOneOrTwo(e: Entry, f: Entry)
    requires e.id != f.id
    ensures PosesOf([e], e.id) == [e.pose]
    ensures PosesOf([e, f, e], e.id) == [e.pose, e.pose]
  {
    PosesOfPush([], e, e.id);
    PosesOfPush([e], f, e.id);
    PosesOfPush([e, f], e, e.id);
    assert [] + [e] == [e] && [e] + [f] == [e, f] && [e, f] + [e] == [e, f, e];
  }

  lemma SumOfOneOrTwo(p: Pose)
    ensures Sum([p]) == Plus(ORIGIN, p) && Sum([p, p]) == Plus(Sum([p]), p)
  {
    assert [p, p][..1] == [p] && [p][..0] == [];
  }

  lemma FitsOfFar()
    ensures Quantise(Over(Plus(ORIGIN, FAR), 2)) == Pose(4.0, 4.0, 4.0)
    ensures Quantise(Over(Plus(Plus(ORIGIN, FAR), FAR), 2)) == FAR
  {
    assert Over(Plus(ORIGIN, FAR), 2) == Pose(4.0, 4.0, 4.0);
    assert Over(Plus(Plus(ORIGIN, FAR), FAR), 2) == FAR;
    assert (4.0).Floor == 4 && (8.0).Floor == 8;
  }

  lemma ThirdSighting(t: Tables, cfg: Config)
    requires 1 in t.user && t.user[1] == FirstRow(FAR) && Quantise(FAR) == FAR
    requires cfg == Config(2, 2, 0.0, 1) || cfg == Config(2, 2, 0.0, 3)
    requires t.log == if cfg.maxRowSelfDb == 1 then [Entry(2, ORIGIN)] else [Entry(1, FAR), Entry(2, ORIGIN)]
    ensures var t' := StepBranch(cfg, t, 1, Recording, FAR);
      1 in t'.user && t'.user[1].pose == if cfg.maxRowSelfDb == 1 then Pose(4.0, 4.0, 4.0) else FAR
  {
    var e, f := Entry(1, FAR), Entry(2, ORIGIN);
    var log := WithEntry(t.log, 1, FAR, cfg.maxRowSelfDb);
    assert log == if cfg.maxRowSelfDb == 1 then [e] else [e, f, e];
    PosesOfOneOrTwo(e, f);
    SumOfOneOrTwo(FAR);
    FitsOfFar();
    assert Fires(cfg, t.user[1], Recording);
    assert StepBranch(cfg, t, 1, Recording, FAR).user[1].pose == Quantise(Over(Sum(PosesOf(log, 1)), 2));
  }

  lemma AfterThreeSightings(cfg: Config)
    requires cfg == Config(2, 2, 0.0, 1) || cfg == Config(2, 2, 0.0, 3)
    ensures var a, b := Branch(1, Recording, FAR), Branch(2, Recording, ORIGIN);
      var t := Run(cfg, EMPTY, [a, b, a]);
      1 in t.user && t.user[1].pose == if cfg.maxRowSelfDb == 1 then Pose(4.0, 4.0, 4.0) else FAR
  {
    var a, b := Branch(1, Recording, FAR), Branch(2, Recording, ORIGIN);
    AfterTwoSightings(cfg, a, b);
    RunPush(cfg, EMPTY, [a, b], a);
    assert [a, b] + [a] == [a, b, a];
    FitsOfFar();
    assert Quantise(ORIGIN) == ORIGIN;
    ThirdSighting(Run(cfg, EMPTY, [a, b]), cfg);
  }

  /** Eviction breaks independence: with a threshold of two, a sighting of marker 2 between two
      identical sightings of marker 1 halves the pose fitted for marker 1 if the log has room for one
      row, and leaves it right if it has room for three. */
  lemma EvictionSpoilsTheFit()
    ensures var small, large := Config(2, 2, 0.0, 1), Config(2, 2, 0.0, 3);
      var a, b := Branch(1, Recording, FAR), Branch(2, Recording, ORIGIN);
      var t, t' := Run(small, EMPTY, [a, b, a]), Run(large, EMPTY, [a, b, a]);
      && 1 in t.user && t.user[1].pose == Pose(4.0, 4.0, 4.0)
      && 1 in t'.user && t'.user[1].pose == FAR
  {
    AfterThreeSightings(Config(2, 2, 0.0, 1));
    AfterThreeSightings(Config(2, 2, 0.0, 3));
  }

  // ---------- the fold in closed form ----------

  /** The `k`-th own event brings the count to the threshold of its mode. */
  predicate FitAt(cfg: Config, own: seq<Event>, k: nat) {
    && 2 <= k <= |own| && own[k - 1].Branch?
    && k == if own[k - 1].kind.Recording? then cfg.mappRepeatNum else cfg.locRepeatNum
  }

  /** The count at the latest fit, or 0. */
  function LastFit(cfg: Config, own: seq<Event>): (k: nat)
    ensures k == 0 || FitAt(cfg, own, k)
    ensures forall j: nat | FitAt(cfg, own, j) :: j <= k
  {
    if own == [] then 0
    else if FitAt(cfg, own, |own|) then |own|
    else
      var k := LastFit(cfg, own[..|own| - 1]);
      assert forall j: nat | FitAt(cfg, own, j) :: FitAt(cfg, own[..|own| - 1], j);
      k
  }

  /** The pose after a latest fit at count `k`. */
  function PoseAfterFit(k: nat, seen: seq<Pose>): Pose
    requires seen != [] && k <= |seen|
  {
    if k == 0 then seen[0] else Quantise(Over(Sum(seen[..k]), k))
  }

  /** The row of a marker the operator never touched. */
  function UnattendedRow(cfg: Config, own: seq<Event>, seen: seq<Pose>): UserRow
    requires own != [] && |seen| == |own|
  {
    var k := LastFit(cfg, own);
    UserRow(PoseAfterFit(k, seen), |own|, 0, k != 0, false)
  }

  lemma PoseAfterFitIsStored(k: nat, seen: seq<Pose>)
    requires seen != [] && k <= |seen| && Quantise(seen[0]) == seen[0]
    ensures Quantise(PoseAfterFit(k, seen)) == PoseAfterFit(k, seen)
  {
    if k != 0 {
      StorageIsIdempotent(Over(Sum(seen[..k]), k));
    }
  }

  lemma PoseAfterFitPrefix(k: nat, seen: seq<Pose>, n: nat)
    requires 0 < n <= |seen| && k <= n
    ensures PoseAfterFit(k, seen[..n]) == PoseAfterFit(k, seen)
  {
    assert seen[..n][..k] == seen[..k];
  }

  lemma UnattendedStep(cfg: Config, own: seq<Event>, seen: seq<Pose>)
    requires |own| > 1 && |seen| == |own| && own[|own| - 1].Branch?
    requires Quantise(seen[0]) == seen[0]
    ensures var front, e := own[..|own| - 1], own[|own| - 1];
      UnattendedRow(cfg, own, seen)
        == Observe(cfg, UnattendedRow(cfg, front, seen[..|front|]), e.kind, e.pose, seen)
  {
    var front, e := own[..|own| - 1], own[|own| - 1];
    var k, r := LastFit(cfg, front), UnattendedRow(cfg, front, seen[..|front|]);
    PoseAfterFitPrefix(k, seen, |front|);
    PoseAfterFitIsStored(k, seen);
    assert FitAt(cfg, own, |own|) <==> Fires(cfg, r, e.kind);
    assert seen[..|own|] == seen;
  }

  lemma {:induction false} UnattendedFold(cfg: Config, own: seq<Event>)
    requires own != []
    requires forall e | e in own :: e.Branch?
    ensures var s := Fold(cfg, own);
      && |s.seen| == |own| && Quantise(s.seen[0]) == s.seen[0]
      && s.row == Some(UnattendedRow(cfg, own, s.seen))
  {
    var front, e := own[..|own| - 1], own[|own| - 1];
    assert e in own;
    StorageIsIdempotent(e.pose);
    if front == [] {
    } else {
      assert forall f | f in front :: f in own;
      UnattendedFold(cfg, front);
      var seen := Fold(cfg, own).seen;
      assert seen[..|front|] == Fold(cfg, front).seen;
      UnattendedStep(cfg, own, seen);
    }
  }

  /** What holds of a never-edited row even when its rows were evicted: all but the fitted pose. */
  ghost predicate AgreesButForFit(cfg: Config, own: seq<Event>, seen: seq<Pose>, row: Option<UserRow>) {
    && |seen| == |own|
    && if own == [] then row.None? else
         && row.Some?
         && var r := row.value;
            && r.cnt == |own| && r.sloppyCnt == 0 && !r.enable
            && (r.recommend <==> LastFit(cfg, own) != 0)
            && (LastFit(cfg, own) == 0 ==> r.pose == seen[0] == Quantise(seen[0]))
  }

  lemma AgreesStep(cfg: Config, own: seq<Event>, s: Summary, e: Event, held: nat)
    requires AgreesButForFit(cfg, own, s.seen, s.row) && e.Branch?
    ensures var s' := FoldStep(cfg, s, e, held);
      AgreesButForFit(cfg, own + [e], s'.seen, s'.row)
  {
    StorageIsIdempotent(e.pose);
    assert (own + [e])[..|own|] == own;
    assert FitAt(cfg, own + [e], |own| + 1) <==> own != [] && Fires(cfg, s.row.value, e.kind);
  }

  lemma {:induction false} HeldFoldAgrees(cfg: Config, events: seq<Event>, id: DmId)
    requires forall e | e in Own(events, id) :: e.Branch?
    ensures var s := HeldFold(cfg, events, id);
      AgreesButForFit(cfg, Own(events, id), s.seen, s.row)
  {
    if events == [] {
    } else {
      var front, e := events[..|events| - 1], events[|events| - 1];
      assert events == front + [e];
      SelectPush(front, e, About(id));
      assert forall f | f in Own(front, id) :: f in Own(events, id);
      HeldFoldAgrees(cfg, front, id);
      if e.id == id {
        assert e in Own(events, id);
        AgreesStep(cfg, Own(front, id), HeldFold(cfg, front, id), e, Held(cfg, events, id));
      } else {
        assert Own(front, id) + [] == Own(front, id);
      }
    }
  }

  /** Closed form of a never-edited marker over any run in both modes: recommended exactly once a count
      has met the threshold of its mode, and at the first sighting until then. If its fits are intact, it is
      at the stored mean of the first k sightings after the latest fit, at count k. */
  lemma UnattendedMarker(cfg: Config, events: seq<Event>, id: DmId)
    requires id != 0
    requires Own(events, id) != [] && forall e | e in Own(events, id) :: e.Branch?
    ensures var row := Lookup(Run(cfg, EMPTY, events).user, id);
      && AgreesButForFit(cfg, Own(events, id), Sightings(events, id), row)
      && (FitsIntact(cfg, events, id) ==>
            row == Some(UnattendedRow(cfg, Own(events, id), Sightings(events, id))))
  {
    RowIsHeldFold(cfg, events, id);
    HeldFoldSeen(cfg, events, id);
    HeldFoldAgrees(cfg, events, id);
    if FitsIntact(cfg, events, id) {
      RowIsFold(cfg, events, id);
      SeenIsSightings(cfg, events, id);
      UnattendedFold(cfg, Own(events, id));
    }
  }

  /** Both modes mixed: the marker is at the stored mean of its first `k` sightings, where the `k`-th was in
      recording mode and `k` is that mode's number of repeats, or in localization mode and it is that one's, and
      no later sighting is such. */
  lemma MixedModes(cfg: Config, events: seq<Event>, id: DmId, k: nat)
    requires id != 0 && forall e | e in Own(events, id) :: e.Branch?
    requires var own := Own(events, id);
      && 2 <= k <= |own| && k == (if own[k - 1].kind.Recording? then cfg.mappRepeatNum else cfg.locRepeatNum)
      && forall j | k <= j < |own| :: j + 1 != if own[j].kind.Recording? then cfg.mappRepeatNum else cfg.locRepeatNum
    ensures var user, seen := Run(cfg, EMPTY, events).user, Sightings(events, id);
      && id in user && user[id].recommend && k <= user[id].cnt == |seen|
      && (FitsIntact(cfg, events, id) ==> user[id].pose == Quantise(Over(Sum(seen[..k]), k)))
  {
    var own := Own(events, id);
    assert forall i | 0 <= i < |own| :: own[i] in own;
    assert FitAt(cfg, own, k);
    assert LastFit(cfg, own) == k;
    UnattendedMarker(cfg, events, id);
  }

  /** And at its first sighting, not recommended, as long as no sighting is such. */
  lemma MixedModesBefore(cfg: Config, events: seq<Event>, id: DmId)
    requires id != 0 && Own(events, id) != [] && forall e | e in Own(events, id) :: e.Branch?
    requires var own := Own(events, id);
      forall j | 1 <= j < |own| :: j + 1 != if own[j].kind.Recording? then cfg.mappRepeatNum else cfg.locRepeatNum
    ensures var user, seen := Run(cfg, EMPTY, events).user, Sightings(events, id);
      id in user && !user[id].recommend && user[id].cnt == |seen| > 0 && user[id].pose == seen[0]
  {
    var own := Own(events, id);
    var k := LastFit(cfg, own);
    assert k == 0;
    UnattendedMarker(cfg, events, id);
  }

  lemma OneModeOnly(cfg: Config, events: seq<Event>, id: DmId, n: nat)
    requires id != 0 && 2 <= n && Own(events, id) != []
    requires forall e | e in Own(events, id) ::
      e.Branch? && n == if e.kind.Recording? then cfg.mappRepeatNum else cfg.locRepeatNum
    ensures var user, seen := Run(cfg, EMPTY, events).user, Sightings(events, id);
      && id in user
      && user[id].cnt == |seen| > 0
      && (user[id].recommend <==> n <= |seen|)
      && (|seen| < n ==> user[id].pose == seen[0])
      && (n <= |seen| && FitsIntact(cfg, events, id) ==> user[id].pose == Quantise(Over(Sum(seen[..n]), n)))
  {
    var own := Own(events, id);
    assert forall i | 0 <= i < |own| :: own[i] in own;
    CountIsSightings(cfg, events, id);
    UnattendedMarker(cfg, events, id);
    if n <= |own| {
      MixedModes(cfg, events, id, n);
    } else {
      MixedModesBefore(cfg, events, id);
    }
  }

  /** A run that only records: over every run recommended exactly from N sightings on, and at the first
      sighting before; from then on, if its rows were held at the fit, at the stored mean of the first N. */
  lemma RecordingOnly(cfg: Config, events: seq<Event>, id: DmId)
    requires id != 0 && 2 <= cfg.mappRepeatNum
    requires Own(events, id) != [] && forall e | e in Own(events, id) :: e.Branch? && e.kind.Recording?
    ensures var user, seen, n := Run(cfg, EMPTY, events).user, Sightings(events, id), cfg.mappRepeatNum;
      && id in user
      && user[id].cnt == |seen| > 0
      && (user[id].recommend <==> n <= |seen|)
      && (|seen| < n ==> user[id].pose == seen[0])
      && (n <= |seen| && FitsIntact(cfg, events, id) ==> user[id].pose == Quantise(Over(Sum(seen[..n]), n)))
  {
    OneModeOnly(cfg, events, id, cfg.mappRepeatNum);
  }

  /** The same for a run that only localizes, with the other number of repeats. */
  lemma LocalizationOnly(cfg: Config, events: seq<Event>, id: DmId)
    requires id != 0 && 2 <= cfg.locRepeatNum
    requires Own(events, id) != [] && forall e | e in Own(events, id) :: e.Branch? && e.kind.Localization?
    ensures var user, seen, n := Run(cfg, EMPTY, events).user, Sightings(events, id), cfg.locRepeatNum;
      && id in user
      && user[id].cnt == |seen| > 0
      && (user[id].recommend <==> n <= |seen|)
      && (|seen| < n ==> user[id].pose == seen[0])
      && (n <= |seen| && FitsIntact(cfg, events, id) ==> user[id].pose == Quantise(Over(Sum(seen[..n]), n)))
  {
    OneModeOnly(cfg, events, id, cfg.locRepeatNum);
  }
}
