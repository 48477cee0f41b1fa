/** The two marker tables as a machine over branch executions.

    An event is one execution of a mode branch of the main loop, or an edit made by the operator in
    the user table. Nothing else changes the tables: MainLoop proves that for the imperative loop,
    whatever metadata the loop carries from one trigger to the next. */
module MarkerTables {
  import opened Windows
  import opened Poses
  import opened SharedData

  datatype Kind = Recording | Localization

  datatype Config = Config(mappRepeatNum: nat, locRepeatNum: nat, locErrThreshold: real, maxRowSelfDb: nat)

  datatype UserRow = UserRow(pose: Pose, cnt: nat, sloppyCnt: nat, recommend: bool, enable: bool)

  /** The columns of the observation log that are trustworthy. */
  datatype Entry = Entry(id: DmId, pose: Pose)

  datatype Tables = Tables(user: map<DmId, UserRow>, log: seq<Entry>, diags: seq<nat>)

  datatype Event =
    | Branch(id: DmId, kind: Kind, pose: Pose)
    | SetEnable(id: DmId, on: bool)
    | SetPose(id: DmId, pose: Pose)

  type Edit = e: Event | !e.Branch? witness SetEnable(0, false)

  const EMPTY := Tables(map[], [], [])

  /** Diagnostic words: bit 0 announces a new marker, bit 2 a sloppy one. */
  const NEW_MARKER: nat := 1
  const SLOPPY_MARKER: nat := 4

  function Threshold(cfg: Config, kind: Kind): nat {
    if kind.Recording? then cfg.mappRepeatNum else cfg.locRepeatNum
  }

  // ---------- one event ----------

  /** Id 0 is never retrieved, even when its row exists. */
  predicate Retrievable(t: Tables, id: DmId) {
    id != 0 && id in t.user
  }

  predicate Fires(cfg: Config, r: UserRow, kind: Kind) {
    !r.enable && r.cnt + 1 == Threshold(cfg, kind)
  }

  predicate Slipped(cfg: Config, r: UserRow, p: Pose) {
    r.enable && Sloppy(cfg.locErrThreshold, r.pose, p)
  }

  /** The pose the loop holds in memory when a branch that found row `r` ends. */
  function HeldPose(cfg: Config, r: UserRow, kind: Kind, logged: seq<Pose>): Pose {
    if Fires(cfg, r, kind) then Over(Sum(logged), r.cnt + 1) else r.pose
  }

  /** The row of a marker that is seen again at `p`, when `logged` are the poses of its log rows. */
  function Observe(cfg: Config, r: UserRow, kind: Kind, p: Pose, logged: seq<Pose>): UserRow {
    UserRow(Quantise(HeldPose(cfg, r, kind, logged)),
            r.cnt + 1,
            r.sloppyCnt + (if Slipped(cfg, r, p) then 1 else 0),
            r.recommend || Fires(cfg, r, kind) || (kind.Recording? && r.enable),
            r.enable)
  }

  function FirstRow(p: Pose): UserRow {
    UserRow(Quantise(p), 1, 0, false, false)
  }

  function WithEntry(log: seq<Entry>, id: DmId, p: Pose, maxRow: nat): seq<Entry> {
    Slide(log, Entry(id, Quantise(p)), maxRow)
  }

  function HasId(id: DmId): Entry -> bool {
    (e: Entry) => e.id == id
  }

  function PosesIn(log: seq<Entry>): (ps: seq<Pose>)
    ensures |ps| == |log|
  {
    seq(|log|, i requires 0 <= i < |log| => log[i].pose)
  }

  function PosesOf(log: seq<Entry>, id: DmId): seq<Pose> {
    PosesIn(Select(log, HasId(id)))
  }

  function StepBranch(cfg: Config, t: Tables, id: DmId, kind: Kind, p: Pose): Tables {
    var log := WithEntry(t.log, id, p, cfg.maxRowSelfDb);
    if Retrievable(t, id) then
      var r := t.user[id];
      Tables(t.user[id := Observe(cfg, r, kind, p, PosesOf(log, id))],
             log,
             t.diags + if Slipped(cfg, r, p) then [SLOPPY_MARKER] else [])
    else
      Tables(if id in t.user then t.user else t.user[id := FirstRow(p)],
             log,
             t.diags + [NEW_MARKER])
  }

  function Step(cfg: Config, t: Tables, e: Event): Tables {
    match e
    case Branch(id, kind, p) => StepBranch(cfg, t, id, kind, p)
    case SetEnable(id, on) =>
      if id in t.user then t.(user := t.user[id := t.user[id].(enable := on)]) else t
    case SetPose(id, p) =>
      if id in t.user then t.(user := t.user[id := t.user[id].(pose := p)]) else t
  }

  // ---------- runs ----------

  function Run(cfg: Config, t: Tables, events: seq<Event>): Tables {
    if events == [] then t
    else Step(cfg, Run(cfg, t, events[..|events| - 1]), events[|events| - 1])
  }

  lemma RunPush(cfg: Config, t: Tables, events: seq<Event>, e: Event)
    ensures Run(cfg, t, events + [e]) == Step(cfg, Run(cfg, t, events), e)
  {
    assert (events + [e])[..|events|] == events;
  }

  lemma {:induction false} RunConcat(cfg: Config, t: Tables, a: seq<Event>, b: seq<Event>)
    ensures Run(cfg, t, a + b) == Run(cfg, Run(cfg, t, a), b)
  {
    if b == [] {
      assert a + b == a;
    } else {
      var front, e := b[..|b| - 1], b[|b| - 1];
      assert a + b == a + front + [e];
      RunPush(cfg, t, a + front, e);
      RunConcat(cfg, t, a, front);
    }
  }

  /** Every row ever appended to the log, in order. Reads the events only. */
  function Appended(events: seq<Event>): (log: seq<Entry>)
    ensures |log| <= |events|
  {
    if events == [] then []
    else
      var e := events[|events| - 1];
      Appended(events[..|events| - 1]) + if e.Branch? then [Entry(e.id, Quantise(e.pose))] else []
  }

  /** The stored poses of all executions for `id`. */
  function Sightings(events: seq<Event>, id: DmId): seq<Pose> {
    PosesOf(Appended(events), id)
  }

  lemma PosesOfPush(log: seq<Entry>, e: Entry, id: DmId)
    ensures PosesOf(log + [e], id) == PosesOf(log, id) + if e.id == id then [e.pose] else []
  {
    SelectPush(log, e, HasId(id));
  }

  lemma SightingsPush(events: seq<Event>, id: DmId)
    requires events != []
    ensures var e := events[|events| - 1];
      Sightings(events, id) == Sightings(events[..|events| - 1], id)
                               + if e.Branch? && e.id == id then [Quantise(e.pose)] else []
  {
    var log, e := Appended(events[..|events| - 1]), events[|events| - 1];
    if e.Branch? {
      PosesOfPush(log, Entry(e.id, Quantise(e.pose)), id);
    } else {
      assert log + [] == log;
    }
  }

  lemma PosesOfLast(log: seq<Entry>, n: nat, id: DmId)
    requires n <= |log|
    ensures |PosesOf(Last(log, n), id)| <= |PosesOf(log, id)|
    ensures PosesOf(Last(log, n), id) == Last(PosesOf(log, id), |PosesOf(Last(log, n), id)|)
  {
    SelectLast(log, n, HasId(id));
  }

  lemma PosesOfWithEntry(log: seq<Entry>, id: DmId, p: Pose, maxRow: nat, other: DmId)
    ensures |PosesOf(WithEntry(log, id, p, maxRow), other)|
         <= |PosesOf(log, other)| + if other == id then 1 else 0
  {
    var grown := log + [Entry(id, Quantise(p))];
    PosesOfPush(log, Entry(id, Quantise(p)), other);
    PosesOfLast(grown, |log|, other);
    assert grown[1..] == Last(grown, |log|);
  }

  // ---------- the log is a window over the run ----------

  /** From empty tables the log always holds exactly the newest rows of the run. */
  lemma {:induction false} LogIsWindow(cfg: Config, events: seq<Event>)
    ensures var all := Appended(events);
      Run(cfg, EMPTY, events).log == Last(all, Min(|all|, cfg.maxRowSelfDb))
  {
    if events == [] {
    } else {
      var front, e := events[..|events| - 1], events[|events| - 1];
      LogIsWindow(cfg, front);
      var all := Appended(front);
      if e.Branch? {
        SlideOfLast(all, Min(|all|, cfg.maxRowSelfDb), Entry(e.id, Quantise(e.pose)), cfg.maxRowSelfDb);
      } else {
        assert all + [] == all;
      }
    }
  }

  // ---------- what every event keeps ----------

  /** A marker's counter is positive and bounds its rows in the log; a marker without a row has none
      there. */
  ghost predicate Bounded(t: Tables) {
    forall id: DmId | id != 0 :: BoundedAt(t, id)
  }

  ghost predicate BoundedAt(t: Tables, id: DmId) {
    if id in t.user then
      |PosesOf(t.log, id)| <= t.user[id].cnt && t.user[id].sloppyCnt < t.user[id].cnt
    else
      PosesOf(t.log, id) == []
  }

  lemma StepKeepsBounded(cfg: Config, t: Tables, e: Event)
    requires Bounded(t)
    ensures Bounded(Step(cfg, t, e))
  {
    forall id: DmId | id != 0
      ensures BoundedAt(Step(cfg, t, e), id)
    {
      assert BoundedAt(t, id);
      if e.Branch? {
        PosesOfWithEntry(t.log, e.id, e.pose, cfg.maxRowSelfDb, id);
      }
    }
  }

  /** In every reachable state, from any bounded start, `sloppyCnt < cnt` for each retrievable row and
      no marker has more log rows than its counter says. */
  lemma {:induction false} RunKeepsBounded(cfg: Config, t: Tables, events: seq<Event>)
    requires Bounded(t)
    ensures Bounded(Run(cfg, t, events))
  {
    if events == [] {
    } else {
      RunKeepsBounded(cfg, t, events[..|events| - 1]);
      StepKeepsBounded(cfg, Run(cfg, t, events[..|events| - 1]), events[|events| - 1]);
    }
  }

  // ---------- counters ----------

  ghost predicate Counted(t: Tables, id: DmId, sightings: nat) {
    && (id in t.user <==> sightings != 0)
    && (id in t.user && id != 0 ==> t.user[id].cnt == sightings)
    && (id in t.user && id == 0 ==> t.user[id].cnt == 1 && t.user[id].sloppyCnt == 0 && !t.user[id].recommend)
  }

  lemma StepCounts(cfg: Config, t: Tables, e: Event, id: DmId, sightings: nat)
    requires Counted(t, id, sightings)
    ensures Counted(Step(cfg, t, e), id, sightings + if e.Branch? && e.id == id then 1 else 0)
  {}

  /** The stored counter is the number of log rows ever appended for the id, however the modes flip.
      Id 0 stays as first inserted, apart from the operator's edits, while its log grows. */
  lemma {:induction false} CountIsSightings(cfg: Config, events: seq<Event>, id: DmId)
    ensures Counted(Run(cfg, EMPTY, events), id, |Sightings(events, id)|)
  {
    if events == [] {
    } else {
      var front, e := events[..|events| - 1], events[|events| - 1];
      CountIsSightings(cfg, front, id);
      StepCounts(cfg, Run(cfg, EMPTY, front), e, id, |Sightings(front, id)|);
      SightingsPush(events, id);
    }
  }

  /** Untouched by the operator, the row of id 0 is its first sighting for ever. */
  lemma {:induction false} ZeroStaysAsInserted(cfg: Config, events: seq<Event>)
    requires forall e | e in events && e.id == 0 :: e.Branch?
    ensures var user, seen := Run(cfg, EMPTY, events).user, Sightings(events, 0);
      if seen == [] then 0 !in user else 0 in user && user[0] == UserRow(seen[0], 1, 0, false, false)
  {
    if events == [] {
    } else {
      var front := events[..|events| - 1];
      assert forall e | e in front :: e in events;
      assert events[|events| - 1] in events;
      ZeroStaysAsInserted(cfg, front);
      SightingsPush(events, 0);
    }
  }

  // ---------- fits ----------

  predicate FiresAt(cfg: Config, t: Tables, e: Event, id: DmId) {
    e.Branch? && e.id == id && Retrievable(t, id) && Fires(cfg, t.user[id], e.kind)
  }

  /** The thresholds at which `fitPose` ran for `id`, in order. */
  function Fits(cfg: Config, t: Tables, events: seq<Event>, id: DmId): (fits: seq<nat>)
    ensures |fits| <= |events|
  {
    if events == [] then []
    else
      var front, e := events[..|events| - 1], events[|events| - 1];
      Fits(cfg, t, front, id)
      + if FiresAt(cfg, Run(cfg, t, front), e, id) then [Threshold(cfg, e.kind)] else []
  }

  /** How many distinct thresholds, 2 or more, a counter has reached. */
  function ThresholdsReached(cfg: Config, cnt: nat): (n: nat)
    ensures n <= 2
  {
    (if 2 <= cfg.mappRepeatNum <= cnt then 1 else 0)
    + (if 2 <= cfg.locRepeatNum <= cnt && cfg.locRepeatNum != cfg.mappRepeatNum then 1 else 0)
  }

  ghost predicate FitsLegal(cfg: Config, fits: seq<nat>, cnt: nat) {
    && |fits| <= ThresholdsReached(cfg, cnt)
    && (forall i, j | 0 <= i < j < |fits| :: fits[i] < fits[j])
    && (forall i | 0 <= i < |fits| :: 2 <= fits[i] <= cnt)
    && (forall i | 0 <= i < |fits| :: fits[i] == cfg.mappRepeatNum || fits[i] == cfg.locRepeatNum)
  }

  lemma FitsLegalPush(cfg: Config, fits: seq<nat>, cnt: nat)
    requires FitsLegal(cfg, fits, cnt)
    ensures FitsLegal(cfg, fits, cnt + 1)
    ensures 1 <= cnt && (cnt + 1 == cfg.mappRepeatNum || cnt + 1 == cfg.locRepeatNum)
        ==> FitsLegal(cfg, fits + [cnt + 1], cnt + 1)
  {}

  lemma FitsPush(cfg: Config, events: seq<Event>, id: DmId)
    requires events != []
    ensures var front := events[..|events| - 1];
      var fits, cnt := Fits(cfg, EMPTY, front, id), |Sightings(front, id)|;
      && |Sightings(events, id)| in {cnt, cnt + 1}
      && (Fits(cfg, EMPTY, events, id) == fits
          || (&& Fits(cfg, EMPTY, events, id) == fits + [cnt + 1]
              && |Sightings(events, id)| == cnt + 1
              && 1 <= cnt && (cnt + 1 == cfg.mappRepeatNum || cnt + 1 == cfg.locRepeatNum)))
  {
    var front, e := events[..|events| - 1], events[|events| - 1];
    SightingsPush(events, id);
    var fits := Fits(cfg, EMPTY, front, id);
    if FiresAt(cfg, Run(cfg, EMPTY, front), e, id) {
      CountIsSightings(cfg, front, id);
    } else {
      assert fits + [] == fits;
    }
  }

  /** Over a whole run a marker is fitted at most once per distinct threshold reached, so at most twice,
      at increasing counts, and never with a threshold below 2: the division is defined. */
  lemma {:induction false} FittedAtMostTwice(cfg: Config, events: seq<Event>, id: DmId)
    ensures FitsLegal(cfg, Fits(cfg, EMPTY, events, id), |Sightings(events, id)|)
  {
    if events == [] {
    } else {
      var front := events[..|events| - 1];
      FittedAtMostTwice(cfg, front, id);
      FitsPush(cfg, events, id);
      FitsLegalPush(cfg, Fits(cfg, EMPTY, front, id), |Sightings(front, id)|);
    }
  }

  // ---------- what one fit stores ----------

  /** The log's rows for an id are its newest sightings. */
  lemma NewestSightings(cfg: Config, events: seq<Event>, id: DmId)
    ensures var held, seen := PosesOf(Run(cfg, EMPTY, events).log, id), Sightings(events, id);
      |held| <= |seen| && held == Last(seen, |held|)
  {
    LogIsWindow(cfg, events);
    var all := Appended(events);
    PosesOfLast(all, Min(|all|, cfg.maxRowSelfDb), id);
  }

  /** When a fit fires at count N, `LIMIT N` never has to choose: the log holds at most N rows for the
      id, namely the newest of the N sightings. The stored pose is their sum divided by N and rounded.
      If none was evicted that is the mean of all N. */
  lemma FitIsSurvivingSum(cfg: Config, front: seq<Event>, e: Event)
    requires FiresAt(cfg, Run(cfg, EMPTY, front), e, e.id)
    ensures var n, seen := Threshold(cfg, e.kind), Sightings(front + [e], e.id);
      var t := Run(cfg, EMPTY, front + [e]);
      var kept := |PosesOf(t.log, e.id)|;
      && 2 <= n == |seen| && kept <= n
      && PosesOf(t.log, e.id) == Last(seen, kept)
      && t.user[e.id].pose == Quantise(Over(Sum(Last(seen, kept)), n))
      && (kept == n ==> t.user[e.id].pose == Quantise(Over(Sum(seen), |seen|)))
  {
    var events, id, t := front + [e], e.id, Run(cfg, EMPTY, front);
    RunPush(cfg, EMPTY, front, e);
    CountIsSightings(cfg, front, id);
    CountIsSightings(cfg, events, id);
    var n, logged := t.user[id].cnt + 1, PosesOf(WithEntry(t.log, id, e.pose, cfg.maxRowSelfDb), id);
    assert Step(cfg, t, e).user[id].pose == Quantise(Over(Sum(logged), n));
    NewestSightings(cfg, events, id);
    assert Last(Sightings(events, id), n) == Sightings(events, id);
  }

  /** The fitted pose stays inside every stored box around the sightings it was made from. */
  lemma FitWithinSightings(cfg: Config, front: seq<Event>, e: Event, lo: Pose, hi: Pose)
    requires FiresAt(cfg, Run(cfg, EMPTY, front), e, e.id)
    requires |PosesOf(Run(cfg, EMPTY, front + [e]).log, e.id)| == |Sightings(front + [e], e.id)|
    requires Quantise(lo) == lo && Quantise(hi) == hi
    requires forall p | p in Sightings(front + [e], e.id) :: Within(lo, p, hi)
    ensures Within(lo, Run(cfg, EMPTY, front + [e]).user[e.id].pose, hi)
  {
    FitIsSurvivingSum(cfg, front, e);
    StoredMeanWithin(lo, Sightings(front + [e], e.id), hi);
  }

  // ---------- no drift ----------

  /** Any number of retrieve and update cycles without a fit and without an operator's move leaves a
      stored pose as it was; an unprinted one is printed once. */
  lemma {:induction false} NoDrift(cfg: Config, t: Tables, events: seq<Event>, id: DmId)
    requires id in t.user
    requires Fits(cfg, t, events, id) == []
    requires forall e | e in events :: !(e.SetPose? && e.id == id)
    ensures var t' := Run(cfg, t, events);
      && id in t'.user
      && t'.user[id].pose in {t.user[id].pose, Quantise(t.user[id].pose)}
      && (Quantise(t.user[id].pose) == t.user[id].pose ==> t'.user[id].pose == t.user[id].pose)
  {
    if events == [] {
    } else {
      var front, e := events[..|events| - 1], events[|events| - 1];
      assert forall f | f in front :: f in events;
      assert e in events;
      NoDrift(cfg, t, front, id);
      StorageIsIdempotent(t.user[id].pose);
    }
  }

  /** A marker that the operator has moved to `p` stays there until it is fitted or moved again; the next
      update prints `p` once. */
  lemma MovedMarkerStays(cfg: Config, front: seq<Event>, id: DmId, p: Pose, later: seq<Event>)
    requires Sightings(front, id) != []
    requires Fits(cfg, Run(cfg, EMPTY, front + [SetPose(id, p)]), later, id) == []
    requires forall e | e in later :: !(e.SetPose? && e.id == id)
    ensures var user := Run(cfg, EMPTY, front + [SetPose(id, p)] + later).user;
      id in user && user[id].pose in {p, Quantise(p)} && (later == [] ==> user[id].pose == p)
  {
    CountIsSightings(cfg, front, id);
    RunPush(cfg, EMPTY, front, SetPose(id, p));
    var t := Run(cfg, EMPTY, front + [SetPose(id, p)]);
    assert id in t.user && t.user[id].pose == p;
    RunConcat(cfg, EMPTY, front + [SetPose(id, p)], later);
    NoDrift(cfg, t, later, id);
  }
}
