/** The enable, recommend and sloppy columns as functions of the event history alone, eviction
    included. */
module Recommendation {
  import opened Poses
  import opened SharedData
  import opened MarkerTables

  /** The operator's latest word on a marker that had a row at the time. */
  function EnabledBy(events: seq<Event>, id: DmId): bool {
    if events == [] then false
    else
      var front, e := events[..|events| - 1], events[|events| - 1];
      if e.SetEnable? && e.id == id && Sightings(front, id) != [] then e.on else EnabledBy(front, id)
  }

  lemma EnableStep(cfg: Config, t: Tables, e: Event, id: DmId)
    ensures var t' := Step(cfg, t, e);
      && (id in t'.user <==> id in t.user || (e.Branch? && e.id == id))
      && (id in t'.user ==>
            t'.user[id].enable
            == if id !in t.user then false
               else if e.SetEnable? && e.id == id then e.on else t.user[id].enable)
  {}

  /** The loop itself never sets or clears `enable`. */
  lemma {:induction false} EnableIsTheOperators(cfg: Config, events: seq<Event>, id: DmId)
    ensures var user := Run(cfg, EMPTY, events).user;
      id in user ==> user[id].enable == EnabledBy(events, id)
    ensures Sightings(events, id) == [] ==> !EnabledBy(events, id)
  {
    if events == [] {
    } else {
      var front, e := events[..|events| - 1], events[|events| - 1];
      EnableIsTheOperators(cfg, front, id);
      CountIsSightings(cfg, front, id);
      EnableStep(cfg, Run(cfg, EMPTY, front), e, id);
      SightingsPush(events, id);
    }
  }

  /** The `k`-th event recommends `id`: a repeated sighting, in recording mode if the marker is enabled,
      at the threshold of its mode if it is not. */
  predicate Recommends(cfg: Config, events: seq<Event>, k: nat, id: DmId)
    requires k < |events|
  {
    var e, seen := events[k], |Sightings(events[..k], id)|;
    && e.Branch? && e.id == id && seen != 0
    && if EnabledBy(events[..k], id) then e.kind.Recording?
       else seen + 1 == if e.kind.Recording? then cfg.mappRepeatNum else cfg.locRepeatNum
  }

  predicate RowRecommends(cfg: Config, r: UserRow, e: Event, id: DmId) {
    && e.Branch? && e.id == id
    && if r.enable then e.kind.Recording? else r.cnt + 1 == Threshold(cfg, e.kind)
  }

  lemma RecommendStep(cfg: Config, t: Tables, e: Event, id: DmId)
    requires id != 0
    ensures var t' := Step(cfg, t, e);
      && (id in t.user ==> id in t'.user)
      && (id in t'.user ==>
            (t'.user[id].recommend <==>
             && id in t.user
             && (t.user[id].recommend || RowRecommends(cfg, t.user[id], e, id))))
  {}

  lemma RecommendsPrefix(cfg: Config, events: seq<Event>, k: nat, id: DmId)
    requires k < |events| - 1
    ensures Recommends(cfg, events[..|events| - 1], k, id) == Recommends(cfg, events, k, id)
  {
    assert events[..|events| - 1][..k] == events[..k];
  }

  /** Over every run: a marker is recommended exactly if some event of its history recommended it. So the
      flag is never taken back, and neither other markers, nor eviction, nor moved poses affect it. */
  lemma {:induction false} RecommendedIff(cfg: Config, events: seq<Event>, id: DmId)
    requires id != 0
    ensures var user := Run(cfg, EMPTY, events).user;
      (id in user && user[id].recommend) <==> exists k: nat | k < |events| :: Recommends(cfg, events, k, id)
  {
    if events == [] {
    } else {
      var last := |events| - 1;
      var front, t := events[..last], Run(cfg, EMPTY, events[..last]);
      RecommendedIff(cfg, front, id);
      CountIsSightings(cfg, front, id);
      EnableIsTheOperators(cfg, front, id);
      RecommendStep(cfg, t, events[last], id);
      forall k: nat | k < last
        ensures Recommends(cfg, front, k, id) == Recommends(cfg, events, k, id)
      {
        RecommendsPrefix(cfg, events, k, id);
      }
      assert Recommends(cfg, events, last, id) <==>
        id in t.user && RowRecommends(cfg, t.user[id], events[last], id);
    }
  }

  // ---------- enabled markers ----------

  /** 1 for an execution for `id` whose trigger is farther than the threshold from the reference pose. */
  function Strays(cfg: Config, e: Event, id: DmId, reference: Pose): nat {
    if e.Branch? && e.id == id && Sloppy(cfg.locErrThreshold, reference, e.pose) then 1 else 0
  }

  function Outliers(cfg: Config, events: seq<Event>, id: DmId, reference: Pose): nat {
    if events == [] then 0
    else Outliers(cfg, events[..|events| - 1], id, reference) + Strays(cfg, events[|events| - 1], id, reference)
  }

  /** An enabled marker at its printed reference pose. */
  ghost predicate Watched(t: Tables, id: DmId, reference: Pose, cnt: nat, sloppyCnt: nat) {
    && Retrievable(t, id)
    && t.user[id].enable && t.user[id].pose == reference == Quantise(reference)
    && t.user[id].cnt == cnt && t.user[id].sloppyCnt == sloppyCnt
  }

  lemma WatchedStep(cfg: Config, t: Tables, e: Event, id: DmId, reference: Pose, cnt: nat, sloppyCnt: nat)
    requires Watched(t, id, reference, cnt, sloppyCnt)
    requires e.id == id ==> e.Branch?
    ensures Watched(Step(cfg, t, e), id, reference,
                    cnt + (if e.Branch? && e.id == id then 1 else 0), sloppyCnt + Strays(cfg, e, id, reference))
  {}

  /** An enabled marker keeps its reference pose, whatever threshold its counter passes, and counts exactly
      the triggers that strayed from that pose. */
  lemma {:induction false} EnabledMarkerCountsOutliers(
    cfg: Config, t: Tables, events: seq<Event>, id: DmId, reference: Pose, cnt: nat, sloppyCnt: nat)
    requires Watched(t, id, reference, cnt, sloppyCnt)
    requires forall e | e in events && e.id == id :: e.Branch?
    ensures Watched(Run(cfg, t, events), id, reference,
                    cnt + |Sightings(events, id)|, sloppyCnt + Outliers(cfg, events, id, reference))
  {
    if events == [] {
    } else {
      var front, e := events[..|events| - 1], events[|events| - 1];
      assert forall f | f in front :: f in events;
      assert e in events;
      EnabledMarkerCountsOutliers(cfg, t, front, id, reference, cnt, sloppyCnt);
      WatchedStep(cfg, Run(cfg, t, front), e, id, reference,
                  cnt + |Sightings(front, id)|, sloppyCnt + Outliers(cfg, front, id, reference));
      SightingsPush(events, id);
    }
  }

  // ---------- the sloppy counter ----------

  /** After `front`, event `e` is an execution for `id` while the operator has it enabled, and its trigger is
      farther than the threshold from the pose stored by then. */
  predicate SeenAway(cfg: Config, front: seq<Event>, e: Event, id: DmId) {
    var user := Run(cfg, EMPTY, front).user;
    && e.Branch? && e.id == id && EnabledBy(front, id)
    && id in user && Sloppy(cfg.locErrThreshold, user[id].pose, e.pose)
  }

  function TimesSeenAway(cfg: Config, events: seq<Event>, id: DmId): nat {
    if events == [] then 0
    else
      var front := events[..|events| - 1];
      TimesSeenAway(cfg, front, id) + if SeenAway(cfg, front, events[|events| - 1], id) then 1 else 0
  }

  lemma SloppyStep(cfg: Config, t: Tables, e: Event, id: DmId)
    requires id != 0
    ensures var t' := Step(cfg, t, e);
      && (id in t.user ==> id in t'.user)
      && (id in t'.user ==>
            t'.user[id].sloppyCnt
            == if id in t.user then
                 t.user[id].sloppyCnt + (if e.Branch? && e.id == id && Slipped(cfg, t.user[id], e.pose) then 1 else 0)
               else 0)
  {}

  /** Over every run, edits of the flag and of the pose, fits and eviction included: the sloppy counter is the
      number of times that the marker was seen away from its stored pose while enabled. */
  lemma {:induction false} SloppyCountIsTimesSeenAway(cfg: Config, events: seq<Event>, id: DmId)
    requires id != 0
    ensures var user := Run(cfg, EMPTY, events).user;
      if id in user then user[id].sloppyCnt == TimesSeenAway(cfg, events, id) else TimesSeenAway(cfg, events, id) == 0
  {
    if events == [] {
    } else {
      var front, e := events[..|events| - 1], events[|events| - 1];
      SloppyCountIsTimesSeenAway(cfg, front, id);
      EnableIsTheOperators(cfg, front, id);
      SloppyStep(cfg, Run(cfg, EMPTY, front), e, id);
    }
  }

  // ---------- the diagnostics ----------

  /** What event `e` issues after `front`: bit 0 if it announces a marker, bit 2 if it finds it out of place. */
  function Words(cfg: Config, front: seq<Event>, e: Event): seq<nat> {
    if e.Branch? && (e.id == 0 || Sightings(front, e.id) == []) then [1]
    else if e.id != 0 && SeenAway(cfg, front, e, e.id) then [4]
    else []
  }

  function AllWords(cfg: Config, events: seq<Event>): seq<nat> {
    if events == [] then []
    else
      var front := events[..|events| - 1];
      AllWords(cfg, front) + Words(cfg, front, events[|events| - 1])
  }

  lemma WordsStep(cfg: Config, front: seq<Event>, e: Event)
    ensures var t := Run(cfg, EMPTY, front);
      Step(cfg, t, e).diags == t.diags + Words(cfg, front, e)
  {
    CountIsSightings(cfg, front, e.id);
    EnableIsTheOperators(cfg, front, e.id);
    var diags := Run(cfg, EMPTY, front).diags;
    assert diags + [] == diags;
  }

  /** Over every run the diagnostics are, in order, what the history says: every first sighting and every one of
      id 0 is announced, and every enabled marker seen out of place is reported. */
  lemma {:induction false} DiagnosticsAreTheWords(cfg: Config, events: seq<Event>)
    ensures Run(cfg, EMPTY, events).diags == AllWords(cfg, events)
  {
    if events == [] {
    } else {
      var front := events[..|events| - 1];
      DiagnosticsAreTheWords(cfg, front);
      WordsStep(cfg, front, events[|events| - 1]);
    }
  }
}
