/** Totals over the user table balance against the log and the diagnostics. */
module Conservation {
  import opened SharedData
  import opened MarkerTables

  ghost function Total(m: map<DmId, nat>): nat
    decreases |m|
  {
    if m == map[] then 0
    else
      var k :| k in m;
      m[k] + Total(m - {k})
  }

  lemma {:induction false} TotalSplit(m: map<DmId, nat>, k: DmId)
    requires k in m
    ensures Total(m) == m[k] + Total(m - {k})
    decreases |m|
  {
    var j :| j in m && Total(m) == m[j] + Total(m - {j});
    if j != k {
      TotalSplit(m - {j}, k);
      TotalSplit(m - {k}, j);
      assert m - {j} - {k} == m - {k} - {j};
    }
  }

  lemma TotalPut(m: map<DmId, nat>, k: DmId, v: nat)
    ensures Total(m[k := v]) + (if k in m then m[k] else 0) == Total(m) + v
  {
    TotalSplit(m[k := v], k);
    if k in m {
      TotalSplit(m, k);
      assert m[k := v] - {k} == m - {k};
    } else {
      assert m[k := v] - {k} == m;
    }
  }

  /** The counters of the retrievable rows. */
  function Counts(t: Tables): map<DmId, nat> {
    map id | id in t.user && id != 0 :: t.user[id].cnt
  }

  function SloppyCounts(t: Tables): map<DmId, nat> {
    map id | id in t.user && id != 0 :: t.user[id].sloppyCnt
  }

  function Issued(t: Tables, word: nat): nat {
    multiset(t.diags)[word]
  }

  lemma StepColumns(cfg: Config, t: Tables, e: Event)
    ensures var t' := Step(cfg, t, e);
      if e.Branch? && e.id != 0 then
        && Counts(t') == Counts(t)[e.id := t'.user[e.id].cnt]
        && SloppyCounts(t') == SloppyCounts(t)[e.id := t'.user[e.id].sloppyCnt]
      else
        Counts(t') == Counts(t) && SloppyCounts(t') == SloppyCounts(t)
  {
    if e.Branch? && e.id != 0 {
      var t' := StepBranch(cfg, t, e.id, e.kind, e.pose);
      assert t'.user == t.user[e.id := t'.user[e.id]];
    }
  }

  lemma StepIssued(cfg: Config, t: Tables, e: Event, word: nat)
    ensures Issued(Step(cfg, t, e), word) == Issued(t, word)
      + if e.Branch? && (if Retrievable(t, e.id) then Slipped(cfg, t.user[e.id], e.pose) && word == SLOPPY_MARKER
                         else word == NEW_MARKER)
        then 1 else 0
  {
    if e.Branch? && Retrievable(t, e.id) && !Slipped(cfg, t.user[e.id], e.pose) {
      assert t.diags + [] == t.diags;
    }
  }

  lemma StepTotals(cfg: Config, t: Tables, e: Event)
    ensures var t' := Step(cfg, t, e);
      && Total(Counts(t')) == Total(Counts(t)) + (if e.Branch? && e.id != 0 then 1 else 0)
      && Total(SloppyCounts(t')) + Issued(t, SLOPPY_MARKER) == Total(SloppyCounts(t)) + Issued(t', SLOPPY_MARKER)
      && |Counts(t')| + Issued(t, NEW_MARKER) + (if e.Branch? && e.id == 0 then 1 else 0)
         == |Counts(t)| + Issued(t', NEW_MARKER)
  {
    var t' := Step(cfg, t, e);
    StepColumns(cfg, t, e);
    StepIssued(cfg, t, e, SLOPPY_MARKER);
    StepIssued(cfg, t, e, NEW_MARKER);
    if e.Branch? && e.id != 0 {
      TotalPut(Counts(t), e.id, t'.user[e.id].cnt);
      TotalPut(SloppyCounts(t), e.id, t'.user[e.id].sloppyCnt);
    }
  }

  /** Over every run, edits and mode flips included: the counters add up to the rows ever logged for
      retrievable ids, the sloppy counters to the diagnostics with bit 2 alone, and the rows to those with bit 0
      alone, less one for each execution for id 0, which is announced every time. No other word is issued. */
  lemma {:induction false} TotalsBalance(cfg: Config, events: seq<Event>)
    ensures var t, zeros := Run(cfg, EMPTY, events), |Sightings(events, 0)|;
      && Total(Counts(t)) + zeros == |Appended(events)|
      && Total(SloppyCounts(t)) == Issued(t, 4)
      && |Counts(t)| + zeros == Issued(t, 1)
      && forall word | word in t.diags :: word in {1, 4}
  {
    if events == [] {
    } else {
      var front, e := events[..|events| - 1], events[|events| - 1];
      TotalsBalance(cfg, front);
      StepTotals(cfg, Run(cfg, EMPTY, front), e);
      SightingsPush(events, 0);
    }
  }
}
