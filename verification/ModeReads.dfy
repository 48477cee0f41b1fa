/** Which mode each test has read: the latest one written before it. */
module ModeReads {
  import opened SharedData
  import opened Threads

  /** The latest mode that the listener has written; 0xfd before the first. */
  function LatestMode(schedule: seq<Action>): nat {
    if schedule == [] then 0xfd
    else
      match schedule[|schedule| - 1]
      case WriteMode(m) => m
      case _ => LatestMode(schedule[..|schedule| - 1])
  }

  lemma {:induction false} ModeIsLatest(schedule: seq<Action>)
    ensures Exec(schedule).mode == LatestMode(schedule)
  {
    if schedule == [] {
    } else {
      var front, action := schedule[..|schedule| - 1], schedule[|schedule| - 1];
      ModeIsLatest(front);
      ExecPush(front, action);
      assert front + [action] == schedule;
    }
  }

  // ---------- the tests ----------

  /** The `n`-th action is the main thread's test of the mode in its `i`-th trigger, the second if `again`; the
      mode written latest before it is `mode`. */
  ghost predicate TestsInTrigger(schedule: seq<Action>, n: nat, i: nat, again: bool, mode: nat) {
    n < |schedule| && schedule[n] == ConsumerMoves &&
      var s := Exec(schedule[..n]);
      && |s.triggers| == i && (if again then s.consumer.ChoosingAgain? else s.consumer.Choosing?)
      && mode == LatestMode(schedule[..n])
  }

  ghost predicate TestsInBody(schedule: seq<Action>, n: nat, i: nat, again: bool, mode: nat) {
    n < |schedule| && schedule[n] == ConsumerMoves &&
      var s := Exec(schedule[..n]);
      && |s.bodies| == i + 1 && (if again then s.consumer.TestingAgain? else s.consumer.Testing?)
      && mode == LatestMode(schedule[..n])
  }

  ghost predicate ReadInTrigger(schedule: seq<Action>, i: nat, again: bool, mode: nat) {
    exists n: nat :: TestsInTrigger(schedule, n, i, again, mode)
  }

  ghost predicate ReadInBody(schedule: seq<Action>, i: nat, again: bool, mode: nat) {
    exists n: nat :: TestsInBody(schedule, n, i, again, mode)
  }

  lemma MoreActions(schedule: seq<Action>, action: Action, i: nat, again: bool, mode: nat)
    ensures ReadInTrigger(schedule, i, again, mode) ==> ReadInTrigger(schedule + [action], i, again, mode)
    ensures ReadInBody(schedule, i, again, mode) ==> ReadInBody(schedule + [action], i, again, mode)
  {
    var more := schedule + [action];
    if ReadInTrigger(schedule, i, again, mode) {
      var n: nat :| TestsInTrigger(schedule, n, i, again, mode);
      assert more[..n] == schedule[..n];
      assert TestsInTrigger(more, n, i, again, mode);
    }
    if ReadInBody(schedule, i, again, mode) {
      var n: nat :| TestsInBody(schedule, n, i, again, mode);
      assert more[..n] == schedule[..n];
      assert TestsInBody(more, n, i, again, mode);
    }
  }

  lemma TestNow(schedule: seq<Action>)
    ensures var s, more := Exec(schedule), schedule + [ConsumerMoves];
      && (s.consumer.Choosing? ==> ReadInTrigger(more, |s.triggers|, false, s.mode))
      && (s.consumer.ChoosingAgain? ==> ReadInTrigger(more, |s.triggers|, true, s.mode))
      && (s.consumer.Testing? && s.bodies != [] ==> ReadInBody(more, |s.bodies| - 1, false, s.mode))
      && (s.consumer.TestingAgain? && s.bodies != [] ==> ReadInBody(more, |s.bodies| - 1, true, s.mode))
  {
    var s, more, n := Exec(schedule), schedule + [ConsumerMoves], |schedule|;
    ModeIsLatest(schedule);
    assert more[..n] == schedule;
    if s.consumer.Choosing? || s.consumer.ChoosingAgain? {
      assert TestsInTrigger(more, n, |s.triggers|, s.consumer.ChoosingAgain?, s.mode);
    } else if (s.consumer.Testing? || s.consumer.TestingAgain?) && s.bodies != [] {
      assert TestsInBody(more, n, |s.bodies| - 1, s.consumer.TestingAgain?, s.mode);
    }
  }

  // ---------- every recorded mode was read ----------

  /** The second test of a trigger is made unless the first has found 0xff. */
  ghost predicate TriggerModesRead(schedule: seq<Action>) {
    var s := Exec(schedule);
    && (forall i | 0 <= i < |s.triggers| ::
          && ReadInTrigger(schedule, i, false, s.triggers[i].mode)
          && ReadInTrigger(schedule, i, s.triggers[i].mode != 0xff, s.triggers[i].mode'))
    && (s.consumer.ChoosingAgain? ==>
          s.consumer.first != 0xff && ReadInTrigger(schedule, |s.triggers|, false, s.consumer.first))
  }

  ghost predicate BodyModesRead(schedule: seq<Action>) {
    var s := Exec(schedule);
    forall i, j | 0 <= i < |s.bodies| && 0 <= j < |s.bodies[i].modes| ::
      ReadInBody(schedule, i, j == 1, s.bodies[i].modes[j])
  }

  lemma TriggersGrow(s: State, action: Action)
    ensures var s' := Apply(s, action);
      && (s'.triggers == s.triggers
          || (&& action == ConsumerMoves && |s'.triggers| == |s.triggers| + 1
              && s'.triggers[..|s.triggers|] == s.triggers
              && var t := s'.triggers[|s.triggers|];
                 && t.mode' == s.mode
                 && if s.consumer.ChoosingAgain? then t.mode == s.consumer.first
                    else s.consumer.Choosing? && t.mode == s.mode == 0xff))
      && (s'.consumer.ChoosingAgain? && s'.consumer != s.consumer ==>
            s.consumer.Choosing? && s'.consumer.first == s.mode != 0xff && action == ConsumerMoves)
      && (s'.consumer.ChoosingAgain? ==> s'.triggers == s.triggers)
  {}

  lemma BodiesGrow(s: State, action: Action)
    ensures var s', last := Apply(s, action), |s.bodies| - 1;
      || s'.bodies == s.bodies
      || (exists age: nat :: s'.bodies == s.bodies + [BodyRun(age, [])])
      || (&& action == ConsumerMoves && (s.consumer.Testing? || s.consumer.TestingAgain?) && 0 <= last
          && s'.bodies == s.bodies[last := s.bodies[last].(modes := s.bodies[last].modes + [s.mode])])
  {}

  lemma TriggerModesStep(schedule: seq<Action>, action: Action)
    requires TriggerModesRead(schedule)
    ensures TriggerModesRead(schedule + [action])
  {
    var more, s, s' := schedule + [action], Exec(schedule), Apply(Exec(schedule), action);
    ExecPush(schedule, action);
    TriggersGrow(s, action);
    TestNow(schedule);
    forall i | 0 <= i < |s'.triggers|
      ensures ReadInTrigger(more, i, false, s'.triggers[i].mode)
      ensures ReadInTrigger(more, i, s'.triggers[i].mode != 0xff, s'.triggers[i].mode')
    {
      if i < |s.triggers| {
        assert s'.triggers[i] == s.triggers[i];
        MoreActions(schedule, action, i, false, s.triggers[i].mode);
        MoreActions(schedule, action, i, s.triggers[i].mode != 0xff, s.triggers[i].mode');
      } else if s.consumer.ChoosingAgain? {
        MoreActions(schedule, action, i, false, s.consumer.first);
      }
    }
    if s'.consumer.ChoosingAgain? {
      MoreActions(schedule, action, |s.triggers|, false, s'.consumer.first);
    }
  }

  lemma BodyModesStep(schedule: seq<Action>, action: Action)
    requires BodyModesRead(schedule) && ModeTested(Exec(schedule))
    ensures BodyModesRead(schedule + [action])
  {
    var more, s, s' := schedule + [action], Exec(schedule), Apply(Exec(schedule), action);
    ExecPush(schedule, action);
    BodiesGrow(s, action);
    TestNow(schedule);
    forall i, j | 0 <= i < |s'.bodies| && 0 <= j < |s'.bodies[i].modes|
      ensures ReadInBody(more, i, j == 1, s'.bodies[i].modes[j])
    {
      if i < |s.bodies| && j < |s.bodies[i].modes| {
        assert s'.bodies[i].modes[j] == s.bodies[i].modes[j];
        MoreActions(schedule, action, i, j == 1, s.bodies[i].modes[j]);
      } else {
        assert i == |s.bodies| - 1 && j == TestsMade(s.consumer);
      }
    }
  }

  /** Under every schedule: each mode that a trigger or a body has recorded is the one written latest before the
      test that recorded it, or 0xfd if none was written. */
  lemma {:induction false} EveryModeWasRead(schedule: seq<Action>)
    ensures TriggerModesRead(schedule) && BodyModesRead(schedule)
  {
    if schedule == [] {
    } else {
      var front, action := schedule[..|schedule| - 1], schedule[|schedule| - 1];
      EveryModeWasRead(front);
      EveryScheduleIsSafe(front);
      TriggerModesStep(front, action);
      BodyModesStep(front, action);
      assert front + [action] == schedule;
    }
  }
}
