/**
 * What depends on not admitting an id that the worker is still running (`jobs.rs`): the running job
 * is not also queued, and a job's reply was generated for that job.
 */
module Reuse {
  import opened Prelude
  import opened Protocol
  import opened Jobs
  import opened Runs
  import opened Answers
  import opened Admissions
  import Race

  /** The step admits the id of the running job: a client reused it after the job left the store. */
  ghost predicate Reuses(l: Limits, s: Sys, step: Step) {
    AdmitsJob(l, s, step) && IsRunning(s.inner, step.id)
  }

  ghost predicate NeverReuses(l: Limits, s: Sys, steps: seq<Step>)
    requires Inv(l, s) && Legal(l, s, steps)
    decreases |steps|
  {
    if steps == [] then true
    else !Reuses(l, s, steps[0]) && (NextKeepsInv(l, s, steps[0]); NeverReuses(l, Next(l, s, steps[0]), steps[1..]))
  }

  /** A step from a state where queue and `running` are disjoint breaks that exactly when it reuses the running id. */
  lemma DisjointUnlessReused(l: Limits, s: Sys, step: Step)
    requires Inv(l, s) && Enabled(s, step) && Disjoint(s.inner)
    ensures Disjoint(Next(l, s, step).inner) <==> !Reuses(l, s, step)
  {
    InnerStaysValid(l, s, step);
  }

  // ------------------------------------------------------------------ whose reply it is

  /** Every READY reply was made of the very admission whose job it answers. */
  ghost predicate OwnReplies(h: Record, s: Inner) {
    forall id ::
      id in s.jobs && s.jobs[id].state.Ready? ==> id in h.latest && Made(h.latest[id], s.jobs[id].state.raw) in h.made
  }

  /**
   * The step finishes a run whose id was admitted again meanwhile, with a reply that can be sanitized,
   * while the job of the new admission is PENDING and in time.
   */
  ghost predicate Misdelivers(s: Sys, h: Record, step: Step) {
    && step.DoFinish? && s.worker.Working? && h.reused && Decide(step.outcome).Ready?
    && PendingAt(s.inner, s.worker.item.id) && step.now < s.inner.jobs[s.worker.item.id].deadline
  }

  /** A finish in time settles the job that is PENDING under the id of the work item. */
  lemma FinishSettles(l: Limits, s: Sys, step: Step)
    requires Inv(l, s) && Enabled(s, step) && step.DoFinish?
    requires PendingAt(s.inner, s.worker.item.id) && step.now < s.inner.jobs[s.worker.item.id].deadline
    ensures var id, t := s.worker.item.id, Next(l, s, step).inner;
      id in t.jobs && t.jobs[id] == s.inner.jobs[id].Settled(Decide(step.outcome), step.now)
  {
    FinishIsSweepSettleClear(l, s.inner, s.worker.item.id, step.outcome, step.now);
    SweepPending(l, s.inner, step.now);
  }

  /** And otherwise it makes no job READY. */
  lemma LateFinishSettlesNothing(l: Limits, s: Sys, step: Step, id: Id)
    requires Inv(l, s) && Enabled(s, step) && step.DoFinish?
    requires !(PendingAt(s.inner, s.worker.item.id) && step.now < s.inner.jobs[s.worker.item.id].deadline)
    requires id in Next(l, s, step).inner.jobs && Next(l, s, step).inner.jobs[id].state.Ready?
    ensures id in s.inner.jobs && s.inner.jobs[id] == Next(l, s, step).inner.jobs[id]
  {
    FinishIsSweepSettleClear(l, s.inner, s.worker.item.id, step.outcome, step.now);
    SweepPending(l, s.inner, step.now);
  }

  /** A misdelivered reply was made of an earlier admission of the id than the one whose job it settles. */
  lemma MisdeliveredReply(l: Limits, s: Sys, h: Record, step: Step)
    requires Inv(l, s) && Enabled(s, step) && Agrees(h, s) && Misdelivers(s, h, step)
    ensures var id, t, after := s.worker.item.id, Next(l, s, step).inner, NextRecord(l, s, h, step);
      && id in t.jobs && t.jobs[id].state == Decide(step.outcome) && id in after.latest
      && after.made == h.made + [Made(h.held, t.jobs[id].state.raw)]
      && h.held < after.latest[id] < |after.admitted|
      && h.admitted[h.held].id == after.admitted[after.latest[id]].id == id
      && !OwnReplies(after, t)
  {
    hide Valid, Coupled, Next, InOrder;
    InvQueue(l, s);
    FinishSettles(l, s, step);
  }

  lemma NewReplyIsOwn(l: Limits, s: Sys, h: Record, step: Step, id: Id)
    requires Inv(l, s) && Enabled(s, step) && Agrees(h, s) && !Misdelivers(s, h, step)
    requires id in Next(l, s, step).inner.jobs && Next(l, s, step).inner.jobs[id].state.Ready?
    requires id !in s.inner.jobs || s.inner.jobs[id] != Next(l, s, step).inner.jobs[id]
    ensures var job, after := Next(l, s, step).inner.jobs[id], NextRecord(l, s, h, step);
      id in after.latest && Made(after.latest[id], job.state.raw) in after.made
  {
    hide NextInner, Poll, Admits, Valid, Coupled, InOrder, MadeOk;
    InvQueue(l, s);
    JobEvolves(l, s, step, id);
    var after := NextRecord(l, s, h, step);
    if !(PendingAt(s.inner, s.worker.item.id) && step.now < s.inner.jobs[s.worker.item.id].deadline) {
      LateFinishSettlesNothing(l, s, step, id);
    } else {
      assert after.made[|h.made|] == Made(h.held, Next(l, s, step).inner.jobs[id].state.raw);
    }
  }

  /** From a state where all replies are their own, a step leaves such a state exactly when it does not misdeliver. */
  lemma OwnUnlessMisdelivered(l: Limits, s: Sys, h: Record, step: Step)
    requires Inv(l, s) && Enabled(s, step) && Agrees(h, s) && OwnReplies(h, s.inner)
    ensures OwnReplies(NextRecord(l, s, h, step), Next(l, s, step).inner) <==> !Misdelivers(s, h, step)
  {
    if Misdelivers(s, h, step) {
      MisdeliveredReply(l, s, h, step);
    } else {
      var t, after := Next(l, s, step).inner, NextRecord(l, s, h, step);
      forall id | id in t.jobs && t.jobs[id].state.Ready?
        ensures id in after.latest && Made(after.latest[id], t.jobs[id].state.raw) in after.made
      {
        if id in s.inner.jobs && s.inner.jobs[id] == t.jobs[id] {
          ReplyStays(l, s, h, step, id);
        } else {
          NewReplyIsOwn(l, s, h, step, id);
        }
      }
    }
  }

  /** A reply that stays is still that of the latest admission of its id. */
  lemma ReplyStays(l: Limits, s: Sys, h: Record, step: Step, id: Id)
    requires Inv(l, s) && Enabled(s, step) && OwnReplies(h, s.inner)
    requires id in s.inner.jobs && s.inner.jobs[id].state.Ready? && id in Next(l, s, step).inner.jobs
    requires s.inner.jobs[id] == Next(l, s, step).inner.jobs[id]
    ensures var after := NextRecord(l, s, h, step);
      id in after.latest && Made(after.latest[id], s.inner.jobs[id].state.raw) in after.made
  {
    hide NextInner, Poll, Admits, Valid, Coupled;
    InvQueue(l, s);
    JobEvolves(l, s, step, id);
  }

  // ------------------------------------------------------------------ over whole runs

  /** In every state of the run all replies are their own. */
  ghost predicate AlwaysOwn(l: Limits, s: Sys, h: Record, steps: seq<Step>)
    requires Inv(l, s) && Legal(l, s, steps)
    decreases |steps|
  {
    && OwnReplies(h, s.inner)
    && (steps != [] ==>
          (NextKeepsInv(l, s, steps[0]); AlwaysOwn(l, Next(l, s, steps[0]), NextRecord(l, s, h, steps[0]), steps[1..])))
  }

  ghost predicate NeverMisdelivers(l: Limits, s: Sys, h: Record, steps: seq<Step>)
    requires Inv(l, s) && Legal(l, s, steps)
    decreases |steps|
  {
    steps != [] ==>
      && !Misdelivers(s, h, steps[0])
      && (NextKeepsInv(l, s, steps[0]);
          NeverMisdelivers(l, Next(l, s, steps[0]), NextRecord(l, s, h, steps[0]), steps[1..]))
  }

  lemma {:induction false} OwnAlongIff(l: Limits, s: Sys, h: Record, steps: seq<Step>)
    requires Inv(l, s) && Legal(l, s, steps) && Agrees(h, s) && OwnReplies(h, s.inner)
    ensures AlwaysOwn(l, s, h, steps) <==> NeverMisdelivers(l, s, h, steps)
    decreases |steps|
  {
    hide Valid, Coupled, Agrees, Next, NextRecord, OwnReplies, Misdelivers;
    if steps != [] {
      NextKeepsInv(l, s, steps[0]);
      AgreementStays(l, s, h, steps[0]);
      OwnUnlessMisdelivered(l, s, h, steps[0]);
      InvQueue(l, s);
      var t, after := Next(l, s, steps[0]), NextRecord(l, s, h, steps[0]);
      if OwnReplies(after, t.inner) {
        OwnAlongIff(l, t, after, steps[1..]);
      }
    }
  }

  /**
   * A run gives every job the reply of its own admission, in all its states, if and only if no finish of it
   * misdelivers.
   */
  lemma RepliesAreOwnIff(l: Limits, steps: seq<Step>)
    requires Inv(l, START) && Legal(l, START, steps)
    ensures AlwaysOwn(l, START, BLANK, steps) <==> NeverMisdelivers(l, START, BLANK, steps)
  {
    OwnAlongIff(l, START, BLANK, steps);
  }

  // ------------------------------------------------------------------ which admission is to blame

  /**
   * While the worker has one job in hand, `reused` says whether one of the steps admitted its id; so a
   * finish after them misdelivers exactly if some step did, the reply can be sanitized, and the job now
   * under the id is PENDING and in time.
   */
  lemma {:induction false} ReusedIff(l: Limits, s: Sys, h: Record, steps: seq<Step>)
    requires Inv(l, s) && Legal(l, s, steps) && Race.NoFinish(steps) && s.worker.Working?
    ensures RecordAfter(l, s, h, steps).reused <==> h.reused || !NeverReuses(l, s, steps)
    ensures RecordAfter(l, s, h, steps).held == h.held
    ensures Exec(l, s, steps).worker.Working? && Exec(l, s, steps).worker.item == s.worker.item
    decreases |steps|
  {
    if steps != [] {
      OneStepInHand(l, s, h, steps[0]);
      NextKeepsInv(l, s, steps[0]);
      hide Valid, Coupled, Next, NextRecord, Reuses;
      ReusedIff(l, Next(l, s, steps[0]), NextRecord(l, s, h, steps[0]), steps[1..]);
    }
  }

  lemma OneStepInHand(l: Limits, s: Sys, h: Record, step: Step)
    requires Inv(l, s) && Enabled(s, step) && s.worker.Working? && !step.DoFinish?
    ensures NextRecord(l, s, h, step).reused <==> h.reused || Reuses(l, s, step)
    ensures NextRecord(l, s, h, step).held == h.held
    ensures Next(l, s, step).worker.Working? && Next(l, s, step).worker.item == s.worker.item
  {
    hide NextInner, Admits, Valid, Coupled;
    InvQueue(l, s);
  }

  /**
   * From taking a job to finishing it: the finish misdelivers exactly if the id was admitted in between and
   * that job still waits for it.
   */
  lemma MisdeliversIff(l: Limits, s: Sys, h: Record, now: Time, taken: Sys, steps: seq<Step>, finish: Step)
    requires Inv(l, s) && Enabled(s, DoPoll(now)) && taken == Next(l, s, DoPoll(now)) && taken.worker.Working?
    requires Inv(l, taken) && Legal(l, taken, steps) && Race.NoFinish(steps) && finish.DoFinish?
    ensures var after := RecordAfter(l, taken, NextRecord(l, s, h, DoPoll(now)), steps);
      var t, id := Exec(l, taken, steps), taken.worker.item.id;
      Misdelivers(t, after, finish) <==>
        && !NeverReuses(l, taken, steps) && Decide(finish.outcome).Ready?
        && PendingAt(t.inner, id) && finish.now < t.inner.jobs[id].deadline
  {
    hide Valid, Coupled, NextInner, Legal, Exec, RecordAfter, NeverReuses, Decide;
    InvQueue(l, s);
    ReusedIff(l, taken, NextRecord(l, s, h, DoPoll(now)), steps);
  }

  /** In a run that never reuses a running id nothing is misdelivered, and queue and `running` are disjoint. */
  lemma {:induction false} NoReuseAlong(l: Limits, s: Sys, h: Record, steps: seq<Step>)
    requires Inv(l, s) && Legal(l, s, steps) && NeverReuses(l, s, steps)
    requires !h.reused && Disjoint(s.inner)
    ensures NeverMisdelivers(l, s, h, steps) && Disjoint(Exec(l, s, steps).inner)
    decreases |steps|
  {
    if steps != [] {
      NextKeepsInv(l, s, steps[0]);
      DisjointUnlessReused(l, s, steps[0]);
      StaysUnreused(l, s, h, steps[0]);
      hide Valid, Coupled, Next, NextRecord, Reuses, Disjoint;
      NoReuseAlong(l, Next(l, s, steps[0]), NextRecord(l, s, h, steps[0]), steps[1..]);
    }
  }

  lemma StaysUnreused(l: Limits, s: Sys, h: Record, step: Step)
    requires Inv(l, s) && Enabled(s, step) && !Reuses(l, s, step) && !h.reused
    ensures !NextRecord(l, s, h, step).reused
  {
    hide Admits, Valid, Coupled;
    InvQueue(l, s);
  }

  /** In every run that never reuses a running id, queue and `running` are disjoint and every reply is its job's own. */
  lemma RepliesAreOwn(l: Limits, steps: seq<Step>)
    requires Inv(l, START) && Legal(l, START, steps) && NeverReuses(l, START, steps)
    ensures Disjoint(Exec(l, START, steps).inner) && AlwaysOwn(l, START, BLANK, steps)
  {
    NoReuseAlong(l, START, BLANK, steps);
    RepliesAreOwnIff(l, steps);
  }

  // ------------------------------------------------------------------ a run that misdelivers

  /** The limits of a server started with a time to live of one second, in seconds. */
  const ONE_SECOND := Limits(64, 8, 1, 90)

  function JobAt(talk: Talk, at: Time, st: State, finished: Option<Time>): Job {
    Job(talk, None, "", st, at, at + 90, finished)
  }

  function ItemOf(talk: Talk): WorkItem {
    WorkItem(1, talk, None, 90)
  }

  const SLOT := Some(Running(1, None))

  function Queued(a: Talk): Sys {
    Sys(Inner(map[1 := JobAt(a, 0, Pending, None)], [1], None), Polling)
  }

  function Taken(a: Talk): Sys {
    Sys(Inner(map[1 := JobAt(a, 0, Pending, None)], [], SLOT), Working(ItemOf(a), false))
  }

  function Cancelled(a: Talk): Sys {
    Sys(Inner(map[1 := JobAt(a, 0, Canceled(REASON_CANCELED), Some(0))], [], SLOT), Working(ItemOf(a), false))
  }

  function Readmitted(a: Talk, b: Talk): Sys {
    Sys(Inner(map[1 := JobAt(b, 1, Pending, None)], [1], SLOT), Working(ItemOf(a), false))
  }

  function Settled(b: Talk, raw: string): Sys {
    Sys(Inner(map[1 := JobAt(b, 1, Ready(raw), Some(1))], [], None), Polling)
  }

  function TalkStep(a: Talk, now: Time): Step {
    DoTalk(1, a, None, "", now)
  }

  function Admitted(talk: Talk, at: Time): Admission {
    Admission(1, JobAt(talk, at, Pending, None))
  }

  /** The step leads from one state and record to the next, and misdelivers nothing. */
  ghost predicate Goes(s: Sys, h: Record, step: Step, t: Sys, after: Record) {
    && Inv(ONE_SECOND, s) && Enabled(s, step) && t == Next(ONE_SECOND, s, step) && Inv(ONE_SECOND, t)
    && after == NextRecord(ONE_SECOND, s, h, step) && !Misdelivers(s, h, step)
  }

  function OneAdmission(a: Talk): Record {
    Record([Admitted(a, 0)], map[1 := 0], 0, false, [], [])
  }

  function OneTaken(a: Talk): Record {
    OneAdmission(a).(taken := [Taking(0, ItemOf(a))])
  }

  /** The record after both talks: the second admission of id 1 comes while the job of the first is in hand. */
  function TwoAdmissions(a: Talk, b: Talk): Record {
    Record([Admitted(a, 0), Admitted(b, 1)], map[1 := 1], 0, true, [Taking(0, ItemOf(a))], [])
  }

  lemma TalkAdmits(s: Sys, talk: Talk, now: Time)
    requires Inv(ONE_SECOND, s) && Sweep(ONE_SECOND, s.inner, now) == Inner(map[], [], s.inner.running)
      && !s.worker.Waiting?
    ensures AdmitsJob(ONE_SECOND, s, TalkStep(talk, now))
    ensures NextInner(ONE_SECOND, s, TalkStep(talk, now))
      == Inner(map[1 := JobAt(talk, now, Pending, None)], [1], s.inner.running)
  {
    hide Inv, Sweep;
    var u := Sweep(ONE_SECOND, s.inner, now);
    var room := MakeRoom(ONE_SECOND, u, talk.npc, "", now);
    assert Victims(u, talk.npc, "") == {} && |u.jobs| == 0;
    SettleNothing(u, Canceled(REASON_SUPERSEDED), now);
    assert room == u;
  }

  lemma FirstTalk(a: Talk)
    ensures Goes(START, BLANK, TalkStep(a, 0), Queued(a), OneAdmission(a))
  {
    assert Overdue(EMPTY_STORE, 0) == {};
    SettleNothing(EMPTY_STORE, Failed(REASON_TIMEOUT), 0);
    assert Sweep(ONE_SECOND, EMPTY_STORE, 0) == EMPTY_STORE;
    StartInv(ONE_SECOND);
    TalkAdmits(START, a, 0);
    NextKeepsInv(ONE_SECOND, START, TalkStep(a, 0));
    hide Inv, NextInner, Admits;
    assert NextRecord(ONE_SECOND, START, BLANK, TalkStep(a, 0)) == OneAdmission(a);
  }

  lemma PollTakes(a: Talk)
    requires Inv(ONE_SECOND, Queued(a))
    ensures Goes(Queued(a), OneAdmission(a), DoPoll(0), Taken(a), OneTaken(a))
  {
    var s := Queued(a);
    assert LeadingOverdue(s.inner, s.inner.queue, 0) == 0;
    assert Elements(s.inner.queue[..0]) == {};
    SettleNothing(s.inner, Failed(REASON_TIMEOUT), 0);
    NextKeepsInv(ONE_SECOND, s, DoPoll(0));
  }

  lemma CancelCancels(a: Talk)
    requires Inv(ONE_SECOND, Taken(a))
    ensures Goes(Taken(a), OneTaken(a), DoCancel(1, 0), Cancelled(a), OneTaken(a))
  {
    var s := Taken(a);
    assert Overdue(s.inner, 0) == {};
    SettleNothing(s.inner, Failed(REASON_TIMEOUT), 0);
    assert Sweep(ONE_SECOND, s.inner, 0) == s.inner;
    NextKeepsInv(ONE_SECOND, s, DoCancel(1, 0));
  }

  /** One second later the cancelled job has expired, and the client uses its id for another message. */
  lemma SecondTalk(a: Talk, b: Talk)
    requires Inv(ONE_SECOND, Cancelled(a))
    ensures Goes(Cancelled(a), OneTaken(a), TalkStep(b, 1), Readmitted(a, b), TwoAdmissions(a, b))
  {
    var s := Cancelled(a).inner;
    assert Overdue(s, 1) == {};
    SettleNothing(s, Failed(REASON_TIMEOUT), 1);
    assert Sweep(ONE_SECOND, s, 1) == Inner(map[], [], SLOT);
    TalkAdmits(Cancelled(a), b, 1);
    NextKeepsInv(ONE_SECOND, Cancelled(a), TalkStep(b, 1));
    hide Inv, NextInner, Admits;
    assert NextRecord(ONE_SECOND, Cancelled(a), OneTaken(a), TalkStep(b, 1)) == TwoAdmissions(a, b);
  }

  lemma FinishMisdelivers(a: Talk, b: Talk, raw: string)
    requires Inv(ONE_SECOND, Readmitted(a, b)) && Decide(Ok(raw)) == Ready(raw)
    ensures Next(ONE_SECOND, Readmitted(a, b), DoFinish(Ok(raw), 1)) == Settled(b, raw)
      && Inv(ONE_SECOND, Settled(b, raw))
  {
    var s := Readmitted(a, b);
    var u := s.inner.(running := None);
    assert Overdue(u, 1) == {};
    SettleNothing(u, Failed(REASON_TIMEOUT), 1);
    assert Sweep(ONE_SECOND, u, 1) == u;
    NextKeepsInv(ONE_SECOND, s, DoFinish(Ok(raw), 1));
  }

  lemma OneMoreStep(l: Limits, s: Sys, h: Record, step: Step, rest: seq<Step>)
    requires Inv(l, s) && Enabled(s, step) && Inv(l, Next(l, s, step)) && Legal(l, Next(l, s, step), rest)
    ensures var t, after := Next(l, s, step), NextRecord(l, s, h, step);
      && Legal(l, s, [step] + rest) && Exec(l, s, [step] + rest) == Exec(l, t, rest)
      && RecordAfter(l, s, h, [step] + rest) == RecordAfter(l, t, after, rest)
      && (NeverMisdelivers(l, s, h, [step] + rest) <==> !Misdelivers(s, h, step) && NeverMisdelivers(l, t, after, rest))
  {
    assert ([step] + rest)[1..] == rest;
  }

  /** From `s` on, the steps end as the run should, and misdeliver. */
  ghost predicate EndsWrong(s: Sys, h: Record, steps: seq<Step>, t: Sys, after: Record) {
    && Inv(ONE_SECOND, s) && Legal(ONE_SECOND, s, steps) && Exec(ONE_SECOND, s, steps) == t
    && RecordAfter(ONE_SECOND, s, h, steps) == after && !NeverMisdelivers(ONE_SECOND, s, h, steps)
  }

  lemma GoesOn(s: Sys, h: Record, step: Step, t: Sys, after: Record, rest: seq<Step>, end: Sys, record: Record)
    requires Goes(s, h, step, t, after) && EndsWrong(t, after, rest, end, record)
    ensures EndsWrong(s, h, [step] + rest, end, record)
  {
    hide Inv, Enabled, Next, NextRecord, Misdelivers, Legal, Exec, RecordAfter, NeverMisdelivers;
    OneMoreStep(ONE_SECOND, s, h, step, rest);
  }

  lemma FinishEndsWrong(a: Talk, b: Talk, raw: string)
    requires Inv(ONE_SECOND, Readmitted(a, b)) && Decide(Ok(raw)) == Ready(raw)
    ensures EndsWrong(Readmitted(a, b), TwoAdmissions(a, b), [DoFinish(Ok(raw), 1)] + [], Settled(b, raw),
                      TwoAdmissions(a, b).(made := [Made(0, raw)]))
  {
    FinishMisdelivers(a, b, raw);
    OneMoreStep(ONE_SECOND, Readmitted(a, b), TwoAdmissions(a, b), DoFinish(Ok(raw), 1), []);
  }

  lemma SettledIsNotOwn(a: Talk, b: Talk, raw: string)
    ensures !OwnReplies(TwoAdmissions(a, b).(made := [Made(0, raw)]), Settled(b, raw).inner)
  {
    assert Settled(b, raw).inner.jobs[1].state.Ready?;
  }

  /**
   * The premise is needed, for a server started with a time to live of one second: job 1 is cancelled
   * while it runs and expires, its id is admitted again with another message, and the old outcome settles
   * the new job.
   */
  lemma ReusedIdGetsOldReply(a: Talk, b: Talk, raw: string) returns (steps: seq<Step>)
    requires a != b && Decide(Ok(raw)) == Ready(raw)
    ensures Inv(ONE_SECOND, START) && Legal(ONE_SECOND, START, steps)
    ensures !NeverMisdelivers(ONE_SECOND, START, BLANK, steps)
    ensures var t, h := Exec(ONE_SECOND, START, steps), RecordAfter(ONE_SECOND, START, BLANK, steps);
      && t.inner.jobs == map[1 := JobAt(b, 1, Ready(raw), Some(1))] && h.made == [Made(0, raw)]
      && h.admitted == [Admitted(a, 0), Admitted(b, 1)] && h.latest == map[1 := 1] && !OwnReplies(h, t.inner)
  {
    FirstTalk(a);
    PollTakes(a);
    CancelCancels(a);
    SecondTalk(a, b);
    FinishEndsWrong(a, b, raw);
    SettledIsNotOwn(a, b, raw);
    hide Inv, Goes, EndsWrong, OwnReplies;
    var end, record := Settled(b, raw), TwoAdmissions(a, b).(made := [Made(0, raw)]);
    steps := [DoFinish(Ok(raw), 1)] + [];
    GoesOn(Cancelled(a), OneTaken(a), TalkStep(b, 1), Readmitted(a, b), TwoAdmissions(a, b), steps, end, record);
    steps := [TalkStep(b, 1)] + steps;
    GoesOn(Taken(a), OneTaken(a), DoCancel(1, 0), Cancelled(a), OneTaken(a), steps, end, record);
    steps := [DoCancel(1, 0)] + steps;
    GoesOn(Queued(a), OneAdmission(a), DoPoll(0), Taken(a), OneTaken(a), steps, end, record);
    steps := [DoPoll(0)] + steps;
    GoesOn(START, BLANK, TalkStep(a, 0), Queued(a), OneAdmission(a), steps, end, record);
    steps := [TalkStep(a, 0)] + steps;
    EndsAsStated(steps, end, record);
  }

  lemma EndsAsStated(steps: seq<Step>, t: Sys, after: Record)
    requires EndsWrong(START, BLANK, steps, t, after)
    ensures Inv(ONE_SECOND, START) && Legal(ONE_SECOND, START, steps) && Exec(ONE_SECOND, START, steps) == t
    ensures RecordAfter(ONE_SECOND, START, BLANK, steps) == after && !NeverMisdelivers(ONE_SECOND, START, BLANK, steps)
  {
  }
}
