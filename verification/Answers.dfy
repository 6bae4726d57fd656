/** What clients of the job store are told over a whole run (`jobs.rs`). */
module Answers {
  import opened Prelude
  import opened Protocol
  import opened Jobs
  import opened Runs

  // ------------------------------------------------------------------ how one job changes

  /** A job stays as it is, or leaves PENDING for good; what was asked never changes. */
  ghost predicate Aged(a: Job, b: Job) {
    b == a || (a.IsPending() && !b.IsPending() && b == a.(state := b.state, finished := b.finished))
  }

  /** No job appears, and those that remain only age, each change being one that `why` allows. */
  ghost predicate Evolves(s: Inner, t: Inner, why: (Id, State) -> bool) {
    forall id :: id in t.jobs ==>
      && id in s.jobs && Aged(s.jobs[id], t.jobs[id])
      && (t.jobs[id] == s.jobs[id] || why(id, t.jobs[id].state))
  }

  lemma SettleEvolves(s: Inner, ids: set<Id>, st: State, now: Time, why: (Id, State) -> bool)
    requires AllPending(s, ids) && !st.Pending? && forall id :: id in ids ==> why(id, st)
    ensures Evolves(s, Settle(s, ids, st, now), why)
  {
  }

  lemma SweepEvolves(l: Limits, s: Inner, now: Time, why: (Id, State) -> bool)
    requires forall id :: id in s.jobs ==> why(id, Failed(REASON_TIMEOUT))
    ensures Evolves(s, Sweep(l, s, now), why)
  {
    SettleEvolves(s, Overdue(s, now), Failed(REASON_TIMEOUT), now, why);
  }

  lemma MakeRoomEvolves(l: Limits, s: Inner, npc: nat, scope: string, now: Time, why: (Id, State) -> bool)
    requires forall id :: id in Victims(s, npc, scope) ==> why(id, Canceled(REASON_SUPERSEDED))
    ensures Evolves(s, MakeRoom(l, s, npc, scope, now), why)
  {
    SettleEvolves(s, Victims(s, npc, scope), Canceled(REASON_SUPERSEDED), now, why);
  }

  lemma SettleIfPendingEvolves(s: Inner, id: Id, st: State, now: Time, why: (Id, State) -> bool)
    requires !st.Pending? && why(id, st)
    ensures Evolves(s, SettleIfPending(s, id, st, now), why)
  {
    if PendingAt(s, id) {
      SettleEvolves(s, {id}, st, now, why);
    }
  }

  lemma EvolvesTransitive(s: Inner, t: Inner, u: Inner, why: (Id, State) -> bool)
    requires Evolves(s, t, why) && Evolves(t, u, why)
    ensures Evolves(s, u, why)
  {
  }

  lemma TalkEvolves(l: Limits, s: Inner, id: Id, talk: Talk, prompt: Option<string>, scope: string, now: Time,
                    why: (Id, State) -> bool)
    requires forall x :: x in s.jobs ==> why(x, Failed(REASON_TIMEOUT))
    requires Admits(l, s, id, talk, scope, now) ==>
      forall x | x in s.jobs && s.jobs[x].talk.npc == talk.npc && s.jobs[x].scope == scope ::
        why(x, Canceled(REASON_SUPERSEDED))
    ensures var t := TalkTo(l, s, id, talk, prompt, scope, now);
      if Admits(l, s, id, talk, scope, now)
      then Evolves(s, t.(jobs := t.jobs - {id}), why) && id in t.jobs
        && t.jobs[id] == NewJob(l, talk, prompt, scope, now)
      else Evolves(s, t, why)
  {
    var t := Sweep(l, s, now);
    SweepEvolves(l, s, now, why);
    if Admits(l, s, id, talk, scope, now) {
      MakeRoomEvolves(l, t, talk.npc, scope, now, why);
      EvolvesTransitive(s, t, MakeRoom(l, t, talk.npc, scope, now), why);
    }
  }

  lemma FinishEvolves(l: Limits, s: Inner, id: Id, outcome: Outcome, now: Time, why: (Id, State) -> bool)
    requires IsRunning(s, id) && why(id, Decide(outcome)) && forall x :: x in s.jobs ==> why(x, Failed(REASON_TIMEOUT))
    ensures Evolves(s, Finish(l, s, id, outcome, now), why)
  {
    var t := Sweep(l, s, now);
    SweepEvolves(l, s, now, why);
    SettleIfPendingEvolves(t, id, Decide(outcome), now, why);
    EvolvesTransitive(s, t, SettleIfPending(t, id, Decide(outcome), now), why);
    FinishIsSweepSettleClear(l, s, id, outcome, now);
  }

  /** Why a step may take job `id` of `s` to the state `st`. */
  ghost predicate Explained(l: Limits, s: Sys, step: Step, id: Id, st: State) {
    || st == Failed(REASON_TIMEOUT)
    || (AdmitsJob(l, s, step) && id in s.inner.jobs && st == Canceled(REASON_SUPERSEDED)
        && s.inner.jobs[id].talk.npc == step.talk.npc && s.inner.jobs[id].scope == step.scope)
    || (step.DoCancel? && id == step.id && st == Canceled(REASON_CANCELED))
    || (step.DoFinish? && s.worker.Working? && id == s.worker.item.id && st == Decide(step.outcome))
  }

  /** Any step only ages jobs, for a reason, except that an admission puts a new PENDING job under its own id. */
  lemma StepEvolves(l: Limits, s: Sys, step: Step)
    requires Inv(l, s) && Enabled(s, step)
    ensures var t, why := Next(l, s, step).inner, (id: Id, st: State) => Explained(l, s, step, id, st);
      if AdmitsJob(l, s, step) then
        && Evolves(s.inner, t.(jobs := t.jobs - {step.id}), why)
        && step.id in t.jobs && t.jobs[step.id] == NewJob(l, step.talk, step.prompt, step.scope, step.now)
      else Evolves(s.inner, t, why)
  {
    var why := (id: Id, st: State) => Explained(l, s, step, id, st);
    match step
    case DoTalk(id, talk, prompt, scope, now) => TalkEvolves(l, s.inner, id, talk, prompt, scope, now, why);
    case DoResult(id, now) => SweepEvolves(l, s.inner, now, why);
    case DoCancel(id, now) =>
      SweepEvolves(l, s.inner, now, why);
      SettleIfPendingEvolves(Sweep(l, s.inner, now), id, Canceled(REASON_CANCELED), now, why);
      EvolvesTransitive(s.inner, Sweep(l, s.inner, now), Cancel(l, s.inner, id, now), why);
    case DoPoll(now) =>
      var k, t := PollSplits(l, s.inner, now);
      SettleEvolves(s.inner, Elements(s.inner.queue[..k]), Failed(REASON_TIMEOUT), now, why);
    case DoAttach(_) =>
    case DoFinish(outcome, now) => FinishEvolves(l, s.inner, s.worker.item.id, outcome, now, why);
  }

  /** The same, for one job of the new state. */
  lemma JobEvolves(l: Limits, s: Sys, step: Step, id: Id)
    requires Inv(l, s) && Enabled(s, step) && id in Next(l, s, step).inner.jobs
    ensures var job := Next(l, s, step).inner.jobs[id];
      if AdmitsJob(l, s, step) && step.id == id then job == NewJob(l, step.talk, step.prompt, step.scope, step.now)
      else
        && id in s.inner.jobs && Aged(s.inner.jobs[id], job)
        && (job == s.inner.jobs[id] || Explained(l, s, step, id, job.state))
  {
    StepEvolves(l, s, step);
    var t := Next(l, s, step).inner;
    if AdmitsJob(l, s, step) && step.id != id {
      assert id in t.(jobs := t.jobs - {step.id}).jobs;
    }
  }

  /** A terminal job never changes: after any step it is the same job, or gone, or its id is admitted anew. */
  lemma TerminalIsFinal(l: Limits, s: Sys, step: Step, id: Id)
    requires Inv(l, s) && Enabled(s, step) && id in s.inner.jobs && !PendingAt(s.inner, id)
    ensures var t := Next(l, s, step).inner;
      || (id in t.jobs && t.jobs[id] == s.inner.jobs[id])
      || id !in t.jobs
      || (AdmitsJob(l, s, step) && step.id == id && PendingAt(t, id))
  {
    if id in Next(l, s, step).inner.jobs {
      JobEvolves(l, s, step, id);
    }
  }

  // ------------------------------------------------------------------ the answers about one id

  /** The answer a step gives about `id`: its result, its cancel, or a talk that repeats its parameters. */
  ghost function AnswerAbout(l: Limits, s: Sys, step: Step, id: Id): seq<Answer>
    requires Inv(l, s) && Enabled(s, step)
  {
    match step
    case DoResult(x, now) => if x == id then [AnswerFor(Sweep(l, s.inner, now), id)] else []
    case DoCancel(x, now) => if x == id then [AnswerFor(Cancel(l, s.inner, id, now), id)] else []
    case DoTalk(x, talk, _, scope, now) =>
      var t := Sweep(l, s.inner, now);
      if x == id && id in t.jobs && t.jobs[id].talk == talk then [TalkAnswer(l, s.inner, id, talk, scope, now)] else []
    case _ => []
  }

  ghost function AnswersAbout(l: Limits, s: Sys, steps: seq<Step>, id: Id): seq<Answer>
    requires Inv(l, s) && Legal(l, s, steps)
    decreases |steps|
  {
    if steps == [] then []
    else
      NextKeepsInv(l, s, steps[0]);
      AnswerAbout(l, s, steps[0], id) + AnswersAbout(l, Next(l, s, steps[0]), steps[1..], id)
  }

  /** No step of the run admits `id`. */
  ghost predicate NeverAdmits(l: Limits, s: Sys, steps: seq<Step>, id: Id)
    requires Inv(l, s) && Legal(l, s, steps)
    decreases |steps|
  {
    if steps == [] then true
    else
      && !(AdmitsJob(l, s, steps[0]) && steps[0].id == id)
      && (NextKeepsInv(l, s, steps[0]); NeverAdmits(l, Next(l, s, steps[0]), steps[1..], id))
  }

  /** PENDING comes before every terminal answer, and those before UNKNOWN. */
  function Phase(a: Answer): nat {
    if a.code == CODE_PENDING then 0 else if a.code == CODE_UNKNOWN_JOB then 2 else 1
  }

  ghost predicate Later(a: Answer, b: Answer) {
    a == b || Phase(a) < Phase(b)
  }

  lemma AgedIsLater(a: Job, b: Job)
    requires Aged(a, b)
    ensures Later(a.Reply(), b.Reply())
  {
  }

  lemma UnadmittedIsLater(l: Limits, s: Sys, step: Step, id: Id)
    requires Inv(l, s) && Enabled(s, step) && !(AdmitsJob(l, s, step) && step.id == id)
    ensures Later(AnswerFor(s.inner, id), AnswerFor(Next(l, s, step).inner, id))
  {
    var t := Next(l, s, step).inner;
    if id in t.jobs {
      JobEvolves(l, s, step, id);
      AgedIsLater(s.inner.jobs[id], t.jobs[id]);
    }
  }

  /** Every such answer is the state of the job right after the step. */
  lemma AnswerIsState(l: Limits, s: Sys, step: Step, id: Id)
    requires Inv(l, s) && Enabled(s, step)
    ensures forall a :: a in AnswerAbout(l, s, step, id) ==> a == AnswerFor(Next(l, s, step).inner, id)
    ensures |AnswerAbout(l, s, step, id)| <= 1
  {
  }

  /** `answers` come one phase after the other, between the states `first` and `last`. */
  ghost predicate InPhases(first: Answer, answers: seq<Answer>, last: Answer) {
    && Later(first, last)
    && (forall i :: 0 <= i < |answers| ==> Later(first, answers[i]) && Later(answers[i], last))
    && (forall i, j :: 0 <= i < j < |answers| ==> Later(answers[i], answers[j]))
  }

  lemma PrependAnswer(first: Answer, state: Answer, one: seq<Answer>, answers: seq<Answer>, last: Answer)
    requires Later(first, state) && InPhases(state, answers, last)
    requires |one| <= 1 && forall a :: a in one ==> a == state
    ensures InPhases(first, one + answers, last)
  {
    if one == [] {
      assert one + answers == answers;
    } else {
      assert one[0] in one && one == [state];
    }
  }

  /**
   * Between two admissions of an id, the answers about it read PENDING any number of times, then one
   * and the same terminal answer any number of times, then UNKNOWN.
   */
  lemma {:induction false} AnswerHistory(l: Limits, s: Sys, steps: seq<Step>, id: Id)
    requires Inv(l, s) && Legal(l, s, steps) && NeverAdmits(l, s, steps, id)
    ensures InPhases(AnswerFor(s.inner, id), AnswersAbout(l, s, steps, id), AnswerFor(Exec(l, s, steps).inner, id))
    decreases |steps|
  {
    if steps != [] {
      NextKeepsInv(l, s, steps[0]);
      var t := Next(l, s, steps[0]);
      AnswerHistory(l, t, steps[1..], id);
      UnadmittedIsLater(l, s, steps[0], id);
      AnswerIsState(l, s, steps[0], id);
      PrependAnswer(AnswerFor(s.inner, id), AnswerFor(t.inner, id), AnswerAbout(l, s, steps[0], id),
                    AnswersAbout(l, t, steps[1..], id), AnswerFor(Exec(l, s, steps).inner, id));
    }
  }

  // ------------------------------------------------------------------ deadlines

  /** With a positive limit, an answer of PENDING at `now` is about a job whose deadline is still to come. */
  lemma PendingAnswerIsInTime(l: Limits, s: Sys, step: Step)
    requires Inv(l, s) && Enabled(s, step) && l.deadline > 0
    requires step.DoResult? || step.DoCancel? || step.DoTalk?
    requires var answer := if step.DoTalk? then TalkAnswer(l, s.inner, step.id, step.talk, step.scope, step.now)
                           else AnswerFor(Next(l, s, step).inner, step.id);
      answer.code == CODE_PENDING
    ensures var t := Next(l, s, step).inner;
      PendingAt(t, step.id) && step.now < t.jobs[step.id].deadline
  {
    SweepPending(l, s.inner, step.now);
    if AdmitsJob(l, s, step) {
      StepEvolves(l, s, step);
    }
  }

  /** A reply that is READY was recorded before its deadline, in every state of every run. */
  lemma ReadyBeatDeadline(l: Limits, t: Sys, id: Id)
    requires Reached(l, t) && id in t.inner.jobs && t.inner.jobs[id].state.Ready?
    ensures var job := t.inner.jobs[id];
      job.finished.Some? && job.finished.value < job.deadline == job.created + l.deadline
  {
    ReachedInv(l, t);
    assert JobOk(l, t.inner.jobs[id]);
  }
}
