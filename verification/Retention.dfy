/** How long a terminal job answers (`jobs.rs`). */
module Retention {
  import opened Prelude
  import opened Protocol
  import opened Jobs
  import opened Runs

  /** A terminal job is in the store. */
  predicate TerminalAt(s: Inner, id: Id) {
    id in s.jobs && !s.jobs[id].IsPending() && s.jobs[id].finished.Some?
  }

  /** The clock reading of a step that sweeps; the worker's poll and its attach do not. */
  function SweepTime(step: Step): Option<Time> {
    match step
    case DoTalk(_, _, _, _, now) => Some(now)
    case DoResult(_, now) => Some(now)
    case DoCancel(_, now) => Some(now)
    case DoFinish(_, now) => Some(now)
    case _ => None
  }

  /** The time to live is over at the sweep of this step. */
  predicate Expires(l: Limits, s: Inner, step: Step, id: Id)
    requires TerminalAt(s, id)
  {
    SweepTime(step).Some? && Elapsed(SweepTime(step).value, s.jobs[id].finished.value) >= l.ttl
  }

  /** The step admits a job to a store that is full, and this is the terminal job that finished first. */
  ghost predicate Evicts(l: Limits, s: Sys, step: Step, id: Id) {
    && AdmitsJob(l, s, step)
    && var t := Sweep(l, s.inner, step.now);
    && |t.jobs| >= l.maxJobs
    && IsOldest(Settle(t, Victims(t, step.talk.npc, step.scope), Canceled(REASON_SUPERSEDED), step.now).jobs, id)
  }

  ghost predicate Stays(s: Inner, t: Inner, id: Id) {
    id in s.jobs && id in t.jobs && t.jobs[id] == s.jobs[id]
  }

  lemma SweepStays(l: Limits, s: Inner, now: Time, id: Id)
    requires TerminalAt(s, id)
    ensures id in Sweep(l, s, now).jobs <==> Elapsed(now, s.jobs[id].finished.value) < l.ttl
    ensures id in Sweep(l, s, now).jobs ==> Sweep(l, s, now).jobs[id] == s.jobs[id]
  {
  }

  lemma RoomStays(l: Limits, t: Inner, npc: nat, scope: string, now: Time, id: Id)
    requires Valid(l, t) && !IsBusy(l, t, npc, scope) && TerminalAt(t, id)
    ensures var settled := Settle(t, Victims(t, npc, scope), Canceled(REASON_SUPERSEDED), now);
      Stays(t, MakeRoom(l, t, npc, scope, now), id) <==> !(|t.jobs| >= l.maxJobs && IsOldest(settled.jobs, id))
  {
    hide IsBusy, QueueOk, JobsOk, Placed, OnePerScope, Disjoint, IsOldest;
    var settled := Settle(t, Victims(t, npc, scope), Canceled(REASON_SUPERSEDED), now);
    MakeRoomValid(l, t, npc, scope, now);
    assert settled.jobs[id] == t.jobs[id];
    if |t.jobs| >= l.maxJobs && IsOldest(settled.jobs, id) {
      OldestIsUnique(settled.jobs, id);
    }
  }

  lemma TalkStays(l: Limits, s: Sys, step: Step, id: Id)
    requires Inv(l, s) && step.DoTalk? && TerminalAt(s.inner, id)
    ensures Stays(s.inner, Next(l, s, step).inner, id) <==> !Expires(l, s.inner, step, id) && !Evicts(l, s, step, id)
  {
    var t := Sweep(l, s.inner, step.now);
    SweepStays(l, s.inner, step.now, id);
    SweepValid(l, s.inner, step.now);
    hide Sweep, MakeRoom, Valid, Coupled, IsOldest, IsBusy, Settle, Victims;
    if AdmitsJob(l, s, step) {
      if id in t.jobs {
        RoomStays(l, t, step.talk.npc, step.scope, step.now, id);
      } else {
        NotThere(l, s, step, id);
      }
    }
  }

  /** An expired job is not the one evicted, and a new job is not the old one. */
  lemma NotThere(l: Limits, s: Sys, step: Step, id: Id)
    requires Inv(l, s) && AdmitsJob(l, s, step) && TerminalAt(s.inner, id) && id !in Sweep(l, s.inner, step.now).jobs
    ensures !Stays(s.inner, Next(l, s, step).inner, id)
  {
    var t := Sweep(l, s.inner, step.now);
    assert id !in MakeRoom(l, t, step.talk.npc, step.scope, step.now).jobs;
  }

  /** A step keeps a terminal job as it is if and only if it does not find it expired and does not evict it. */
  lemma StaysIff(l: Limits, s: Sys, step: Step, id: Id)
    requires Inv(l, s) && Enabled(s, step) && TerminalAt(s.inner, id)
    ensures Stays(s.inner, Next(l, s, step).inner, id) <==> !Expires(l, s.inner, step, id) && !Evicts(l, s, step, id)
  {
    hide Valid, Coupled, Sweep, Poll, Cancel, Finish, TalkTo, Settle, IsOldest, Admits;
    match step
    case DoTalk(_, _, _, _, _) => TalkStays(l, s, step, id);
    case DoResult(_, now) => SweepStays(l, s.inner, now, id);
    case DoCancel(_, _) => CancelStays(l, s, step, id);
    case DoPoll(now) => PollStays(l, s, now, id);
    case DoAttach(_) =>
    case DoFinish(_, _) => FinishStays(l, s, step, id);
  }

  lemma CancelStays(l: Limits, s: Sys, step: Step, id: Id)
    requires Inv(l, s) && step.DoCancel? && TerminalAt(s.inner, id)
    ensures Stays(s.inner, Next(l, s, step).inner, id) <==> !Expires(l, s.inner, step, id)
  {
    hide Sweep, JobsOk, Placed, OnePerScope, WithinCapacity, QueueOk;
    SweepStays(l, s.inner, step.now, id);
  }

  lemma FinishStays(l: Limits, s: Sys, step: Step, id: Id)
    requires Inv(l, s) && Enabled(s, step) && step.DoFinish? && TerminalAt(s.inner, id)
    ensures Stays(s.inner, Next(l, s, step).inner, id) <==> !Expires(l, s.inner, step, id)
  {
    hide Sweep, JobsOk, Placed, OnePerScope, WithinCapacity, QueueOk;
    FinishIsSweepSettleClear(l, s.inner, s.worker.item.id, step.outcome, step.now);
    SweepStays(l, s.inner, step.now, id);
  }

  lemma PollStays(l: Limits, s: Sys, now: Time, id: Id)
    requires Inv(l, s) && Enabled(s, DoPoll(now)) && TerminalAt(s.inner, id)
    ensures Stays(s.inner, Next(l, s, DoPoll(now)).inner, id)
  {
    var k, t := PollSplits(l, s.inner, now);
  }

  // ------------------------------------------------------------------ over whole runs

  /** In every state of the run the job is there as it was. */
  ghost predicate StaysAlong(l: Limits, s: Sys, steps: seq<Step>, id: Id)
    requires Inv(l, s) && Legal(l, s, steps)
    decreases |steps|
  {
    steps != [] ==>
      && Stays(s.inner, Next(l, s, steps[0]).inner, id)
      && (NextKeepsInv(l, s, steps[0]); StaysAlong(l, Next(l, s, steps[0]), steps[1..], id))
  }

  /** No step of the run finds `job` expired or evicts its id. */
  ghost predicate NeverRemoved(l: Limits, s: Sys, steps: seq<Step>, id: Id, finished: Time)
    requires Inv(l, s) && Legal(l, s, steps)
    decreases |steps|
  {
    steps != [] ==>
      && (SweepTime(steps[0]).Some? ==> Elapsed(SweepTime(steps[0]).value, finished) < l.ttl)
      && !Evicts(l, s, steps[0], id)
      && (NextKeepsInv(l, s, steps[0]); NeverRemoved(l, Next(l, s, steps[0]), steps[1..], id, finished))
  }

  /**
   * A terminal job answers the same along a whole run if and only if no step comes when its time to live
   * is over, and none evicts it from a full store as the job that finished first.
   */
  lemma {:induction false} AnswersUntil(l: Limits, s: Sys, steps: seq<Step>, id: Id)
    requires Inv(l, s) && Legal(l, s, steps) && TerminalAt(s.inner, id)
    ensures StaysAlong(l, s, steps, id) <==> NeverRemoved(l, s, steps, id, s.inner.jobs[id].finished.value)
    ensures StaysAlong(l, s, steps, id) ==> AnswerFor(Exec(l, s, steps).inner, id) == s.inner.jobs[id].Reply()
    decreases |steps|
  {
    hide Valid, Coupled, Next, Evicts;
    if steps != [] {
      StaysIff(l, s, steps[0], id);
      NextKeepsInv(l, s, steps[0]);
      if Stays(s.inner, Next(l, s, steps[0]).inner, id) {
        AnswersUntil(l, Next(l, s, steps[0]), steps[1..], id);
      }
    }
  }
}
