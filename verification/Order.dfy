/** What a step does to the queue and to a waiting worker (`jobs.rs`). */
module Order {
  import opened Prelude
  import opened Protocol
  import opened Jobs
  import opened Runs

  // ------------------------------------------------------------------ the queue

  function AdmittedBy(l: Limits, s: Sys, step: Step): seq<Id> {
    if AdmitsJob(l, s, step) then [step.id] else []
  }

  function StartedBy(s: Sys, step: Step): seq<Id>
    requires QueueOk(s.inner)
  {
    if step.DoPoll? && Poll(s.inner, step.now).1.Some? then [Poll(s.inner, step.now).1.value.id] else []
  }

  lemma FinishShrinksQueue(l: Limits, s: Inner, id: Id, outcome: Outcome, now: Time)
    requires IsRunning(s, id)
    ensures Subsequence(Finish(l, s, id, outcome, now).queue, s.queue)
  {
    FinishIsSweepSettleClear(l, s, id, outcome, now);
    SweepShrinksQueue(l, s, id, Decide(outcome), now);
  }

  lemma SweepShrinksQueue(l: Limits, s: Inner, id: Id, st: State, now: Time)
    ensures Subsequence(Sweep(l, s, now).queue, s.queue)
    ensures Subsequence(SettleIfPending(Sweep(l, s, now), id, st, now).queue, s.queue)
  {
    var t := Sweep(l, s, now);
    WithoutIsSubsequence(s.queue, Overdue(s, now));
    WithoutIsSubsequence(t.queue, {id});
    SubsequenceTransitive(Without(t.queue, {id}), t.queue, s.queue);
  }

  lemma TalkAppendsToQueue(l: Limits, s: Inner, id: Id, talk: Talk, prompt: Option<string>, scope: string, now: Time)
    ensures Subsequence(TalkTo(l, s, id, talk, prompt, scope, now).queue,
                        s.queue + if Admits(l, s, id, talk, scope, now) then [id] else [])
  {
    var t := Sweep(l, s, now);
    SweepShrinksQueue(l, s, id, Pending, now);
    if Admits(l, s, id, talk, scope, now) {
      var victims := Victims(t, talk.npc, scope);
      WithoutIsSubsequence(t.queue, victims);
      SubsequenceTransitive(Without(t.queue, victims), t.queue, s.queue);
      SubsequenceReflexive([id]);
      SubsequenceConcat(Without(t.queue, victims), s.queue, [id], [id]);
    } else {
      assert s.queue + [] == s.queue;
    }
  }

  lemma PollTakesFromQueue(l: Limits, s: Inner, now: Time)
    requires Valid(l, s) && s.running.None?
    ensures var (t, item) := Poll(s, now);
      Subsequence((if item.Some? then [item.value.id] else []) + t.queue, s.queue)
  {
    hide Settle, LeadingOverdue, NoDuplicates, JobsOk, Placed, OnePerScope, WithinCapacity;
    var k, t := PollSplits(l, s, now);
    SuffixIsSubsequence(s.queue, k);
    if k < |s.queue| {
      assert [s.queue[k]] + s.queue[k + 1..] == s.queue[k..];
    } else {
      assert s.queue[k..] == [] && [] + t.queue == t.queue;
    }
  }

  /**
   * One step: what it starts, followed by the queue it leaves, is taken in order from the old queue and the
   * admission.
   */
  lemma StepKeepsOrder(l: Limits, s: Sys, step: Step)
    requires Inv(l, s) && Enabled(s, step)
    ensures Subsequence(StartedBy(s, step) + Next(l, s, step).inner.queue, s.inner.queue + AdmittedBy(l, s, step))
  {
    var q := Next(l, s, step).inner.queue;
    assert [] + q == q && s.inner.queue + [] == s.inner.queue;
    match step
    case DoTalk(id, talk, prompt, scope, now) => TalkAppendsToQueue(l, s.inner, id, talk, prompt, scope, now);
    case DoResult(id, now) => SweepShrinksQueue(l, s.inner, id, Pending, now);
    case DoCancel(id, now) => SweepShrinksQueue(l, s.inner, id, Canceled(REASON_CANCELED), now);
    case DoPoll(now) => PollTakesFromQueue(l, s.inner, now);
    case DoAttach(_) => SubsequenceReflexive(q);
    case DoFinish(outcome, now) => FinishShrinksQueue(l, s.inner, s.worker.item.id, outcome, now);
  }

  /** No lost wakeup: in every state of every run, a worker waiting without a notification has nothing to do. */
  lemma NoLostWakeup(l: Limits, t: Sys)
    requires Reached(l, t)
    ensures t.worker == Waiting(false) ==> forall id :: !PendingAt(t.inner, id)
  {
    ReachedInv(l, t);
  }
}
