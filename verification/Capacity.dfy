/** The invariant of the store spelled out for every run, and what making room may remove (`jobs.rs`). */
module Capacity {
  import opened Protocol
  import opened Jobs
  import opened Runs

  /** In every state of every run: where the jobs are, when they are finished, and how many there may be. */
  lemma StoreIsPartitioned(l: Limits, t: Sys)
    requires Reached(l, t)
    ensures var s := t.inner;
      && (forall i, j :: 0 <= i < j < |s.queue| ==> s.queue[i] != s.queue[j])
      && (forall id :: id in s.queue ==> id in s.jobs && s.jobs[id].state.Pending?)
      && (forall id :: id in s.jobs ==> (s.jobs[id].finished.None? <==> s.jobs[id].state.Pending?))
      && (forall id :: id in s.jobs && s.jobs[id].state.Pending? ==>
            id in s.queue || (s.running.Some? && s.running.value.id == id))
    ensures var s := t.inner;
      && |s.jobs| <= l.maxJobs && |s.queue| <= l.queueLen
      && (forall a, b | a in s.jobs && b in s.jobs && s.jobs[a].state.Pending? && s.jobs[b].state.Pending? ::
            SameScope(s.jobs[a], s.jobs[b]) ==> a == b)
  {
    ReachedInv(l, t);
    var s := t.inner;
    assert forall id :: id in s.jobs ==> JobOk(l, s.jobs[id]);
    assert forall id :: id in s.jobs && s.jobs[id].state.Pending? ==> PendingAt(s, id);
  }

  /**
   * Making room removes no job, or exactly one: the terminal job that finished first (ties by id) of a
   * store that was full. A victim stays, cancelled, unless it is that job.
   */
  lemma MakingRoomEvictsTheOldest(l: Limits, s: Inner, npc: nat, scope: string, now: Time)
    requires Valid(l, s) && !IsBusy(l, s, npc, scope)
    ensures var settled := Settle(s, Victims(s, npc, scope), Canceled(REASON_SUPERSEDED), now);
      var after := MakeRoom(l, s, npc, scope, now).jobs;
      if |s.jobs| < l.maxJobs then after == settled.jobs
      else exists gone :: IsOldest(settled.jobs, gone) && !PendingAt(settled, gone) && after == settled.jobs - {gone}
  {
    var settled := Settle(s, Victims(s, npc, scope), Canceled(REASON_SUPERSEDED), now);
    MakeRoomValid(l, s, npc, scope, now);
    if |s.jobs| >= l.maxJobs {
      var gone := Oldest(settled.jobs);
      SettleValid(l, s, Victims(s, npc, scope), Canceled(REASON_SUPERSEDED), now);
      assert JobOk(l, settled.jobs[gone]);
    }
  }

  /** A busy answer has no side effect beyond the sweep that every access does. */
  lemma BusyChangesNothing(l: Limits, s: Sys, step: Step)
    requires Inv(l, s) && step.DoTalk?
    requires TalkAnswer(l, s.inner, step.id, step.talk, step.scope, step.now).code == CODE_BUSY
    ensures Next(l, s, step) == Sys(Sweep(l, s.inner, step.now), s.worker)
    ensures TalkKill(l, s.inner, step.id, step.talk, step.scope, step.now) == SweepKill(s.inner, step.now)
  {
  }
}
