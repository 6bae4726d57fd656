/**
 * Each access of the store in plain terms (`jobs.rs`): what is answered, with its code and token, and what
 * becomes of every job, of the queue and of the running slot.
 */
module Accesses {
  import opened Prelude
  import opened Jobs
  import Sanitize

  // ------------------------------------------------------------------ answers

  /** What a result answers about an id, after the sweep. */
  lemma ResultAnswers(s: Inner, id: Id)
    ensures id !in s.jobs ==> AnswerFor(s, id) == Answer(5, "unknown_job")
    ensures id in s.jobs ==>
      match s.jobs[id].state
      case Pending => AnswerFor(s, id) == Answer(1, "pending")
      case Ready(raw) => AnswerFor(s, id) == Answer(0, raw)
      case Failed(reason) => AnswerFor(s, id) == Answer(2, reason)
      case Canceled(reason) => AnswerFor(s, id) == Answer(3, reason)
  {
  }

  // ------------------------------------------------------------------ a sweep

  /** An overdue job has failed now; any other is as it was, if it is still there. */
  lemma SweepMakes(l: Limits, s: Inner, now: Time, id: Id)
    requires Valid(l, s) && id in Sweep(l, s, now).jobs
    ensures id in s.jobs
    ensures Sweep(l, s, now).jobs[id]
         == if s.jobs[id].state.Pending? && now >= s.jobs[id].deadline
            then s.jobs[id].(state := Failed("timeout"), finished := Some(now)) else s.jobs[id]
  {
  }

  /** Only overdue jobs leave the queue, and a running one that does gives up its socket. */
  lemma SweepQueue(l: Limits, s: Inner, now: Time)
    requires Valid(l, s)
    ensures Subsequence(Sweep(l, s, now).queue, s.queue)
    ensures forall id :: id in Sweep(l, s, now).queue <==> id in s.queue && now < s.jobs[id].deadline
    ensures Sweep(l, s, now).running
         == if s.running.Some? && s.running.value.id in s.jobs && s.jobs[s.running.value.id].state.Pending?
               && now >= s.jobs[s.running.value.id].deadline
            then Some(Running(s.running.value.id, None)) else s.running
  {
    WithoutIsSubsequence(s.queue, Overdue(s, now));
  }

  // ------------------------------------------------------------------ a talk

  /** PENDING for this NPC and scope: a new job of the same supersedes it. */
  predicate IsRival(job: Job, npc: nat, scope: string) {
    job.state.Pending? && job.talk.npc == npc && job.scope == scope
  }

  lemma {:induction false} DistinctCount(s: seq<Id>, all: set<Id>)
    requires NoDuplicates(s) && forall x :: x in all <==> x in s
    ensures |all| == |s|
    decreases |s|
  {
    if s == [] {
      assert all == {};
    } else {
      assert s[0] !in s[1..];
      DistinctCount(s[1..], all - {s[0]});
    }
  }

  lemma RivalsAre(t: Inner, npc: nat, scope: string)
    ensures forall id :: id in Victims(t, npc, scope) <==> id in t.jobs && IsRival(t.jobs[id], npc, scope)
  {
  }

  /** Whoever waits for another NPC or in another scope. */
  function Others(t: Inner, npc: nat, scope: string): set<Id> {
    set q | q in t.queue && q in t.jobs && !(t.jobs[q].talk.npc == npc && t.jobs[q].scope == scope)
  }

  lemma OthersCount(t: Inner, npc: nat, scope: string)
    requires QueueOk(t)
    ensures |Without(t.queue, Victims(t, npc, scope))| == |Others(t, npc, scope)|
  {
    var victims := Victims(t, npc, scope);
    RivalsAre(t, npc, scope);
    WithoutKeepsDistinct(t.queue, victims);
    DistinctCount(Without(t.queue, victims), Others(t, npc, scope));
  }

  /** No job is terminal, and none is of this NPC and scope. */
  predicate Stuck(t: Inner, npc: nat, scope: string) {
    forall x :: x in t.jobs ==> t.jobs[x].state.Pending? && !(t.jobs[x].talk.npc == npc && t.jobs[x].scope == scope)
  }

  lemma StuckIs(l: Limits, t: Inner, npc: nat, scope: string)
    requires JobsOk(l, t)
    ensures Victims(t, npc, scope) == {} && !HasTerminal(t.jobs) <==> Stuck(t, npc, scope)
  {
    RivalsAre(t, npc, scope);
    hide Victims;
    if Victims(t, npc, scope) == {} && !HasTerminal(t.jobs) {
      forall x | x in t.jobs ensures t.jobs[x].state.Pending? && !IsRival(t.jobs[x], npc, scope) {
        assert JobOk(l, t.jobs[x]);
      }
    }
    if Stuck(t, npc, scope) {
      assert forall x :: x in t.jobs ==> JobOk(l, t.jobs[x]) && !IsRival(t.jobs[x], npc, scope);
    }
  }

  lemma BusyIs(l: Limits, t: Inner, npc: nat, scope: string)
    requires Valid(l, t)
    ensures IsBusy(l, t, npc, scope)
       <==> |Others(t, npc, scope)| >= l.queueLen || (|t.jobs| >= l.maxJobs && Stuck(t, npc, scope))
  {
    hide Victims, Others, Stuck, HasTerminal, Placed, OnePerScope, WithinCapacity;
    OthersCount(t, npc, scope);
    StuckIs(l, t, npc, scope);
  }

  /**
   * A talk under an id that the store does not have, after the sweep, is busy exactly when as many jobs wait
   * for other NPCs or scopes as the queue can hold, or the store is full of PENDING jobs of which none is
   * of this NPC and scope; else it is PENDING.
   */
  lemma NewTalkAnswer(l: Limits, s: Inner, id: Id, talk: Talk, scope: string, now: Time)
    requires Valid(l, s) && id !in Sweep(l, s, now).jobs
    ensures var t := Sweep(l, s, now);
      TalkAnswer(l, s, id, talk, scope, now)
         == if |Others(t, talk.npc, scope)| >= l.queueLen || (|t.jobs| >= l.maxJobs && Stuck(t, talk.npc, scope))
            then Answer(6, "busy") else Answer(1, "pending")
  {
    hide Sweep, Valid, IsBusy;
    SweepValid(l, s, now);
    BusyIs(l, Sweep(l, s, now), talk.npc, scope);
  }

  /** A talk under an id that is there changes nothing, and gets the job's answer only for the same talk. */
  lemma KnownTalk(l: Limits, s: Inner, id: Id, talk: Talk, prompt: Option<string>, scope: string, now: Time)
    requires id in Sweep(l, s, now).jobs
    ensures var t, old' := Sweep(l, s, now), Sweep(l, s, now).jobs[id].talk;
      && TalkTo(l, s, id, talk, prompt, scope, now) == t
      && TalkAnswer(l, s, id, talk, scope, now)
         == if old'.npc == talk.npc && old'.day == talk.day && old'.pname == talk.pname && old'.msg == talk.msg
            then AnswerFor(t, id) else Answer(4, "conflict")
  {
  }

  /** A busy talk changes nothing. */
  lemma BusyTalk(l: Limits, s: Inner, id: Id, talk: Talk, prompt: Option<string>, scope: string, now: Time)
    requires id !in Sweep(l, s, now).jobs && TalkAnswer(l, s, id, talk, scope, now) == Answer(6, "busy")
    ensures TalkTo(l, s, id, talk, prompt, scope, now) == Sweep(l, s, now)
  {
  }

  /** The jobs once the rivals of a new one are superseded. */
  function Superseded(t: Inner, npc: nat, scope: string, now: Time): map<Id, Job> {
    map id | id in t.jobs ::
      if IsRival(t.jobs[id], npc, scope) then t.jobs[id].(state := Canceled("superseded"), finished := Some(now))
      else t.jobs[id]
  }

  /** It finished first, the smaller id where two finished at once. */
  ghost predicate FinishedFirst(jobs: map<Id, Job>, id: Id) {
    && id in jobs && jobs[id].finished.Some?
    && forall x :: x in jobs && jobs[x].finished.Some? ==>
         || jobs[id].finished.value < jobs[x].finished.value
         || (jobs[id].finished.value == jobs[x].finished.value && id <= x)
  }

  lemma SupersededIs(t: Inner, npc: nat, scope: string, now: Time)
    ensures Settle(t, Victims(t, npc, scope), Canceled("superseded"), now).jobs == Superseded(t, npc, scope, now)
  {
    RivalsAre(t, npc, scope);
  }

  /**
   * What a talk that is taken makes: its rivals are superseded; a store that was full loses the job that
   * finished first; the new job has the clock reading of the talk, and is last in the queue, behind all who
   * waited and are no rivals.
   */
  lemma TakenTalk(l: Limits, s: Inner, id: Id, talk: Talk, prompt: Option<string>, scope: string, now: Time)
    requires Valid(l, s) && id !in Sweep(l, s, now).jobs
    requires TalkAnswer(l, s, id, talk, scope, now) == Answer(1, "pending")
    ensures var t, jobs := Sweep(l, s, now), TalkTo(l, s, id, talk, prompt, scope, now).jobs;
      var settled := Superseded(t, talk.npc, scope, now);
      if |t.jobs| < l.maxJobs then jobs == settled[id := Fresh(l, talk, prompt, scope, now)]
      else exists first: Id ::
        FinishedFirst(settled, first) && jobs == (settled - {first})[id := Fresh(l, talk, prompt, scope, now)]
    ensures var t, q := Sweep(l, s, now), TalkTo(l, s, id, talk, prompt, scope, now).queue;
      && q != [] && q[|q| - 1] == id && Subsequence(q[..|q| - 1], t.queue)
      && forall x :: x in q[..|q| - 1] <==> x in t.queue && !(x in t.jobs && IsRival(t.jobs[x], talk.npc, scope))
    ensures TalkTo(l, s, id, talk, prompt, scope, now).running
         == RunningWithout(Sweep(l, s, now), talk.npc, scope)
  {
    hide Sweep, Valid, IsBusy, Admit, Superseded, Subsequence, FinishedFirst, RunningWithout, IsRival;
    SweepValid(l, s, now);
    AdmittedJobs(l, Sweep(l, s, now), id, talk, prompt, scope, now);
    AdmittedQueue(l, Sweep(l, s, now), id, talk, prompt, scope, now);
  }

  /** The new job, as it is queued. */
  function Fresh(l: Limits, talk: Talk, prompt: Option<string>, scope: string, now: Time): Job {
    Job(talk, prompt, scope, Pending, now, now + l.deadline, None)
  }

  lemma AdmittedJobs(l: Limits, t: Inner, id: Id, talk: Talk, prompt: Option<string>, scope: string, now: Time)
    requires Valid(l, t) && !IsBusy(l, t, talk.npc, scope)
    ensures var jobs, settled := Admit(l, t, id, talk, prompt, scope, now).jobs, Superseded(t, talk.npc, scope, now);
      if |t.jobs| < l.maxJobs then jobs == settled[id := Fresh(l, talk, prompt, scope, now)]
      else exists first: Id ::
        FinishedFirst(settled, first) && jobs == (settled - {first})[id := Fresh(l, talk, prompt, scope, now)]
  {
    hide Valid, IsBusy, Victims, Superseded, HasTerminal, FinishedFirst;
    MakeRoomValid(l, t, talk.npc, scope, now);
    SupersededIs(t, talk.npc, scope, now);
    var settled := Superseded(t, talk.npc, scope, now);
    SameSize(t, talk.npc, scope, now);
    if |t.jobs| >= l.maxJobs {
      EvictableAfterSettling(l, t, talk.npc, scope, now);
      FirstIsOldest(settled);
    }
  }

  lemma SameSize(t: Inner, npc: nat, scope: string, now: Time)
    ensures |Superseded(t, npc, scope, now)| == |t.jobs|
  {
    assert Superseded(t, npc, scope, now).Keys == t.jobs.Keys;
    assert |Superseded(t, npc, scope, now).Keys| == |Superseded(t, npc, scope, now)| && |t.jobs.Keys| == |t.jobs|;
  }

  lemma AdmittedQueue(l: Limits, t: Inner, id: Id, talk: Talk, prompt: Option<string>, scope: string, now: Time)
    ensures var q := Admit(l, t, id, talk, prompt, scope, now).queue;
      && q != [] && q[|q| - 1] == id && Subsequence(q[..|q| - 1], t.queue)
      && forall x :: x in q[..|q| - 1] <==> x in t.queue && !(x in t.jobs && IsRival(t.jobs[x], talk.npc, scope))
    ensures Admit(l, t, id, talk, prompt, scope, now).running == RunningWithout(t, talk.npc, scope)
  {
    hide Victims, IsRival, Subsequence;
    var victims := Victims(t, talk.npc, scope);
    RivalsAre(t, talk.npc, scope);
    WithoutIsSubsequence(t.queue, victims);
    var u := Admit(l, t, id, talk, prompt, scope, now);
    assert u.queue == Without(t.queue, victims) + [id];
    assert u.queue[..|u.queue| - 1] == Without(t.queue, victims);
  }

  /** The running job gives up its socket if it is superseded. */
  function RunningWithout(t: Inner, npc: nat, scope: string): Option<Running> {
    if t.running.Some? && t.running.value.id in t.jobs && IsRival(t.jobs[t.running.value.id], npc, scope)
      then Some(Running(t.running.value.id, None)) else t.running
  }

  lemma FirstIsOldest(jobs: map<Id, Job>)
    requires HasTerminal(jobs)
    ensures FinishedFirst(jobs, Oldest(jobs))
  {
  }

  // ------------------------------------------------------------------ a cancel, a finish, a poll

  /** A cancel settles the job if it is PENDING after the sweep, and nothing else changes. */
  lemma CancelMakes(l: Limits, s: Inner, id: Id, now: Time)
    requires Valid(l, s)
    ensures var t, u := Sweep(l, s, now), Cancel(l, s, id, now);
      if id in t.jobs && t.jobs[id].state.Pending? then
        && u.jobs == t.jobs[id := t.jobs[id].(state := Canceled("canceled"), finished := Some(now))]
        && AnswerFor(u, id) == Answer(3, "canceled") && Subsequence(u.queue, t.queue)
        && (forall x :: x in u.queue <==> x in t.queue && x != id)
        && u.running == if t.running.Some? && t.running.value.id == id then Some(Running(id, None)) else t.running
      else u == t
  {
    hide Sweep, Valid;
    SettledOne(Sweep(l, s, now), id, Canceled("canceled"), now);
  }

  /** One PENDING job leaves that state, and the queue, and its socket goes. */
  lemma SettledOne(t: Inner, id: Id, st: State, now: Time)
    ensures var u := SettleIfPending(t, id, st, now);
      if id in t.jobs && t.jobs[id].state.Pending? then
        && u.jobs == t.jobs[id := t.jobs[id].(state := st, finished := Some(now))] && Subsequence(u.queue, t.queue)
        && (forall x :: x in u.queue <==> x in t.queue && x != id)
        && u.running == if t.running.Some? && t.running.value.id == id then Some(Running(id, None)) else t.running
      else u == t
  {
    WithoutIsSubsequence(t.queue, {id});
  }

  /**
   * An attach is accepted exactly for the running job while that is PENDING, whether or not the socket could
   * be cloned; a clone is then in the slot, and nothing else changes.
   */
  lemma AttachMakes(s: Inner, id: Id, clone: Option<Socket>)
    ensures var (u, live) := Attach(s, id, clone);
      && (live <==> s.running.Some? && s.running.value.id == id && id in s.jobs && s.jobs[id].state.Pending?)
      && u == if live && clone.Some? then s.(running := Some(Running(id, clone))) else s
  {
  }

  /** What becomes of the job whose run ends: READY with the raw reply, or failed for a reason. */
  function Ended(outcome: Outcome): State {
    match outcome
    case Err(reason) => Failed(reason)
    case Ok(raw) => if Sanitize.SanitizeText(raw).Ok? then Ready(raw) else Failed("empty_reply")
  }

  /** The end of a run settles the job under its id if that is PENDING and in time, and frees the slot. */
  lemma FinishMakes(l: Limits, s: Inner, id: Id, outcome: Outcome, now: Time)
    requires Valid(l, s) && IsRunning(s, id)
    ensures var t, u := Sweep(l, s, now), Finish(l, s, id, outcome, now);
      && u.running == None
      && if id in s.jobs && s.jobs[id].state.Pending? && now < s.jobs[id].deadline then
           && u.jobs == t.jobs[id := s.jobs[id].(state := Ended(outcome), finished := Some(now))]
           && Subsequence(u.queue, t.queue) && (forall x :: x in u.queue <==> x in t.queue && x != id)
         else u.jobs == t.jobs && u.queue == t.queue
  {
    hide Sweep, SettleIfPending, Placed, OnePerScope, WithinCapacity, QueueOk;
    FinishIsSweepSettleClear(l, s, id, outcome, now);
    SweepPending(l, s, now);
    SettledOne(Sweep(l, s, now), id, Decide(outcome), now);
  }

  /**
   * A poll takes the first job of the queue that is in time, and those before it, which are overdue, have
   * failed; if none is in time, all of the queue has failed.
   */
  lemma PollMakes(l: Limits, s: Inner, now: Time) returns (k: nat)
    requires Valid(l, s) && QueueOk(s) && s.running.None?
    ensures k <= |s.queue| && forall i :: 0 <= i < k ==> s.queue[i] in s.jobs && now >= s.jobs[s.queue[i]].deadline
    ensures var (u, item) := Poll(s, now);
      && u.jobs == (map id | id in s.jobs :: if id in s.queue[..k]
                     then s.jobs[id].(state := Failed("timeout"), finished := Some(now)) else s.jobs[id])
      && if k == |s.queue| then u.queue == [] && u.running == None && item == None
         else
           && now < s.jobs[s.queue[k]].deadline && u.queue == s.queue[k + 1..]
           && u.running == Some(Running(s.queue[k], None))
           && item == Some(WorkItem(s.queue[k], s.jobs[s.queue[k]].talk, s.jobs[s.queue[k]].prompt,
                                    s.jobs[s.queue[k]].deadline))
  {
    hide Valid, Settle, LeadingOverdue;
    var t;
    k, t := PollSplits(l, s, now);
    OverdueHeads(s, k, now);
    HeadsFailed(s, k, now);
  }

  lemma OverdueHeads(s: Inner, k: nat, now: Time)
    requires QueueOk(s) && k == LeadingOverdue(s, s.queue, now)
    ensures k <= |s.queue| && forall i :: 0 <= i < k ==> s.queue[i] in s.jobs && now >= s.jobs[s.queue[i]].deadline
    ensures k < |s.queue| ==> s.queue[k] in s.jobs && now < s.jobs[s.queue[k]].deadline
  {
    assert forall i :: 0 <= i < |s.queue| ==> s.queue[i] in s.queue;
  }

  lemma HeadsFailed(s: Inner, k: nat, now: Time)
    requires k <= |s.queue|
    ensures Settle(s, Elements(s.queue[..k]), Failed("timeout"), now).jobs
         == map id | id in s.jobs :: if id in s.queue[..k]
              then s.jobs[id].(state := Failed("timeout"), finished := Some(now)) else s.jobs[id]
  {
  }
}
