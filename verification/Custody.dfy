/**
 * The invariant of the whole server: every job of version 2 in the store, every reply in the database
 * and every route between them can be traced to one submission (`living.rs` over `jobs.rs`).
 */
module Custody {
  import opened Prelude
  import opened Protocol
  import opened Identity
  import opened Jobs
  import opened Runs
  import opened Answers
  import opened Living
  import opened Server
  import Order
  import Race
  import Sanitize

  /** Worker ids of version 2 lie above every request id of version 1. */
  predicate IsLiving(id: Id) {
    id > RID_MAX
  }

  // ------------------------------------------------------------------ traces

  ghost predicate Asked(sub: Submission, epoch: nat, id: Id, talk: Talk, prompt: Option<string>) {
    sub.epoch == epoch && sub.worker == id && sub.talk == talk && prompt == Some(sub.prompt)
  }

  /** The talk and prompt were submitted under this worker id in this epoch. */
  ghost predicate Ticketed(past: History, id: Id, talk: Talk, prompt: Option<string>) {
    exists i :: 0 <= i < |past.submitted| && Asked(past.submitted[i], past.epoch, id, talk, prompt)
  }

  ghost predicate Made(g: Generation, epoch: nat, id: Id, talk: Talk, prompt: Option<string>, raw: string) {
    g.epoch == epoch && g.item.id == id && g.item.talk == talk && g.item.prompt == prompt && g.raw == raw
  }

  /** The backend made `raw` of this talk and prompt, as this worker id, in this epoch. */
  ghost predicate MadeFor(past: History, id: Id, talk: Talk, prompt: Option<string>, raw: string) {
    exists k :: 0 <= k < |past.generated| && Made(past.generated[k], past.epoch, id, talk, prompt, raw)
  }

  /** Attempt `a` was submitted under this worker id in this epoch. */
  ghost predicate SubmittedAs(past: History, a: nat, id: Id) {
    exists i :: 0 <= i < |past.submitted| && past.submitted[i].epoch == past.epoch && past.submitted[i].worker == id
                && past.submitted[i].attempt == a
  }

  // ------------------------------------------------------------------ the store's side

  ghost predicate JobTracked(past: History, next: nat, id: Id, job: Job) {
    if IsLiving(id) then
      && id < next && job.scope != "" && Ticketed(past, id, job.talk, job.prompt)
      && job.state != Jobs.Canceled(REASON_SUPERSEDED)
      && (job.state.Ready? ==> MadeFor(past, id, job.talk, job.prompt, job.state.raw))
    else job.scope == ""
  }

  ghost predicate JobsTracked(past: History, next: nat, s: Inner) {
    forall id :: id in s.jobs ==> JobTracked(past, next, id, s.jobs[id])
  }

  ghost predicate ItemTracked(past: History, next: nat, w: Worker) {
    w.Working? && IsLiving(w.item.id) ==> w.item.id < next && Ticketed(past, w.item.id, w.item.talk, w.item.prompt)
  }

  /** No worker id of version 2 is started twice, and one that was started in this epoch is not queued. */
  ghost predicate StartsTracked(past: History, next: nat, s: Inner) {
    && (forall i :: 0 <= i < |past.started| ==> past.started[i].epoch <= past.epoch)
    && (forall i | 0 <= i < |past.started| && past.started[i].epoch == past.epoch && IsLiving(past.started[i].worker) ::
          past.started[i].worker < next && past.started[i].worker !in s.queue)
    && (forall i, j | 0 <= i < j < |past.started| && past.started[i] == past.started[j] ::
        !IsLiving(past.started[i].worker))
  }

  /** The worker took the job that was submitted for attempt `a`. */
  ghost predicate IsStartOf(past: History, ticket: Ticket, a: nat) {
    exists k :: 0 <= k < |past.submitted| && past.submitted[k].attempt == a
      && past.submitted[k].epoch == ticket.epoch && past.submitted[k].worker == ticket.worker
  }

  /** Every job of version 2 that was started had been submitted for an attempt. */
  ghost predicate StartsSubmitted(past: History) {
    forall i :: 0 <= i < |past.started| && IsLiving(past.started[i].worker) ==>
      exists a :: IsStartOf(past, past.started[i], a)
  }

  function TicketOf(g: Generation): Ticket {
    Ticket(g.epoch, g.item.id)
  }

  /** A job of version 2 that was started has at most one outcome, and none while the worker still has it. */
  ghost predicate OutcomesOnce(past: History, w: Worker) {
    && (forall k :: 0 <= k < |past.generated| ==> TicketOf(past.generated[k]) in past.started)
    && (forall k, m | 0 <= k < m < |past.generated| && TicketOf(past.generated[k]) == TicketOf(past.generated[m]) ::
          !IsLiving(past.generated[k].item.id))
    && (w.Working? ==> Ticket(past.epoch, w.item.id) in past.started)
    && (w.Working? && IsLiving(w.item.id) ==>
          forall k :: 0 <= k < |past.generated| ==> TicketOf(past.generated[k]) != Ticket(past.epoch, w.item.id))
  }

  ghost predicate Tracked(past: History, next: nat, sys: Sys) {
    && JobsTracked(past, next, sys.inner) && ItemTracked(past, next, sys.worker) && StartsTracked(past, next, sys.inner)
    && OutcomesOnce(past, sys.worker) && StartsSubmitted(past)
  }

  // ------------------------------------------------------------------ the database's side

  ghost predicate SubmissionOk(db: Db, past: History, next: nat, sub: Submission)
    requires ForeignKeys(db)
  {
    && sub.epoch <= past.epoch && IsLiving(sub.worker) && (sub.epoch == past.epoch ==> sub.worker < next)
    && sub.attempt < |db.attempts|
    && sub.talk == TalkOf(db.attempts[sub.attempt].payload) && sub.scope == PlaceOf(db, sub.attempt).Scope()
  }

  /** Each attempt is submitted at most once ever, and each worker id at most once in an epoch. */
  ghost predicate SubmittedOnce(past: History) {
    forall i, j :: 0 <= i < j < |past.submitted| ==>
      && past.submitted[i].attempt != past.submitted[j].attempt
      && (past.submitted[i].epoch != past.submitted[j].epoch || past.submitted[i].worker != past.submitted[j].worker)
  }

  ghost predicate SubmissionsOk(db: Db, past: History, next: nat)
    requires ForeignKeys(db)
  {
    SubmittedOnce(past) && forall i :: 0 <= i < |past.submitted| ==> SubmissionOk(db, past, next, past.submitted[i])
  }

  /** Routes lead from pending attempts to their own worker ids, no two to the same. */
  ghost predicate RoutesOk(m: Mem, past: History) {
    && (forall a :: a in m.running ==>
          && a < |m.db.attempts| && m.db.attempts[a].stage.Pending? && SubmittedAs(past, a, m.running[a]))
    && (forall a, b :: a in m.running && b in m.running && m.running[a] == m.running[b] ==> a == b)
  }

  /** A pending attempt has a route, unless its closing write failed, and then it has none. */
  ghost predicate PendingOk(m: Mem, past: History) {
    && (forall a :: 0 <= a < |m.db.attempts| && m.db.attempts[a].stage.Pending? ==> a in m.running || a in past.lost)
    && (forall a :: a in past.lost ==> a < |m.db.attempts| && a !in m.running)
  }

  /** A PENDING job of version 2 has a route leading to it, from an attempt of its own scope. */
  ghost predicate Routed(m: Mem, s: Inner) {
    forall id :: IsLiving(id) && PendingAt(s, id) ==> HasRoute(m, id, s.jobs[id].scope)
  }

  ghost predicate HasRoute(m: Mem, id: Id, scope: string) {
    ForeignKeys(m.db)
    && exists a :: a in m.running && m.running[a] == id && a < |m.db.attempts| && PlaceOf(m.db, a).Scope() == scope
  }

  /** The reply is what the sanitizer made of an outcome generated for this very attempt's submission. */
  ghost predicate OwnReply(past: History, a: nat, reply: string) {
    exists i, k :: 0 <= i < |past.submitted| && 0 <= k < |past.generated| && past.submitted[i].attempt == a
      && MadeOf(past.generated[k], past.submitted[i], reply)
  }

  ghost predicate MadeOf(g: Generation, sub: Submission, reply: string) {
    Asked(sub, g.epoch, g.item.id, g.item.talk, g.item.prompt) && Sanitize.SanitizeText(g.raw) == Ok(reply)
  }

  ghost predicate RepliesOk(db: Db, past: History) {
    forall a :: 0 <= a < |db.attempts| && db.attempts[a].HasReply() ==> OwnReply(past, a, db.attempts[a].reply)
  }

  /** What was shown as READY for an attempt is still its reply, unless the attempt was canceled. */
  ghost predicate ShownOk(db: Db, past: History) {
    forall i | 0 <= i < |past.shown| ::
      && past.shown[i].0 < |db.attempts|
      && var row := db.attempts[past.shown[i].0];
          row.stage.Canceled? || (row.HasReply() && row.reply == past.shown[i].1)
  }

  ghost predicate MemOk(m: Mem, past: History) {
    && DbInv(m.db, past.order) && RID_MAX < m.nextWorker <= U32_MAX
    && SubmissionsOk(m.db, past, m.nextWorker) && RoutesOk(m, past) && PendingOk(m, past)
    && RepliesOk(m.db, past) && ShownOk(m.db, past)
  }

  ghost predicate ControlOk(s: Server) {
    s.control.Collecting? ==> s.control.request.place.Valid() && forall a :: a in s.control.todo ==> a in s.mem.running
  }

  ghost predicate ServerInv(l: Limits, s: Server) {
    && Inv(l, s.sys) && MemOk(s.mem, s.past) && ControlOk(s)
    && Tracked(s.past, s.mem.nextWorker, s.sys) && Routed(s.mem, s.sys.inner)
  }

  // ------------------------------------------------------------------ a step of the store

  /** The record after a step of the store; submissions may have been added. */
  ghost predicate Follows(past: History, after: History, sys: Sys, step: Step)
    requires Enabled(sys, step) && QueueOk(sys.inner)
  {
    && after.epoch == past.epoch && past.submitted <= after.submitted
    && after.generated == StoreHistory(past, sys, step).generated
    && after.started == StoreHistory(past, sys, step).started
  }

  /** What a talk that reaches the store may be: one of version 1, or one of version 2 with nothing in its scope. */
  ghost predicate CleanTalk(after: History, next: nat, s: Inner, step: Step) {
    step.DoTalk? ==>
      if IsLiving(step.id) then
        && step.id == next && step.scope != "" && Ticketed(after, step.id, step.talk, step.prompt)
        && forall id :: PendingAt(s, id) ==> s.jobs[id].scope != step.scope
      else step.scope == ""
  }

  lemma TicketStays(past: History, after: History, id: Id, talk: Talk, prompt: Option<string>)
    requires Ticketed(past, id, talk, prompt) && after.epoch == past.epoch && past.submitted <= after.submitted
    ensures Ticketed(after, id, talk, prompt)
  {
    var i :| 0 <= i < |past.submitted| && Asked(past.submitted[i], past.epoch, id, talk, prompt);
    assert after.submitted[i] == past.submitted[i];
  }

  lemma MadeStays(past: History, after: History, id: Id, talk: Talk, prompt: Option<string>, raw: string)
    requires MadeFor(past, id, talk, prompt, raw) && after.epoch == past.epoch && past.generated <= after.generated
    ensures MadeFor(after, id, talk, prompt, raw)
  {
    var k :| 0 <= k < |past.generated| && Made(past.generated[k], past.epoch, id, talk, prompt, raw);
    assert after.generated[k] == past.generated[k];
  }

  /** One worker id stands for one talk and one prompt. */
  lemma SameTicket(past: History, id: Id, talk: Talk, prompt: Option<string>, talk': Talk, prompt': Option<string>)
    requires SubmittedOnce(past) && Ticketed(past, id, talk, prompt) && Ticketed(past, id, talk', prompt')
    ensures talk == talk' && prompt == prompt'
  {
    var i :| 0 <= i < |past.submitted| && Asked(past.submitted[i], past.epoch, id, talk, prompt);
    var j :| 0 <= j < |past.submitted| && Asked(past.submitted[j], past.epoch, id, talk', prompt');
    assert i == j;
  }

  /** A job that the run of its own work item made READY has its reply on record. */
  lemma FinishedIsMade(l: Limits, past: History, next: nat, after: History, sys: Sys, step: Step, id: Id, raw: string)
    requires Inv(l, sys) && Enabled(sys, step) && Follows(past, after, sys, step) && SubmittedOnce(past)
    requires id in sys.inner.jobs && IsLiving(id) && JobTracked(past, next, id, sys.inner.jobs[id])
      && ItemTracked(past, next, sys.worker)
    requires step.DoFinish? && id == sys.worker.item.id && Decide(step.outcome) == Jobs.Ready(raw)
    ensures MadeFor(after, id, sys.inner.jobs[id].talk, sys.inner.jobs[id].prompt, raw)
  {
    var item, job := sys.worker.item, sys.inner.jobs[id];
    SameTicket(past, id, item.talk, item.prompt, job.talk, job.prompt);
    var k := |past.generated|;
    assert after.generated[k] == Generation(past.epoch, item, raw);
    assert Made(after.generated[k], after.epoch, id, job.talk, job.prompt, raw);
  }

  lemma JobStaysTracked(l: Limits, past: History, next: nat, after: History, later: nat, sys: Sys, step: Step, id: Id)
    requires Inv(l, sys) && Enabled(sys, step) && Follows(past, after, sys, step) && SubmittedOnce(past)
    requires JobsTracked(past, next, sys.inner) && ItemTracked(past, next, sys.worker)
    requires CleanTalk(after, next, sys.inner, step) && next <= later
      && (step.DoTalk? && IsLiving(step.id) ==> next < later)
    requires id in Next(l, sys, step).inner.jobs
    ensures JobTracked(after, later, id, Next(l, sys, step).inner.jobs[id])
  {
    hide Inv, Next, SubmittedOnce, Enabled, NextInner, Aged;
    JobEvolves(l, sys, step, id);
    var job := Next(l, sys, step).inner.jobs[id];
    if AdmitsJob(l, sys, step) && step.id == id {
    } else {
      var before := sys.inner.jobs[id];
      assert JobTracked(past, next, id, before);
      if IsLiving(id) {
        TicketStays(past, after, id, job.talk, job.prompt);
        if job == before {
          if job.state.Ready? {
            MadeStays(past, after, id, job.talk, job.prompt, job.state.raw);
          }
        } else if job.state.Ready? {
          FinishedIsMade(l, past, next, after, sys, step, id, job.state.raw);
        }
      }
    }
  }

  lemma ItemStaysTracked(l: Limits, past: History, next: nat, after: History, later: nat, sys: Sys, step: Step)
    requires Inv(l, sys) && Enabled(sys, step) && Follows(past, after, sys, step) && next <= later
    requires ItemTracked(past, next, sys.worker) && JobsTracked(after, later, Next(l, sys, step).inner)
    ensures ItemTracked(after, later, Next(l, sys, step).worker)
  {
    var w := Next(l, sys, step).worker;
    if w.Working? && IsLiving(w.item.id) {
      if step.DoPoll? {
        Race.JobTakenIsPending(l, sys, step.now);
        assert JobTracked(after, later, w.item.id, Next(l, sys, step).inner.jobs[w.item.id]);
      } else {
        TicketStays(past, after, w.item.id, w.item.talk, w.item.prompt);
      }
    }
  }

  /** Only an admission puts an id on the queue. */
  lemma QueuedBefore(l: Limits, sys: Sys, step: Step, id: Id)
    requires Inv(l, sys) && Enabled(sys, step) && id in Next(l, sys, step).inner.queue
    ensures id in sys.inner.queue || (AdmitsJob(l, sys, step) && step.id == id)
  {
    hide Next, NextInner, Enabled;
    Order.StepKeepsOrder(l, sys, step);
    var started, q := Order.StartedBy(sys, step), Next(l, sys, step).inner.queue;
    assert (started + q)[|started|..] == q;
    SubsequenceMember(started + q, sys.inner.queue + Order.AdmittedBy(l, sys, step), id);
  }

  /** What the worker takes was queued, and no longer is. */
  lemma TakenLeavesQueue(l: Limits, sys: Sys, now: Time)
    requires Inv(l, sys) && Enabled(sys, DoPoll(now)) && Poll(sys.inner, now).1.Some?
    ensures var id := Poll(sys.inner, now).1.value.id;
      id in sys.inner.queue && id !in Next(l, sys, DoPoll(now)).inner.queue
  {
    Race.JobTakenIsPending(l, sys, now);
    PollValid(l, sys.inner, now);
  }

  lemma TakenIsNew(l: Limits, past: History, next: nat, later: nat, after: History, sys: Sys, now: Time)
    requires Inv(l, sys) && Enabled(sys, DoPoll(now)) && Poll(sys.inner, now).1.Some?
    requires StartsTracked(past, next, sys.inner) && JobsTracked(after, later, Next(l, sys, DoPoll(now)).inner)
    ensures var id := Poll(sys.inner, now).1.value.id;
      IsLiving(id) ==>
        && id < later && id !in Next(l, sys, DoPoll(now)).inner.queue
        && forall i :: 0 <= i < |past.started| ==> past.started[i] != Ticket(past.epoch, id)
  {
    var id := Poll(sys.inner, now).1.value.id;
    TakenLeavesQueue(l, sys, now);
    Race.JobTakenIsPending(l, sys, now);
    assert JobTracked(after, later, id, Next(l, sys, DoPoll(now)).inner.jobs[id]);
  }

  lemma StartsStayTracked(l: Limits, past: History, next: nat, after: History, later: nat, sys: Sys, step: Step)
    requires Inv(l, sys) && Enabled(sys, step) && Follows(past, after, sys, step)
      && StartsTracked(past, next, sys.inner)
    requires CleanTalk(after, next, sys.inner, step) && next <= later
      && JobsTracked(after, later, Next(l, sys, step).inner)
    ensures StartsTracked(after, later, Next(l, sys, step).inner)
  {
    hide Next, NextInner, Poll, JobsTracked, Coupled, Admits, JobsOk, Placed, OnePerScope, WithinCapacity;
    var t := Next(l, sys, step);
    assert StartsTracked(past, next, sys.inner);
    forall i | 0 <= i < |past.started| && past.started[i].epoch == past.epoch && IsLiving(past.started[i].worker)
      ensures past.started[i].worker !in t.inner.queue
    {
      if past.started[i].worker in t.inner.queue {
        QueuedBefore(l, sys, step, past.started[i].worker);
      }
    }
    if step.DoPoll? && Poll(sys.inner, step.now).1.Some? {
      TakenIsNew(l, past, next, later, after, sys, step.now);
      assert after.started == past.started + [Ticket(past.epoch, Poll(sys.inner, step.now).1.value.id)];
    } else {
      assert after.started == past.started;
    }
  }

  lemma OutcomesStayOnce(l: Limits, past: History, next: nat, after: History, later: nat, sys: Sys, step: Step)
    requires Inv(l, sys) && Enabled(sys, step) && Follows(past, after, sys, step)
      && StartsTracked(past, next, sys.inner)
    requires OutcomesOnce(past, sys.worker) && JobsTracked(after, later, Next(l, sys, step).inner)
    ensures OutcomesOnce(after, Next(l, sys, step).worker)
  {
    hide NextInner, Poll, JobsTracked, StartsTracked, Coupled, AdmitsJob, JobsOk, Placed, OnePerScope, WithinCapacity;
    if step.DoPoll? && Poll(sys.inner, step.now).1.Some? {
      TakenIsNew(l, past, next, later, after, sys, step.now);
      var ticket := Ticket(past.epoch, Poll(sys.inner, step.now).1.value.id);
      assert after.started == past.started + [ticket] && ticket in after.started;
    }
  }

  lemma StartStays(past: History, after: History, ticket: Ticket, a: nat)
    requires IsStartOf(past, ticket, a) && past.submitted <= after.submitted
    ensures IsStartOf(after, ticket, a)
  {
    var k :| 0 <= k < |past.submitted| && past.submitted[k].attempt == a
      && past.submitted[k].epoch == ticket.epoch && past.submitted[k].worker == ticket.worker;
    assert after.submitted[k] == past.submitted[k];
  }

  lemma StartsStaySubmitted(past: History, after: History)
    requires StartsSubmitted(past) && past.submitted <= after.submitted && after.started == past.started
    ensures StartsSubmitted(after)
  {
    forall i | 0 <= i < |after.started| && IsLiving(after.started[i].worker)
      ensures exists a :: IsStartOf(after, after.started[i], a)
    {
      var a :| IsStartOf(past, past.started[i], a);
      StartStays(past, after, past.started[i], a);
    }
  }

  lemma StartAdded(past: History, after: History, id: Id, talk: Talk, prompt: Option<string>)
    requires StartsSubmitted(past) && after.started == past.started + [Ticket(past.epoch, id)]
    requires after.submitted == past.submitted && after.epoch == past.epoch
    requires IsLiving(id) ==> Ticketed(past, id, talk, prompt)
    ensures StartsSubmitted(after)
  {
    if IsLiving(id) {
      var k :| 0 <= k < |past.submitted| && Asked(past.submitted[k], past.epoch, id, talk, prompt);
      assert IsStartOf(after, Ticket(past.epoch, id), past.submitted[k].attempt);
    }
    forall i | 0 <= i < |past.started| && IsLiving(past.started[i].worker)
      ensures exists a :: IsStartOf(after, past.started[i], a)
    {
      var a :| IsStartOf(past, past.started[i], a);
      StartStays(past, after, past.started[i], a);
    }
  }

  lemma StepStartsSubmitted(l: Limits, past: History, after: History, later: nat, sys: Sys, step: Step)
    requires Inv(l, sys) && Enabled(sys, step) && Follows(past, after, sys, step) && StartsSubmitted(past)
    requires JobsTracked(after, later, Next(l, sys, step).inner)
    ensures StartsSubmitted(after)
  {
    hide NextInner, Poll, JobsOk, Placed, OnePerScope, WithinCapacity, StartsSubmitted, Ticketed;
    if step.DoPoll? && Poll(sys.inner, step.now).1.Some? {
      Race.JobTakenIsPending(l, sys, step.now);
      var id := Poll(sys.inner, step.now).1.value.id;
      var job := Next(l, sys, step).inner.jobs[id];
      assert JobTracked(after, later, id, job);
      var mid := past.(submitted := after.submitted);
      StartsStaySubmitted(past, mid);
      assert IsLiving(id) ==> Ticketed(mid, id, job.talk, job.prompt) by {
        SameTickets(after, mid, id, job.talk, job.prompt);
      }
      StartAdded(mid, after, id, job.talk, job.prompt);
    } else {
      StartsStaySubmitted(past, after);
    }
  }

  lemma SameTickets(past: History, after: History, id: Id, talk: Talk, prompt: Option<string>)
    requires after.submitted == past.submitted && after.epoch == past.epoch
    ensures Ticketed(past, id, talk, prompt) <==> Ticketed(after, id, talk, prompt)
  {
  }

  lemma StoreStepTracked(l: Limits, past: History, next: nat, after: History, later: nat, sys: Sys, step: Step)
    requires Inv(l, sys) && Enabled(sys, step) && Follows(past, after, sys, step) && SubmittedOnce(past)
    requires Tracked(past, next, sys) && CleanTalk(after, next, sys.inner, step)
    requires next <= later && (step.DoTalk? && IsLiving(step.id) ==> next < later)
    ensures Tracked(after, later, Next(l, sys, step))
  {
    hide ItemTracked, StartsTracked, OutcomesOnce, StartsSubmitted, JobTracked;
    forall id | id in Next(l, sys, step).inner.jobs
      ensures JobTracked(after, later, id, Next(l, sys, step).inner.jobs[id])
    {
      JobStaysTracked(l, past, next, after, later, sys, step, id);
    }
    ItemStaysTracked(l, past, next, after, later, sys, step);
    StartsStayTracked(l, past, next, after, later, sys, step);
    OutcomesStayOnce(l, past, next, after, later, sys, step);
    StepStartsSubmitted(l, past, after, later, sys, step);
  }

  /** A job that is PENDING after a step was so before, unchanged, or is the one admitted. */
  lemma PendingBefore(l: Limits, sys: Sys, step: Step, id: Id)
    requires Inv(l, sys) && Enabled(sys, step) && PendingAt(Next(l, sys, step).inner, id)
    ensures var t := Next(l, sys, step).inner;
      || (AdmitsJob(l, sys, step) && step.id == id && t.jobs[id].scope == step.scope)
      || (PendingAt(sys.inner, id) && t.jobs[id] == sys.inner.jobs[id])
  {
    JobEvolves(l, sys, step, id);
  }

  // ------------------------------------------------------------------ a transaction of the database

  lemma OwnReplyStays(past: History, after: History, a: nat, reply: string)
    requires OwnReply(past, a, reply) && past.submitted <= after.submitted && past.generated <= after.generated
    ensures OwnReply(after, a, reply)
  {
    var i, k :| 0 <= i < |past.submitted| && 0 <= k < |past.generated| && past.submitted[i].attempt == a
      && MadeOf(past.generated[k], past.submitted[i], reply);
    assert after.submitted[i] == past.submitted[i] && after.generated[k] == past.generated[k];
  }

  /** What the database says of the past stays true as it grows, if new replies are accounted for. */
  lemma GrownOk(db: Db, after: Db, past: History, next: nat)
    requires ForeignKeys(db) && ForeignKeys(after) && Grows(db, after)
    requires SubmissionsOk(db, past, next) && RepliesOk(db, past) && ShownOk(db, past)
    requires forall a | 0 <= a < |after.attempts| && after.attempts[a].HasReply()
                        && (a >= |db.attempts| || !db.attempts[a].HasReply()) ::
      OwnReply(past, a, after.attempts[a].reply)
    ensures SubmissionsOk(after, past, next) && RepliesOk(after, past) && ShownOk(after, past)
  {
    forall i | 0 <= i < |past.submitted| ensures SubmissionOk(after, past, next, past.submitted[i]) {
      var a := past.submitted[i].attempt;
      assert MovesOn(db.attempts[a], after.attempts[a]);
      assert after.conversations[..|db.conversations|][db.attempts[a].conversation]
        == db.conversations[db.attempts[a].conversation];
    }
    forall a | 0 <= a < |after.attempts| && after.attempts[a].HasReply()
      ensures OwnReply(past, a, after.attempts[a].reply)
    {
      if a < |db.attempts| && db.attempts[a].HasReply() {
        assert MovesOn(db.attempts[a], after.attempts[a]);
      }
    }
    forall i | 0 <= i < |past.shown|
      ensures past.shown[i].0 < |after.attempts|
      ensures var row := after.attempts[past.shown[i].0];
        row.stage.Canceled? || (row.HasReply() && row.reply == past.shown[i].1)
    {
      assert MovesOn(db.attempts[past.shown[i].0], after.attempts[past.shown[i].0]);
    }
  }

  lemma SubmittedAsStays(past: History, after: History, a: nat, id: Id)
    requires SubmittedAs(past, a, id) && after.epoch == past.epoch && past.submitted <= after.submitted
    ensures SubmittedAs(after, a, id)
  {
    var i :| 0 <= i < |past.submitted| && past.submitted[i].epoch == past.epoch && past.submitted[i].worker == id
      && past.submitted[i].attempt == a;
    assert after.submitted[i] == past.submitted[i];
  }

  /** Only submissions, generations and shown replies matter to these three. */
  lemma SameRecord(db: Db, past: History, after: History, next: nat)
    requires ForeignKeys(db) && after.epoch == past.epoch && after.submitted == past.submitted
      && past.generated <= after.generated
    requires SubmissionsOk(db, past, next) && RepliesOk(db, past)
    ensures SubmissionsOk(db, after, next) && RepliesOk(db, after)
    ensures after.shown == past.shown && ShownOk(db, past) ==> ShownOk(db, after)
  {
    forall a | 0 <= a < |db.attempts| && db.attempts[a].HasReply() ensures OwnReply(after, a, db.attempts[a].reply) {
      OwnReplyStays(past, after, a, db.attempts[a].reply);
    }
  }

  lemma SettleRoutes(m: Mem, past: History, after: History, a: nat, stage: Stage, reply: string)
    requires RoutesOk(m, past) && PendingOk(m, past) && a < |m.db.attempts| && !stage.Pending?
    requires after == past.(lost := after.lost) && past.lost - {a} <= after.lost <= past.lost
    ensures var n := Mem(SetStage(m.db, a, stage, reply), m.running - {a}, m.nextWorker);
      RoutesOk(n, after) && PendingOk(n, after)
  {
    var n := Mem(SetStage(m.db, a, stage, reply), m.running - {a}, m.nextWorker);
    forall b | b in n.running
      ensures b < |n.db.attempts| && n.db.attempts[b].stage.Pending? && SubmittedAs(after, b, n.running[b])
    {
      SubmittedAsStays(past, after, b, m.running[b]);
    }
  }

  /** An attempt leaves its stage, other than by a commit, and its route goes. */
  lemma SettleRow(m: Mem, past: History, after: History, a: nat, stage: Stage, reply: string)
    requires MemOk(m, past) && a < |m.db.attempts| && !stage.Committed? && !stage.Pending?
    requires m.db.attempts[a].stage.Pending? || (m.db.attempts[a].stage.Ready? && stage.Canceled?)
    requires stage.Ready? ==> OwnReply(past, a, reply)
    requires after == past.(lost := after.lost) && past.lost - {a} <= after.lost <= past.lost
    ensures MemOk(Mem(SetStage(m.db, a, stage, reply), m.running - {a}, m.nextWorker), after)
  {
    hide SubmissionsOk, RepliesOk, ShownOk, RoutesOk, PendingOk, Unique, OneActive, Recorded, Chronological, OwnReply,
         Grows;
    SetStageKeeps(m.db, past.order, a, stage, reply);
    GrownOk(m.db, SetStage(m.db, a, stage, reply), past, m.nextWorker);
    SettleRoutes(m, past, after, a, stage, reply);
    SameRecord(SetStage(m.db, a, stage, reply), past, after, m.nextWorker);
  }

  /** Routes stay good where their rows stay. */
  lemma RoutesStay(m: Mem, n: Mem, past: History, after: History)
    requires RoutesOk(m, past) && n.running == m.running && |m.db.attempts| <= |n.db.attempts|
    requires forall b :: b in m.running ==> n.db.attempts[b] == m.db.attempts[b]
    requires after.epoch == past.epoch && past.submitted <= after.submitted
    ensures RoutesOk(n, after)
  {
    forall b | b in n.running ensures SubmittedAs(after, b, n.running[b]) {
      SubmittedAsStays(past, after, b, m.running[b]);
    }
  }

  lemma CommitRoutes(m: Mem, past: History, after: History, a: nat)
    requires RoutesOk(m, past) && PendingOk(m, past) && a < |m.db.attempts| && m.db.attempts[a].stage.Ready?
    requires after == past.(order := after.order, shown := after.shown)
    ensures var n := m.(db := CommitAttempt(m.db, a)); RoutesOk(n, after) && PendingOk(n, after)
  {
    assert a !in m.running;
    RoutesStay(m, m.(db := CommitAttempt(m.db, a)), past, after);
  }

  lemma ShowReply(db: Db, past: History, after: History, a: nat)
    requires ShownOk(db, past) && a < |db.attempts| && db.attempts[a].HasReply()
    requires after.shown == past.shown + [(a, db.attempts[a].reply)]
    ensures ShownOk(db, after)
  {
  }

  /** An acknowledged attempt, and the reply shown for it. */
  lemma CommitRow(m: Mem, past: History, after: History, a: nat)
    requires MemOk(m, past) && a < |m.db.attempts| && m.db.attempts[a].stage.Ready?
    requires after == past.(order := past.order + [a], shown := past.shown + [(a, m.db.attempts[a].reply)])
    ensures MemOk(m.(db := CommitAttempt(m.db, a)), after)
  {
    hide SubmissionsOk, RepliesOk, ShownOk, RoutesOk, PendingOk, Unique, OneActive, Recorded, Chronological, OwnReply,
         Grows;
    CommitKeeps(m.db, past.order, a);
    GrownOk(m.db, CommitAttempt(m.db, a), past, m.nextWorker);
    CommitRoutes(m, past, after, a);
    ShowReply(CommitAttempt(m.db, a), past, after, a);
    SameRecord(CommitAttempt(m.db, a), past, after, m.nextWorker);
  }

  lemma InsertRoutes(m: Mem, past: History, after: History, db: Db, place: Place)
    requires RoutesOk(m, past) && PendingOk(m, past) && Inserted(m.db, db, past.order, place)
    requires after == past.(lost := past.lost + {|m.db.attempts|})
    ensures RoutesOk(m.(db := db), after) && PendingOk(m.(db := db), after)
  {
    forall a | 0 <= a < |m.db.attempts| ensures db.attempts[a] == m.db.attempts[a] {
      assert db.attempts[a] == db.attempts[..|m.db.attempts|][a];
    }
    RoutesStay(m, m.(db := db), past, after);
  }

  lemma InsertGrown(m: Mem, past: History, db: Db, place: Place)
    requires ForeignKeys(m.db) && Inserted(m.db, db, past.order, place) && Grows(m.db, db)
    requires SubmissionsOk(m.db, past, m.nextWorker) && RepliesOk(m.db, past) && ShownOk(m.db, past)
    ensures SubmissionsOk(db, past, m.nextWorker) && RepliesOk(db, past) && ShownOk(db, past)
  {
    forall a | 0 <= a < |m.db.attempts| ensures db.attempts[a] == m.db.attempts[a] {
      assert db.attempts[a] == db.attempts[..|m.db.attempts|][a];
    }
    hide SubmissionsOk, ShownOk, Grows;
    GrownOk(m.db, db, past, m.nextWorker);
  }

  /** A new attempt, pending and without a route yet. */
  lemma InsertRow(cfg: Config, m: Mem, past: History, after: History, r: Request)
    requires MemOk(m, past) && r.place.Valid() && PlanFor(cfg, m.db, r).Submit?
    requires after == past.(lost := past.lost + {|m.db.attempts|})
    ensures r.talk.Some? && MemOk(m.(db := InsertAttempt(m.db, r.place, r.job, r.talk.value)), after)
  {
    hide SubmissionsOk, RepliesOk, ShownOk, RoutesOk, PendingOk, Unique, OneActive, Recorded, Chronological, PlanFor,
         InsertAttempt, Inserted, Grows;
    InsertKeeps(cfg, m.db, past.order, r);
    var db := InsertAttempt(m.db, r.place, r.job, r.talk.value);
    InsertRoutes(m, past, after, db, r.place);
    InsertGrown(m, past, db, r.place);
    SameRecord(db, past, after, m.nextWorker);
  }

  lemma AddedSubmissionsOk(db: Db, past: History, after: History, next: nat, sub: Submission)
    requires ForeignKeys(db) && SubmissionsOk(db, past, next) && RepliesOk(db, past) && ShownOk(db, past)
    requires after == past.(submitted := past.submitted + [sub])
    requires SubmissionOk(db, past, next + 1, sub) && sub.epoch == past.epoch && sub.worker == next
    requires forall i :: 0 <= i < |past.submitted| ==> past.submitted[i].attempt != sub.attempt
    ensures SubmissionsOk(db, after, next + 1) && RepliesOk(db, after) && ShownOk(db, after)
    ensures SubmittedAs(after, sub.attempt, sub.worker) && Ticketed(after, sub.worker, sub.talk, Some(sub.prompt))
  {
    assert after.submitted[|past.submitted|] == sub;
    assert Asked(sub, after.epoch, sub.worker, sub.talk, Some(sub.prompt));
    forall i | 0 <= i < |after.submitted| ensures SubmissionOk(db, after, next + 1, after.submitted[i]) {
      if i < |past.submitted| {
        assert SubmissionOk(db, past, next, past.submitted[i]);
      }
    }
    forall i, j | 0 <= i < j < |after.submitted|
      ensures after.submitted[i].attempt != after.submitted[j].attempt
      ensures after.submitted[i].epoch != after.submitted[j].epoch
        || after.submitted[i].worker != after.submitted[j].worker
    {
      assert SubmissionOk(db, past, next, past.submitted[i]);
    }
    forall a | 0 <= a < |db.attempts| && db.attempts[a].HasReply() ensures OwnReply(after, a, db.attempts[a].reply) {
      OwnReplyStays(past, after, a, db.attempts[a].reply);
    }
  }

  lemma SamePending(m: Mem, n: Mem, past: History, after: History)
    requires PendingOk(m, past) && n.db == m.db && n.running == m.running && after.lost == past.lost
    ensures PendingOk(n, after)
  {
  }

  /** A submission under the next worker id. */
  lemma AddSubmission(m: Mem, past: History, after: History, sub: Submission)
    requires MemOk(m, past) && m.nextWorker < U32_MAX && after == past.(submitted := past.submitted + [sub])
    requires SubmissionOk(m.db, past, m.nextWorker + 1, sub) && sub.epoch == past.epoch && sub.worker == m.nextWorker
    requires forall i :: 0 <= i < |past.submitted| ==> past.submitted[i].attempt != sub.attempt
    ensures MemOk(m.(nextWorker := m.nextWorker + 1), after) && SubmittedAs(after, sub.attempt, sub.worker)
    ensures Ticketed(after, sub.worker, sub.talk, Some(sub.prompt))
  {
    hide SubmissionsOk, RepliesOk, ShownOk, RoutesOk, PendingOk, Unique, OneActive, Recorded, Chronological,
         SubmittedAs, Ticketed, SubmissionOk;
    AddedSubmissionsOk(m.db, past, after, m.nextWorker, sub);
    RoutesStay(m, m.(nextWorker := m.nextWorker + 1), past, after);
    SamePending(m, m.(nextWorker := m.nextWorker + 1), past, after);
  }

  lemma RouteAdded(m: Mem, past: History, after: History, a: nat, id: Id)
    requires RoutesOk(m, past) && PendingOk(m, past)
    requires a < |m.db.attempts| && m.db.attempts[a].stage.Pending? && a !in m.running
    requires SubmittedAs(past, a, id) && forall b :: b in m.running ==> m.running[b] != id
    requires after == past.(lost := past.lost - {a})
    ensures var n := m.(running := m.running[a := id]); RoutesOk(n, after) && PendingOk(n, after)
  {
    var n := m.(running := m.running[a := id]);
    forall b | b in n.running ensures SubmittedAs(after, b, n.running[b]) {
      SubmittedAsStays(past, after, b, n.running[b]);
    }
  }

  /** The attempt gets the route of its submission. */
  lemma RouteRow(m: Mem, past: History, after: History, a: nat, id: Id)
    requires MemOk(m, past) && a < |m.db.attempts| && m.db.attempts[a].stage.Pending? && a !in m.running
    requires SubmittedAs(past, a, id) && forall b :: b in m.running ==> m.running[b] != id
    requires after == past.(lost := past.lost - {a})
    ensures MemOk(m.(running := m.running[a := id]), after)
  {
    hide SubmissionsOk, RepliesOk, ShownOk, RoutesOk, PendingOk, Unique, OneActive, Recorded, Chronological,
         SubmittedAs;
    RouteAdded(m, past, after, a, id);
    SameRecord(m.db, past, after, m.nextWorker);
  }
}
