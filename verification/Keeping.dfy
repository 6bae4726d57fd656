/** Every event keeps the invariant of the whole server (`living.rs` over `jobs.rs`). */
module Keeping {
  import opened Protocol
  import opened Jobs
  import opened Runs
  import opened Living
  import opened Server
  import opened Custody
  import Sanitize

  // ------------------------------------------------------------------ routes across a step

  /** The place of a row never changes. */
  lemma PlaceStays(before: Db, after: Db, a: nat)
    requires ForeignKeys(before) && ForeignKeys(after) && Grows(before, after) && a < |before.attempts|
    ensures PlaceOf(after, a) == PlaceOf(before, a)
  {
    assert MovesOn(before.attempts[a], after.attempts[a]);
    var c := before.attempts[a].conversation;
    assert after.conversations[..|before.conversations|][c] == before.conversations[c];
  }

  /** Routes to jobs that stay PENDING stay, so every PENDING job of version 2 keeps its route. */
  ghost predicate KeepsRoutes(m: Mem, n: Mem, t: Inner) {
    && ForeignKeys(m.db) && ForeignKeys(n.db) && Grows(m.db, n.db)
    && forall a :: a in m.running && PendingAt(t, m.running[a]) ==> a in n.running && n.running[a] == m.running[a]
  }

  lemma RouteStays(m: Mem, n: Mem, t: Inner, id: Id, scope: string)
    requires KeepsRoutes(m, n, t) && PendingAt(t, id) && HasRoute(m, id, scope)
    ensures HasRoute(n, id, scope)
  {
    var a :| a in m.running && m.running[a] == id && a < |m.db.attempts| && PlaceOf(m.db, a).Scope() == scope;
    PlaceStays(m.db, n.db, a);
  }

  lemma RoutedAfterStep(l: Limits, m: Mem, n: Mem, sys: Sys, step: Step)
    requires Inv(l, sys) && Enabled(sys, step) && Routed(m, sys.inner) && KeepsRoutes(m, n, Next(l, sys, step).inner)
    requires AdmitsJob(l, sys, step) && IsLiving(step.id) ==> HasRoute(n, step.id, step.scope)
    ensures Routed(n, Next(l, sys, step).inner)
  {
    hide Inv, Next, Enabled, AdmitsJob, HasRoute, KeepsRoutes;
    var t := Next(l, sys, step).inner;
    forall id | IsLiving(id) && PendingAt(t, id) ensures HasRoute(n, id, t.jobs[id].scope) {
      PendingBefore(l, sys, step, id);
      if PendingAt(sys.inner, id) && t.jobs[id] == sys.inner.jobs[id] {
        RouteStays(m, n, t, id, t.jobs[id].scope);
      }
    }
  }

  lemma RoutedWithoutStep(m: Mem, n: Mem, s: Inner)
    requires Routed(m, s) && KeepsRoutes(m, n, s)
    ensures Routed(n, s)
  {
    forall id | IsLiving(id) && PendingAt(s, id) ensures HasRoute(n, id, s.jobs[id].scope) {
      RouteStays(m, n, s, id, s.jobs[id].scope);
    }
  }

  lemma GrowsReflexive(db: Db)
    ensures Grows(db, db)
  {
    assert db.conversations[..|db.conversations|] == db.conversations;
  }

  // ------------------------------------------------------------------ the other threads

  lemma RecordGrows(m: Mem, past: History, after: History)
    requires MemOk(m, past) && after == past.(generated := after.generated, started := after.started)
    requires past.generated <= after.generated
    ensures MemOk(m, after)
  {
    hide SubmissionsOk, RepliesOk, ShownOk, RoutesOk, PendingOk, Unique, OneActive, Recorded, Chronological;
    SameRecord(m.db, past, after, m.nextWorker);
    RoutesStay(m, m, past, after);
    SamePending(m, m, past, after);
  }

  /** The store's part of an event. */
  lemma StoreKeeps(l: Limits, s: Server, step: Step, after: History, later: nat)
    requires ServerInv(l, s) && Enabled(s.sys, step) && Follows(s.past, after, s.sys, step)
    requires CleanTalk(after, s.mem.nextWorker, s.sys.inner, step)
    requires s.mem.nextWorker <= later && (step.DoTalk? && IsLiving(step.id) ==> s.mem.nextWorker < later)
    ensures Inv(l, Next(l, s.sys, step)) && Tracked(after, later, Next(l, s.sys, step))
  {
    hide Tracked, Routed, Valid, Coupled, RepliesOk, ShownOk, RoutesOk, PendingOk, Unique, OneActive, Recorded,
         Chronological, Next, SubmissionOk, SubmittedOnce, CleanTalk, Follows, Enabled, QueueOk;
    NextKeepsInv(l, s.sys, step);
    StoreStepTracked(l, s.past, s.mem.nextWorker, after, later, s.sys, step);
  }

  lemma OtherKeeps(cfg: Config, l: Limits, s: Server, step: Step)
    requires ServerInv(l, s) && CanHappen(s, Other(step))
    ensures ServerInv(l, After(cfg, l, s, Other(step)))
  {
    hide Tracked, Routed, Coupled, SubmissionsOk, RepliesOk, ShownOk, RoutesOk, PendingOk, Unique, OneActive,
         Recorded, Chronological, Admits, Next, JobsOk, Placed, OnePerScope, WithinCapacity;
    var after := StoreHistory(s.past, s.sys, step);
    StoreKeeps(l, s, step, after, s.mem.nextWorker);
    RecordGrows(s.mem, s.past, after);
    GrowsReflexive(s.mem.db);
    RoutedAfterStep(l, s.mem, s.mem, s.sys, step);
  }

  // ------------------------------------------------------------------ collecting

  /** The answer to a result, as the job that the step leaves. */
  lemma ResultIsState(l: Limits, sys: Sys, id: Id, now: Time)
    requires Inv(l, sys)
    ensures var t := Next(l, sys, DoResult(id, now)).inner;
      && StoreAnswer(l, sys.inner, DoResult(id, now)) == AnswerFor(t, id)
      && (PendingAt(t, id) <==> AnswerFor(t, id).code == CODE_PENDING)
      && (AnswerFor(t, id).code == CODE_READY ==> id in t.jobs && t.jobs[id].state == Jobs.Ready(AnswerFor(t, id).text))
  {
  }

  /** A READY answer about a routed attempt can be sanitized, and the result is the attempt's own reply. */
  lemma CollectedIsOwn(l: Limits, m: Mem, past: History, s: Inner, a: nat, raw: string)
    requires JobsOk(l, s) && JobsTracked(past, m.nextWorker, s) && SubmittedOnce(past)
    requires a in m.running && IsLiving(m.running[a]) && SubmittedAs(past, a, m.running[a])
    requires m.running[a] in s.jobs && s.jobs[m.running[a]].state == Jobs.Ready(raw)
    ensures Sanitize.SanitizeText(raw).Ok? && OwnReply(past, a, Sanitize.SanitizeText(raw).value)
  {
    var id := m.running[a];
    var job := s.jobs[id];
    assert JobOk(l, job) && JobTracked(past, m.nextWorker, id, job);
    var i :| 0 <= i < |past.submitted| && past.submitted[i].epoch == past.epoch && past.submitted[i].worker == id
      && past.submitted[i].attempt == a;
    var j :| 0 <= j < |past.submitted| && Asked(past.submitted[j], past.epoch, id, job.talk, job.prompt);
    assert i == j;
    var k :| 0 <= k < |past.generated| && Made(past.generated[k], past.epoch, id, job.talk, job.prompt, raw);
    assert MadeOf(past.generated[k], past.submitted[i], Sanitize.SanitizeText(raw).value);
  }

  /** Routes lead to worker ids of version 2. */
  lemma RouteIsLiving(m: Mem, past: History, a: nat)
    requires ForeignKeys(m.db) && RoutesOk(m, past) && SubmissionsOk(m.db, past, m.nextWorker) && a in m.running
    ensures IsLiving(m.running[a]) && m.running[a] < m.nextWorker
    ensures a < |m.db.attempts| && m.db.attempts[a].stage.Pending? && SubmittedAs(past, a, m.running[a])
  {
    var i :| 0 <= i < |past.submitted| && past.submitted[i].epoch == past.epoch
      && past.submitted[i].worker == m.running[a]
      && past.submitted[i].attempt == a;
    assert SubmissionOk(m.db, past, m.nextWorker, past.submitted[i]);
  }

  lemma SetStageKeepsRoutes(m: Mem, past: History, a: nat, stage: Stage, reply: string, t: Inner)
    requires MemOk(m, past) && a < |m.db.attempts| && !stage.Committed?
    requires m.db.attempts[a].stage.Pending? || (m.db.attempts[a].stage.Ready? && stage.Canceled?)
    requires a in m.running ==> !PendingAt(t, m.running[a])
    ensures KeepsRoutes(m, Mem(SetStage(m.db, a, stage, reply), m.running - {a}, m.nextWorker), t)
  {
    hide SubmissionsOk, RepliesOk, ShownOk, RoutesOk, PendingOk, DbInv, ForeignKeys, SetStage, Grows;
    SetStageKeeps(m.db, past.order, a, stage, reply);
    TablesLinked(m.db, past.order);
    TablesLinked(SetStage(m.db, a, stage, reply), past.order);
  }

  lemma SameMemKeepsRoutes(m: Mem, t: Inner)
    requires ForeignKeys(m.db)
    ensures KeepsRoutes(m, m, t)
  {
    GrowsReflexive(m.db);
  }

  lemma TablesLinked(db: Db, order: seq<nat>)
    requires DbInv(db, order)
    ensures ForeignKeys(db)
  {
  }

  lemma CollectedMem(l: Limits, m: Mem, past: History, t: Inner, a: nat, answer: Answer)
    requires MemOk(m, past) && JobsOk(l, t) && JobsTracked(past, m.nextWorker, t) && a in m.running
    requires answer.code == CODE_READY ==>
      m.running[a] in t.jobs && t.jobs[m.running[a]].state == Jobs.Ready(answer.text)
    requires answer.code != CODE_PENDING ==> !PendingAt(t, m.running[a])
    ensures MemOk(CollectOne(m, a, answer), past) && KeepsRoutes(m, CollectOne(m, a, answer), t)
  {
    hide DbInv, SubmittedOnce, RepliesOk, ShownOk, RoutesOk, PendingOk, JobsOk, JobsTracked, KeepsRoutes,
         SubmissionOk, SetStage;
    assert ForeignKeys(m.db) by {
      TablesLinked(m.db, past.order);
    }
    RouteIsLiving(m, past, a);
    if answer.code == CODE_READY {
      CollectedIsOwn(l, m, past, t, a, answer.text);
    }
    if answer.code != CODE_PENDING {
      SettleRow(m, past, past, a, Verdict(answer).0, Verdict(answer).1);
      SetStageKeepsRoutes(m, past, a, Verdict(answer).0, Verdict(answer).1, t);
    } else {
      SameMemKeepsRoutes(m, t);
    }
  }

  lemma CollectedRoutes(l: Limits, s: Server, a: nat, step: Step, answer: Answer)
    requires ServerInv(l, s) && a in s.mem.running && step.DoResult? && step.id == s.mem.running[a]
    requires answer == AnswerFor(Next(l, s.sys, step).inner, step.id)
    requires Inv(l, Next(l, s.sys, step)) && Tracked(s.past, s.mem.nextWorker, Next(l, s.sys, step))
    ensures MemOk(CollectOne(s.mem, a, answer), s.past)
      && Routed(CollectOne(s.mem, a, answer), Next(l, s.sys, step).inner)
  {
    hide Routed, Coupled, MemOk, Next, JobsOk, Placed, OnePerScope, WithinCapacity, JobsTracked, ItemTracked,
         StartsTracked, StartsSubmitted, QueueOk, KeepsRoutes, CollectOne;
    ResultIsState(l, s.sys, step.id, step.now);
    CollectedMem(l, s.mem, s.past, Next(l, s.sys, step).inner, a, answer);
    RoutedAfterStep(l, s.mem, CollectOne(s.mem, a, answer), s.sys, step);
  }

  /** A result leaves no trace in the record. */
  lemma ResultFollows(l: Limits, s: Server, step: Step)
    requires Inv(l, s.sys) && step.DoResult?
    ensures QueueOk(s.sys.inner) && Follows(s.past, s.past, s.sys, step)
  {
  }

  /** The event, without the definitions it comes from. */
  lemma AfterCollect(cfg: Config, l: Limits, s: Server, a: nat, now: Time, ok: bool)
    requires Inv(l, s.sys) && CanHappen(s, Collect(a, now, ok))
    ensures var step, t := DoResult(s.mem.running[a], now), After(cfg, l, s, Collect(a, now, ok));
      && t.sys == Next(l, s.sys, step) && t.past == s.past
      && t.mem == (if ok then CollectOne(s.mem, a, StoreAnswer(l, s.sys.inner, step)) else s.mem)
      && (t.control == s.control.(todo := s.control.todo - {a}) || t.control == Idle)
      && (!ok && StoreAnswer(l, s.sys.inner, step).code != CODE_PENDING ==> t.control == Idle)
  {
    hide Valid, Coupled, NextInner, CollectOne, Sweep;
  }

  lemma CollectKeeps(cfg: Config, l: Limits, s: Server, a: nat, now: Time, ok: bool)
    requires ServerInv(l, s) && CanHappen(s, Collect(a, now, ok))
    ensures ServerInv(l, After(cfg, l, s, Collect(a, now, ok)))
  {
    hide Tracked, Routed, MemOk, Next, Valid, Coupled, After, StoreAnswer, QueueOk;
    var step := DoResult(s.mem.running[a], now);
    var t := Next(l, s.sys, step);
    AfterCollect(cfg, l, s, a, now, ok);
    ResultFollows(l, s, step);
    StoreKeeps(l, s, step, s.past, s.mem.nextWorker);
    ResultIsState(l, s.sys, step.id, now);
    CollectedRoutes(l, s, a, step, AnswerFor(t.inner, step.id));
    RoutedUncollected(l, s, step);
  }

  /** A step that puts nothing of version 2 into the store leaves all routes good. */
  lemma RoutedUncollected(l: Limits, s: Server, step: Step)
    requires ServerInv(l, s) && Enabled(s.sys, step) && !(AdmitsJob(l, s.sys, step) && IsLiving(step.id))
    ensures Routed(s.mem, Next(l, s.sys, step).inner)
  {
    hide Routed, Inv, SubmissionsOk, RepliesOk, ShownOk, RoutesOk, PendingOk, Unique, OneActive, Recorded,
         Chronological, Next, KeepsRoutes, Admits, Enabled;
    SameMemKeepsRoutes(s.mem, Next(l, s.sys, step).inner);
    RoutedAfterStep(l, s.mem, s.mem, s.sys, step);
  }
}
