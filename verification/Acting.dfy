/** The last step of a version 2 request, and a crash, keep the invariant of the whole server (`living.rs`). */
module Acting {
  import opened Protocol
  import opened Jobs
  import opened Runs
  import opened Living
  import opened Server
  import opened Custody
  import opened Keeping

  // ------------------------------------------------------------------ nothing changes but what was shown

  lemma ShowKeeps(l: Limits, s: Server, after: History, a: nat)
    requires ServerInv(l, s) && a < |s.mem.db.attempts| && s.mem.db.attempts[a].HasReply()
    requires after == s.past.(shown := s.past.shown + [(a, s.mem.db.attempts[a].reply)])
    ensures MemOk(s.mem, after)
  {
    hide SubmissionsOk, RepliesOk, ShownOk, RoutesOk, PendingOk, Unique, OneActive, Recorded, Chronological, Tracked,
         Routed, Inv;
    SameRecord(s.mem.db, s.past, after, s.mem.nextWorker);
    RoutesStay(s.mem, s.mem, s.past, after);
    SamePending(s.mem, s.mem, s.past, after);
    ShowReply(s.mem.db, s.past, after, a);
  }

  /** The store's side only reads submissions, generations and starts. */
  lemma TrackedStays(past: History, after: History, next: nat, sys: Sys)
    requires Tracked(past, next, sys) && after.epoch == past.epoch && past.submitted <= after.submitted
    requires after.generated == past.generated && after.started == past.started
    ensures Tracked(after, next, sys)
  {
    forall id | id in sys.inner.jobs ensures JobTracked(after, next, id, sys.inner.jobs[id]) {
      var job := sys.inner.jobs[id];
      assert JobTracked(past, next, id, job);
      if IsLiving(id) {
        TicketStays(past, after, id, job.talk, job.prompt);
        if job.state.Ready? {
          MadeStays(past, after, id, job.talk, job.prompt, job.state.raw);
        }
      }
    }
    if sys.worker.Working? && IsLiving(sys.worker.item.id) {
      TicketStays(past, after, sys.worker.item.id, sys.worker.item.talk, sys.worker.item.prompt);
    }
    StartsStaySubmitted(past, after);
  }

  lemma QuietKeeps(cfg: Config, l: Limits, s: Server, e: Event)
    requires ServerInv(l, s) && CanHappen(s, e) && e.Act?
    requires e.ok ==> CurrentPlan(cfg, s).Reject? || CurrentPlan(cfg, s).Show?
    ensures ServerInv(l, After(cfg, l, s, e))
  {
    hide MemOk, Tracked, Routed, Valid, Coupled, PlanFor;
    if e.ok && CurrentPlan(cfg, s).Show? && s.mem.db.attempts[CurrentPlan(cfg, s).attempt].HasReply() {
      var after := After(cfg, l, s, e).past;
      ShowKeeps(l, s, after, CurrentPlan(cfg, s).attempt);
      TrackedStays(s.past, after, s.mem.nextWorker, s.sys);
    }
  }

  // ------------------------------------------------------------------ withdrawing

  lemma CancelSettles(l: Limits, sys: Sys, id: Id, now: Time)
    requires Inv(l, sys)
    ensures !PendingAt(Next(l, sys, DoCancel(id, now)).inner, id)
  {
  }

  lemma WithdrawPlanned(cfg: Config, db: Db, r: Request)
    requires ForeignKeys(db) && PlanFor(cfg, db, r).Withdraw?
    ensures PlanFor(cfg, db, r).attempt < |db.attempts| && db.attempts[PlanFor(cfg, db, r).attempt].Active()
  {
  }

  /** The row is canceled, its route goes, and the job it led to is not PENDING any more. */
  lemma WithdrawMem(m: Mem, past: History, a: nat, t: Inner)
    requires MemOk(m, past) && a < |m.db.attempts| && m.db.attempts[a].Active()
    requires a in m.running ==> !PendingAt(t, m.running[a])
    ensures MemOk(WithdrawOne(m, a), past) && KeepsRoutes(m, WithdrawOne(m, a), t)
    ensures WithdrawOne(m, a).nextWorker == m.nextWorker
  {
    hide MemOk, KeepsRoutes;
    SettleRow(m, past, past, a, Stage.Canceled, REASON_CANCELED);
    SetStageKeepsRoutes(m, past, a, Stage.Canceled, REASON_CANCELED, t);
  }

  lemma WithdrawRouted(l: Limits, s: Server, a: nat, now: Time)
    requires ServerInv(l, s) && a < |s.mem.db.attempts| && s.mem.db.attempts[a].Active() && a in s.mem.running
    ensures var t := Next(l, s.sys, DoCancel(s.mem.running[a], now));
      Inv(l, t) && Tracked(s.past, s.mem.nextWorker, t) && Routed(WithdrawOne(s.mem, a), t.inner)
  {
    hide MemOk, Tracked, Routed, Valid, Coupled, Next, WithdrawOne, KeepsRoutes;
    var step := DoCancel(s.mem.running[a], now);
    StoreKeeps(l, s, step, s.past, s.mem.nextWorker);
    CancelSettles(l, s.sys, s.mem.running[a], now);
    WithdrawMem(s.mem, s.past, a, Next(l, s.sys, step).inner);
    RoutedAfterStep(l, s.mem, WithdrawOne(s.mem, a), s.sys, step);
  }

  lemma WithdrawUnrouted(l: Limits, s: Server, a: nat)
    requires ServerInv(l, s) && a < |s.mem.db.attempts| && s.mem.db.attempts[a].Active()
    ensures MemOk(WithdrawOne(s.mem, a), s.past) && (a !in s.mem.running ==> Routed(WithdrawOne(s.mem, a), s.sys.inner))
    ensures WithdrawOne(s.mem, a).nextWorker == s.mem.nextWorker
  {
    hide MemOk, Tracked, Routed, Inv, WithdrawOne, KeepsRoutes;
    WithdrawMem(s.mem, s.past, a, EMPTY_STORE);
    if a !in s.mem.running {
      WithdrawMem(s.mem, s.past, a, s.sys.inner);
      RoutedWithoutStep(s.mem, WithdrawOne(s.mem, a), s.sys.inner);
    }
  }

  /** The event, without the definitions it comes from. */
  lemma AfterWithdraw(cfg: Config, l: Limits, s: Server, e: Event)
    requires Inv(l, s.sys) && CanHappen(s, e) && e.Act? && e.ok && CurrentPlan(cfg, s).Withdraw?
    ensures var a, t := CurrentPlan(cfg, s).attempt, After(cfg, l, s, e);
      && a < |s.mem.db.attempts| && t.mem == WithdrawOne(s.mem, a) && t.past == s.past && t.control == Idle
      && t.sys == if a in s.mem.running then Next(l, s.sys, DoCancel(s.mem.running[a], e.now)) else s.sys
  {
    hide Valid, Coupled, PlanFor, NextInner, WithdrawOne;
    WithdrawPlanned(cfg, s.mem.db, s.control.request);
  }

  lemma WithdrawKeeps(cfg: Config, l: Limits, s: Server, e: Event)
    requires ServerInv(l, s) && CanHappen(s, e) && e.Act? && e.ok && CurrentPlan(cfg, s).Withdraw?
    ensures ServerInv(l, After(cfg, l, s, e))
  {
    hide MemOk, Tracked, Routed, Inv, PlanFor, Next, WithdrawOne, After;
    var a := CurrentPlan(cfg, s).attempt;
    AfterWithdraw(cfg, l, s, e);
    WithdrawPlanned(cfg, s.mem.db, s.control.request);
    WithdrawUnrouted(l, s, a);
    if a in s.mem.running {
      WithdrawRouted(l, s, a, e.now);
    }
  }

  // ------------------------------------------------------------------ acknowledging

  lemma AcknowledgePlanned(cfg: Config, db: Db, r: Request)
    requires ForeignKeys(db) && PlanFor(cfg, db, r).Acknowledge?
    ensures PlanFor(cfg, db, r).attempt < |db.attempts| && db.attempts[PlanFor(cfg, db, r).attempt].stage.Ready?
  {
  }

  lemma CommitKeepsRoutes(m: Mem, past: History, a: nat, t: Inner)
    requires MemOk(m, past) && a < |m.db.attempts| && m.db.attempts[a].stage.Ready?
    ensures KeepsRoutes(m, m.(db := CommitAttempt(m.db, a)), t)
  {
    hide SubmissionsOk, RepliesOk, ShownOk, RoutesOk, PendingOk, Unique, OneActive, Recorded, Chronological, Grows;
    CommitKeeps(m.db, past.order, a);
  }

  lemma AfterAcknowledge(cfg: Config, l: Limits, s: Server, e: Event)
    requires Inv(l, s.sys) && CanHappen(s, e) && e.Act? && e.ok && CurrentPlan(cfg, s).Acknowledge?
    ensures var a, t := CurrentPlan(cfg, s).attempt, After(cfg, l, s, e);
      && a < |s.mem.db.attempts| && t.sys == s.sys && t.mem == s.mem.(db := CommitAttempt(s.mem.db, a))
      && t.control == Idle
      && t.past == s.past.(order := s.past.order + [a], shown := s.past.shown + [(a, s.mem.db.attempts[a].reply)])
  {
    hide Valid, Coupled, PlanFor, NextInner, CommitAttempt;
    AcknowledgePlanned(cfg, s.mem.db, s.control.request);
  }

  lemma AcknowledgeKeeps(cfg: Config, l: Limits, s: Server, e: Event)
    requires ServerInv(l, s) && CanHappen(s, e) && e.Act? && e.ok && CurrentPlan(cfg, s).Acknowledge?
    ensures ServerInv(l, After(cfg, l, s, e))
  {
    hide MemOk, Tracked, Routed, Inv, PlanFor, CommitAttempt, KeepsRoutes, After;
    AfterAcknowledge(cfg, l, s, e);
    var a, after := CurrentPlan(cfg, s).attempt, After(cfg, l, s, e);
    AcknowledgePlanned(cfg, s.mem.db, s.control.request);
    CommitRow(s.mem, s.past, after.past, a);
    CommitKeepsRoutes(s.mem, s.past, a, s.sys.inner);
    RoutedWithoutStep(s.mem, after.mem, s.sys.inner);
    TrackedStays(s.past, after.past, s.mem.nextWorker, s.sys);
  }

  // ------------------------------------------------------------------ a crash

  lemma CrashedMem(m: Mem, past: History, after: History)
    requires MemOk(m, past) && after == past.(epoch := past.epoch + 1, lost := {})
    ensures MemOk(Opened(m.db), after)
  {
    hide SubmissionsOk, RepliesOk, ShownOk, RoutesOk, PendingOk, Unique, OneActive, Recorded, Chronological, Grows,
         Recover;
    RecoverKeeps(m.db, past.order);
    RecoveredReplies(m.db, past);
    GrownOk(m.db, Recover(m.db), past, m.nextWorker);
    NextEpoch(Recover(m.db), past, after, m.nextWorker);
    assert RoutesOk(Opened(m.db), after) && PendingOk(Opened(m.db), after) by {
      NoRoutes(Opened(m.db), after);
    }
  }

  lemma RecoveredReplies(db: Db, past: History)
    ensures |Recover(db).attempts| == |db.attempts|
    ensures forall a :: 0 <= a < |db.attempts| && Recover(db).attempts[a].HasReply() ==> db.attempts[a].HasReply()
  {
  }

  lemma NoRoutes(m: Mem, past: History)
    requires m.running == map[] && past.lost == {}
    requires forall a :: 0 <= a < |m.db.attempts| ==> !m.db.attempts[a].stage.Pending?
    ensures RoutesOk(m, past) && PendingOk(m, past)
  {
  }

  lemma NextEpoch(db: Db, past: History, after: History, next: nat)
    requires ForeignKeys(db) && SubmissionsOk(db, past, next) && RepliesOk(db, past) && ShownOk(db, past)
    requires after == past.(epoch := past.epoch + 1, lost := {})
    ensures SubmissionsOk(db, after, RID_MAX + 1) && RepliesOk(db, after) && ShownOk(db, after)
  {
    forall i | 0 <= i < |after.submitted| ensures SubmissionOk(db, after, RID_MAX + 1, after.submitted[i]) {
      assert SubmissionOk(db, past, next, past.submitted[i]);
    }
    forall a | 0 <= a < |db.attempts| && db.attempts[a].HasReply() ensures OwnReply(after, a, db.attempts[a].reply) {
      OwnReplyStays(past, after, a, db.attempts[a].reply);
    }
  }

  lemma CrashKeeps(cfg: Config, l: Limits, s: Server)
    requires ServerInv(l, s)
    ensures ServerInv(l, After(cfg, l, s, Crash))
  {
    hide MemOk, Recover;
    CrashedMem(s.mem, s.past, After(cfg, l, s, Crash).past);
    StartsStaySubmitted(s.past, After(cfg, l, s, Crash).past);
    StartInv(l);
  }
}
