/** Submitting an attempt to the store keeps the invariant of the whole server (`living.rs`). */
module Submitting {
  import opened Prelude
  import opened Protocol
  import opened Identity
  import opened Jobs
  import opened Runs
  import opened Living
  import opened Server
  import opened Custody
  import opened Keeping
  import opened Acting

  // ------------------------------------------------------------------ the database's side

  /** Nothing on record is about an attempt that does not exist yet, or a worker id not given out yet. */
  lemma NothingYet(m: Mem, past: History)
    requires MemOk(m, past)
    ensures |m.db.attempts| !in m.running && |m.db.attempts| !in past.lost
    ensures forall i :: 0 <= i < |past.submitted| ==> past.submitted[i].attempt != |m.db.attempts|
    ensures forall b :: b in m.running ==> m.running[b] != m.nextWorker
  {
    forall i | 0 <= i < |past.submitted| ensures past.submitted[i].attempt != |m.db.attempts| {
      assert SubmissionOk(m.db, past, m.nextWorker, past.submitted[i]);
    }
    forall b | b in m.running ensures m.running[b] != m.nextWorker {
      RouteIsLiving(m, past, b);
    }
  }

  lemma MemFacts(m: Mem, past: History)
    requires MemOk(m, past)
    ensures ForeignKeys(m.db) && RID_MAX < m.nextWorker <= U32_MAX
  {
  }

  /** A row just inserted: pending, without a route, a submission or an entry that leads to it. */
  ghost predicate Lonely(m: Mem, past: History, a: nat) {
    && MemOk(m, past) && ForeignKeys(m.db) && a < |m.db.attempts| && m.db.attempts[a].stage.Pending?
    && a !in m.running && a in past.lost
    && (forall i :: 0 <= i < |past.submitted| ==> past.submitted[i].attempt != a)
    && (forall b :: b in m.running ==> m.running[b] != m.nextWorker)
  }

  /** `db` has one row more, for this place and payload. */
  ghost predicate RowAdded(m: Mem, past: History, db: Db, place: Place, payload: Payload) {
    var n := |m.db.attempts|;
    && Lonely(m.(db := db), past.(lost := past.lost + {n}), n) && Grows(m.db, db)
    && db.attempts[n].payload == payload && PlaceOf(db, n) == place
  }

  lemma NewRow(cfg: Config, m: Mem, past: History, r: Request)
    requires MemOk(m, past) && r.place.Valid() && PlanFor(cfg, m.db, r).Submit?
    ensures r.talk == Some(PlanFor(cfg, m.db, r).payload)
    ensures RowAdded(m, past, InsertAttempt(m.db, r.place, r.job, r.talk.value), r.place, r.talk.value)
  {
    hide SubmissionsOk, RepliesOk, ShownOk, RoutesOk, PendingOk, Unique, OneActive, Recorded, Chronological, Grows,
         PlanFor, FindConversation, Place.Valid;
    SubmitMeans(cfg, m.db, r);
    InsertKeeps(cfg, m.db, past.order, r);
    NothingYet(m, past);
    InsertRow(cfg, m, past, past.(lost := past.lost + {|m.db.attempts|}), r);
  }

  /** The submission of such a row, of which it is then lonely no more. */
  lemma SubmitLonely(m: Mem, past: History, after: History, a: nat, sub: Submission)
    requires Lonely(m, past, a) && m.nextWorker < U32_MAX && after == past.(submitted := past.submitted + [sub])
    requires sub == Submission(past.epoch, m.nextWorker, a, TalkOf(m.db.attempts[a].payload), sub.prompt,
                               PlaceOf(m.db, a).Scope(), sub.acked)
    ensures MemOk(m.(nextWorker := m.nextWorker + 1), after) && SubmittedAs(after, a, m.nextWorker)
    ensures Ticketed(after, m.nextWorker, sub.talk, Some(sub.prompt))
  {
    hide MemOk, SubmittedAs, Ticketed;
    MemFacts(m, past);
    AddSubmission(m, past, after, sub);
  }

  lemma FailRow(m: Mem, past: History, after: History, a: nat, reply: string)
    requires MemOk(m, past) && a < |m.db.attempts| && m.db.attempts[a].stage.Pending? && a !in m.running
    requires after == past.(lost := past.lost - {a})
    ensures MemOk(m.(db := SetStage(m.db, a, Stage.Failed, reply)), after)
  {
    hide MemOk;
    SettleRow(m, past, after, a, Stage.Failed, reply);
    assert m.running - {a} == m.running;
  }

  lemma CloseLonely(m: Mem, past: History, after: History, a: nat, prompt: string, answer: Answer, late: bool)
    requires Lonely(m, past, a)
    requires var sub := Submission(past.epoch, m.nextWorker, a, TalkOf(m.db.attempts[a].payload), prompt,
                                   PlaceOf(m.db, a).Scope(), |past.order|);
      after == past.(
        submitted := past.submitted + if m.nextWorker < U32_MAX then [sub] else [],
        lost := if late && a !in CloseSubmission(m, a, answer, late).running then past.lost else past.lost - {a})
    ensures MemOk(CloseSubmission(m, a, answer, late), after)
    ensures m.nextWorker < U32_MAX ==> Ticketed(after, m.nextWorker, TalkOf(m.db.attempts[a].payload), Some(prompt))
  {
    hide MemOk, SubmittedAs, Ticketed, SetStage;
    if m.nextWorker >= U32_MAX {
      assert past.submitted + [] == past.submitted;
      if !late {
        FailRow(m, past, after, a, WORKER_CAPACITY.text);
      }
    } else {
      var sub := Submission(past.epoch, m.nextWorker, a, TalkOf(m.db.attempts[a].payload), prompt,
                            PlaceOf(m.db, a).Scope(), |past.order|);
      var mid, n := past.(submitted := past.submitted + [sub]), m.(nextWorker := m.nextWorker + 1);
      SubmitLonely(m, past, mid, a, sub);
      TicketStays(mid, after, m.nextWorker, sub.talk, Some(prompt));
      if answer.code == CODE_PENDING {
        RouteRow(n, mid, after, a, m.nextWorker);
      } else if !late {
        FailRow(n, mid, after, a, answer.text);
      }
    }
  }

  // ------------------------------------------------------------------ the store's side

  /** The decision to submit leaves no PENDING job in the scope, of either version. */
  lemma NothingPendingInScope(cfg: Config, l: Limits, s: Server, r: Request, id: Id)
    requires ServerInv(l, s) && r.place.Valid() && PlanFor(cfg, s.mem.db, r).Submit? && PendingAt(s.sys.inner, id)
    ensures s.sys.inner.jobs[id].scope != r.place.Scope()
  {
    hide SubmissionsOk, RepliesOk, ShownOk, PendingOk, SubmittedAs, Unique, OneActive, Recorded, Chronological,
         PlanFor, Inv, ItemTracked, StartsTracked, OutcomesOnce, StartsSubmitted, FindConversation, FindAttempt,
         BranchAhead, Ticketed, MadeFor, Place.Valid;
    SubmitMeans(cfg, s.mem.db, r);
    ScopeIsInjective(r.place, r.place);
    assert JobTracked(s.past, s.mem.nextWorker, id, s.sys.inner.jobs[id]);
    if IsLiving(id) && s.sys.inner.jobs[id].scope == r.place.Scope() {
      var a :| a in s.mem.running && s.mem.running[a] == id && a < |s.mem.db.attempts|
        && PlaceOf(s.mem.db, a).Scope() == r.place.Scope();
      ScopeIsInjective(PlaceOf(s.mem.db, a), r.place);
    }
  }

  /** An admission answers PENDING. */
  lemma AdmittedIsPending(l: Limits, sys: Sys, step: Step)
    requires step.DoTalk? && AdmitsJob(l, sys, step)
    ensures StoreAnswer(l, sys.inner, step) == PENDING_ANSWER
  {
  }

  lemma SubmitClean(cfg: Config, l: Limits, s: Server, u: Submit, after: History)
    requires ServerInv(l, s) && Planned(cfg, s, u)
    requires Ticketed(after, s.mem.nextWorker, TalkOf(u.payload), Some(u.prompt))
    ensures CleanTalk(after, s.mem.nextWorker, s.sys.inner,
      TalkStep(s.mem, u.request.place, u.payload, u.prompt, u.now))
  {
    hide Inv, MemOk, Tracked, Routed, PlanFor, Ticketed;
    MemFacts(s.mem, s.past);
    ScopeIsInjective(u.request.place, u.request.place);
    forall id | PendingAt(s.sys.inner, id) ensures s.sys.inner.jobs[id].scope != u.request.place.Scope() {
      NothingPendingInScope(cfg, l, s, u.request, id);
    }
  }

  // ------------------------------------------------------------------ both sides

  ghost predicate Planned(cfg: Config, s: Server, u: Submit) {
    ForeignKeys(s.mem.db) && u.request.place.Valid()
      && PlanFor(cfg, s.mem.db, u.request) == Plan.Submit(u.payload, u.prompt)
  }

  /** The server's memory and record after a submission. */
  lemma SubmitMemOk(cfg: Config, l: Limits, s: Server, u: Submit)
    requires ServerInv(l, s) && Planned(cfg, s, u)
    ensures MemOk(SubmitMem(l, s, u), SubmitHistory(l, s, u))
    ensures s.mem.nextWorker < U32_MAX ==>
      Ticketed(SubmitHistory(l, s, u), s.mem.nextWorker, TalkOf(u.payload), Some(u.prompt))
  {
    hide Inv, MemOk, Tracked, Routed, PlanFor, InsertAttempt, StoreAnswer, Lonely, CloseSubmission, Ticketed,
         SubmitAnswer, Place.Valid, Place.Scope, ForeignKeys;
    var r, a := u.request, |s.mem.db.attempts|;
    NewRow(cfg, s.mem, s.past, r);
    NothingYet(s.mem, s.past);
    var m := s.mem.(db := InsertAttempt(s.mem.db, r.place, r.job, u.payload));
    CloseLonely(m, s.past.(lost := s.past.lost + {a}), SubmitHistory(l, s, u), a, u.prompt, SubmitAnswer(l, s, u),
      u.late);
  }

  lemma GrowsThenClosed(before: Db, after: Db, m: Mem, a: nat, answer: Answer, late: bool)
    requires Grows(before, after) && m.db == after && |before.attempts| <= a < |after.attempts| && ForeignKeys(after)
    ensures Grows(before, CloseSubmission(m, a, answer, late).db) && ForeignKeys(CloseSubmission(m, a, answer, late).db)
    ensures a < |CloseSubmission(m, a, answer, late).db.attempts|
    ensures PlaceOf(CloseSubmission(m, a, answer, late).db, a) == PlaceOf(after, a)
  {
  }

  /** Old routes stay, and a job that the store admits gets one. */
  lemma SubmitRoutes(cfg: Config, l: Limits, s: Server, u: Submit, t: Inner)
    requires ServerInv(l, s) && Planned(cfg, s, u)
    ensures KeepsRoutes(s.mem, SubmitMem(l, s, u), t)
    ensures s.mem.nextWorker < U32_MAX && SubmitAnswer(l, s, u).code == CODE_PENDING ==>
      HasRoute(SubmitMem(l, s, u), s.mem.nextWorker, u.request.place.Scope())
    ensures SubmitMem(l, s, u).nextWorker
         == if s.mem.nextWorker < U32_MAX then s.mem.nextWorker + 1 else s.mem.nextWorker
  {
    hide Inv, MemOk, Tracked, Routed, ControlOk, PlanFor, InsertAttempt, SubmitAnswer, Lonely, Grows, ForeignKeys,
         CloseSubmission, KeepsRoutes, HasRoute, Place.Valid, Place.Scope, PlaceOf;
    var r, a := u.request, |s.mem.db.attempts|;
    NewRow(cfg, s.mem, s.past, r);
    NothingYet(s.mem, s.past);
    MemFacts(s.mem, s.past);
    var m := s.mem.(db := InsertAttempt(s.mem.db, r.place, r.job, u.payload));
    LonelyFacts(m, s.past.(lost := s.past.lost + {a}), a);
    ClosedRoutes(s.mem, m, a, r.place, SubmitAnswer(l, s, u), u.late, t);
  }

  lemma ClosedRoutes(before: Mem, m: Mem, a: nat, place: Place, answer: Answer, late: bool, t: Inner)
    requires ForeignKeys(before.db) && ForeignKeys(m.db) && Grows(before.db, m.db) && m.running == before.running
    requires |before.db.attempts| <= a < |m.db.attempts| && a !in m.running && PlaceOf(m.db, a) == place
    ensures var n := CloseSubmission(m, a, answer, late);
      && KeepsRoutes(before, n, t)
      && (m.nextWorker < U32_MAX && answer.code == CODE_PENDING ==> HasRoute(n, m.nextWorker, place.Scope()))
      && n.nextWorker == if m.nextWorker < U32_MAX then m.nextWorker + 1 else m.nextWorker
  {
    hide Grows, SetStage, PlaceOf, ForeignKeys;
    GrowsThenClosed(before.db, m.db, m, a, answer, late);
    if m.nextWorker < U32_MAX && answer.code == CODE_PENDING {
      assert CloseSubmission(m, a, answer, late).running[a] == m.nextWorker;
    }
  }

  lemma LonelyFacts(m: Mem, past: History, a: nat)
    requires Lonely(m, past, a)
    ensures ForeignKeys(m.db) && a < |m.db.attempts|
  {
  }

  /** A talk leaves no trace in the record but the submission. */
  lemma SubmitFollows(l: Limits, s: Server, u: Submit)
    requires Inv(l, s.sys) && s.mem.nextWorker < U32_MAX
    ensures QueueOk(s.sys.inner)
    ensures Follows(s.past, SubmitHistory(l, s, u), s.sys, TalkStep(s.mem, u.request.place, u.payload, u.prompt, u.now))
  {
    hide Coupled, SubmitMem;
  }

  lemma SubmitTracked(cfg: Config, l: Limits, s: Server, u: Submit)
    requires ServerInv(l, s) && Planned(cfg, s, u) && s.mem.nextWorker < U32_MAX
    ensures var t := Next(l, s.sys, TalkStep(s.mem, u.request.place, u.payload, u.prompt, u.now));
      Inv(l, t) && Tracked(SubmitHistory(l, s, u), s.mem.nextWorker + 1, t)
  {
    hide Inv, MemOk, Tracked, Routed, Planned, SubmitMem, SubmitHistory, Ticketed, CleanTalk, Follows, Next, QueueOk;
    var step := TalkStep(s.mem, u.request.place, u.payload, u.prompt, u.now);
    var after := SubmitHistory(l, s, u);
    SubmitMemOk(cfg, l, s, u);
    SubmitClean(cfg, l, s, u, after);
    SubmitFollows(l, s, u);
    StoreKeeps(l, s, step, after, s.mem.nextWorker + 1);
  }

  lemma SubmitRouted(cfg: Config, l: Limits, s: Server, u: Submit)
    requires ServerInv(l, s) && Planned(cfg, s, u) && s.mem.nextWorker < U32_MAX
    ensures Routed(SubmitMem(l, s, u),
      Next(l, s.sys, TalkStep(s.mem, u.request.place, u.payload, u.prompt, u.now)).inner)
  {
    hide Inv, MemOk, Tracked, Routed, Planned, SubmitMem, StoreAnswer, AdmitsJob, Next, KeepsRoutes, HasRoute;
    var step := TalkStep(s.mem, u.request.place, u.payload, u.prompt, u.now);
    SubmitRoutes(cfg, l, s, u, Next(l, s.sys, step).inner);
    if AdmitsJob(l, s.sys, step) {
      AdmittedIsPending(l, s.sys, step);
    }
    RoutedAfterStep(l, s.mem, SubmitMem(l, s, u), s.sys, step);
  }

  /** The event, without the definitions it comes from. */
  lemma AfterSubmit(cfg: Config, l: Limits, s: Server, e: Event)
    requires Inv(l, s.sys) && CanHappen(s, e) && e.Act? && e.ok && CurrentPlan(cfg, s).Submit?
      && s.control.request.place.Valid()
    ensures var u, t := PlannedSubmit(s, CurrentPlan(cfg, s), e), After(cfg, l, s, e);
      && Planned(cfg, s, u) && t.mem == SubmitMem(l, s, u) && t.past == SubmitHistory(l, s, u) && t.control == Idle
      && t.sys == if s.mem.nextWorker < U32_MAX
                  then Next(l, s.sys, TalkStep(s.mem, u.request.place, u.payload, u.prompt, u.now)) else s.sys
  {
    hide Valid, Coupled, PlanFor, SubmitMem, SubmitHistory, Next, Place.Valid;
  }

  lemma SubmitKeeps(cfg: Config, l: Limits, s: Server, e: Event)
    requires ServerInv(l, s) && CanHappen(s, e) && e.Act? && e.ok && CurrentPlan(cfg, s).Submit?
    ensures ServerInv(l, After(cfg, l, s, e))
  {
    hide Inv, MemOk, Tracked, Routed, Planned, PlanFor, SubmitMem, SubmitHistory, Next, After, KeepsRoutes, HasRoute;
    var u := PlannedSubmit(s, CurrentPlan(cfg, s), e);
    AfterSubmit(cfg, l, s, e);
    SubmitMemOk(cfg, l, s, u);
    SubmitRoutes(cfg, l, s, u, s.sys.inner);
    if s.mem.nextWorker < U32_MAX {
      SubmitTracked(cfg, l, s, u);
      SubmitRouted(cfg, l, s, u);
    } else {
      UsedUp(l, s, u);
    }
  }

  /** With the worker ids used up the store is left alone. */
  lemma UsedUp(l: Limits, s: Server, u: Submit)
    requires ServerInv(l, s) && s.mem.nextWorker >= U32_MAX && KeepsRoutes(s.mem, SubmitMem(l, s, u), s.sys.inner)
    ensures Tracked(SubmitHistory(l, s, u), s.mem.nextWorker, s.sys) && Routed(SubmitMem(l, s, u), s.sys.inner)
  {
    hide Inv, MemOk, Tracked, Routed, KeepsRoutes, SubmitMem;
    assert s.past.submitted + [] == s.past.submitted;
    TrackedStays(s.past, SubmitHistory(l, s, u), s.mem.nextWorker, s.sys);
    RoutedWithoutStep(s.mem, SubmitMem(l, s, u), s.sys.inner);
  }
}
