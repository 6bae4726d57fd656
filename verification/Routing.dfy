/** How many routes the durable memory keeps (`living.rs`): the store's limits bound them, in every reachable state. */
module Routing {
  import opened Jobs
  import opened Runs
  import opened Living
  import opened Server
  import opened Custody
  import opened Keeping
  import opened Provenance

  // ------------------------------------------------------------------ counting

  lemma {:induction false} SubsetSize<T>(a: set<T>, b: set<T>)
    requires a <= b
    ensures |a| <= |b|
    decreases |a|
  {
    if a != {} {
      var x :| x in a;
      SubsetSize(a - {x}, b - {x});
    }
  }

  /** A map that sends no two keys to one value has no more entries than there are values. */
  lemma {:induction false} InjectiveSize(m: map<nat, Id>, p: set<Id>)
    requires forall a :: a in m ==> m[a] in p
    requires forall a, b :: a in m && b in m && m[a] == m[b] ==> a == b
    ensures |m| <= |p|
    decreases |m|
  {
    if m != map[] {
      var x :| x in m;
      var rest := m - {x};
      assert |rest| == |m| - 1 by {
        assert rest.Keys == m.Keys - {x};
        assert |m.Keys| == |m| && |rest.Keys| == |rest|;
      }
      InjectiveSize(rest, p - {m[x]});
    }
  }

  lemma EntriesSize(m: map<nat, Id>, a: nat, id: Id)
    ensures |m - {a}| <= |m| && |m[a := id]| <= |m| + 1
  {
    assert |m.Keys| == |m|;
    assert (m - {a}).Keys == m.Keys - {a} && |(m - {a}).Keys| == |m - {a}|;
    assert m[a := id].Keys == m.Keys + {a} && |m[a := id].Keys| == |m[a := id]|;
    SubsetSize(m.Keys - {a}, m.Keys);
  }

  function PendingIds(s: Inner): set<Id> {
    set id | id in s.jobs && PendingAt(s, id)
  }

  lemma {:induction false} ElementsSize(q: seq<Id>)
    ensures |Elements(q)| <= |q|
  {
    if q != [] {
      ElementsSize(q[1..]);
      assert Elements(q) == {q[0]} + Elements(q[1..]);
    }
  }

  /** The PENDING jobs are in the queue, or the one that runs. */
  lemma PendingSize(l: Limits, s: Inner)
    requires Valid(l, s)
    ensures |PendingIds(s)| <= l.queueLen + 1
  {
    var running := if s.running.Some? then {s.running.value.id} else {};
    ElementsSize(s.queue);
    SubsetSize(PendingIds(s), Elements(s.queue) + running);
  }

  // ------------------------------------------------------------------ the bound

  /** Every route leads into `p`, but for those not yet visited whose job is not PENDING. */
  ghost predicate Covers(l: Limits, s: Server, p: set<Id>)
    requires s.control.Collecting?
  {
    && |p| <= l.queueLen + 1
    && forall a :: a in s.mem.running ==>
         s.mem.running[a] in p || (a in s.control.todo && !PendingAt(s.sys.inner, s.mem.running[a]))
  }

  ghost predicate Bounded(l: Limits, s: Server) {
    |s.mem.running| <= l.queueLen + 2 && (s.control.Collecting? ==> exists p :: Covers(l, s, p))
  }

  lemma RouteFacts(m: Mem, past: History)
    requires MemOk(m, past)
    ensures forall a :: a in m.running ==> IsLiving(m.running[a])
    ensures forall a, b :: a in m.running && b in m.running && m.running[a] == m.running[b] ==> a == b
  {
    hide SubmissionsOk, RepliesOk, ShownOk, PendingOk, DbInv;
    TablesLinked(m.db, past.order);
    forall a | a in m.running ensures IsLiving(m.running[a]) {
      RouteIsLiving(m, past, a);
    }
  }

  lemma OtherBounded(cfg: Config, l: Limits, s: Server, step: Step)
    requires ServerInv(l, s) && CanHappen(s, Other(step)) && Bounded(l, s)
    ensures Bounded(l, After(cfg, l, s, Other(step)))
  {
    hide MemOk, Tracked, Routed, Inv, NextPast;
    var t := After(cfg, l, s, Other(step));
    RouteFacts(s.mem, s.past);
    if s.control.Collecting? {
      var p :| Covers(l, s, p);
      forall a | a in s.mem.running && PendingAt(t.sys.inner, s.mem.running[a])
        ensures PendingAt(s.sys.inner, s.mem.running[a])
      {
        PendingBefore(l, s.sys, step, s.mem.running[a]);
      }
      assert Covers(l, t, p);
    }
  }

  /** When a request begins, all the routes are still to be visited. */
  lemma BeginBounded(cfg: Config, l: Limits, s: Server, r: Request)
    requires ServerInv(l, s) && CanHappen(s, Begin(r)) && Bounded(l, s)
    ensures Bounded(l, After(cfg, l, s, Begin(r)))
  {
    hide MemOk, Tracked, Routed, Coupled, NextPast;
    PendingSize(l, s.sys.inner);
    assert Covers(l, After(cfg, l, s, Begin(r)), PendingIds(s.sys.inner));
  }

  lemma CollectBounded(cfg: Config, l: Limits, s: Server, a: nat, now: Time, ok: bool)
    requires ServerInv(l, s) && CanHappen(s, Collect(a, now, ok)) && Bounded(l, s)
    ensures Bounded(l, After(cfg, l, s, Collect(a, now, ok)))
  {
    hide MemOk, Tracked, Routed, Inv, After, Next, Verdict, RecordVerdict, StoreAnswer;
    var step, t := DoResult(s.mem.running[a], now), After(cfg, l, s, Collect(a, now, ok));
    AfterCollect(cfg, l, s, a, now, ok);
    EntriesSize(s.mem.running, a, 0);
    if t.control.Collecting? {
      var p :| Covers(l, s, p);
      CollectCovers(cfg, l, s, a, now, ok, p);
    }
  }

  lemma CollectCovers(cfg: Config, l: Limits, s: Server, a: nat, now: Time, ok: bool, p: set<Id>)
    requires ServerInv(l, s) && CanHappen(s, Collect(a, now, ok)) && Covers(l, s, p)
    requires After(cfg, l, s, Collect(a, now, ok)).control.Collecting?
    ensures Covers(l, After(cfg, l, s, Collect(a, now, ok)), p)
  {
    hide MemOk, Tracked, Routed, Inv, After, Next, Verdict, RecordVerdict, StoreAnswer;
    var step, t := DoResult(s.mem.running[a], now), After(cfg, l, s, Collect(a, now, ok));
    AfterCollect(cfg, l, s, a, now, ok);
    ResultIsState(l, s.sys, step.id, now);
    forall b | b in t.mem.running
      ensures s.mem.running[b] in p || (b in t.control.todo && !PendingAt(t.sys.inner, s.mem.running[b]))
    {
      if PendingAt(t.sys.inner, s.mem.running[b]) {
        PendingBefore(l, s.sys, step, s.mem.running[b]);
      }
    }
  }

  /** Once all routes are visited they lead to jobs that were PENDING when the request began. */
  lemma VisitedSize(l: Limits, s: Server)
    requires ServerInv(l, s) && Bounded(l, s) && s.control.Collecting? && s.control.todo == {}
    ensures |s.mem.running| <= l.queueLen + 1
  {
    hide MemOk, Tracked, Routed, Inv;
    RouteFacts(s.mem, s.past);
    var p :| Covers(l, s, p);
    InjectiveSize(s.mem.running, p);
  }

  lemma ActBounded(cfg: Config, l: Limits, s: Server, now: Time, ok: bool, late: bool)
    requires ServerInv(l, s) && CanHappen(s, Act(now, ok, late)) && Bounded(l, s)
    ensures Bounded(l, After(cfg, l, s, Act(now, ok, late)))
  {
    hide MemOk, Tracked, Routed, Inv, After, CanHappen, NextMem, Bounded, ControlOk;
    AfterAct(cfg, l, s, Act(now, ok, late));
    VisitedSize(l, s);
    ActRoutes(cfg, l, s, now, ok, late);
    BoundedIdle(l, After(cfg, l, s, Act(now, ok, late)));
  }

  lemma AfterAct(cfg: Config, l: Limits, s: Server, e: Event)
    requires Inv(l, s.sys) && CanHappen(s, e) && e.Act?
    ensures s.control.Collecting? && s.control.todo == {}
    ensures After(cfg, l, s, e).mem == NextMem(cfg, l, s, e) && After(cfg, l, s, e).control == Idle
  {
    hide Inv, NextMem, NextSys, NextPast;
  }

  lemma BoundedIdle(l: Limits, s: Server)
    requires |s.mem.running| <= l.queueLen + 2 && s.control.Idle?
    ensures Bounded(l, s)
  {
  }

  /** The last step of a request adds at most one route. */
  lemma ActRoutes(cfg: Config, l: Limits, s: Server, now: Time, ok: bool, late: bool)
    requires CanHappen(s, Act(now, ok, late))
    ensures |NextMem(cfg, l, s, Act(now, ok, late)).running| <= |s.mem.running| + 1
  {
    hide PlanFor, ForeignKeys, SubmitMem, CommitAttempt, SetStage;
    if ok {
      match CurrentPlan(cfg, s)
      case Withdraw(a) => EntriesSize(s.mem.running, a, 0);
      case Submit(_, _) => SubmitRoutesSize(l, s, PlannedSubmit(s, CurrentPlan(cfg, s), Act(now, ok, late)));
      case _ =>
    }
  }

  lemma SubmitRoutesSize(l: Limits, s: Server, u: Submit)
    ensures |SubmitMem(l, s, u).running| <= |s.mem.running| + 1
  {
    hide InsertAttempt, SubmitAnswer, SetStage;
    EntriesSize(s.mem.running, |s.mem.db.attempts|, s.mem.nextWorker);
  }

  lemma EventBounded(cfg: Config, l: Limits, s: Server, e: Event)
    requires ServerInv(l, s) && CanHappen(s, e) && Bounded(l, s)
    ensures Bounded(l, After(cfg, l, s, e))
  {
    hide MemOk, Tracked, Routed, ControlOk, Inv, CanHappen, After, Bounded;
    match e
    case Other(step) => OtherBounded(cfg, l, s, step);
    case Begin(r) => BeginBounded(cfg, l, s, r);
    case Collect(a, now, ok) => CollectBounded(cfg, l, s, a, now, ok);
    case Act(now, ok, late) => ActBounded(cfg, l, s, now, ok, late);
    case Crash => CrashBounded(cfg, l, s);
  }

  lemma CrashBounded(cfg: Config, l: Limits, s: Server)
    requires Inv(l, s.sys)
    ensures Bounded(l, After(cfg, l, s, Crash))
  {
    hide Inv, NextPast;
  }

  lemma {:induction false} RunBounded(cfg: Config, l: Limits, s: Server, events: seq<Event>)
    requires ServerInv(l, s) && CanRun(cfg, l, s, events) && Bounded(l, s)
    ensures Bounded(l, Run(cfg, l, s, events))
    decreases |events|
  {
    hide MemOk, Inv, Tracked, Routed, ControlOk, CanHappen, NextSys, NextMem, NextControl, NextPast, Bounded;
    if events != [] {
      EventKeeps(cfg, l, s, events[0]);
      EventBounded(cfg, l, s, events[0]);
      RunBounded(cfg, l, After(cfg, l, s, events[0]), events[1..]);
    }
  }

  /**
   * The routes never outnumber the jobs that the queue can hold by more than two: one for the job that
   * runs, and one for the submission of the request that has just collected.
   */
  lemma RoutesAreBounded(cfg: Config, l: Limits, t: Server)
    requires Reachable(cfg, l, t)
    ensures |t.mem.running| <= l.queueLen + 2
    ensures t.control.Collecting? && t.control.todo == {} ==> |t.mem.running| <= l.queueLen + 1
  {
    hide ServerInv, CanRun, Run;
    FreshInv(l);
    var events :| CanRun(cfg, l, FRESH, events) && t == Run(cfg, l, FRESH, events);
    RunBounded(cfg, l, FRESH, events);
    RunKeepsInv(cfg, l, FRESH, events);
    if t.control.Collecting? && t.control.todo == {} {
      VisitedSize(l, t);
    }
  }
}
