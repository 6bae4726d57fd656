/**
 * A version 2 request on its own (`living.rs`): where no other thread comes between, what the in-place
 * `respond` does is one run of the server, from the beginning of the request to its answer.
 */
module Sequential {
  import opened Prelude
  import opened Protocol
  import opened Identity
  import opened Jobs
  import opened Runs
  import opened Living
  import opened Server
  import opened Custody
  import opened Provenance
  import M = Memory

  type Visits = seq<M.Visit>

  /** The events of the collecting loop. */
  function Collects(visits: Visits, fails: nat -> bool): (events: seq<Event>)
    ensures |events| == |visits|
    decreases |visits|
  {
    if visits == [] then []
    else
      var last := |visits| - 1;
      Collects(visits[..last], fails) + [Collect(visits[last].attempt, visits[last].now, !fails(last))]
  }

  /** The attempts visited. */
  function Done(visits: Visits): set<nat> {
    set k | 0 <= k < |visits| :: visits[k].attempt
  }

  /** The server in the middle of the collecting loop. */
  function Midway(l: Limits, t: Server, r: Request, visits: Visits): Server {
    var (m, s) := M.Collected(l, t.mem, t.sys.inner, visits);
    Server(Sys(s, t.sys.worker), m, Collecting(r, t.mem.running.Keys - Done(visits)), t.past)
  }

  /** The request may visit these routes of `m`, each once. */
  ghost predicate Visitable(m: Mem, visits: Visits) {
    M.Distinct(visits) && forall k :: 0 <= k < |visits| ==> M.InSnapshot(m, visits[k])
  }

  lemma VisitablePrefix(m: Mem, visits: Visits, n: nat)
    requires Visitable(m, visits) && n <= |visits|
    ensures Visitable(m, visits[..n])
  {
  }

  /** A route that is not visited yet is as it was. */
  lemma {:induction false} RouteLeft(l: Limits, m: Mem, s: Inner, visits: Visits, a: nat)
    requires a in m.running && a !in Done(visits)
    ensures var n := M.Collected(l, m, s, visits).0; a in n.running && n.running[a] == m.running[a]
    decreases |visits|
  {
    hide AnswerFor, Sweep, RecordVerdict;
    if visits != [] {
      var last := |visits| - 1;
      assert visits[last].attempt in Done(visits);
      assert forall k :: 0 <= k < last ==> visits[..last][k].attempt == visits[k].attempt;
      RouteLeft(l, m, s, visits[..last], a);
    }
  }

  lemma DoneOneMore(visits: Visits, v: M.Visit)
    ensures Done(visits + [v]) == Done(visits) + {v.attempt}
  {
    var more := visits + [v];
    forall a | a in Done(visits) ensures a in Done(more) {
      var k :| 0 <= k < |visits| && visits[k].attempt == a;
      assert more[k].attempt == a;
    }
    assert more[|visits|].attempt == v.attempt;
  }

  /** One visit is one event. */
  lemma VisitIsEvent(cfg: Config, l: Limits, t: Server, r: Request, visits: Visits, v: M.Visit, ok: bool)
    requires Inv(l, Midway(l, t, r, visits).sys) && M.InSnapshot(t.mem, v) && v.attempt !in Done(visits)
    ensures var s, e := Midway(l, t, r, visits), Collect(v.attempt, v.now, ok);
      var u := Sweep(l, s.sys.inner, v.now);
      && CanHappen(s, e) && After(cfg, l, s, e).sys == Sys(u, s.sys.worker) && After(cfg, l, s, e).past == t.past
      && (ok || AnswerFor(u, v.worker).code == CODE_PENDING ==>
            After(cfg, l, s, e) == Midway(l, t, r, visits + [v]))
      && (!ok && AnswerFor(u, v.worker).code != CODE_PENDING ==>
            After(cfg, l, s, e).mem == s.mem && After(cfg, l, s, e).control == Idle
            && RequestAnswer(cfg, l, s, e) == Some(UNAVAILABLE_ANSWER))
  {
    hide Inv, Sweep, AnswerFor, RecordVerdict, Done;
    RouteLeft(l, t.mem, t.sys.inner, visits, v.attempt);
    DoneOneMore(visits, v);
    var more := visits + [v];
    assert more[..|more| - 1] == visits;
    assert t.mem.running.Keys - Done(visits) - {v.attempt} == t.mem.running.Keys - Done(more);
  }

  /** The beginning of the request and its visits. */
  function Loop(r: Request, visits: Visits, fails: nat -> bool): seq<Event> {
    [Begin(r)] + Collects(visits, fails)
  }

  lemma LoopOneMore(r: Request, visits: Visits, v: M.Visit, fails: nat -> bool)
    ensures Loop(r, visits + [v], fails)
         == Loop(r, visits, fails) + [Collect(v.attempt, v.now, !fails(|visits|))]
  {
    var more := visits + [v];
    assert more[..|more| - 1] == visits && more[|visits|] == v;
  }

  /** The run leads from `s` to `t`. */
  ghost predicate RunsTo(cfg: Config, l: Limits, s: Server, events: seq<Event>, t: Server) {
    ServerInv(l, s) && CanRun(cfg, l, s, events) && t == Run(cfg, l, s, events) && ServerInv(l, t)
  }

  lemma RunsOn(cfg: Config, l: Limits, s: Server, events: seq<Event>, t: Server, e: Event)
    requires RunsTo(cfg, l, s, events, t) && CanHappen(t, e)
    ensures Inv(l, t.sys) && RunsTo(cfg, l, s, events + [e], After(cfg, l, t, e))
  {
    hide MemOk, Tracked, Routed, ControlOk, Inv, CanRun, Run, After, CanHappen;
    OneMoreEvent(cfg, l, s, events, e);
    RunKeepsInv(cfg, l, s, events + [e]);
  }

  /** The beginning of the request and the visits, none of which fails, are a run to the middle of the loop. */
  lemma {:induction false} VisitsAreRun(cfg: Config, l: Limits, t: Server, r: Request, visits: Visits,
      fails: nat -> bool)
    requires ServerInv(l, t) && t.control.Idle? && r.place.Valid()
    requires Visitable(t.mem, visits) && M.Unfailing(l, t.mem, t.sys.inner, visits, fails)
    ensures RunsTo(cfg, l, t, Loop(r, visits, fails), Midway(l, t, r, visits))
    decreases |visits|
  {
    hide ServerInv, RunsTo, Loop, CanHappen, Midway, Visitable, M.AnswerAt, M.Unfailing, Place.Valid;
    if visits == [] {
      BeginsMidway(cfg, l, t, r, fails);
    } else {
      var last := |visits| - 1;
      var prefix, v := visits[..last], visits[last];
      assert visits == prefix + [v];
      VisitablePrefix(t.mem, visits, last);
      UnfailingPrefix(l, t.mem, t.sys.inner, visits, fails);
      VisitsAreRun(cfg, l, t, r, prefix, fails);
      VisitFollows(cfg, l, t, r, prefix, v, fails);
    }
  }

  lemma BeginsMidway(cfg: Config, l: Limits, t: Server, r: Request, fails: nat -> bool)
    requires ServerInv(l, t) && t.control.Idle? && r.place.Valid()
    ensures RunsTo(cfg, l, t, Loop(r, [], fails), Midway(l, t, r, []))
  {
    hide ServerInv, RunsTo, CanHappen, Midway, After, Place.Valid;
    RunsNowhere(cfg, l, t);
    BeginIsMidway(cfg, l, t, r);
    RunsOn(cfg, l, t, [], t, Begin(r));
    assert Loop(r, [], fails) == [] + [Begin(r)];
  }

  lemma RunsNowhere(cfg: Config, l: Limits, t: Server)
    requires ServerInv(l, t)
    ensures RunsTo(cfg, l, t, [], t)
  {
    hide ServerInv;
  }

  lemma BeginIsMidway(cfg: Config, l: Limits, t: Server, r: Request)
    requires ServerInv(l, t) && t.control.Idle? && r.place.Valid()
    ensures CanHappen(t, Begin(r)) && Inv(l, t.sys) && After(cfg, l, t, Begin(r)) == Midway(l, t, r, [])
  {
    hide MemOk, Inv, Tracked, Routed, Place.Valid;
    assert t.mem.running.Keys - Done([]) == t.mem.running.Keys;
  }

  lemma UnfailingPrefix(l: Limits, m: Mem, s: Inner, visits: Visits, fails: nat -> bool)
    requires visits != [] && M.Unfailing(l, m, s, visits, fails)
    ensures var last := |visits| - 1;
      && M.Unfailing(l, m, s, visits[..last], fails)
      && (!fails(last) || M.AnswerAt(l, m, s, visits, last).code == CODE_PENDING)
  {
    hide M.Collected, Sweep, AnswerFor;
    var prefix := visits[..|visits| - 1];
    forall k | 0 <= k < |prefix| ensures M.AnswerAt(l, m, s, prefix, k) == M.AnswerAt(l, m, s, visits, k) {
      assert prefix[..k] == visits[..k];
    }
  }

  /** One visit more, unless its update fails. */
  lemma VisitFollows(cfg: Config, l: Limits, t: Server, r: Request, visits: Visits, v: M.Visit, fails: nat -> bool)
    requires RunsTo(cfg, l, t, Loop(r, visits, fails), Midway(l, t, r, visits)) && Visitable(t.mem, visits + [v])
    requires !fails(|visits|) || M.AnswerAt(l, t.mem, t.sys.inner, visits + [v], |visits|).code == CODE_PENDING
    ensures RunsTo(cfg, l, t, Loop(r, visits + [v], fails), Midway(l, t, r, visits + [v]))
  {
    hide MemOk, Tracked, Routed, ControlOk, Inv, CanRun, Run, RunsTo, Loop, After, CanHappen, Midway, Done, Visitable,
         M.AnswerAt, Sweep, AnswerFor;
    var s, e := Midway(l, t, r, visits), Collect(v.attempt, v.now, !fails(|visits|));
    LoopOneMore(r, visits, v, fails);
    NewVisit(t.mem, visits, v);
    EndsInv(cfg, l, t, Loop(r, visits, fails), s);
    VisitIsEvent(cfg, l, t, r, visits, v, !fails(|visits|));
    AnswerMidway(l, t, r, visits, v);
    RunsOn(cfg, l, t, Loop(r, visits, fails), s, e);
  }

  lemma EndsInv(cfg: Config, l: Limits, s: Server, events: seq<Event>, t: Server)
    requires RunsTo(cfg, l, s, events, t)
    ensures Inv(l, t.sys) && ServerInv(l, t)
  {
    hide MemOk, Tracked, Routed, ControlOk, Inv, CanRun, Run;
  }

  lemma NewVisit(m: Mem, visits: Visits, v: M.Visit)
    requires Visitable(m, visits + [v])
    ensures M.InSnapshot(m, v) && v.attempt !in Done(visits)
  {
    var more := visits + [v];
    assert more[|visits|] == v;
    assert forall k :: 0 <= k < |visits| ==> more[k] == visits[k];
  }

  lemma AnswerMidway(l: Limits, t: Server, r: Request, visits: Visits, v: M.Visit)
    ensures M.AnswerAt(l, t.mem, t.sys.inner, visits + [v], |visits|)
         == AnswerFor(Sweep(l, Midway(l, t, r, visits).sys.inner, v.now), v.worker)
  {
    hide Sweep, AnswerFor;
    assert (visits + [v])[..|visits|] == visits;
  }

  // ------------------------------------------------------------------ what follows the loop

  lemma AllDone(l: Limits, t: Server, r: Request, visits: Visits, fails: nat -> bool, m: Mem, u: Inner)
    requires M.AllCollected(l, t.mem, t.sys.inner, visits, fails, m, u)
    ensures Midway(l, t, r, visits) == Server(Sys(u, t.sys.worker), m, Collecting(r, {}), t.past)
  {
    hide M.Collected, M.Unfailing;
    assert t.mem.running.Keys - Done(visits) == {};
  }

  /** The last event depends on the request, the memory and the jobs alone. */
  lemma SameLastEvent(cfg: Config, l: Limits, s: Server, e: Event)
    requires e.Act? && s.control.Collecting? && s.control.todo == {} && ForeignKeys(s.mem.db) && Inv(l, s.sys)
    ensures var seen := M.Seen(s.sys.inner, s.mem, s.control.request);
      && CanHappen(s, e) && CanHappen(seen, e) && NextMem(cfg, l, s, e) == NextMem(cfg, l, seen, e)
      && RequestAnswer(cfg, l, s, e) == RequestAnswer(cfg, l, seen, e) && Access(cfg, s, e) == Access(cfg, seen, e)
  {
    hide PlanFor, SubmitOne, StoreAnswer, Inv;
    var seen := M.Seen(s.sys.inner, s.mem, s.control.request);
    assert CurrentPlan(cfg, s) == CurrentPlan(cfg, seen);
    if e.ok && CurrentPlan(cfg, s).Submit? {
      var u, v := PlannedSubmit(s, CurrentPlan(cfg, s), e), PlannedSubmit(seen, CurrentPlan(cfg, seen), e);
      assert u == v && SubmitAnswer(l, s, u) == SubmitAnswer(l, seen, v);
    }
  }

  lemma AccessedByEvent(cfg: Config, l: Limits, s: Server, e: Event)
    requires e.Act? && CanHappen(s, e) && Inv(l, s.sys)
    ensures NextSys(cfg, l, s, e).inner == M.Accessed(l, s.sys.inner, Access(cfg, s, e))
  {
    hide PlanFor, Inv, TalkTo, Cancel, Admits;
  }

  lemma LastEvent(cfg: Config, l: Limits, t: Server, c: M.Circumstances, visits: Visits, answer: Answer, m: Mem,
      u: Inner)
    requires ServerInv(l, Midway(l, t, c.request, visits))
    requires M.Responded(cfg, l, t.mem, t.sys.inner, c, answer, visits, true, m, u)
    ensures var s, e := Midway(l, t, c.request, visits), Act(c.now, c.ok, c.late);
      && CanHappen(s, e) && RequestAnswer(cfg, l, s, e) == Some(answer)
      && var end := After(cfg, l, s, e); end.mem == m && end.sys.inner == u && end.control == Idle
  {
    hide MemOk, Tracked, Routed, ControlOk, Inv, NextMem, NextSys, NextPast, RequestAnswer, Access, CanHappen, Midway,
         M.Collected, M.Accessed, M.AllCollected, M.Seen;
    var s, e := Midway(l, t, c.request, visits), Act(c.now, c.ok, c.late);
    var collected := M.Collected(l, t.mem, t.sys.inner, visits);
    AllDone(l, t, c.request, visits, c.fails, collected.0, collected.1);
    SameLastEvent(cfg, l, s, e);
    AccessedByEvent(cfg, l, s, e);
  }

  // ------------------------------------------------------------------ the whole request

  /** The events of the request, up to its answer. */
  function RequestEvents(c: M.Circumstances, visits: Visits, collected: bool): seq<Event> {
    Loop(c.request, visits, c.fails) + if collected then [Act(c.now, c.ok, c.late)] else []
  }

  /** A run from `t` ends with an event that answers the request, and leaves this memory and these jobs. */
  ghost predicate AnswersWith(cfg: Config, l: Limits, t: Server, events: seq<Event>, answer: Answer, m: Mem, s: Inner) {
    exists prefix, before, e, end ::
      && RunsTo(cfg, l, t, prefix, before) && events == prefix + [e] && CanHappen(before, e)
      && RequestAnswer(cfg, l, before, e) == Some(answer)
      && RunsTo(cfg, l, t, events, end) && end.mem == m && end.sys.inner == s && end.control == Idle
  }

  lemma AnswersLast(cfg: Config, l: Limits, t: Server, events: seq<Event>, s: Server, e: Event, answer: Answer, m: Mem,
      u: Inner)
    requires RunsTo(cfg, l, t, events, s) && CanHappen(s, e) && RequestAnswer(cfg, l, s, e) == Some(answer)
    requires Inv(l, s.sys)
    requires var end := After(cfg, l, s, e); end.mem == m && end.sys.inner == u && end.control == Idle
    ensures AnswersWith(cfg, l, t, events + [e], answer, m, u)
  {
    hide RunsTo, Inv, After, CanHappen, RequestAnswer;
    RunsOn(cfg, l, t, events, s, e);
    assert RunsTo(cfg, l, t, events + [e], After(cfg, l, s, e));
  }

  /**
   * `respond` is a run: in any state that satisfies the server's invariant, with no request in progress, what
   * the method makes of the memory and of the store, and what it answers, is what the run of the request's
   * own events makes and answers, whether its updates succeed or one of them ends the collecting loop.
   */
  lemma RespondIsRun(cfg: Config, l: Limits, t: Server, c: M.Circumstances, answer: Answer, visits: Visits,
      collected: bool, m: Mem, s: Inner)
    requires ServerInv(l, t) && t.control.Idle? && c.request.place.Valid()
    requires M.Responded(cfg, l, t.mem, t.sys.inner, c, answer, visits, collected, m, s)
    ensures AnswersWith(cfg, l, t, RequestEvents(c, visits, collected), answer, m, s)
  {
    hide ServerInv, AnswersWith, M.Responded, Loop;
    if collected {
      FinishIsRun(cfg, l, t, c, answer, visits, m, s);
    } else {
      StopIsRun(cfg, l, t, c, answer, visits, m, s);
      assert RequestEvents(c, visits, collected) == Loop(c.request, visits, c.fails);
    }
  }

  lemma FinishFacts(cfg: Config, l: Limits, t: Server, c: M.Circumstances, answer: Answer, visits: Visits, m: Mem,
      s: Inner)
    requires M.Responded(cfg, l, t.mem, t.sys.inner, c, answer, visits, true, m, s)
    ensures Visitable(t.mem, visits) && M.Unfailing(l, t.mem, t.sys.inner, visits, c.fails)
  {
    hide M.Unfailing, M.Collected, NextMem, RequestAnswer, Access, M.Accessed, M.InSnapshot;
  }

  lemma FinishIsRun(cfg: Config, l: Limits, t: Server, c: M.Circumstances, answer: Answer, visits: Visits, m: Mem,
      s: Inner)
    requires ServerInv(l, t) && t.control.Idle? && c.request.place.Valid()
    requires M.Responded(cfg, l, t.mem, t.sys.inner, c, answer, visits, true, m, s)
    ensures AnswersWith(cfg, l, t, Loop(c.request, visits, c.fails) + [Act(c.now, c.ok, c.late)], answer, m, s)
  {
    hide ServerInv, RunsTo, Loop, After, CanHappen, Midway, Visitable, RequestAnswer, AnswersWith, M.Unfailing,
         M.Responded, Place.Valid;
    FinishFacts(cfg, l, t, c, answer, visits, m, s);
    VisitsAreRun(cfg, l, t, c.request, visits, c.fails);
    var before, events := Midway(l, t, c.request, visits), Loop(c.request, visits, c.fails);
    EndsInv(cfg, l, t, events, before);
    LastEvent(cfg, l, t, c, visits, answer, m, s);
    AnswersLast(cfg, l, t, events, before, Act(c.now, c.ok, c.late), answer, m, s);
  }

  lemma StopFacts(cfg: Config, l: Limits, t: Server, c: M.Circumstances, answer: Answer, visits: Visits, m: Mem,
      s: Inner)
    requires M.Responded(cfg, l, t.mem, t.sys.inner, c, answer, visits, false, m, s)
    ensures visits != [] && answer == UNAVAILABLE_ANSWER && Visitable(t.mem, visits)
    ensures var last := |visits| - 1;
      var v, before := visits[last], Midway(l, t, c.request, visits[..last]);
      && M.Unfailing(l, t.mem, t.sys.inner, visits[..last], c.fails) && c.fails(last)
      && m == before.mem && s == Sweep(l, before.sys.inner, v.now) && AnswerFor(s, v.worker).code != CODE_PENDING
  {
    hide Sweep, AnswerFor, M.Unfailing, CollectOne;
    var last := |visits| - 1;
    assert visits == visits[..last] + [visits[last]];
    AnswerMidway(l, t, c.request, visits[..last], visits[last]);
  }

  lemma StopEvent(cfg: Config, l: Limits, t: Server, c: M.Circumstances, answer: Answer, visits: Visits, m: Mem,
      s: Inner)
    requires visits != [] && ServerInv(l, Midway(l, t, c.request, visits[..|visits| - 1]))
    requires M.Responded(cfg, l, t.mem, t.sys.inner, c, answer, visits, false, m, s)
    ensures var v := visits[|visits| - 1];
      var before, e := Midway(l, t, c.request, visits[..|visits| - 1]), Collect(v.attempt, v.now, false);
      && CanHappen(before, e) && RequestAnswer(cfg, l, before, e) == Some(answer)
      && var end := After(cfg, l, before, e); end.mem == m && end.sys.inner == s && end.control == Idle
  {
    hide MemOk, Tracked, Routed, ControlOk, Inv, After, CanHappen, Midway, Done, RequestAnswer, M.Responded, Sweep,
         AnswerFor;
    StopFacts(cfg, l, t, c, answer, visits, m, s);
    var last := |visits| - 1;
    assert visits == visits[..last] + [visits[last]];
    NewVisit(t.mem, visits[..last], visits[last]);
    VisitIsEvent(cfg, l, t, c.request, visits[..last], visits[last], false);
  }

  /** The update of the last visit fails: that event ends the request. */
  lemma StopIsRun(cfg: Config, l: Limits, t: Server, c: M.Circumstances, answer: Answer, visits: Visits, m: Mem,
      s: Inner)
    requires ServerInv(l, t) && t.control.Idle? && c.request.place.Valid()
    requires M.Responded(cfg, l, t.mem, t.sys.inner, c, answer, visits, false, m, s)
    ensures AnswersWith(cfg, l, t, Loop(c.request, visits, c.fails), answer, m, s)
  {
    hide ServerInv, RunsTo, Loop, After, CanHappen, Midway, Visitable, RequestAnswer, AnswersWith, M.Unfailing,
         M.Responded, Sweep, AnswerFor, Place.Valid;
    StopFacts(cfg, l, t, c, answer, visits, m, s);
    var last := |visits| - 1;
    var prefix, v := visits[..last], visits[last];
    assert visits == prefix + [v];
    VisitablePrefix(t.mem, visits, last);
    VisitsAreRun(cfg, l, t, c.request, prefix, c.fails);
    var before, events := Midway(l, t, c.request, prefix), Loop(c.request, prefix, c.fails);
    EndsInv(cfg, l, t, events, before);
    LoopOneMore(c.request, prefix, v, c.fails);
    StopEvent(cfg, l, t, c, answer, visits, m, s);
    AnswersLast(cfg, l, t, events, before, Collect(v.attempt, v.now, false), answer, m, s);
  }
}
