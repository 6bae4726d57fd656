/**
 * `Memory` (`living.rs`): the database handle and the routing, updated in place by one version 2
 * request at a time. The methods are proved equal to the steps of `Server.dfy`.
 */
module Memory {
  import opened Prelude
  import opened Protocol
  import opened Jobs
  import opened Runs
  import opened Living
  import opened Server
  import S = Store

  // ------------------------------------------------------------------ collecting as a sequence of visits

  /** One turn of the collecting loop: the attempt, its worker id, and the clock reading of the store's access. */
  datatype Visit = Visit(attempt: nat, worker: Id, now: Time)

  /** The memory and the store after some visits. */
  function Collected(l: Limits, m: Mem, s: Inner, visits: seq<Visit>): (Mem, Inner)
    decreases |visits|
  {
    if visits == [] then (m, s)
    else
      var (m1, s1) := Collected(l, m, s, visits[..|visits| - 1]);
      var v := visits[|visits| - 1];
      var t := Sweep(l, s1, v.now);
      (CollectOne(m1, v.attempt, AnswerFor(t, v.worker)), t)
  }

  /** The store's answer to visit `k`. */
  function AnswerAt(l: Limits, m: Mem, s: Inner, visits: seq<Visit>, k: nat): Answer
    requires k < |visits|
  {
    AnswerFor(Sweep(l, Collected(l, m, s, visits[..k]).1, visits[k].now), visits[k].worker)
  }

  /** No visit that found a terminal job had its update fail. */
  ghost predicate Unfailing(l: Limits, m: Mem, s: Inner, visits: seq<Visit>, fails: nat -> bool) {
    forall k :: 0 <= k < |visits| && AnswerAt(l, m, s, visits, k).code != CODE_PENDING ==> !fails(k)
  }

  lemma UnfailingNone(l: Limits, m: Mem, s: Inner, fails: nat -> bool)
    ensures Unfailing(l, m, s, [], fails)
  {
  }

  lemma UnfailingOneMore(l: Limits, m: Mem, s: Inner, visits: seq<Visit>, fails: nat -> bool, v: Visit)
    requires Unfailing(l, m, s, visits, fails)
    ensures AnswerAt(l, m, s, visits + [v], |visits|)
      == AnswerFor(Sweep(l, Collected(l, m, s, visits).1, v.now), v.worker)
    ensures AnswerAt(l, m, s, visits + [v], |visits|).code == CODE_PENDING || !fails(|visits|) ==>
      Unfailing(l, m, s, visits + [v], fails)
  {
    hide Sweep, AnswerFor, Collected;
    var more := visits + [v];
    assert more[..|visits|] == visits;
    forall k | 0 <= k < |visits| ensures AnswerAt(l, m, s, more, k) == AnswerAt(l, m, s, visits, k) {
      assert more[..k] == visits[..k];
    }
  }

  /** The terminal answers that the visits got, by attempt. */
  function Found(l: Limits, m: Mem, s: Inner, visits: seq<Visit>): (r: map<nat, Answer>)
    ensures forall a :: a in r ==> r[a].code != CODE_PENDING && exists k :: 0 <= k < |visits| && visits[k].attempt == a
    decreases |visits|
  {
    if visits == [] then map[]
    else
      var found := Found(l, m, s, visits[..|visits| - 1]);
      var v := visits[|visits| - 1];
      var answer := AnswerFor(Sweep(l, Collected(l, m, s, visits[..|visits| - 1]).1, v.now), v.worker);
      if answer.code == CODE_PENDING then found else found[v.attempt := answer]
  }

  function VerdictRow(row: Attempt, answer: Answer): Attempt {
    if row.stage.Pending? then row.(stage := Verdict(answer).0, reply := Verdict(answer).1) else row
  }

  /** All the verdicts at once: it depends on what was found, not on the order of finding. */
  function CollectAll(m: Mem, found: map<nat, Answer>): Mem {
    var rows := m.db.attempts;
    Mem(
      m.db.(attempts :=
        seq(|rows|, i requires 0 <= i < |rows| => if i in found then VerdictRow(rows[i], found[i]) else rows[i])),
      m.running - found.Keys,
      m.nextWorker)
  }

  lemma CollectNothing(m: Mem)
    ensures CollectAll(m, map[]) == m
  {
    assert CollectAll(m, map[]).db.attempts == m.db.attempts;
    assert m.running - {} == m.running;
  }

  lemma CollectOneMore(m: Mem, found: map<nat, Answer>, a: nat, answer: Answer)
    requires a !in found && answer.code != CODE_PENDING
    ensures CollectOne(CollectAll(m, found), a, answer) == CollectAll(m, found[a := answer])
  {
    var x, y := CollectOne(CollectAll(m, found), a, answer), CollectAll(m, found[a := answer]);
    assert x.db.attempts == y.db.attempts;
    assert m.running - found.Keys - {a} == m.running - found[a := answer].Keys;
  }

  /** Each attempt is visited at most once. */
  ghost predicate Distinct(visits: seq<Visit>) {
    forall i, j :: 0 <= i < j < |visits| ==> visits[i].attempt != visits[j].attempt
  }

  /** The hash map yields the routes in any order; the outcome is a function of the answers alone. */
  lemma {:induction false} CollectedInAnyOrder(l: Limits, m: Mem, s: Inner, visits: seq<Visit>)
    requires Distinct(visits)
    ensures Collected(l, m, s, visits).0 == CollectAll(m, Found(l, m, s, visits))
    decreases |visits|
  {
    hide Sweep, AnswerFor, CollectOne, CollectAll;
    if visits == [] {
      CollectNothing(m);
    } else {
      var prefix, v := visits[..|visits| - 1], visits[|visits| - 1];
      CollectedInAnyOrder(l, m, s, prefix);
      var answer := AnswerFor(Sweep(l, Collected(l, m, s, prefix).1, v.now), v.worker);
      if answer.code != CODE_PENDING {
        CollectOneMore(m, Found(l, m, s, prefix), v.attempt, answer);
      } else {
        CollectPending(Collected(l, m, s, prefix).0, v.attempt, answer);
      }
    }
  }

  lemma CollectPending(m: Mem, a: nat, answer: Answer)
    requires answer.code == CODE_PENDING
    ensures CollectOne(m, a, answer) == m
  {
  }

  lemma {:induction false} CollectedForeignKeys(l: Limits, m: Mem, s: Inner, visits: seq<Visit>)
    requires ForeignKeys(m.db)
    ensures ForeignKeys(Collected(l, m, s, visits).0.db)
    decreases |visits|
  {
    hide Sweep, AnswerFor, Verdict;
    if visits != [] {
      CollectedForeignKeys(l, m, s, visits[..|visits| - 1]);
    }
  }

  /** Where the loop stands: what was visited, what is left, and both states. */
  ghost predicate Visited(l: Limits, m: Mem, s: Inner, visits: seq<Visit>, todo: set<nat>, n: Mem, t: Inner) {
    && Distinct(visits) && (n, t) == Collected(l, m, s, visits)
    && todo <= m.running.Keys
    && (forall k :: 0 <= k < |visits| ==> visits[k].attempt !in todo && InSnapshot(m, visits[k]))
    && (forall a :: a in m.running && a !in todo ==> exists k :: 0 <= k < |visits| && visits[k].attempt == a)
  }

  predicate InSnapshot(m: Mem, v: Visit) {
    v.attempt in m.running && v.worker == m.running[v.attempt]
  }

  lemma VisitNone(l: Limits, m: Mem, s: Inner)
    ensures Visited(l, m, s, [], m.running.Keys, m, s)
  {
  }

  lemma VisitOneMore(l: Limits, m: Mem, s: Inner, visits: seq<Visit>, todo: set<nat>, n: Mem, t: Inner, v: Visit)
    requires Visited(l, m, s, visits, todo, n, t) && v.attempt in todo && InSnapshot(m, v)
    ensures var u := Sweep(l, t, v.now);
      Visited(l, m, s, visits + [v], todo - {v.attempt}, CollectOne(n, v.attempt, AnswerFor(u, v.worker)), u)
  {
    var more := visits + [v];
    assert more[..|more| - 1] == visits;
    forall a | a in m.running && a !in todo - {v.attempt} ensures exists k :: 0 <= k < |more| && more[k].attempt == a {
      if a == v.attempt {
        assert more[|visits|].attempt == a;
      } else {
        var k :| 0 <= k < |visits| && visits[k].attempt == a;
        assert more[k].attempt == a;
      }
    }
  }

  /** Every route was visited, without a failing update. */
  ghost predicate AllCollected(l: Limits, m: Mem, s: Inner, visits: seq<Visit>, fails: nat -> bool, n: Mem, t: Inner) {
    && (n, t) == Collected(l, m, s, visits) && Unfailing(l, m, s, visits, fails)
    && forall a :: a in m.running ==> exists k :: 0 <= k < |visits| && visits[k].attempt == a
  }

  /** The last visit found a terminal job and its update failed: the store was accessed, the memory is as before it. */
  ghost predicate StoppedAtLast(l: Limits, m: Mem, s: Inner, visits: seq<Visit>, fails: nat -> bool, n: Mem, t: Inner) {
    && visits != []
    && var last := |visits| - 1;
    && (n, t) == (Collected(l, m, s, visits[..last]).0, Collected(l, m, s, visits).1)
    && fails(last) && AnswerAt(l, m, s, visits, last).code != CODE_PENDING && Unfailing(l, m, s, visits[..last], fails)
  }

  /** The server as one request sees it between two accesses of the store. */
  function Seen(s: Inner, m: Mem, r: Request): Server {
    Server(Sys(s, Polling), m, Collecting(r, {}), FRESH.past)
  }

  /** The store after an access by a handler. */
  ghost function Accessed(l: Limits, s: Inner, access: Option<Step>): Inner {
    match access
    case Some(DoTalk(id, talk, prompt, scope, now)) => TalkTo(l, s, id, talk, prompt, scope, now)
    case Some(DoCancel(id, now)) => Cancel(l, s, id, now)
    case Some(DoResult(id, now)) => Sweep(l, s, now)
    case _ => s
  }

  /** The request, which updates of the collecting loop fail, and the time and failures of what follows it. */
  datatype Circumstances = Circumstances(request: Request, fails: nat -> bool, now: Time, ok: bool, late: bool)

  /**
   * What `respond` comes to: a memory and a store before, those after, the visits of the collecting loop and
   * the answer; `collected` says that no update of the loop failed.
   */
  ghost predicate Responded(cfg: Config, l: Limits, before: Mem, s: Inner, c: Circumstances, answer: Answer,
                            visits: seq<Visit>, collected: bool, after: Mem, t: Inner)
  {
    && Distinct(visits) && (forall v :: v in visits ==> InSnapshot(before, v))
    && if collected then
         var (m, u) := Collected(l, before, s, visits);
         var seen, e := Seen(u, m, c.request), Act(c.now, c.ok, c.late);
         && AllCollected(l, before, s, visits, c.fails, m, u)
         && ForeignKeys(m.db) && after == NextMem(cfg, l, seen, e)
         && Some(answer) == RequestAnswer(cfg, l, seen, e) && t == Accessed(l, u, Access(cfg, seen, e))
       else
         answer == UNAVAILABLE_ANSWER && StoppedAtLast(l, before, s, visits, c.fails, after, t)
  }

  class Memory {
    var db: Db
    var running: map<nat, Id>
    var nextWorker: nat
    const cfg: Config

    function Snapshot(): Mem
      reads this
    {
      Mem(db, running, nextWorker)
    }

    /** `Living::open` on a database: pending attempts have failed, and nothing is routed. */
    constructor Open(db: Db, cfg: Config)
      ensures Snapshot() == Opened(db) && this.cfg == cfg
    {
      this.db := Recover(db);
      this.cfg := cfg;
      running := map[];
      nextWorker := RID_MAX + 1;
    }

    /** The update of `collect_finished`: it touches the row only while that is pending. */
    method Record(a: nat, answer: Answer)
      modifies this`db
      ensures db == RecordVerdict(old(db), a, answer)
    {
      var (stage, text) := Verdict(answer);
      if a < |db.attempts| && db.attempts[a].stage.Pending? {
        db := SetStage(db, a, stage, text);
      }
    }

    /**
     * `collect_finished`, over a snapshot of `running` in whatever order it comes. `clock` and `fails`
     * say when the accesses happen and which update fails; a failure ends the loop, with the store swept
     * once more and the route of that attempt kept.
     */
    method CollectFinished(store: S.Store, clock: nat -> Time, fails: nat -> bool)
      returns (ok: bool, visits: seq<Visit>)
      requires store.Consistent()
      modifies this, store
      ensures store.Consistent() && Distinct(visits) && nextWorker == old(nextWorker)
      ensures forall v :: v in visits ==> InSnapshot(old(Snapshot()), v)
      ensures forall k :: 0 <= k < |visits| ==> visits[k].now == clock(k)
      ensures ok ==>
        AllCollected(store.limits, old(Snapshot()), old(store.Snapshot()), visits, fails, Snapshot(), store.Snapshot())
      ensures !ok ==>
        StoppedAtLast(store.limits, old(Snapshot()), old(store.Snapshot()), visits, fails, Snapshot(), store.Snapshot())
    {
      hide Valid, Sweep, AnswerFor, Verdict, SetStage, Collected, Unfailing, AnswerAt, CollectAll;
      ghost var m, s := Snapshot(), store.Snapshot();
      VisitNone(store.limits, m, s);
      UnfailingNone(store.limits, m, s, fails);
      var snapshot := running;
      var todo := running.Keys;
      visits := [];
      while todo != {}
        invariant store.Consistent()
        invariant Visited(store.limits, m, s, visits, todo, Snapshot(), store.Snapshot()) && nextWorker == m.nextWorker
        invariant Unfailing(store.limits, m, s, visits, fails)
        invariant forall k :: 0 <= k < |visits| ==> visits[k].now == clock(k)
      {
        var a :| a in todo;
        var v := Visit(a, snapshot[a], clock(|visits|));
        UnfailingOneMore(store.limits, m, s, visits, fails, v);
        VisitOneMore(store.limits, m, s, visits, todo, Snapshot(), store.Snapshot(), v);
        var failing := fails(|visits|);
        assert (visits + [v])[..|visits|] == visits;
        visits := visits + [v];
        todo := todo - {a};
        var answer, _ := store.Result(v.worker, v.now);
        if answer.code != CODE_PENDING {
          if failing {
            return false, visits;
          }
          Record(a, answer);
          running := running - {a};
        }
      }
      ok := true;
    }

    /** The insertion of an attempt, all or nothing, and its submission to the store. */
    method SubmitAttempt(store: S.Store, r: Request, payload: Payload, prompt: string, now: Time, late: bool)
      returns (answer: Answer)
      requires store.Consistent()
      modifies this, store
      ensures store.Consistent()
      ensures var u, t := Submit.Submit(r, payload, prompt, now, late), Seen(old(store.Snapshot()), old(Snapshot()), r);
        && Snapshot() == SubmitMem(store.limits, t, u)
        && answer == (if late && SubmitAnswer(store.limits, t, u).code != CODE_PENDING then UNAVAILABLE_ANSWER
                      else SubmitAnswer(store.limits, t, u))
        && store.Snapshot() == if old(nextWorker) >= U32_MAX then old(store.Snapshot())
                               else Accessed(store.limits, old(store.Snapshot()),
                                 Some(TalkStep(old(Snapshot()), r.place, payload, prompt, now)))
    {
      hide Valid, TalkTo, InsertAttempt, TalkAnswer;
      var a, worker := |db.attempts|, nextWorker;
      db := InsertAttempt(db, r.place, r.job, payload);
      if worker >= U32_MAX {
        if late {
          return UNAVAILABLE_ANSWER;
        }
        db := SetStage(db, a, Stage.Failed, WORKER_CAPACITY.text);
        return WORKER_CAPACITY;
      }
      nextWorker := worker + 1;
      var reply, _ := store.Talk(worker, TalkOf(payload), Some(prompt), r.place.Scope(), now);
      answer := reply;
      if reply.code == CODE_PENDING {
        running := running[a := worker];
      } else if late {
        answer := UNAVAILABLE_ANSWER;
      } else {
        db := SetStage(db, a, Stage.Failed, reply.text);
      }
    }

    /** `respond_inner` after collecting: one plan, at most one access of the store. */
    method Perform(store: S.Store, r: Request, now: Time, ok: bool, late: bool) returns (answer: Answer)
      requires store.Consistent() && ForeignKeys(db)
      modifies this, store
      ensures store.Consistent()
      ensures var t, e := Seen(old(store.Snapshot()), old(Snapshot()), r), Act(now, ok, late);
        && Snapshot() == NextMem(cfg, store.limits, t, e)
        && Some(answer) == RequestAnswer(cfg, store.limits, t, e)
        && store.Snapshot() == Accessed(store.limits, old(store.Snapshot()), Access(cfg, t, e))
    {
      hide Valid, PlanFor, SubmitMem, SubmitAnswer, Cancel, TalkTo;
      if !ok {
        return UNAVAILABLE_ANSWER;
      }
      match PlanFor(cfg, db, r) {
        case Reject(rejection) =>
          answer := rejection;
        case Show(a) =>
          answer := RowAnswer(db.attempts[a]);
        case Withdraw(a) =>
          db := SetStage(db, a, Stage.Canceled, REASON_CANCELED);
          if a in running {
            var worker := running[a];
            running := running - {a};
            var _, _ := store.CancelJob(worker, now);
          }
          answer := CANCELED_ANSWER;
        case Acknowledge(a) =>
          answer := Answer(CODE_READY, db.attempts[a].reply);
          db := CommitAttempt(db, a);
        case Submit(payload, prompt) =>
          answer := SubmitAttempt(store, r, payload, prompt, now, late);
      }
    }

    /** `respond`: collect, then perform the request; an error answers `memory_unavailable`. */
    method Respond(store: S.Store, r: Request, clock: nat -> Time, fails: nat -> bool, now: Time, ok: bool, late: bool)
      returns (answer: Answer, visits: seq<Visit>, collected: bool)
      requires store.Consistent() && ForeignKeys(db)
      modifies this, store
      ensures store.Consistent()
      ensures var before, s := old(Snapshot()), old(store.Snapshot());
        Responded(cfg, store.limits, before, s, Circumstances(r, fails, now, ok, late), answer, visits, collected,
                  Snapshot(), store.Snapshot())
      ensures forall k :: 0 <= k < |visits| ==> visits[k].now == clock(k)
    {
      hide Valid, Collected, NextMem, RequestAnswer, Accessed, Access, Unfailing, AnswerAt;
      collected, visits := CollectFinished(store, clock, fails);
      if !collected {
        return UNAVAILABLE_ANSWER, visits, false;
      }
      CollectedForeignKeys(store.limits, old(Snapshot()), old(store.Snapshot()), visits);
      answer := Perform(store, r, now, ok, late);
    }
  }
}
