/**
 * The job store as values (`jobs.rs`): what one access does to the whole state, in closed form, and
 * the invariant every access keeps. `Store.dfy` proves the in-place methods equal to these functions.
 */
module Jobs {
  import opened Prelude
  import opened Protocol
  import Sanitize

  type Time = nat
  type Id = nat
  /** A clone of an upstream socket, as an opaque token. */
  type Socket = nat

  datatype Limits = Limits(maxJobs: nat, queueLen: nat, ttl: nat, deadline: nat)

  datatype State = Pending | Ready(raw: string) | Failed(reason: string) | Canceled(reason: string)

  datatype Talk = Talk(npc: nat, day: nat, pname: string, msg: string)

  datatype Answer = Answer(code: nat, text: string)

  datatype Job = Job(talk: Talk, prompt: Option<string>, scope: string, state: State,
                     created: Time, deadline: Time, finished: Option<Time>)
  {
    predicate IsPending() {
      state.Pending?
    }

    function Reply(): Answer {
      match state
      case Pending => Answer(CODE_PENDING, REASON_PENDING)
      case Ready(raw) => Answer(CODE_READY, raw)
      case Failed(reason) => Answer(CODE_FAILED, reason)
      case Canceled(reason) => Answer(CODE_CANCELED, reason)
    }

    function Settled(st: State, now: Time): Job {
      this.(state := st, finished := Some(now))
    }
  }

  datatype WorkItem = WorkItem(id: Id, talk: Talk, prompt: Option<string>, deadline: Time)

  datatype Running = Running(id: Id, conn: Option<Socket>)

  datatype Inner = Inner(jobs: map<Id, Job>, queue: seq<Id>, running: Option<Running>)

  const EMPTY_STORE := Inner(map[], [], None)

  /** What the backend made of a work item: a raw reply, or the reason of its failure. */
  type Outcome = Result<string, string>

  // ------------------------------------------------------------------ reading the state

  predicate PendingAt(s: Inner, id: Id) {
    id in s.jobs && s.jobs[id].IsPending()
  }

  predicate IsRunning(s: Inner, id: Id) {
    s.running.Some? && s.running.value.id == id
  }

  /** `duration_since`, which saturates at zero. */
  function Elapsed(now: Time, since: Time): nat {
    if now >= since then now - since else 0
  }

  predicate Expired(l: Limits, job: Job, now: Time) {
    job.finished.Some? && Elapsed(now, job.finished.value) >= l.ttl
  }

  function Overdue(s: Inner, now: Time): set<Id> {
    set id | id in s.jobs && PendingAt(s, id) && now >= s.jobs[id].deadline
  }

  /** The PENDING jobs that a new job of this NPC and scope supersedes. */
  function Victims(s: Inner, npc: nat, scope: string): set<Id> {
    set id | id in s.jobs && PendingAt(s, id) && s.jobs[id].talk.npc == npc && s.jobs[id].scope == scope
  }

  function Item(id: Id, job: Job): WorkItem {
    WorkItem(id, job.talk, job.prompt, job.deadline)
  }

  // ------------------------------------------------------------------ settling jobs

  ghost predicate AllPending(s: Inner, ids: set<Id>) {
    forall id :: id in ids ==> PendingAt(s, id)
  }

  /** All of `ids` leave PENDING for `st` at once: off the queue, and a running one loses its socket. */
  function Settle(s: Inner, ids: set<Id>, st: State, now: Time): Inner {
    Inner(
      map id | id in s.jobs :: if id in ids then s.jobs[id].Settled(st, now) else s.jobs[id],
      Without(s.queue, ids),
      if s.running.Some? && s.running.value.id in ids then Some(Running(s.running.value.id, None)) else s.running)
  }

  /** The socket that settling `ids` hands out for shutdown. */
  function KillOf(s: Inner, ids: set<Id>): (kill: seq<Socket>)
    ensures |kill| <= 1
  {
    if s.running.Some? && s.running.value.id in ids then ToSeq(s.running.value.conn) else []
  }

  /** Settling two groups in turn is settling both at once, so the order of a sweep does not matter. */
  lemma SettleTwice(s: Inner, a: set<Id>, b: set<Id>, st: State, now: Time)
    requires a !! b
    ensures Settle(Settle(s, a, st, now), b, st, now) == Settle(s, a + b, st, now)
    ensures KillOf(s, a) + KillOf(Settle(s, a, st, now), b) == KillOf(s, a + b)
  {
    WithoutTwice(s.queue, a, b);
  }

  lemma SettleNothing(s: Inner, st: State, now: Time)
    ensures Settle(s, {}, st, now) == s
  {
    WithoutNothing(s.queue, {});
  }

  // ------------------------------------------------------------------ the accesses

  /** `sweep`: overdue jobs fail, then expired ones go. */
  function Sweep(l: Limits, s: Inner, now: Time): Inner {
    var t := Settle(s, Overdue(s, now), Failed(REASON_TIMEOUT), now);
    t.(jobs := map id | id in t.jobs && !Expired(l, t.jobs[id], now) :: t.jobs[id])
  }

  function SweepKill(s: Inner, now: Time): seq<Socket> {
    KillOf(s, Overdue(s, now))
  }

  const UNKNOWN_ANSWER := Answer(CODE_UNKNOWN_JOB, REASON_UNKNOWN_JOB)
  const CONFLICT_ANSWER := Answer(CODE_BAD_REQUEST, REASON_CONFLICT)
  const BUSY_ANSWER := Answer(CODE_BUSY, REASON_BUSY)
  const PENDING_ANSWER := Answer(CODE_PENDING, REASON_PENDING)
  const CANCELED_ANSWER := Answer(CODE_CANCELED, REASON_CANCELED)

  function AnswerFor(s: Inner, id: Id): Answer {
    if id in s.jobs then s.jobs[id].Reply() else UNKNOWN_ANSWER
  }

  predicate HasTerminal(jobs: map<Id, Job>) {
    exists id :: id in jobs && jobs[id].finished.Some?
  }

  predicate IsBusy(l: Limits, s: Inner, npc: nat, scope: string) {
    var victims := Victims(s, npc, scope);
    || |Without(s.queue, victims)| >= l.queueLen
    || (|s.jobs| >= l.maxJobs && victims == {} && !HasTerminal(s.jobs))
  }

  /** No later in the order of eviction: finished first, ties by id. */
  predicate NoLater(jobs: map<Id, Job>, a: Id, b: Id)
    requires a in jobs && jobs[a].finished.Some? && b in jobs && jobs[b].finished.Some?
  {
    var fa, fb := jobs[a].finished.value, jobs[b].finished.value;
    fa < fb || (fa == fb && a <= b)
  }

  ghost predicate IsOldest(jobs: map<Id, Job>, id: Id) {
    && id in jobs && jobs[id].finished.Some?
    && forall other :: other in jobs && jobs[other].finished.Some? ==> NoLater(jobs, id, other)
  }

  lemma {:induction false} OldestExists(jobs: map<Id, Job>)
    requires HasTerminal(jobs)
    ensures exists id :: IsOldest(jobs, id)
    decreases |jobs|
  {
    var x :| x in jobs && jobs[x].finished.Some?;
    var rest := jobs - {x};
    if HasTerminal(rest) {
      OldestExists(rest);
      var y :| IsOldest(rest, y);
      if NoLater(jobs, x, y) {
        assert IsOldest(jobs, x) by {
          forall o | o in jobs && jobs[o].finished.Some? ensures NoLater(jobs, x, o) {
            if o != x {
              assert o in rest && NoLater(rest, y, o);
            }
          }
        }
      } else {
        assert IsOldest(jobs, y) by {
          forall o | o in jobs && jobs[o].finished.Some? ensures NoLater(jobs, y, o) {
            if o != x {
              assert o in rest && NoLater(rest, y, o);
            }
          }
        }
      }
    } else {
      assert forall o :: o in rest ==> rest[o].finished.None?;
      assert forall o :: o in jobs ==> o == x || o in rest;
      assert IsOldest(jobs, x);
    }
  }

  /** The terminal job that finished first. */
  ghost function Oldest(jobs: map<Id, Job>): (id: Id)
    requires HasTerminal(jobs)
    ensures IsOldest(jobs, id)
  {
    OldestExists(jobs);
    var id :| IsOldest(jobs, id);
    id
  }

  lemma OldestIsUnique(jobs: map<Id, Job>, id: Id)
    requires IsOldest(jobs, id)
    ensures HasTerminal(jobs) && Oldest(jobs) == id
  {
  }

  function NewJob(l: Limits, talk: Talk, prompt: Option<string>, scope: string, now: Time): Job {
    Job(talk, prompt, scope, Pending, now, now + l.deadline, None)
  }

  /** The store after the victims are superseded and, if it is still full, one job is evicted. */
  ghost function MakeRoom(l: Limits, s: Inner, npc: nat, scope: string, now: Time): Inner {
    var t := Settle(s, Victims(s, npc, scope), Canceled(REASON_SUPERSEDED), now);
    if |t.jobs| >= l.maxJobs && HasTerminal(t.jobs) then t.(jobs := t.jobs - {Oldest(t.jobs)}) else t
  }

  /** `admit` when it is not busy. */
  ghost function Admit(l: Limits, s: Inner, id: Id, talk: Talk, prompt: Option<string>, scope: string,
      now: Time): Inner {
    var t := MakeRoom(l, s, talk.npc, scope, now);
    Inner(t.jobs[id := NewJob(l, talk, prompt, scope, now)], t.queue + [id], t.running)
  }

  /** `talk` queues a new job: the id is free after the sweep and there is room. */
  predicate Admits(l: Limits, s: Inner, id: Id, talk: Talk, scope: string, now: Time) {
    var t := Sweep(l, s, now);
    id !in t.jobs && !IsBusy(l, t, talk.npc, scope)
  }

  ghost function TalkTo(l: Limits, s: Inner, id: Id, talk: Talk, prompt: Option<string>, scope: string,
      now: Time): Inner {
    var t := Sweep(l, s, now);
    if Admits(l, s, id, talk, scope, now) then Admit(l, t, id, talk, prompt, scope, now) else t
  }

  function TalkAnswer(l: Limits, s: Inner, id: Id, talk: Talk, scope: string, now: Time): Answer {
    var t := Sweep(l, s, now);
    if id in t.jobs then (if t.jobs[id].talk == talk then t.jobs[id].Reply() else CONFLICT_ANSWER)
    else if IsBusy(l, t, talk.npc, scope) then BUSY_ANSWER
    else PENDING_ANSWER
  }

  function TalkKill(l: Limits, s: Inner, id: Id, talk: Talk, scope: string, now: Time): seq<Socket> {
    var t := Sweep(l, s, now);
    SweepKill(s, now) + if Admits(l, s, id, talk, scope, now) then KillOf(t, Victims(t, talk.npc, scope)) else []
  }

  function CancelKill(l: Limits, s: Inner, id: Id, now: Time): seq<Socket> {
    var t := Sweep(l, s, now);
    SweepKill(s, now) + if PendingAt(t, id) then KillOf(t, {id}) else []
  }

  /** `next_job`: how many jobs at the head of the queue are overdue. */
  function LeadingOverdue(s: Inner, q: seq<Id>, now: Time): (k: nat)
    requires forall x :: x in q ==> x in s.jobs
    ensures k <= |q|
    ensures forall i :: 0 <= i < k ==> now >= s.jobs[q[i]].deadline
    ensures k < |q| ==> now < s.jobs[q[k]].deadline
  {
    if q == [] || now < s.jobs[q[0]].deadline then 0 else 1 + LeadingOverdue(s, q[1..], now)
  }

  function Elements(q: seq<Id>): set<Id> {
    set x | x in q
  }

  /** One pass of the worker over the queue: overdue heads fail, the first job in time is taken. */
  function Poll(s: Inner, now: Time): (Inner, Option<WorkItem>)
    requires forall x :: x in s.queue ==> x in s.jobs
  {
    var k := LeadingOverdue(s, s.queue, now);
    var t := Settle(s, Elements(s.queue[..k]), Failed(REASON_TIMEOUT), now);
    if k == |s.queue| then (t, None)
    else
      var id := s.queue[k];
      (Inner(t.jobs, s.queue[k + 1..], Some(Running(id, None))), Some(Item(id, s.jobs[id])))
  }

  /** `attach`. A failed clone registers nothing. */
  function Attach(s: Inner, id: Id, clone: Option<Socket>): (Inner, bool) {
    if IsRunning(s, id) && PendingAt(s, id) then
      (if clone.Some? then s.(running := Some(Running(id, clone))) else s, true)
    else (s, false)
  }

  /** The state a finished run leads to, decided before the lock is taken. */
  function Decide(outcome: Outcome): State {
    match outcome
    case Err(reason) => Failed(reason)
    case Ok(raw) =>
      match Sanitize.SanitizeText(raw)
      case Ok(_) => Ready(raw)
      case Err(reason) => Failed(reason)
  }

  /** `settle`: a job that already left PENDING, or is gone, stays as it is. */
  function SettleIfPending(s: Inner, id: Id, st: State, now: Time): Inner {
    if PendingAt(s, id) then Settle(s, {id}, st, now) else s
  }

  /** `finish`: the running slot is cleared before the sweep. */
  function Finish(l: Limits, s: Inner, id: Id, outcome: Outcome, now: Time): Inner {
    SettleIfPending(Sweep(l, s.(running := None), now), id, Decide(outcome), now)
  }

  function Cancel(l: Limits, s: Inner, id: Id, now: Time): Inner {
    SettleIfPending(Sweep(l, s, now), id, Canceled(REASON_CANCELED), now)
  }

  // ------------------------------------------------------------------ the invariant

  ghost predicate QueueOk(s: Inner) {
    NoDuplicates(s.queue) && forall id :: id in s.queue ==> PendingAt(s, id)
  }

  ghost predicate JobOk(l: Limits, job: Job) {
    && (job.finished.Some? <==> !job.IsPending())
    && job.deadline == job.created + l.deadline
    && (job.state.Ready? ==> Sanitize.SanitizeText(job.state.raw).Ok? && job.finished.value < job.deadline)
  }

  ghost predicate JobsOk(l: Limits, s: Inner) {
    forall id :: id in s.jobs ==> JobOk(l, s.jobs[id])
  }

  /** Every PENDING job is queued or is the running one. */
  ghost predicate Placed(s: Inner) {
    forall id :: PendingAt(s, id) ==> id in s.queue || IsRunning(s, id)
  }

  predicate SameScope(a: Job, b: Job) {
    a.talk.npc == b.talk.npc && a.scope == b.scope
  }

  ghost predicate OnePerScope(s: Inner) {
    forall a, b :: PendingAt(s, a) && PendingAt(s, b) && SameScope(s.jobs[a], s.jobs[b]) ==> a == b
  }

  ghost predicate WithinCapacity(l: Limits, s: Inner) {
    |s.jobs| <= l.maxJobs && |s.queue| <= l.queueLen
  }

  ghost predicate Valid(l: Limits, s: Inner) {
    QueueOk(s) && JobsOk(l, s) && Placed(s) && OnePerScope(s) && WithinCapacity(l, s)
  }

  /** `queue` and `running` name different jobs: the part of the invariant that reusing an id can break. */
  ghost predicate Disjoint(s: Inner) {
    s.running.Some? ==> s.running.value.id !in s.queue
  }

  lemma SettleValid(l: Limits, s: Inner, ids: set<Id>, st: State, now: Time)
    requires Valid(l, s) && AllPending(s, ids)
    requires !st.Pending?
    requires st.Ready? ==> Sanitize.SanitizeText(st.raw).Ok? && forall id :: id in ids ==> now < s.jobs[id].deadline
    ensures Valid(l, Settle(s, ids, st, now))
    ensures |Settle(s, ids, st, now).jobs| == |s.jobs|
    ensures Disjoint(s) ==> Disjoint(Settle(s, ids, st, now))
  {
    var t := Settle(s, ids, st, now);
    WithoutKeepsDistinct(s.queue, ids);
    assert t.jobs.Keys == s.jobs.Keys;
    assert |t.jobs| == |t.jobs.Keys| && |s.jobs| == |s.jobs.Keys|;
    forall id | PendingAt(t, id) ensures PendingAt(s, id) && id !in ids && t.jobs[id] == s.jobs[id] {
    }
  }

  lemma RemoveTerminalValid(l: Limits, s: Inner, kept: map<Id, Job>)
    requires Valid(l, s)
    requires kept.Keys <= s.jobs.Keys && forall id :: id in kept ==> kept[id] == s.jobs[id]
    requires forall id :: PendingAt(s, id) ==> id in kept
    ensures Valid(l, s.(jobs := kept)) && |kept| <= |s.jobs|
  {
    SubsetSize(kept.Keys, s.jobs.Keys);
    assert |kept| == |kept.Keys| && |s.jobs| == |s.jobs.Keys|;
    var t := s.(jobs := kept);
    forall id | PendingAt(t, id) ensures PendingAt(s, id) {
    }
  }

  lemma {:induction false} SubsetSize<T>(a: set<T>, b: set<T>)
    requires a <= b
    ensures |a| <= |b|
    decreases a
  {
    if a != {} {
      var x :| x in a;
      SubsetSize(a - {x}, b - {x});
    }
  }

  lemma SweepPending(l: Limits, s: Inner, now: Time)
    requires JobsOk(l, s)
    ensures forall id :: PendingAt(Sweep(l, s, now), id) <==> PendingAt(s, id) && now < s.jobs[id].deadline
    ensures forall id :: PendingAt(Sweep(l, s, now), id) ==> Sweep(l, s, now).jobs[id] == s.jobs[id]
  {
  }

  /**
   * A terminal job stays for the whole of a positive time to live and goes at the first sweep after it; a
   * clock that went back keeps it longer. A job that this sweep times out counts from now.
   */
  lemma SweepKeepsUntilTtl(l: Limits, s: Inner, now: Time, id: Id)
    requires JobsOk(l, s)
    ensures id in Sweep(l, s, now).jobs <==>
      && id in s.jobs
      && (|| (PendingAt(s, id) && now < s.jobs[id].deadline)
          || (l.ttl > 0 && (PendingAt(s, id) || now < s.jobs[id].finished.value + l.ttl)))
  {
    if id in s.jobs {
      assert JobOk(l, s.jobs[id]);
    }
  }

  lemma SweepValid(l: Limits, s: Inner, now: Time)
    requires Valid(l, s)
    ensures Valid(l, Sweep(l, s, now)) && |Sweep(l, s, now).jobs| <= |s.jobs|
    ensures Disjoint(s) ==> Disjoint(Sweep(l, s, now))
  {
    var t := Settle(s, Overdue(s, now), Failed(REASON_TIMEOUT), now);
    SettleValid(l, s, Overdue(s, now), Failed(REASON_TIMEOUT), now);
    SweepPending(l, s, now);
    RemoveTerminalValid(l, t, Sweep(l, s, now).jobs);
  }

  lemma CancelValid(l: Limits, s: Inner, id: Id, now: Time)
    requires Valid(l, s)
    ensures Valid(l, Cancel(l, s, id, now))
    ensures Disjoint(s) ==> Disjoint(Cancel(l, s, id, now))
  {
    SweepValid(l, s, now);
    if PendingAt(Sweep(l, s, now), id) {
      SettleValid(l, Sweep(l, s, now), {id}, Canceled(REASON_CANCELED), now);
    }
  }

  lemma EvictValid(l: Limits, t: Inner)
    requires Valid(l, t) && HasTerminal(t.jobs)
    ensures var u := t.(jobs := t.jobs - {Oldest(t.jobs)});
      Valid(l, u) && |u.jobs| == |t.jobs| - 1 && (forall id :: PendingAt(u, id) <==> PendingAt(t, id))
  {
    var oldest := Oldest(t.jobs);
    assert JobOk(l, t.jobs[oldest]) && !PendingAt(t, oldest);
    var kept := t.jobs - {oldest};
    assert kept.Keys == t.jobs.Keys - {oldest};
    assert |kept| == |kept.Keys| && |t.jobs| == |t.jobs.Keys|;
    RemoveTerminalValid(l, t, kept);
  }

  /** Whenever an admission goes ahead, there is a job to evict if one must go. */
  lemma EvictableAfterSettling(l: Limits, s: Inner, npc: nat, scope: string, now: Time)
    requires Valid(l, s) && !IsBusy(l, s, npc, scope) && |s.jobs| >= l.maxJobs
    ensures HasTerminal(Settle(s, Victims(s, npc, scope), Canceled(REASON_SUPERSEDED), now).jobs)
  {
    var victims := Victims(s, npc, scope);
    var t := Settle(s, victims, Canceled(REASON_SUPERSEDED), now);
    if victims != {} {
      var v :| v in victims;
      assert t.jobs[v].finished.Some?;
    } else {
      var v :| v in s.jobs && s.jobs[v].finished.Some?;
      assert t.jobs[v].finished.Some?;
    }
  }

  /** Making room evicts nothing, or the oldest terminal job of a full store: the loop runs at most once. */
  lemma MakeRoomValid(l: Limits, s: Inner, npc: nat, scope: string, now: Time)
    requires Valid(l, s) && !IsBusy(l, s, npc, scope)
    ensures var u := MakeRoom(l, s, npc, scope, now);
      && Valid(l, u) && |u.jobs| < l.maxJobs && |u.queue| < l.queueLen
      && Victims(u, npc, scope) == {}
      && (Disjoint(s) ==> Disjoint(u))
    ensures var t := Settle(s, Victims(s, npc, scope), Canceled(REASON_SUPERSEDED), now);
      var u := MakeRoom(l, s, npc, scope, now);
      && (|s.jobs| < l.maxJobs ==> u == t)
      && (|s.jobs| == l.maxJobs ==> HasTerminal(t.jobs) && u == t.(jobs := t.jobs - {Oldest(t.jobs)}))
  {
    var t := Settle(s, Victims(s, npc, scope), Canceled(REASON_SUPERSEDED), now);
    SettleValid(l, s, Victims(s, npc, scope), Canceled(REASON_SUPERSEDED), now);
    assert forall id :: PendingAt(t, id) ==> PendingAt(s, id) && id !in Victims(s, npc, scope);
    if |t.jobs| >= l.maxJobs {
      EvictableAfterSettling(l, s, npc, scope, now);
      EvictValid(l, t);
    }
  }

  lemma InsertValid(l: Limits, u: Inner, id: Id, job: Job)
    requires Valid(l, u) && |u.jobs| < l.maxJobs && |u.queue| < l.queueLen
    requires id !in u.jobs && job.IsPending() && JobOk(l, job)
    requires forall a :: PendingAt(u, a) ==> !SameScope(u.jobs[a], job)
    ensures Valid(l, Inner(u.jobs[id := job], u.queue + [id], u.running))
    ensures Disjoint(u) ==> (Disjoint(Inner(u.jobs[id := job], u.queue + [id], u.running)) <==> !IsRunning(u, id))
  {
    var t := Inner(u.jobs[id := job], u.queue + [id], u.running);
    assert |t.jobs| == |u.jobs| + 1 by {
      assert t.jobs.Keys == u.jobs.Keys + {id};
      assert |t.jobs| == |t.jobs.Keys| && |u.jobs| == |u.jobs.Keys|;
    }
    InsertQueueOk(u, id, job);
    assert JobsOk(l, t) && Placed(t) && OnePerScope(t) by {
      hide NoDuplicates, JobOk;
      assert forall a :: PendingAt(t, a) ==> a == id || (PendingAt(u, a) && t.jobs[a] == u.jobs[a]);
    }
  }

  lemma InsertQueueOk(u: Inner, id: Id, job: Job)
    requires QueueOk(u) && id !in u.jobs && job.IsPending()
    ensures QueueOk(Inner(u.jobs[id := job], u.queue + [id], u.running))
    ensures forall a :: a in u.queue + [id] <==> a in u.queue || a == id
  {
    assert id !in u.queue;
  }

  lemma AdmitValid(l: Limits, s: Inner, id: Id, talk: Talk, prompt: Option<string>, scope: string, now: Time)
    requires Valid(l, s) && id !in s.jobs && !IsBusy(l, s, talk.npc, scope)
    ensures Valid(l, Admit(l, s, id, talk, prompt, scope, now))
    ensures Disjoint(s) ==> (Disjoint(Admit(l, s, id, talk, prompt, scope, now)) <==> !IsRunning(s, id))
  {
    var u := MakeRoom(l, s, talk.npc, scope, now);
    MakeRoomValid(l, s, talk.npc, scope, now);
    var job := NewJob(l, talk, prompt, scope, now);
    forall a | PendingAt(u, a) ensures !SameScope(u.jobs[a], job) {
      assert a !in Victims(u, talk.npc, scope);
    }
    InsertValid(l, u, id, job);
  }

  lemma PopValid(l: Limits, t: Inner)
    requires Valid(l, t) && t.queue != [] && t.running.None?
    ensures Valid(l, Inner(t.jobs, t.queue[1..], Some(Running(t.queue[0], None))))
    ensures Disjoint(Inner(t.jobs, t.queue[1..], Some(Running(t.queue[0], None))))
  {
    var u := Inner(t.jobs, t.queue[1..], Some(Running(t.queue[0], None)));
    assert t.queue[0] !in u.queue;
    assert forall a :: a in t.queue <==> a == t.queue[0] || a in u.queue;
  }

  lemma PollSplits(l: Limits, s: Inner, now: Time) returns (k: nat, t: Inner)
    requires Valid(l, s) && s.running.None?
    ensures k == LeadingOverdue(s, s.queue, now)
    ensures t == Settle(s, Elements(s.queue[..k]), Failed(REASON_TIMEOUT), now)
    ensures Valid(l, t) && t.queue == s.queue[k..] && t.running.None?
  {
    k := LeadingOverdue(s, s.queue, now);
    var gone := Elements(s.queue[..k]);
    t := Settle(s, gone, Failed(REASON_TIMEOUT), now);
    SettleValid(l, s, gone, Failed(REASON_TIMEOUT), now);
    WithoutPrefix(s.queue, k, gone);
  }

  lemma PollValid(l: Limits, s: Inner, now: Time)
    requires Valid(l, s) && s.running.None?
    ensures Valid(l, Poll(s, now).0) && Disjoint(Poll(s, now).0)
    ensures Poll(s, now).1.None? ==> Poll(s, now).0.queue == [] && Poll(s, now).0.running.None?
  {
    var k, t := PollSplits(l, s, now);
    if k < |s.queue| {
      assert t.queue[0] == s.queue[k] && t.queue[1..] == s.queue[k + 1..];
      PopValid(l, t);
    }
  }

  lemma AttachValid(l: Limits, s: Inner, id: Id, clone: Option<Socket>)
    requires Valid(l, s)
    ensures Valid(l, Attach(s, id, clone).0)
    ensures Disjoint(s) ==> Disjoint(Attach(s, id, clone).0)
  {
  }

  lemma ClearRunningValid(l: Limits, t: Inner)
    requires Valid(l, t) && (t.running.Some? ==> !PendingAt(t, t.running.value.id))
    ensures Valid(l, t.(running := None))
  {
  }

  /** The slot is cleared first, so the sweep inside `finish` never has a socket to hand out. */
  lemma FinishIsSweepSettleClear(l: Limits, s: Inner, id: Id, outcome: Outcome, now: Time)
    requires IsRunning(s, id)
    ensures Finish(l, s, id, outcome, now)
         == SettleIfPending(Sweep(l, s, now), id, Decide(outcome), now).(running := None)
    ensures SweepKill(s.(running := None), now) == []
  {
    assert Overdue(s.(running := None), now) == Overdue(s, now);
    assert Sweep(l, s.(running := None), now) == Sweep(l, s, now).(running := None);
  }

  lemma SettleOutcomeValid(l: Limits, t: Inner, id: Id, outcome: Outcome, now: Time)
    requires Valid(l, t) && (PendingAt(t, id) ==> now < t.jobs[id].deadline)
    ensures Valid(l, SettleIfPending(t, id, Decide(outcome), now))
    ensures !PendingAt(SettleIfPending(t, id, Decide(outcome), now), id)
    ensures IsRunning(t, id) ==> IsRunning(SettleIfPending(t, id, Decide(outcome), now), id)
  {
    if PendingAt(t, id) {
      SettleValid(l, t, {id}, Decide(outcome), now);
    }
  }

  lemma FinishValid(l: Limits, s: Inner, id: Id, outcome: Outcome, now: Time)
    requires Valid(l, s) && IsRunning(s, id)
    ensures Valid(l, Finish(l, s, id, outcome, now)) && Disjoint(Finish(l, s, id, outcome, now))
  {
    FinishIsSweepSettleClear(l, s, id, outcome, now);
    SweepValid(l, s, now);
    SweepPending(l, s, now);
    var t := Sweep(l, s, now);
    SettleOutcomeValid(l, t, id, outcome, now);
    ClearRunningValid(l, SettleIfPending(t, id, Decide(outcome), now));
  }
}
