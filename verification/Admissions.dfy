/**
 * Which admission is which (`jobs.rs`): an id can be admitted again and again, so a run is followed by a
 * record that numbers the admissions. It shows first in, first out, and whose outcome settles whose job.
 */
module Admissions {
  import opened Prelude
  import opened Jobs
  import opened Runs
  import opened Answers
  import Order
  import Race

  /** An admission: the id, and the job as it was queued. */
  datatype Admission = Admission(id: Id, job: Job)

  /** The worker took the job of an admission. */
  datatype Taking = Taking(index: nat, item: WorkItem)

  /** The backend made `raw` of the job of an admission. */
  datatype Made = Made(index: nat, raw: string)

  /**
   * The record of a run: all admissions, the latest one of each id, the one whose job the worker has in
   * hand, whether that id was admitted again since, what was taken and what was made.
   */
  datatype Record = Record(admitted: seq<Admission>, latest: map<Id, nat>, held: nat, reused: bool,
                           taken: seq<Taking>, made: seq<Made>)

  const BLANK := Record([], map[], 0, false, [], [])

  function LatestOf(h: Record, id: Id): nat {
    if id in h.latest then h.latest[id] else 0
  }

  function NextRecord(l: Limits, s: Sys, h: Record, step: Step): Record
    requires Enabled(s, step) && QueueOk(s.inner)
  {
    match step
    case DoTalk(id, talk, prompt, scope, now) =>
      if !AdmitsJob(l, s, step) then h
      else h.(
        admitted := h.admitted + [Admission(id, NewJob(l, talk, prompt, scope, now))],
        latest := h.latest[id := |h.admitted|],
        reused := h.reused || IsRunning(s.inner, id))
    case DoPoll(now) =>
      (match Poll(s.inner, now).1
       case None => h
       case Some(item) =>
         h.(held := LatestOf(h, item.id), reused := false, taken := h.taken + [Taking(LatestOf(h, item.id), item)]))
    case DoFinish(outcome, _) => if outcome.Ok? then h.(made := h.made + [Made(h.held, outcome.value)]) else h
    case _ => h
  }

  // ------------------------------------------------------------------ the record agrees with the store

  ghost predicate LatestOk(h: Record) {
    forall id :: id in h.latest ==> h.latest[id] < |h.admitted| && h.admitted[h.latest[id]].id == id
  }

  /** The job of an admission, whatever became of it. */
  ghost predicate SameRequest(a: Job, b: Job) {
    a == b.(state := a.state, finished := a.finished)
  }

  /** A job in the store is that of the latest admission of its id. */
  ghost predicate JobsAdmitted(h: Record, s: Inner) {
    forall id :: id in s.jobs ==>
      && id in h.latest && h.latest[id] < |h.admitted|
      && SameRequest(s.jobs[id], h.admitted[h.latest[id]].job)
  }

  /** The work item is what its admission asked; another admission of its id has come since exactly if `reused`. */
  ghost predicate HeldOk(h: Record, w: Worker) {
    w.Working? ==>
      && h.held < |h.admitted| && w.item == Item(h.admitted[h.held].id, h.admitted[h.held].job)
      && w.item.id in h.latest && h.held <= h.latest[w.item.id] && (h.reused <==> h.held < h.latest[w.item.id])
  }

  ghost predicate Increasing(q: seq<Id>, latest: map<Id, nat>) {
    && (forall i :: 0 <= i < |q| ==> q[i] in latest)
    && (forall i, j :: 0 <= i < j < |q| ==> latest[q[i]] < latest[q[j]])
  }

  ghost predicate Before(taken: seq<Taking>, q: seq<Id>, latest: map<Id, nat>) {
    forall i, id :: 0 <= i < |taken| && id in q && id in latest ==> taken[i].index < latest[id]
  }

  ghost predicate TakenOk(h: Record) {
    && (forall i :: 0 <= i < |h.taken| ==>
          && h.taken[i].index < |h.admitted|
          && h.taken[i].item == Item(h.admitted[h.taken[i].index].id, h.admitted[h.taken[i].index].job))
    && (forall i, j :: 0 <= i < j < |h.taken| ==> h.taken[i].index < h.taken[j].index)
  }

  /** Jobs are taken, and wait, in the order of their admissions. */
  ghost predicate InOrder(h: Record, s: Inner) {
    TakenOk(h) && Increasing(s.queue, h.latest) && Before(h.taken, s.queue, h.latest)
  }

  /** Nothing was made yet of a job that is PENDING. */
  ghost predicate MadeOk(h: Record, s: Inner) {
    && (forall k :: 0 <= k < |h.made| ==> h.made[k].index < |h.admitted|)
    && (forall k, id :: 0 <= k < |h.made| && PendingAt(s, id) && id in h.latest ==> h.made[k].index != h.latest[id])
  }

  ghost predicate Agrees(h: Record, s: Sys) {
    LatestOk(h) && JobsAdmitted(h, s.inner) && HeldOk(h, s.worker) && InOrder(h, s.inner) && MadeOk(h, s.inner)
  }

  // ------------------------------------------------------------------ every step keeps the agreement

  lemma {:induction false} IncreasingPart(a: seq<Id>, b: seq<Id>, latest: map<Id, nat>)
    requires Subsequence(a, b) && Increasing(b, latest)
    ensures Increasing(a, latest)
    decreases |b|
  {
    if a != [] {
      var rest := b[1..];
      assert forall i :: 0 <= i < |rest| ==> rest[i] == b[i + 1];
      if a[0] == b[0] && Subsequence(a[1..], rest) {
        IncreasingPart(a[1..], rest, latest);
        forall j | 0 < j < |a| ensures latest[a[0]] < latest[a[j]] {
          assert a[j] == a[1..][j - 1];
          SubsequenceMember(a[1..], rest, a[j]);
        }
        assert forall i :: 0 < i < |a| ==> a[i] == a[1..][i - 1];
      } else {
        IncreasingPart(a, rest, latest);
      }
    }
  }

  lemma BeforePart(taken: seq<Taking>, a: seq<Id>, b: seq<Id>, latest: map<Id, nat>)
    requires Subsequence(a, b) && Before(taken, b, latest)
    ensures Before(taken, a, latest)
  {
    forall id | id in a ensures id in b {
      SubsequenceMember(a, b, id);
    }
  }

  /** An admission puts its id behind what is left of the queue, where it was not before. */
  lemma AdmissionQueue(l: Limits, s: Sys, step: Step) returns (kept: seq<Id>)
    requires Inv(l, s) && AdmitsJob(l, s, step)
    ensures Next(l, s, step).inner.queue == kept + [step.id] && Subsequence(kept, s.inner.queue) && step.id !in kept
  {
    var t := Sweep(l, s.inner, step.now);
    SweepValid(l, s.inner, step.now);
    Order.SweepShrinksQueue(l, s.inner, step.id, Pending, step.now);
    var victims := Victims(t, step.talk.npc, step.scope);
    kept := Without(t.queue, victims);
    WithoutIsSubsequence(t.queue, victims);
    SubsequenceTransitive(kept, t.queue, s.inner.queue);
  }

  /** Any other step takes its start and its queue, in order, from the old queue. */
  lemma OtherQueue(l: Limits, s: Sys, step: Step)
    requires Inv(l, s) && Enabled(s, step) && !AdmitsJob(l, s, step)
    ensures Subsequence(Order.StartedBy(s, step) + Next(l, s, step).inner.queue, s.inner.queue)
  {
    Order.StepKeepsOrder(l, s, step);
    assert s.inner.queue + [] == s.inner.queue;
  }

  lemma LatestStays(l: Limits, s: Sys, h: Record, step: Step)
    requires Inv(l, s) && Enabled(s, step) && LatestOk(h)
    ensures LatestOk(NextRecord(l, s, h, step))
  {
    hide Admits, Poll, Valid, Coupled;
    InvQueue(l, s);
  }

  lemma InvQueue(l: Limits, s: Sys)
    requires Inv(l, s)
    ensures QueueOk(s.inner)
  {
  }

  lemma JobsStayAdmitted(l: Limits, s: Sys, h: Record, step: Step)
    requires Inv(l, s) && Enabled(s, step) && JobsAdmitted(h, s.inner)
    ensures JobsAdmitted(NextRecord(l, s, h, step), Next(l, s, step).inner)
  {
    hide Next, Poll, Admits, Explained, Coupled, JobsOk, Placed, OnePerScope, WithinCapacity;
    var t := Next(l, s, step).inner;
    forall id | id in t.jobs
      ensures var after := NextRecord(l, s, h, step);
        id in after.latest && after.latest[id] < |after.admitted|
          && SameRequest(t.jobs[id], after.admitted[after.latest[id]].job)
    {
      JobEvolves(l, s, step, id);
    }
  }

  lemma HeldStays(l: Limits, s: Sys, h: Record, step: Step)
    requires Inv(l, s) && Enabled(s, step) && Agrees(h, s)
    requires JobsAdmitted(NextRecord(l, s, h, step), Next(l, s, step).inner)
    ensures HeldOk(NextRecord(l, s, h, step), Next(l, s, step).worker)
  {
    hide NextInner, Poll, Admits, JobsOk, Placed, OnePerScope, WithinCapacity, InOrder, MadeOk;
    if step.DoPoll? && Next(l, s, step).worker.Working? {
      Race.JobTakenIsPending(l, s, step.now);
    }
  }

  /** A new admission has the largest number so far. */
  lemma AppendAdmission(h: Record, after: Record, kept: seq<Id>, id: Id)
    requires LatestOk(h) && TakenOk(h) && Increasing(kept, h.latest) && Before(h.taken, kept, h.latest) && id !in kept
    requires |after.admitted| == |h.admitted| + 1 && h.admitted <= after.admitted && after.taken == h.taken
    requires after.latest == h.latest[id := |h.admitted|]
    ensures TakenOk(after) && Increasing(kept + [id], after.latest) && Before(after.taken, kept + [id], after.latest)
  {
    forall i | 0 <= i < |kept| ensures kept[i] in h.latest && kept[i] != id && h.latest[kept[i]] < |h.admitted| {
      assert kept[i] in kept;
    }
    forall i | 0 <= i < |h.taken| ensures after.admitted[h.taken[i].index] == h.admitted[h.taken[i].index] {
    }
  }

  /** The job taken is the first of those that are left. */
  lemma TakeFirst(h: Record, after: Record, item: WorkItem, q: seq<Id>)
    requires TakenOk(h) && Increasing([item.id] + q, h.latest) && Before(h.taken, [item.id] + q, h.latest)
    requires item.id in h.latest && h.latest[item.id] < |h.admitted|
    requires item == Item(h.admitted[h.latest[item.id]].id, h.admitted[h.latest[item.id]].job)
    requires after.admitted == h.admitted && after.latest == h.latest
    requires after.taken == h.taken + [Taking(h.latest[item.id], item)]
    ensures TakenOk(after) && Increasing(q, after.latest) && Before(after.taken, q, after.latest)
  {
    var all := [item.id] + q;
    assert all[0] == item.id && all[0] in all;
    assert forall id :: id in q ==> id in all;
    forall i | 0 <= i < |q| ensures q[i] in h.latest && h.latest[item.id] < h.latest[q[i]] {
      assert all[i + 1] == q[i];
    }
    forall i, j | 0 <= i < j < |q| ensures h.latest[q[i]] < h.latest[q[j]] {
      assert all[i + 1] == q[i] && all[j + 1] == q[j];
    }
  }

  /** The item taken is the job of the latest admission of its id. */
  lemma TakenIsAdmitted(l: Limits, s: Sys, h: Record, now: Time)
    requires Inv(l, s) && Enabled(s, DoPoll(now)) && LatestOk(h) && JobsAdmitted(h, s.inner)
      && Poll(s.inner, now).1.Some?
    ensures var item := Poll(s.inner, now).1.value;
      && item.id in h.latest && h.latest[item.id] < |h.admitted| && h.admitted[h.latest[item.id]].id == item.id
      && item == Item(item.id, h.admitted[h.latest[item.id]].job)
  {
    Race.JobTakenIsPending(l, s, now);
    JobsStayAdmitted(l, s, h, DoPoll(now));
  }

  lemma TalkOrder(l: Limits, s: Sys, h: Record, step: Step)
    requires Inv(l, s) && LatestOk(h) && InOrder(h, s.inner) && AdmitsJob(l, s, step)
    ensures InOrder(NextRecord(l, s, h, step), Next(l, s, step).inner)
  {
    hide Next, Admits, Valid, Coupled, TakenOk, Increasing, Before;
    InvQueue(l, s);
    var kept := AdmissionQueue(l, s, step);
    IncreasingPart(kept, s.inner.queue, h.latest);
    BeforePart(h.taken, kept, s.inner.queue, h.latest);
    AppendAdmission(h, NextRecord(l, s, h, step), kept, step.id);
  }

  lemma OtherOrder(l: Limits, s: Sys, h: Record, step: Step)
    requires Inv(l, s) && Enabled(s, step) && LatestOk(h) && JobsAdmitted(h, s.inner) && InOrder(h, s.inner)
    requires !AdmitsJob(l, s, step)
    ensures InOrder(NextRecord(l, s, h, step), Next(l, s, step).inner)
  {
    hide Next, Poll, Admits, Valid, Coupled, TakenOk, Increasing, Before, JobsAdmitted, LatestOk;
    InvQueue(l, s);
    OtherQueue(l, s, step);
    var started, q := Order.StartedBy(s, step), Next(l, s, step).inner.queue;
    IncreasingPart(started + q, s.inner.queue, h.latest);
    BeforePart(h.taken, started + q, s.inner.queue, h.latest);
    if started == [] {
      assert started + q == q;
      TakenStays(h, NextRecord(l, s, h, step));
    } else {
      TakenIsAdmitted(l, s, h, step.now);
      TakeFirst(h, NextRecord(l, s, h, step), Poll(s.inner, step.now).1.value, q);
    }
  }

  lemma TakenStays(h: Record, after: Record)
    requires TakenOk(h) && after.admitted == h.admitted && after.taken == h.taken
    ensures TakenOk(after)
  {
  }

  lemma MadeStays(l: Limits, s: Sys, h: Record, step: Step)
    requires Inv(l, s) && Enabled(s, step) && LatestOk(h) && HeldOk(h, s.worker) && MadeOk(h, s.inner)
    ensures MadeOk(NextRecord(l, s, h, step), Next(l, s, step).inner)
  {
    hide NextInner, Poll, Admits, Explained, Coupled, JobsOk, Placed, OnePerScope, WithinCapacity;
    var t, after := Next(l, s, step).inner, NextRecord(l, s, h, step);
    forall k, id | 0 <= k < |after.made| && PendingAt(t, id) && id in after.latest
      ensures after.made[k].index != after.latest[id]
    {
      JobEvolves(l, s, step, id);
      if step.DoFinish? {
        FinishedIsSettled(l, s, step);
      }
    }
  }

  lemma FinishedIsSettled(l: Limits, s: Sys, step: Step)
    requires Inv(l, s) && Enabled(s, step) && step.DoFinish?
    ensures !PendingAt(Next(l, s, step).inner, s.worker.item.id)
  {
  }

  lemma AgreementStays(l: Limits, s: Sys, h: Record, step: Step)
    requires Inv(l, s) && Enabled(s, step) && Agrees(h, s)
    ensures Agrees(NextRecord(l, s, h, step), Next(l, s, step))
  {
    hide LatestOk, JobsAdmitted, HeldOk, InOrder, MadeOk, Coupled, Next, NextRecord;
    LatestStays(l, s, h, step);
    JobsStayAdmitted(l, s, h, step);
    HeldStays(l, s, h, step);
    if AdmitsJob(l, s, step) {
      TalkOrder(l, s, h, step);
    } else {
      OtherOrder(l, s, h, step);
    }
    MadeStays(l, s, h, step);
  }

  // ------------------------------------------------------------------ over whole runs

  ghost function RecordAfter(l: Limits, s: Sys, h: Record, steps: seq<Step>): Record
    requires Inv(l, s) && Legal(l, s, steps)
    decreases |steps|
  {
    if steps == [] then h
    else NextKeepsInv(l, s, steps[0]); RecordAfter(l, Next(l, s, steps[0]), NextRecord(l, s, h, steps[0]), steps[1..])
  }

  lemma {:induction false} AgreesAfter(l: Limits, s: Sys, h: Record, steps: seq<Step>)
    requires Inv(l, s) && Legal(l, s, steps) && Agrees(h, s)
    ensures Agrees(RecordAfter(l, s, h, steps), Exec(l, s, steps))
    decreases |steps|
  {
    hide Valid, Coupled, Agrees, Next, NextRecord;
    if steps != [] {
      NextKeepsInv(l, s, steps[0]);
      AgreementStays(l, s, h, steps[0]);
      InvQueue(l, s);
      AgreesAfter(l, Next(l, s, steps[0]), NextRecord(l, s, h, steps[0]), steps[1..]);
    }
  }

  /** Some run from the empty store leads to `t`, with the record `h`. */
  ghost predicate ReachedWith(l: Limits, t: Sys, h: Record) {
    StartInv(l);
    exists steps :: Legal(l, START, steps) && t == Exec(l, START, steps) && h == RecordAfter(l, START, BLANK, steps)
  }

  lemma ReachedAgrees(l: Limits, t: Sys, h: Record)
    requires ReachedWith(l, t, h)
    ensures Agrees(h, t)
  {
    StartInv(l);
    hide Inv, Legal, Exec, RecordAfter;
    var steps :| Legal(l, START, steps) && t == Exec(l, START, steps) && h == RecordAfter(l, START, BLANK, steps);
    AgreesAfter(l, START, BLANK, steps);
  }

  /**
   * First in, first out: whatever is cancelled, superseded or timed out, and however often ids are
   * admitted again, the numbers of the admissions whose jobs the worker takes strictly increase, and each
   * work item is what its admission asked.
   */
  lemma StartsInAdmissionOrder(l: Limits, t: Sys, h: Record)
    requires ReachedWith(l, t, h)
    ensures forall i, j :: 0 <= i < j < |h.taken| ==> h.taken[i].index < h.taken[j].index
    ensures forall i :: 0 <= i < |h.taken| ==>
      && h.taken[i].index < |h.admitted|
      && h.taken[i].item == Item(h.admitted[h.taken[i].index].id, h.admitted[h.taken[i].index].job)
  {
    ReachedAgrees(l, t, h);
  }

  /** What waits in the queue waits in the order of admission, behind everything that was taken. */
  lemma QueueIsInAdmissionOrder(l: Limits, t: Sys, h: Record)
    requires ReachedWith(l, t, h)
    ensures forall id :: id in t.inner.queue ==> id in h.latest
    ensures var q := t.inner.queue;
      && (forall i, j :: 0 <= i < j < |q| ==> h.latest[q[i]] < h.latest[q[j]])
      && (forall i, j :: 0 <= i < |h.taken| && 0 <= j < |q| ==> h.taken[i].index < h.latest[q[j]])
  {
    ReachedAgrees(l, t, h);
  }
}
