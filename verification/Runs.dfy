/**
 * Runs of the job server (`jobs.rs`): handlers and the worker in any interleaving, one critical
 * section a step, each with its own clock reading. Nothing is assumed of the readings.
 */
module Runs {
  import opened Prelude
  import opened Protocol
  import opened Jobs

  /**
   * Where the worker thread is. `Waiting` is inside the condition variable; a notified waiter polls
   * again, and so may one that was not (a spurious wakeup).
   */
  datatype Worker = Polling | Waiting(notified: bool) | Working(item: WorkItem, attached: bool)

  datatype Sys = Sys(inner: Inner, worker: Worker)

  datatype Step =
    | DoTalk(id: Id, talk: Talk, prompt: Option<string>, scope: string, now: Time)
    | DoResult(id: Id, now: Time)
    | DoCancel(id: Id, now: Time)
    | DoPoll(now: Time)
    | DoAttach(clone: Option<Socket>)
    | DoFinish(outcome: Outcome, now: Time)

  const START := Sys(EMPTY_STORE, Polling)

  /** A backend call connects at most once, so it attaches at most once. */
  predicate Enabled(s: Sys, step: Step) {
    match step
    case DoPoll(_) => !s.worker.Working?
    case DoAttach(_) => s.worker.Working? && !s.worker.attached
    case DoFinish(_, _) => s.worker.Working?
    case _ => true
  }

  predicate AdmitsJob(l: Limits, s: Sys, step: Step) {
    step.DoTalk? && Admits(l, s.inner, step.id, step.talk, step.scope, step.now)
  }

  function Notify(w: Worker): Worker {
    if w.Waiting? then Waiting(true) else w
  }

  ghost predicate Inv(l: Limits, s: Sys) {
    Valid(l, s.inner) && Coupled(s)
  }

  /** The worker holds the running slot exactly while it works, and never sleeps on a non-empty queue. */
  ghost predicate Coupled(s: Sys) {
    && (s.inner.running.Some? <==> s.worker.Working?)
    && (s.worker.Working? ==> s.inner.running.value.id == s.worker.item.id)
    && (s.worker.Working? && !s.worker.attached ==> s.inner.running.value.conn.None?)
    && (s.worker == Waiting(false) ==> s.inner.queue == [])
  }

  ghost function NextInner(l: Limits, s: Sys, step: Step): Inner
    requires Inv(l, s) && Enabled(s, step)
  {
    match step
    case DoTalk(id, talk, prompt, scope, now) => TalkTo(l, s.inner, id, talk, prompt, scope, now)
    case DoResult(id, now) => Sweep(l, s.inner, now)
    case DoCancel(id, now) => Cancel(l, s.inner, id, now)
    case DoPoll(now) => Poll(s.inner, now).0
    case DoAttach(clone) => Attach(s.inner, s.worker.item.id, clone).0
    case DoFinish(outcome, now) => Finish(l, s.inner, s.worker.item.id, outcome, now)
  }

  function NextWorker(l: Limits, s: Sys, step: Step): Worker
    requires Enabled(s, step) && QueueOk(s.inner)
  {
    match step
    case DoTalk(_, _, _, _, _) => if AdmitsJob(l, s, step) then Notify(s.worker) else s.worker
    case DoPoll(now) =>
      (match Poll(s.inner, now).1
       case Some(item) => Working(item, false)
       case None => Waiting(false))
    case DoAttach(_) => s.worker.(attached := true)
    case DoFinish(_, _) => Polling
    case _ => s.worker
  }

  ghost function Next(l: Limits, s: Sys, step: Step): Sys
    requires Inv(l, s) && Enabled(s, step)
  {
    Sys(NextInner(l, s, step), NextWorker(l, s, step))
  }

  // ------------------------------------------------------------------ every step keeps the invariant

  lemma TalkValid(l: Limits, s: Inner, id: Id, talk: Talk, prompt: Option<string>, scope: string, now: Time)
    requires Valid(l, s)
    ensures Valid(l, TalkTo(l, s, id, talk, prompt, scope, now))
    ensures Disjoint(s) ==>
      (Disjoint(TalkTo(l, s, id, talk, prompt, scope, now)) <==>
       !(Admits(l, s, id, talk, scope, now) && IsRunning(s, id)))
  {
    SweepValid(l, s, now);
    if Admits(l, s, id, talk, scope, now) {
      AdmitValid(l, Sweep(l, s, now), id, talk, prompt, scope, now);
    }
  }

  lemma InnerStaysValid(l: Limits, s: Sys, step: Step)
    requires Inv(l, s) && Enabled(s, step)
    ensures Valid(l, NextInner(l, s, step))
    ensures Disjoint(s.inner)
      ==> (Disjoint(NextInner(l, s, step)) <==> !(AdmitsJob(l, s, step) && IsRunning(s.inner, step.id)))
  {
    match step
    case DoTalk(id, talk, prompt, scope, now) => TalkValid(l, s.inner, id, talk, prompt, scope, now);
    case DoResult(id, now) => SweepValid(l, s.inner, now);
    case DoCancel(id, now) => CancelValid(l, s.inner, id, now);
    case DoPoll(now) => PollValid(l, s.inner, now);
    case DoAttach(clone) => AttachValid(l, s.inner, s.worker.item.id, clone);
    case DoFinish(outcome, now) => FinishValid(l, s.inner, s.worker.item.id, outcome, now);
  }

  /** What handlers leave of the running slot and of an empty queue. */
  ghost predicate SlotKept(a: Inner, b: Inner) {
    && (a.running.Some? <==> b.running.Some?)
    && (a.running.Some? ==> b.running.value.id == a.running.value.id)
    && (a.running.Some? && a.running.value.conn.None? ==> b.running.value.conn.None?)
    && (a.queue == [] ==> b.queue == [])
  }

  lemma SettleKeepsSlot(s: Inner, ids: set<Id>, st: State, now: Time)
    ensures SlotKept(s, Settle(s, ids, st, now))
  {
  }

  lemma HandlersKeepSlot(l: Limits, s: Inner, id: Id, npc: nat, scope: string, now: Time)
    ensures SlotKept(s, Sweep(l, s, now)) && SlotKept(s, Cancel(l, s, id, now))
      && SlotKept(s, MakeRoom(l, s, npc, scope, now))
  {
    SettleKeepsSlot(s, Overdue(s, now), Failed(REASON_TIMEOUT), now);
    SettleKeepsSlot(Sweep(l, s, now), {id}, Canceled(REASON_CANCELED), now);
    SettleKeepsSlot(s, Victims(s, npc, scope), Canceled(REASON_SUPERSEDED), now);
  }

  lemma TalkKeepsCoupled(l: Limits, s: Sys, step: Step)
    requires Inv(l, s) && step.DoTalk?
    ensures Coupled(Next(l, s, step))
  {
    HandlersKeepSlot(l, s.inner, step.id, step.talk.npc, step.scope, step.now);
    HandlersKeepSlot(l, Sweep(l, s.inner, step.now), step.id, step.talk.npc, step.scope, step.now);
  }

  lemma WorkerKeepsCoupled(l: Limits, s: Sys, step: Step)
    requires Inv(l, s) && Enabled(s, step) && (step.DoPoll? || step.DoAttach? || step.DoFinish?)
    ensures Coupled(Next(l, s, step))
  {
    if step.DoPoll? {
      PollValid(l, s.inner, step.now);
    } else if step.DoFinish? {
      FinishIsSweepSettleClear(l, s.inner, s.worker.item.id, step.outcome, step.now);
    }
  }

  lemma NextKeepsInv(l: Limits, s: Sys, step: Step)
    requires Inv(l, s) && Enabled(s, step)
    ensures Inv(l, Next(l, s, step))
  {
    InnerStaysValid(l, s, step);
    if step.DoTalk? {
      TalkKeepsCoupled(l, s, step);
    } else if step.DoResult? || step.DoCancel? {
      HandlersKeepSlot(l, s.inner, step.id, 0, "", step.now);
    } else {
      WorkerKeepsCoupled(l, s, step);
    }
  }

  lemma StartInv(l: Limits)
    ensures Inv(l, START)
  {
  }

  // ------------------------------------------------------------------ runs

  ghost predicate Legal(l: Limits, s: Sys, steps: seq<Step>)
    requires Inv(l, s)
    decreases |steps|
  {
    if steps == [] then true
    else Enabled(s, steps[0]) && (NextKeepsInv(l, s, steps[0]); Legal(l, Next(l, s, steps[0]), steps[1..]))
  }

  ghost function Exec(l: Limits, s: Sys, steps: seq<Step>): Sys
    requires Inv(l, s) && Legal(l, s, steps)
    decreases |steps|
  {
    if steps == [] then s
    else NextKeepsInv(l, s, steps[0]); Exec(l, Next(l, s, steps[0]), steps[1..])
  }

  /** The invariant holds wherever a run leads. */
  lemma {:induction false} ExecKeepsInv(l: Limits, s: Sys, steps: seq<Step>)
    requires Inv(l, s) && Legal(l, s, steps)
    ensures Inv(l, Exec(l, s, steps))
    decreases |steps|
  {
    hide Valid, Coupled, Enabled, Next;
    if steps != [] {
      NextKeepsInv(l, s, steps[0]);
      ExecKeepsInv(l, Next(l, s, steps[0]), steps[1..]);
    }
  }

  /** A state that some run from the empty store leads to. */
  ghost predicate Reached(l: Limits, t: Sys) {
    StartInv(l);
    exists steps :: Legal(l, START, steps) && t == Exec(l, START, steps)
  }

  lemma ReachedInv(l: Limits, t: Sys)
    requires Reached(l, t)
    ensures Inv(l, t)
  {
    StartInv(l);
    hide Inv, Legal, Exec;
    var steps :| Legal(l, START, steps) && t == Exec(l, START, steps);
    ExecKeepsInv(l, START, steps);
  }
}
