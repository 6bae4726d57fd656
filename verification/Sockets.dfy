/**
 * Whose request a shutdown hits (`jobs.rs`): a cancel or a timeout shuts down the socket that the worker
 * registered, and where an id was admitted again that can be the socket of another admission.
 */
module Sockets {
  import opened Prelude
  import opened Protocol
  import opened Jobs
  import opened Runs
  import opened Admissions
  import opened Race
  import opened Reuse

  /** A socket that the worker registered while it had the job of an admission in hand. */
  datatype Registration = Registration(index: nat, socket: Socket)

  function NextRegistrations(s: Sys, h: Record, regs: seq<Registration>, step: Step): seq<Registration>
    requires Enabled(s, step)
  {
    match RegisteredBy(s, step)
    case None => regs
    case Some(socket) => regs + [Registration(h.held, socket)]
  }

  function SlotSocket(s: Inner): Option<Socket> {
    if s.running.Some? then s.running.value.conn else None
  }

  /** A socket in the slot is the last one registered, by the job in hand, and the job under that id is PENDING. */
  ghost predicate SlotOk(s: Sys, h: Record, regs: seq<Registration>) {
    SlotSocket(s.inner).Some? ==>
      && s.worker.Working? && PendingAt(s.inner, s.worker.item.id)
      && regs != [] && regs[|regs| - 1] == Registration(h.held, SlotSocket(s.inner).value)
  }

  // ------------------------------------------------------------------ every step keeps it

  /** What a step of a handler does to the socket in the slot: it stays with a PENDING job, or goes, handed out. */
  ghost predicate KeepsOrHands(s: Inner, t: Inner, id: Id, kill: seq<Socket>) {
    if SlotSocket(t).Some? then SlotSocket(t) == SlotSocket(s) && kill == [] && PendingAt(t, id)
    else kill == ToSeq(SlotSocket(s))
  }

  lemma HandsKeeps(s: Inner, t: Inner, id: Id, kill: seq<Socket>)
    requires Hands(s, t, id, kill) && Released(s, id)
    ensures KeepsOrHands(s, t, id, kill)
  {
  }

  /** An admission of the running id: its former job is gone, so the slot was empty, or the sweep emptied it. */
  lemma ReuseEmptiesSlot(l: Limits, s: Sys, step: Step)
    requires Inv(l, s) && Reuses(l, s, step) && Released(s.inner, step.id)
    ensures KeepsOrHands(s.inner, Next(l, s, step).inner, step.id, KillBy(l, s, step))
    ensures SlotSocket(Next(l, s, step).inner).None?
  {
    hide Sweep, MakeRoom, IsBusy, Valid, Settle, Victims, Coupled;
    var t := Sweep(l, s.inner, step.now);
    SweepValid(l, s.inner, step.now);
    SweepHands(l, s.inner, step.now, step.id);
    MakeRoomHands(l, t, step.talk.npc, step.scope, step.now, step.id);
  }

  lemma HandlerKeepsSlot(l: Limits, s: Sys, step: Step)
    requires Inv(l, s) && s.worker.Working? && Released(s.inner, s.worker.item.id)
    requires step.DoTalk? || step.DoResult? || step.DoCancel?
    ensures KeepsOrHands(s.inner, Next(l, s, step).inner, s.worker.item.id, KillBy(l, s, step))
  {
    hide Valid, NextInner, KillBy, Hands, KeepsOrHands, Admits;
    if Reuses(l, s, step) {
      ReuseEmptiesSlot(l, s, step);
    } else {
      HandlerHands(l, s, step, s.worker.item.id);
      HandsKeeps(s.inner, Next(l, s, step).inner, s.worker.item.id, KillBy(l, s, step));
    }
  }

  lemma SlotStays(l: Limits, s: Sys, h: Record, regs: seq<Registration>, step: Step)
    requires Inv(l, s) && Enabled(s, step) && SlotOk(s, h, regs)
    ensures SlotOk(Next(l, s, step), NextRecord(l, s, h, step), NextRegistrations(s, h, regs, step))
  {
    hide Valid, TalkTo, Cancel, Sweep, Admits, KillBy;
    InvQueue(l, s);
    match step
    case DoPoll(now) => PollEmptiesSlot(s, now);
    case DoFinish(_, now) => FinishEmptiesSlot(l, s, step);
    case DoAttach(_) =>
    case _ =>
      if s.worker.Working? {
        HandlerKeepsSlot(l, s, step);
      } else {
        NextKeepsInv(l, s, step);
      }
  }

  lemma PollEmptiesSlot(s: Sys, now: Time)
    requires QueueOk(s.inner) && s.inner.running.None?
    ensures SlotSocket(Poll(s.inner, now).0).None?
  {
  }

  lemma FinishEmptiesSlot(l: Limits, s: Sys, step: Step)
    requires Inv(l, s) && Enabled(s, step) && step.DoFinish?
    ensures Next(l, s, step).inner.running.None? && KillBy(l, s, step) == []
  {
    NextKeepsInv(l, s, step);
  }

  // ------------------------------------------------------------------ whose socket is in the slot

  /** The socket in the slot was registered for the admission whose job is PENDING under that id. */
  ghost predicate OwnSocket(s: Sys, h: Record, regs: seq<Registration>) {
    SlotSocket(s.inner).Some? ==>
      && regs != [] && s.worker.Working? && s.worker.item.id in h.latest
      && regs[|regs| - 1].index == h.latest[s.worker.item.id]
  }

  /** The worker registers its socket for the PENDING job of another admission of the id it has in hand. */
  ghost predicate Misattaches(s: Sys, h: Record, step: Step) {
    && step.DoAttach? && step.clone.Some? && s.worker.Working? && h.reused
    && IsRunning(s.inner, s.worker.item.id) && PendingAt(s.inner, s.worker.item.id)
  }

  /** The socket in the slot is its job's own if and only if the id was not admitted again since it was taken. */
  lemma OwnUnlessReused(s: Sys, h: Record, regs: seq<Registration>)
    requires SlotOk(s, h, regs) && HeldOk(h, s.worker)
    ensures OwnSocket(s, h, regs) <==> SlotSocket(s.inner).None? || !h.reused
  {
  }

  /** A step leads from own sockets to own sockets if and only if it does not misattach. */
  lemma OwnUnlessMisattached(l: Limits, s: Sys, h: Record, regs: seq<Registration>, step: Step)
    requires Inv(l, s) && Enabled(s, step) && Agrees(h, s) && SlotOk(s, h, regs) && OwnSocket(s, h, regs)
    ensures OwnSocket(Next(l, s, step), NextRecord(l, s, h, step), NextRegistrations(s, h, regs, step))
       <==> !Misattaches(s, h, step)
  {
    hide Valid, JobsAdmitted, LatestOk, InOrder, MadeOk, HeldOk, OwnSocket, SlotOk, NextInner, NextRecord, Coupled;
    InvQueue(l, s);
    AgreementStays(l, s, h, step);
    SlotStays(l, s, h, regs, step);
    OwnUnlessReused(s, h, regs);
    OwnUnlessReused(Next(l, s, step), NextRecord(l, s, h, step), NextRegistrations(s, h, regs, step));
    ReusedSlot(l, s, h, regs, step);
  }

  /** After a step a socket stands in the slot of a reused id only if it did before or was misattached. */
  lemma ReusedSlot(l: Limits, s: Sys, h: Record, regs: seq<Registration>, step: Step)
    requires Inv(l, s) && Enabled(s, step) && SlotOk(s, h, regs) && (SlotSocket(s.inner).None? || !h.reused)
    ensures QueueOk(s.inner)
    ensures SlotSocket(Next(l, s, step).inner).Some? && NextRecord(l, s, h, step).reused <==> Misattaches(s, h, step)
  {
    hide Valid, TalkTo, Cancel, Sweep, Admits, KillBy, Reuses;
    InvQueue(l, s);
    match step
    case DoPoll(now) => PollEmptiesSlot(s, now);
    case DoFinish(_, now) => FinishEmptiesSlot(l, s, step);
    case DoAttach(_) =>
    case _ => HandlerReusedSlot(l, s, h, regs, step);
  }

  lemma HandlerReusedSlot(l: Limits, s: Sys, h: Record, regs: seq<Registration>, step: Step)
    requires Inv(l, s) && SlotOk(s, h, regs) && (SlotSocket(s.inner).None? || !h.reused)
    requires step.DoTalk? || step.DoResult? || step.DoCancel?
    ensures QueueOk(s.inner)
    ensures SlotSocket(Next(l, s, step).inner).None? || !NextRecord(l, s, h, step).reused
  {
    hide Valid, NextInner, Admits, KillBy;
    InvQueue(l, s);
    NextKeepsInv(l, s, step);
    if s.worker.Working? {
      HandlerKeepsSlot(l, s, step);
      if Reuses(l, s, step) {
        ReuseEmptiesSlot(l, s, step);
      }
    }
  }

  // ------------------------------------------------------------------ over whole runs

  ghost function RegistrationsAfter(l: Limits, s: Sys, h: Record, regs: seq<Registration>, steps: seq<Step>)
      : seq<Registration>
    requires Inv(l, s) && Legal(l, s, steps)
    decreases |steps|
  {
    if steps == [] then regs
    else
      NextKeepsInv(l, s, steps[0]);
      RegistrationsAfter(l, Next(l, s, steps[0]), NextRecord(l, s, h, steps[0]),
                         NextRegistrations(s, h, regs, steps[0]), steps[1..])
  }

  /** In every state of the run the socket in the slot is its job's own. */
  ghost predicate AlwaysOwnSocket(l: Limits, s: Sys, h: Record, regs: seq<Registration>, steps: seq<Step>)
    requires Inv(l, s) && Legal(l, s, steps)
    decreases |steps|
  {
    && OwnSocket(s, h, regs)
    && (steps != [] ==>
          (NextKeepsInv(l, s, steps[0]);
           AlwaysOwnSocket(l, Next(l, s, steps[0]), NextRecord(l, s, h, steps[0]),
                           NextRegistrations(s, h, regs, steps[0]), steps[1..])))
  }

  ghost predicate NeverMisattaches(l: Limits, s: Sys, h: Record, steps: seq<Step>)
    requires Inv(l, s) && Legal(l, s, steps)
    decreases |steps|
  {
    steps != [] ==>
      && !Misattaches(s, h, steps[0])
      && (NextKeepsInv(l, s, steps[0]);
          NeverMisattaches(l, Next(l, s, steps[0]), NextRecord(l, s, h, steps[0]), steps[1..]))
  }

  lemma {:induction false} OwnSocketAlongIff(l: Limits, s: Sys, h: Record, regs: seq<Registration>, steps: seq<Step>)
    requires Inv(l, s) && Legal(l, s, steps) && Agrees(h, s) && SlotOk(s, h, regs) && OwnSocket(s, h, regs)
    ensures AlwaysOwnSocket(l, s, h, regs, steps) <==> NeverMisattaches(l, s, h, steps)
    decreases |steps|
  {
    hide Valid, Coupled, Agrees, Next, NextRecord, OwnSocket, SlotOk, Misattaches, NextRegistrations;
    if steps != [] {
      NextKeepsInv(l, s, steps[0]);
      InvQueue(l, s);
      AgreementStays(l, s, h, steps[0]);
      SlotStays(l, s, h, regs, steps[0]);
      OwnUnlessMisattached(l, s, h, regs, steps[0]);
      var t, after := Next(l, s, steps[0]), NextRecord(l, s, h, steps[0]);
      var more := NextRegistrations(s, h, regs, steps[0]);
      if OwnSocket(t, after, more) {
        OwnSocketAlongIff(l, t, after, more, steps[1..]);
      }
    }
  }

  /**
   * Along a run every socket in the slot is that of the request whose job is PENDING there, in all states,
   * if and only if no attach of the run misattaches.
   */
  lemma SocketsAreOwnIff(l: Limits, steps: seq<Step>)
    requires Inv(l, START) && Legal(l, START, steps)
    ensures AlwaysOwnSocket(l, START, BLANK, [], steps) <==> NeverMisattaches(l, START, BLANK, steps)
  {
    OwnSocketAlongIff(l, START, BLANK, [], steps);
  }

  lemma {:induction false} SlotAlong(l: Limits, s: Sys, h: Record, regs: seq<Registration>, steps: seq<Step>)
    requires Inv(l, s) && Legal(l, s, steps) && Agrees(h, s) && SlotOk(s, h, regs)
    ensures SlotOk(Exec(l, s, steps), RecordAfter(l, s, h, steps), RegistrationsAfter(l, s, h, regs, steps))
    ensures Agrees(RecordAfter(l, s, h, steps), Exec(l, s, steps))
    decreases |steps|
  {
    hide Valid, Coupled, Agrees, Next, NextRecord, SlotOk, NextRegistrations;
    if steps != [] {
      NextKeepsInv(l, s, steps[0]);
      InvQueue(l, s);
      AgreementStays(l, s, h, steps[0]);
      SlotStays(l, s, h, regs, steps[0]);
      SlotAlong(l, Next(l, s, steps[0]), NextRecord(l, s, h, steps[0]), NextRegistrations(s, h, regs, steps[0]),
                steps[1..]);
    }
  }

  // ------------------------------------------------------------------ what a shutdown hits

  /**
   * From taking a job until it finishes: a socket in the slot stands there for a PENDING job, it was
   * registered by the job in hand, and the two belong to the same admission if and only if none of the
   * steps admitted the id again.
   */
  lemma SocketIsOwnIff(l: Limits, s: Sys, h: Record, regs: seq<Registration>, now: Time, taken: Sys, steps: seq<Step>)
    requires Inv(l, s) && Enabled(s, DoPoll(now)) && taken == Next(l, s, DoPoll(now)) && taken.worker.Working?
    requires Inv(l, taken) && Legal(l, taken, steps) && NoFinish(steps) && Agrees(h, s) && SlotOk(s, h, regs)
    ensures QueueOk(s.inner)
    ensures var first := NextRecord(l, s, h, DoPoll(now));
      var t, after := Exec(l, taken, steps), RecordAfter(l, taken, first, steps);
      var sockets, id := RegistrationsAfter(l, taken, first, regs, steps), taken.worker.item.id;
      SlotSocket(t.inner).Some? ==>
        && PendingAt(t.inner, id) && id in after.latest && sockets != []
        && sockets[|sockets| - 1] == Registration(first.held, SlotSocket(t.inner).value)
        && (first.held == after.latest[id] <==> NeverReuses(l, taken, steps))
  {
    hide Valid, Coupled, NextInner, Legal, Exec, RecordAfter, NeverReuses, RegistrationsAfter, JobsAdmitted,
         LatestOk, InOrder, MadeOk, Poll;
    InvQueue(l, s);
    var first := NextRecord(l, s, h, DoPoll(now));
    AgreementStays(l, s, h, DoPoll(now));
    SlotStays(l, s, h, regs, DoPoll(now));
    SlotAlong(l, taken, first, regs, steps);
    ReusedIff(l, taken, first, steps);
  }

  /**
   * What a step shuts down is the one socket in the slot; the step takes the PENDING job under the id in
   * hand out of that state or out of the store. Both are of the same admission if and only if the id was
   * not admitted again since it was taken.
   */
  lemma ShutdownIsOwnIff(l: Limits, s: Sys, h: Record, regs: seq<Registration>, step: Step)
    requires Inv(l, s) && Enabled(s, step) && Agrees(h, s) && SlotOk(s, h, regs) && KillBy(l, s, step) != []
    ensures s.worker.Working? && regs != []
    ensures var id, last := s.worker.item.id, regs[|regs| - 1];
      && KillBy(l, s, step) == [last.socket] && last.index < |h.admitted|
      && PendingAt(s.inner, id) && SameRequest(s.inner.jobs[id], h.admitted[h.latest[id]].job)
      && SlotSocket(Next(l, s, step).inner).None? && (!Reuses(l, s, step) ==> !PendingAt(Next(l, s, step).inner, id))
      && h.admitted[last.index].id == id && (last.index == h.latest[id] <==> !h.reused)
  {
    hide Valid, NextInner, Admits, InOrder, MadeOk, KillBy;
    if step.DoFinish? {
      FinishEmptiesSlot(l, s, step);
    }
    NothingFromWorker(l, s, step);
    HandlerKeepsSlot(l, s, step);
    if !Reuses(l, s, step) {
      HandlerHands(l, s, step, s.worker.item.id);
    }
  }

  lemma NothingFromWorker(l: Limits, s: Sys, step: Step)
    requires Inv(l, s) && Enabled(s, step) && KillBy(l, s, step) != []
    ensures step.DoTalk? || step.DoResult? || step.DoCancel?
    ensures s.worker.Working?
  {
  }

  // ------------------------------------------------------------------ a run that misattaches

  lemma {:induction false} OneStepLater(l: Limits, s: Sys, h: Record, regs: seq<Registration>, steps: seq<Step>,
      step: Step)
    requires Inv(l, s) && Legal(l, s, steps) && Enabled(Exec(l, s, steps), step)
    ensures Inv(l, Exec(l, s, steps)) && Legal(l, s, steps + [step])
    ensures Exec(l, s, steps + [step]) == Next(l, Exec(l, s, steps), step)
    ensures RecordAfter(l, s, h, steps + [step]) == NextRecord(l, Exec(l, s, steps), RecordAfter(l, s, h, steps), step)
    ensures RegistrationsAfter(l, s, h, regs, steps + [step])
         == NextRegistrations(Exec(l, s, steps), RecordAfter(l, s, h, steps),
                              RegistrationsAfter(l, s, h, regs, steps), step)
    decreases |steps|
  {
    hide Valid, Coupled, Next, NextRecord, NextRegistrations, Enabled;
    ExecKeepsInv(l, s, steps);
    if steps == [] {
      assert ([step])[1..] == [];
      NextKeepsInv(l, s, step);
    } else {
      assert (steps + [step])[1..] == steps[1..] + [step];
      NextKeepsInv(l, s, steps[0]);
      InvQueue(l, s);
      OneStepLater(l, Next(l, s, steps[0]), NextRecord(l, s, h, steps[0]), NextRegistrations(s, h, regs, steps[0]),
                   steps[1..], step);
    }
  }

  /** The run from the empty store ends in this state, with this record and these sockets. */
  ghost predicate EndsIn(steps: seq<Step>, t: Sys, h: Record, regs: seq<Registration>) {
    && Inv(ONE_SECOND, START) && Legal(ONE_SECOND, START, steps) && t == Exec(ONE_SECOND, START, steps)
    && h == RecordAfter(ONE_SECOND, START, BLANK, steps)
    && regs == RegistrationsAfter(ONE_SECOND, START, BLANK, [], steps)
  }

  lemma EndsLater(steps: seq<Step>, s: Sys, h: Record, step: Step, t: Sys, after: Record)
    requires EndsIn(steps, s, h, []) && Goes(s, h, step, t, after) && !step.DoAttach?
    ensures EndsIn(steps + [step], t, after, []) && Inv(ONE_SECOND, t)
  {
    hide Inv, Legal, Exec, RecordAfter, RegistrationsAfter, Next, NextRecord, Enabled, Misdelivers;
    OneStepLater(ONE_SECOND, START, BLANK, [], steps, step);
  }

  /** The second job of id 1 waits, and the worker has registered the socket of the first for it. */
  function Attached(a: Talk, b: Talk, socket: Socket): Sys {
    Sys(Readmitted(a, b).inner.(running := Some(Running(1, Some(socket)))), Working(ItemOf(a), true))
  }

  lemma AttachAttaches(a: Talk, b: Talk, socket: Socket)
    requires Inv(ONE_SECOND, Readmitted(a, b))
    ensures var s, h, step := Readmitted(a, b), TwoAdmissions(a, b), DoAttach(Some(socket));
      && Next(ONE_SECOND, s, step) == Attached(a, b, socket) && NextRecord(ONE_SECOND, s, h, step) == h
      && NextRegistrations(s, h, [], step) == [Registration(0, socket)] && Misattaches(s, h, step)
  {
    hide Inv;
  }

  lemma CancelShutsDown(a: Talk, b: Talk, socket: Socket)
    requires Inv(ONE_SECOND, Attached(a, b, socket))
    ensures var s, cancel := Attached(a, b, socket), DoCancel(1, 1);
      && KillBy(ONE_SECOND, s, cancel) == [socket]
      && Next(ONE_SECOND, s, cancel).inner.jobs == map[1 := JobAt(b, 1, Canceled(REASON_CANCELED), Some(1))]
  {
    var s := Attached(a, b, socket).inner;
    assert Overdue(s, 1) == {};
    SettleNothing(s, Failed(REASON_TIMEOUT), 1);
    assert Sweep(ONE_SECOND, s, 1) == s;
    assert SweepKill(s, 1) == [] && KillOf(s, {1}) == [socket];
  }

  /**
   * With a time to live of one second: job 1 is cancelled before its socket is registered, expires, and its
   * id is admitted again; the worker, still with the first job, registers its socket for the second, and a
   * cancel of the second job shuts down the first one's connection.
   */
  lemma ReusedIdGetsOldSocket(a: Talk, b: Talk, socket: Socket) returns (steps: seq<Step>)
    requires a != b
    ensures EndsIn(steps, Attached(a, b, socket), TwoAdmissions(a, b), [Registration(0, socket)])
    ensures Inv(ONE_SECOND, Attached(a, b, socket)) && TwoAdmissions(a, b).latest == map[1 := 1]
    ensures !OwnSocket(Attached(a, b, socket), TwoAdmissions(a, b), [Registration(0, socket)])
    ensures var s, cancel := Attached(a, b, socket), DoCancel(1, 1);
      && KillBy(ONE_SECOND, s, cancel) == [socket]
      && Next(ONE_SECOND, s, cancel).inner.jobs == map[1 := JobAt(b, 1, Canceled(REASON_CANCELED), Some(1))]
  {
    hide Inv, Goes, EndsIn, Legal, Exec, RecordAfter, RegistrationsAfter, Next, NextRecord, Enabled, KillBy;
    StartsEmpty();
    FirstTalk(a);
    EndsLater([], START, BLANK, TalkStep(a, 0), Queued(a), OneAdmission(a));
    steps := [] + [TalkStep(a, 0)];
    PollTakes(a);
    EndsLater(steps, Queued(a), OneAdmission(a), DoPoll(0), Taken(a), OneTaken(a));
    steps := steps + [DoPoll(0)];
    CancelCancels(a);
    EndsLater(steps, Taken(a), OneTaken(a), DoCancel(1, 0), Cancelled(a), OneTaken(a));
    steps := steps + [DoCancel(1, 0)];
    SecondTalk(a, b);
    EndsLater(steps, Cancelled(a), OneTaken(a), TalkStep(b, 1), Readmitted(a, b), TwoAdmissions(a, b));
    steps := steps + [TalkStep(b, 1)];
    EndsAttached(steps, a, b, socket);
    CancelShutsDown(a, b, socket);
    steps := steps + [DoAttach(Some(socket))];
  }

  lemma EndsAttached(steps: seq<Step>, a: Talk, b: Talk, socket: Socket)
    requires EndsIn(steps, Readmitted(a, b), TwoAdmissions(a, b), []) && Inv(ONE_SECOND, Readmitted(a, b))
    ensures EndsIn(steps + [DoAttach(Some(socket))], Attached(a, b, socket), TwoAdmissions(a, b),
                   [Registration(0, socket)])
    ensures Inv(ONE_SECOND, Attached(a, b, socket))
  {
    hide Inv, Legal, Exec, RecordAfter, RegistrationsAfter, Next, NextRecord, NextRegistrations;
    var step := DoAttach(Some(socket));
    AttachAttaches(a, b, socket);
    NextKeepsInv(ONE_SECOND, Readmitted(a, b), step);
    OneStepLater(ONE_SECOND, START, BLANK, [], steps, step);
  }

  lemma StartsEmpty()
    ensures EndsIn([], START, BLANK, [])
  {
    StartInv(ONE_SECOND);
  }
}
