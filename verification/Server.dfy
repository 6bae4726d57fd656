/**
 * Runs of the whole server (`living.rs` over `jobs.rs`): version 1 handlers, the worker, and one
 * version 2 request at a time, interleaved between any two accesses of the store, with writes that
 * may fail and crashes that leave only the database.
 */
module Server {
  import opened Prelude
  import opened Protocol
  import opened Identity
  import opened Jobs
  import opened Runs
  import opened Living

  // ------------------------------------------------------------------ what happened

  /**
   * A submission to the store: under which worker id, for which attempt, and what was asked, when
   * `acked` exchanges had been acknowledged.
   */
  datatype Submission =
    Submission(epoch: nat, worker: Id, attempt: nat, talk: Talk, prompt: string, scope: string, acked: nat)

  /** The backend made `raw` of a work item. */
  datatype Generation = Generation(epoch: nat, item: WorkItem, raw: string)

  datatype Ticket = Ticket(epoch: nat, worker: Id)

  /** A record of the run; `epoch` counts the times the server was started again. */
  datatype History = History(
    epoch: nat,
    order: seq<nat>,              // the attempts acknowledged, in order
    submitted: seq<Submission>,
    generated: seq<Generation>,
    started: seq<Ticket>,         // the jobs the worker took
    shown: seq<(nat, string)>,    // the replies given as READY, and for which attempt
    lost: set<nat>)               // the attempts whose closing write failed

  /** Inside a version 2 request: `todo` is what is left of the snapshot of `running`. */
  datatype Control = Idle | Collecting(request: Request, todo: set<nat>)

  datatype Server = Server(sys: Sys, mem: Mem, control: Control, past: History)

  datatype Event =
    | Other(step: Step)
    | Begin(request: Request)
    | Collect(attempt: nat, now: Time, ok: bool)
    | Act(now: Time, ok: bool, late: bool)
    | Crash

  const FRESH := Server(START, Opened(NO_TABLES), Idle, History(0, [], [], [], [], [], {}))

  /** Version 1 names its jobs by request ids, and the worker acts as it likes. */
  predicate IsOther(step: Step) {
    match step
    case DoTalk(id, _, prompt, scope, _) => id <= RID_MAX && prompt == None && scope == ""
    case DoResult(id, _) => id <= RID_MAX
    case DoCancel(id, _) => id <= RID_MAX
    case _ => true
  }

  predicate CanHappen(s: Server, e: Event) {
    match e
    case Other(step) => Enabled(s.sys, step) && IsOther(step)
    case Begin(r) => s.control.Idle? && r.place.Valid()
    case Collect(a, _, _) => s.control.Collecting? && a in s.control.todo && a in s.mem.running
    case Act(_, _, _) => s.control.Collecting? && s.control.todo == {} && ForeignKeys(s.mem.db)
    case Crash => true
  }

  // ------------------------------------------------------------------ one step

  /** The plan of the request at hand. */
  function CurrentPlan(cfg: Config, s: Server): Plan
    requires s.control.Collecting? && ForeignKeys(s.mem.db)
  {
    PlanFor(cfg, s.mem.db, s.control.request)
  }

  /** The job of an attempt: the next worker id, the scope of the conversation, the message and the prompt. */
  function TalkStep(m: Mem, place: Place, payload: Payload, prompt: string, now: Time): Step {
    DoTalk(m.nextWorker, TalkOf(payload), Some(prompt), place.Scope(), now)
  }

  /** The access of the store that an event makes, if any. */
  function Access(cfg: Config, s: Server, e: Event): Option<Step>
    requires CanHappen(s, e)
  {
    match e
    case Other(step) => Some(step)
    case Collect(a, now, _) => Some(DoResult(s.mem.running[a], now))
    case Act(now, ok, _) =>
      if !ok then None
      else
        (match CurrentPlan(cfg, s)
         case Withdraw(a) => if a in s.mem.running then Some(DoCancel(s.mem.running[a], now)) else None
         case Submit(payload, prompt) =>
           if s.mem.nextWorker >= U32_MAX then None
           else Some(TalkStep(s.mem, s.control.request.place, payload, prompt, now))
         case _ => None)
    case _ => None
  }

  ghost function NextSys(cfg: Config, l: Limits, s: Server, e: Event): Sys
    requires Inv(l, s.sys) && CanHappen(s, e)
  {
    if e.Crash? then START
    else match Access(cfg, s, e)
      case None => s.sys
      case Some(step) => if Enabled(s.sys, step) then Next(l, s.sys, step) else s.sys
  }

  /** What the store answers to a result or a talk. */
  function StoreAnswer(l: Limits, s: Inner, step: Step): Answer
    requires step.DoResult? || step.DoTalk?
  {
    if step.DoResult? then AnswerFor(Sweep(l, s, step.now), step.id)
    else TalkAnswer(l, s, step.id, step.talk, step.scope, step.now)
  }

  /** A submission as planned, with the clock reading and the fate of its last write. */
  datatype Submit = Submit(request: Request, payload: Payload, prompt: string, now: Time, late: bool)

  function PlannedSubmit(s: Server, plan: Plan, e: Event): Submit
    requires s.control.Collecting? && plan.Submit? && e.Act?
  {
    Submit.Submit(s.control.request, plan.payload, plan.prompt, e.now, e.late)
  }

  /** The store's answer, unless the worker ids are used up. */
  function SubmitAnswer(l: Limits, s: Server, u: Submit): Answer {
    if s.mem.nextWorker >= U32_MAX then WORKER_CAPACITY
    else StoreAnswer(l, s.sys.inner, TalkStep(s.mem, u.request.place, u.payload, u.prompt, u.now))
  }

  function SubmitMem(l: Limits, s: Server, u: Submit): Mem {
    SubmitOne(s.mem, u.request, u.payload, SubmitAnswer(l, s, u), u.late)
  }

  function SubmitHistory(l: Limits, s: Server, u: Submit): History {
    var a := |s.mem.db.attempts|;
    s.past.(
      submitted := s.past.submitted +
        if s.mem.nextWorker >= U32_MAX then []
        else [Submission(s.past.epoch, s.mem.nextWorker, a, TalkOf(u.payload), u.prompt, u.request.place.Scope(),
                         |s.past.order|)],
      lost := if u.late && a !in SubmitMem(l, s, u).running then s.past.lost + {a} else s.past.lost)
  }

  function NextMem(cfg: Config, l: Limits, s: Server, e: Event): Mem
    requires CanHappen(s, e)
  {
    match e
    case Collect(a, now, ok) =>
      var answer := AnswerFor(Sweep(l, s.sys.inner, now), s.mem.running[a]);
      if ok then CollectOne(s.mem, a, answer) else s.mem
    case Act(now, ok, late) =>
      if !ok then s.mem
      else
        (match CurrentPlan(cfg, s)
         case Withdraw(a) => WithdrawOne(s.mem, a)
         case Acknowledge(a) => s.mem.(db := CommitAttempt(s.mem.db, a))
         case Submit(_, _) => SubmitMem(l, s, PlannedSubmit(s, CurrentPlan(cfg, s), e))
         case _ => s.mem)
    case Crash => Opened(s.mem.db)
    case _ => s.mem
  }

  /** A failed write ends the request; a job still PENDING writes nothing. */
  function NextControl(l: Limits, s: Server, e: Event): Control
    requires CanHappen(s, e)
  {
    match e
    case Other(_) => s.control
    case Begin(r) => Collecting(r, s.mem.running.Keys)
    case Collect(a, now, ok) =>
      if ok || AnswerFor(Sweep(l, s.sys.inner, now), s.mem.running[a]).code == CODE_PENDING
      then s.control.(todo := s.control.todo - {a})
      else Idle
    case _ => Idle
  }

  function StoreHistory(past: History, sys: Sys, step: Step): History
    requires Enabled(sys, step) && QueueOk(sys.inner)
  {
    match step
    case DoFinish(outcome, _) =>
      if outcome.Err? then past
      else past.(generated := past.generated + [Generation(past.epoch, sys.worker.item, outcome.value)])
    case DoPoll(now) =>
      var taken := Poll(sys.inner, now).1;
      if taken.Some? then past.(started := past.started + [Ticket(past.epoch, taken.value.id)]) else past
    case _ => past
  }

  function ActHistory(cfg: Config, l: Limits, s: Server, e: Event): History
    requires CanHappen(s, e) && e.Act?
  {
    if !e.ok then s.past
    else match CurrentPlan(cfg, s)
      case Show(a) =>
        if s.mem.db.attempts[a].HasReply() then s.past.(shown := s.past.shown + [(a, s.mem.db.attempts[a].reply)])
          else s.past
      case Acknowledge(a) =>
        s.past.(order := s.past.order + [a], shown := s.past.shown + [(a, s.mem.db.attempts[a].reply)])
      case Submit(_, _) => SubmitHistory(l, s, PlannedSubmit(s, CurrentPlan(cfg, s), e))
      case _ => s.past
  }

  function NextPast(cfg: Config, l: Limits, s: Server, e: Event): History
    requires CanHappen(s, e) && QueueOk(s.sys.inner)
  {
    match e
    case Other(step) => StoreHistory(s.past, s.sys, step)
    case Act(_, _, _) => ActHistory(cfg, l, s, e)
    case Crash => s.past.(epoch := s.past.epoch + 1, lost := {})
    case _ => s.past
  }

  ghost function After(cfg: Config, l: Limits, s: Server, e: Event): Server
    requires Inv(l, s.sys) && CanHappen(s, e)
  {
    Server(NextSys(cfg, l, s, e), NextMem(cfg, l, s, e), NextControl(l, s, e), NextPast(cfg, l, s, e))
  }

  /** The answer to the version 2 request, where the event ends it. */
  function RequestAnswer(cfg: Config, l: Limits, s: Server, e: Event): Option<Answer>
    requires CanHappen(s, e)
  {
    match e
    case Collect(_, _, _) => if NextControl(l, s, e).Idle? then Some(UNAVAILABLE_ANSWER) else None
    case Act(_, ok, late) =>
      if !ok then Some(UNAVAILABLE_ANSWER)
      else
        (match CurrentPlan(cfg, s)
         case Reject(answer) => Some(answer)
         case Show(a) => Some(RowAnswer(s.mem.db.attempts[a]))
         case Withdraw(_) => Some(CANCELED_ANSWER)
         case Acknowledge(a) => Some(Answer(CODE_READY, s.mem.db.attempts[a].reply))
         case Submit(_, _) =>
           var answer := SubmitAnswer(l, s, PlannedSubmit(s, CurrentPlan(cfg, s), e));
           Some(if late && answer.code != CODE_PENDING then UNAVAILABLE_ANSWER else answer))
    case _ => None
  }
}
