/**
 * What a version 2 request does, case by case, in plain terms (`living.rs`): the answer, with its code and
 * token, and what becomes of the tables, the routes and the store.
 */
module Effects {
  import opened Prelude
  import opened Protocol
  import opened Identity
  import opened Jobs
  import opened Runs
  import opened Living
  import opened Server
  import opened Custody
  import opened Acting
  import opened Submitting
  import opened Provenance
  import opened Durable
  import Sanitize

  // ------------------------------------------------------------------ the decision

  /** The request repeats the job id of attempt `a`, in a reachable state. */
  ghost predicate Names(cfg: Config, l: Limits, t: Server, e: Event, a: nat) {
    && Reachable(cfg, l, t) && CanHappen(t, e) && e.Act? && e.ok
    && IsAttempt(t.mem.db, t.control.request.place, t.control.request.job, a)
  }

  /** It carries a talk that is not the attempt's own. */
  predicate Differs(r: Request, row: Attempt) {
    r.talk.Some? && r.talk.value != row.payload
  }

  lemma NamedPlan(cfg: Config, l: Limits, t: Server, e: Event, a: nat)
    requires Names(cfg, l, t, e, a)
    ensures Inv(l, t.sys) && a < |t.mem.db.attempts|
    ensures var r, row := t.control.request, t.mem.db.attempts[a];
      CurrentPlan(cfg, t)
        == if Differs(r, row) then Reject(Answer(4, "conflict"))
           else if r.op.OpCancel? && (row.stage.Pending? || row.stage.Ready?) then Withdraw(a)
           else if r.op.OpAck? && row.stage.Ready? then Acknowledge(a)
           else Show(a)
  {
    hide Reachable, Inv, Unique, FindAttempt, PlanNew;
    var r := t.control.request;
    ReachableInv(cfg, l, t);
    ReachedTables(l, t);
    UniqueAttempt(t.mem.db, r.place, r.job, a);
  }

  lemma ReachedTables(l: Limits, t: Server)
    requires ServerInv(l, t)
    ensures Inv(l, t.sys) && ForeignKeys(t.mem.db) && Unique(t.mem.db) && DbInv(t.mem.db, t.past.order)
  {
    hide Inv, Tracked, Routed, SubmissionsOk, RepliesOk, ShownOk, RoutesOk, PendingOk, Chronological, OneActive;
  }

  /** The tables and the routes stay, and the store is not asked. */
  ghost predicate NothingChanges(s: Server, t: Server) {
    t.mem == s.mem && t.sys == s.sys && t.control == Idle
  }

  lemma RejectedEvent(cfg: Config, l: Limits, t: Server, e: Event, answer: Answer)
    requires Inv(l, t.sys) && CanHappen(t, e) && e.Act? && e.ok && CurrentPlan(cfg, t) == Reject(answer)
    ensures NothingChanges(t, After(cfg, l, t, e)) && RequestAnswer(cfg, l, t, e) == Some(answer)
  {
    hide Inv, PlanFor;
  }

  lemma ShownEvent(cfg: Config, l: Limits, t: Server, e: Event, a: nat)
    requires Inv(l, t.sys) && CanHappen(t, e) && e.Act? && e.ok && CurrentPlan(cfg, t) == Show(a)
    requires a < |t.mem.db.attempts|
    ensures NothingChanges(t, After(cfg, l, t, e))
    ensures RequestAnswer(cfg, l, t, e) == Some(RowAnswer(t.mem.db.attempts[a]))
  {
    hide Inv, PlanFor;
  }

  // ------------------------------------------------------------------ a request about an attempt

  /** A talk that is not the attempt's own is a conflict, whatever is asked, and changes nothing. */
  lemma ConflictRefused(cfg: Config, l: Limits, t: Server, e: Event, a: nat)
    requires Names(cfg, l, t, e, a) && Differs(t.control.request, t.mem.db.attempts[a])
    ensures Inv(l, t.sys) && NothingChanges(t, After(cfg, l, t, e))
    ensures RequestAnswer(cfg, l, t, e) == Some(Answer(4, "conflict"))
  {
    hide Reachable, Inv, PlanFor, CurrentPlan, After, RequestAnswer;
    NamedPlan(cfg, l, t, e, a);
    RejectedEvent(cfg, l, t, e, Answer(4, "conflict"));
  }

  /**
   * An acknowledgement of a ready attempt commits it: the player's row and then the reply are appended to
   * the messages, the attempt is committed, nothing else changes, and the reply is the answer.
   */
  lemma AckCommits(cfg: Config, l: Limits, t: Server, e: Event, a: nat)
    requires Names(cfg, l, t, e, a) && !Differs(t.control.request, t.mem.db.attempts[a])
    requires t.control.request.op.OpAck? && t.mem.db.attempts[a].stage.Ready?
    ensures Inv(l, t.sys)
    ensures var row, u := t.mem.db.attempts[a], After(cfg, l, t, e);
      && u.mem == t.mem.(db := t.mem.db.(
           attempts := t.mem.db.attempts[a := row.(stage := Committed)],
           messages := t.mem.db.messages
             + [Message(a, Player, row.payload.msg, row.day), Message(a, Npc, row.reply, row.day)]))
      && u.sys == t.sys && u.control == Idle
      && RequestAnswer(cfg, l, t, e) == Some(Answer(0, row.reply))
  {
    hide Reachable, Inv, PlanFor, CurrentPlan, After;
    NamedPlan(cfg, l, t, e, a);
    AfterAcknowledge(cfg, l, t, e);
  }

  /**
   * A cancel of a pending or ready attempt cancels it for good, in the tables first; its route goes, and the
   * job that it led to is canceled in the store.
   */
  lemma CancelCancels(cfg: Config, l: Limits, t: Server, e: Event, a: nat)
    requires Names(cfg, l, t, e, a) && !Differs(t.control.request, t.mem.db.attempts[a])
    requires t.control.request.op.OpCancel?
    requires t.mem.db.attempts[a].stage.Pending? || t.mem.db.attempts[a].stage.Ready?
    ensures Inv(l, t.sys)
    ensures var row, u := t.mem.db.attempts[a], After(cfg, l, t, e);
      && u.mem.db == t.mem.db.(attempts := t.mem.db.attempts[a := row.(stage := Stage.Canceled, reply := "canceled")])
      && u.mem.running == t.mem.running - {a} && u.mem.nextWorker == t.mem.nextWorker && u.control == Idle
      && u.sys.worker == t.sys.worker
      && u.sys.inner == (if a in t.mem.running then Cancel(l, t.sys.inner, t.mem.running[a], e.now) else t.sys.inner)
      && RequestAnswer(cfg, l, t, e) == Some(Answer(3, "canceled"))
  {
    hide Reachable, Inv, PlanFor, CurrentPlan, After, Cancel;
    NamedPlan(cfg, l, t, e, a);
    AfterWithdraw(cfg, l, t, e);
  }

  /** Any other request about an attempt changes nothing, and is answered by where the attempt stands. */
  lemma OthersShow(cfg: Config, l: Limits, t: Server, e: Event, a: nat)
    requires Names(cfg, l, t, e, a) && !Differs(t.control.request, t.mem.db.attempts[a])
    requires var stage := t.mem.db.attempts[a].stage;
      && (t.control.request.op.OpAck? ==> !stage.Ready?)
      && (t.control.request.op.OpCancel? ==> !stage.Pending? && !stage.Ready?)
    ensures Inv(l, t.sys) && NothingChanges(t, After(cfg, l, t, e))
    ensures var row := t.mem.db.attempts[a];
      RequestAnswer(cfg, l, t, e) == Some(
        match row.stage
        case Pending => Answer(1, "pending")
        case Ready => Answer(0, row.reply)
        case Committed => Answer(0, row.reply)
        case Canceled => Answer(3, row.reply)
        case Failed => Answer(2, row.reply))
  {
    hide Reachable, Inv, PlanFor, CurrentPlan, After, RequestAnswer;
    NamedPlan(cfg, l, t, e, a);
    ShownEvent(cfg, l, t, e, a);
  }

  /** A request whose own statements fail changes nothing, and is answered as unavailable. */
  lemma FailedRequest(cfg: Config, l: Limits, t: Server, e: Event)
    requires Inv(l, t.sys) && CanHappen(t, e) && e.Act? && !e.ok
    ensures NothingChanges(t, After(cfg, l, t, e))
    ensures RequestAnswer(cfg, l, t, e) == Some(Answer(2, "memory_unavailable"))
  {
    hide Inv;
  }

  // ------------------------------------------------------------------ a request about no attempt

  /** No attempt of the conversation has the job id. */
  ghost predicate IsNew(cfg: Config, l: Limits, t: Server, e: Event) {
    && Reachable(cfg, l, t) && CanHappen(t, e) && e.Act? && e.ok
    && forall a :: !IsAttempt(t.mem.db, t.control.request.place, t.control.request.job, a)
  }

  /** Without a talk it is an unknown job. */
  lemma NothingKnown(cfg: Config, l: Limits, t: Server, e: Event)
    requires IsNew(cfg, l, t, e) && t.control.request.talk.None?
    ensures Inv(l, t.sys) && NothingChanges(t, After(cfg, l, t, e))
    ensures RequestAnswer(cfg, l, t, e) == Some(Answer(5, "unknown_job"))
  {
    hide Reachable, Inv, Unique, After, RequestAnswer, FindAttempt;
    ReachableInv(cfg, l, t);
    ReachedTables(l, t);
    AttemptFound(t.mem.db, t.control.request.place, t.control.request.job);
    RejectedEvent(cfg, l, t, e, Answer(5, "unknown_job"));
  }

  /** Why a new talk is not submitted, the first that applies. */
  ghost function Objection(cfg: Config, db: Db, order: seq<nat>, place: Place, talk: Payload): Option<Answer>
    requires ForeignKeys(db)
  {
    if exists i :: 0 <= i < |order| && LaterIn(db, order[i], place.camp, place.branch, talk.day)
      then Some(Answer(4, "branch_required"))
    else if talk.npc !in cfg.profiles then Some(Answer(4, "missing_profile"))
    else if !SameNpc(db, place, talk.npc) then Some(Answer(4, "conflict"))
    else if exists a :: 0 <= a < |db.attempts| && PlaceOf(db, a) == place
                        && (db.attempts[a].stage.Pending? || db.attempts[a].stage.Ready?)
      then Some(Answer(6, "busy"))
    else if cfg.size(cfg.prompt(talk, Memories(db, place.camp, place.branch, talk.npc))) > 16_000
      then Some(Answer(4, "too_long"))
    else None
  }

  lemma PlanOfNewTalk(cfg: Config, db: Db, order: seq<nat>, r: Request)
    requires DbInv(db, order) && r.talk.Some? && forall a :: !IsAttempt(db, r.place, r.job, a)
    ensures var talk := r.talk.value;
      PlanFor(cfg, db, r) == match Objection(cfg, db, order, r.place, talk)
                             case Some(answer) => Reject(answer)
                             case None => Plan.Submit(talk,
                               cfg.prompt(talk, Memories(db, r.place.camp, r.place.branch, talk.npc)))
  {
    hide Memories, OneActive, Chronological, Recorded, FindAttempt, FindConversation, BranchAhead, LaterIn, IsAttempt,
         SameNpc;
    AttemptFound(db, r.place, r.job);
    BranchAheadIff(db, order, r.place.camp, r.place.branch, r.talk.value.day);
    ConversationFound(db, r.place, r.talk.value.npc);
  }

  /** A new talk is refused for the first objection there is, and then nothing changes. */
  lemma TalkRefused(cfg: Config, l: Limits, t: Server, e: Event)
    requires IsNew(cfg, l, t, e) && t.control.request.talk.Some?
    ensures Inv(l, t.sys)
    ensures var r := t.control.request;
      var objection := Objection(cfg, t.mem.db, t.past.order, r.place, r.talk.value);
      objection.Some? ==> NothingChanges(t, After(cfg, l, t, e)) && RequestAnswer(cfg, l, t, e) == objection
  {
    hide Reachable, Inv, DbInv, After, RequestAnswer, PlanFor, Objection;
    ReachableInv(cfg, l, t);
    ReachedTables(l, t);
    var r := t.control.request;
    PlanOfNewTalk(cfg, t.mem.db, t.past.order, r);
    var objection := Objection(cfg, t.mem.db, t.past.order, r.place, r.talk.value);
    if objection.Some? {
      RejectedEvent(cfg, l, t, e, objection.value);
    }
  }

  // ------------------------------------------------------------------ a submission

  /** The index of the conversation, which may be a new one. */
  ghost predicate IsConversation(db: Db, place: Place, npc: string, day: nat, c: nat,
      conversations: seq<Conversation>) {
    if c < |db.conversations| then db.conversations[c].place == place && conversations == db.conversations
    else
      && c == |db.conversations| && conversations == db.conversations + [Conversation(place, npc, day)]
      && forall k :: 0 <= k < |db.conversations| ==> db.conversations[k].place != place
  }

  /** The tables with the attempt of a submission, where it stands and its reply. */
  ghost predicate WithAttempt(db: Db, after: Db, r: Request, talk: Payload, stage: Stage, reply: string) {
    exists c: nat ::
      && IsConversation(db, r.place, talk.npc, talk.day, c, after.conversations)
      && after.attempts == db.attempts + [Attempt(c, r.job, talk, stage, reply, talk.day)]
      && after.campaigns == db.campaigns + {(r.place.camp, r.place.branch)} && after.messages == db.messages
  }

  lemma Inserts(db: Db, r: Request, talk: Payload)
    ensures WithAttempt(db, InsertAttempt(db, r.place, r.job, talk), r, talk, Stage.Pending, "")
  {
    var after, found := InsertAttempt(db, r.place, r.job, talk), FindConversation(db, r.place);
    var c := if found.Some? then found.value else |db.conversations|;
    assert IsConversation(db, r.place, talk.npc, talk.day, c, after.conversations);
  }

  lemma InsertsThenFails(db: Db, r: Request, talk: Payload, reply: string)
    ensures var failed := SetStage(InsertAttempt(db, r.place, r.job, talk), |db.attempts|, Stage.Failed, reply);
      WithAttempt(db, failed, r, talk, Stage.Failed, reply)
  {
    var after := InsertAttempt(db, r.place, r.job, talk);
    Inserts(db, r, talk);
    var c: nat :|
      && IsConversation(db, r.place, talk.npc, talk.day, c, after.conversations)
      && after.attempts == db.attempts + [Attempt(c, r.job, talk, Stage.Pending, "", talk.day)];
    var failed := SetStage(after, |db.attempts|, Stage.Failed, reply);
    assert failed.attempts == db.attempts + [Attempt(c, r.job, talk, Stage.Failed, reply, talk.day)];
    assert IsConversation(db, r.place, talk.npc, talk.day, c, failed.conversations);
  }

  /**
   * What the store is asked: under the next worker id, for the one NPC of version 2, in the scope of the
   * conversation.
   */
  function Asks(m: Mem, r: Request, talk: Payload, prompt: string, now: Time): Step {
    DoTalk(m.nextWorker, Talk(1, talk.day, talk.pname, talk.msg), Some(prompt),
           r.place.camp + ":" + r.place.branch + ":" + r.place.conv, now)
  }

  /** A new talk without an objection. */
  ghost predicate Submits(cfg: Config, l: Limits, t: Server, e: Event) {
    && IsNew(cfg, l, t, e) && t.control.request.talk.Some?
    && Objection(cfg, t.mem.db, t.past.order, t.control.request.place, t.control.request.talk.value).None?
  }

  function PromptFor(cfg: Config, t: Server): string
    requires t.control.Collecting? && t.control.request.talk.Some? && ForeignKeys(t.mem.db)
  {
    var r := t.control.request;
    cfg.prompt(r.talk.value, Memories(t.mem.db, r.place.camp, r.place.branch, r.talk.value.npc))
  }

  function StepFor(cfg: Config, t: Server, now: Time): Step
    requires t.control.Collecting? && t.control.request.talk.Some? && ForeignKeys(t.mem.db)
  {
    Asks(t.mem, t.control.request, t.control.request.talk.value, PromptFor(cfg, t), now)
  }

  lemma SubmitsPlan(cfg: Config, l: Limits, t: Server, e: Event)
    requires Submits(cfg, l, t, e)
    ensures ServerInv(l, t) && Inv(l, t.sys) && t.control.Collecting? && t.control.request.talk.Some?
    ensures ForeignKeys(t.mem.db) && CanHappen(t, e) && e.Act? && e.ok
    ensures CurrentPlan(cfg, t) == Plan.Submit(t.control.request.talk.value, PromptFor(cfg, t))
  {
    hide Reachable, Inv, DbInv, PlanFor, Objection;
    ReachableInv(cfg, l, t);
    ReachedTables(l, t);
    PlanOfNewTalk(cfg, t.mem.db, t.past.order, t.control.request);
  }

  /** The step by which the server asks the store. */
  lemma SameStep(m: Mem, r: Request, talk: Payload, prompt: string, now: Time)
    ensures TalkStep(m, r.place, talk, prompt, now) == Asks(m, r, talk, prompt, now)
  {
    var p := r.place;
    assert p.camp + [':'] + (p.branch + [':'] + p.conv) == p.camp + ":" + p.branch + ":" + p.conv;
  }

  /** The event of a submission, given the store's answer to that step. */
  lemma SubmitEvent(cfg: Config, l: Limits, t: Server, e: Event)
    requires Submits(cfg, l, t, e)
    ensures Inv(l, t.sys)
    ensures var u, plan := After(cfg, l, t, e), CurrentPlan(cfg, t);
      && plan.Submit? && u.control == Idle && u.mem == SubmitMem(l, t, PlannedSubmit(t, plan, e))
      && (t.mem.nextWorker >= U32_MAX ==> u.sys == t.sys)
      && (t.mem.nextWorker < U32_MAX ==> u.sys == Next(l, t.sys, StepFor(cfg, t, e.now)))
      && var answer := SubmitAnswer(l, t, PlannedSubmit(t, plan, e));
      RequestAnswer(cfg, l, t, e)
        == Some(if e.late && answer.code != 1 then Answer(2, "memory_unavailable") else answer)
  {
    hide Submits, Inv, PlanFor, SubmitMem, SubmitAnswer, NextInner, ServerInv, PromptFor, NextPast;
    SubmitsPlan(cfg, l, t, e);
    SameStep(t.mem, t.control.request, t.control.request.talk.value, PromptFor(cfg, t), e.now);
  }

  lemma StoreTracked(l: Limits, t: Server)
    requires ServerInv(l, t)
    ensures JobsTracked(t.past, t.mem.nextWorker, t.sys.inner) && RID_MAX < t.mem.nextWorker
  {
    hide Inv, JobsTracked, ItemTracked, StartsTracked, OutcomesOnce, StartsSubmitted, Routed, MemOk;
    MemFacts(t.mem, t.past);
  }

  lemma FreshTalkAnswer(l: Limits, past: History, next: nat, s: Inner, talk: Talk, scope: string, now: Time)
    requires JobsTracked(past, next, s) && RID_MAX < next
    ensures TalkAnswer(l, s, next, talk, scope, now) in {PENDING_ANSWER, BUSY_ANSWER}
  {
    hide IsBusy, Overdue;
    assert forall id :: id in s.jobs ==> JobTracked(past, next, id, s.jobs[id]);
    assert next !in s.jobs;
  }

  /** The store's answer to that step: the job is taken, or the store is busy. */
  lemma StoreAnswers(cfg: Config, l: Limits, t: Server, e: Event)
    requires Submits(cfg, l, t, e) && t.mem.nextWorker < 0xFFFF_FFFF
    ensures var step := StepFor(cfg, t, e.now);
      var answer := TalkAnswer(l, t.sys.inner, step.id, step.talk, step.scope, e.now);
      && (answer == Answer(1, "pending") || answer == Answer(6, "busy"))
      && CurrentPlan(cfg, t).Submit? && SubmitAnswer(l, t, PlannedSubmit(t, CurrentPlan(cfg, t), e)) == answer
  {
    hide Submits, PlanFor, TalkAnswer, ServerInv, Inv, JobsTracked, CanHappen, PromptFor, CurrentPlan, ForeignKeys;
    SubmitsPlan(cfg, l, t, e);
    StoreTracked(l, t);
    SameStep(t.mem, t.control.request, t.control.request.talk.value, PromptFor(cfg, t), e.now);
    var step := StepFor(cfg, t, e.now);
    FreshTalkAnswer(l, t.past, t.mem.nextWorker, t.sys.inner, step.talk, step.scope, e.now);
  }

  /**
   * A new talk to which there is no objection, and which the store takes: a new attempt is pending, its route
   * leads to the next worker id, and the store has queued its message and prompt.
   */
  lemma TalkTaken(cfg: Config, l: Limits, t: Server, e: Event)
    requires Submits(cfg, l, t, e) && t.mem.nextWorker < 0xFFFF_FFFF
    requires var step := StepFor(cfg, t, e.now);
      TalkAnswer(l, t.sys.inner, step.id, step.talk, step.scope, e.now) == Answer(1, "pending")
    ensures Inv(l, t.sys)
    ensures var r, m, u := t.control.request, t.mem, After(cfg, l, t, e);
      && WithAttempt(m.db, u.mem.db, r, r.talk.value, Stage.Pending, "") && u.control == Idle
      && u.mem.running == m.running[|m.db.attempts| := m.nextWorker] && u.mem.nextWorker == m.nextWorker + 1
      && u.sys == Next(l, t.sys, StepFor(cfg, t, e.now))
      && RequestAnswer(cfg, l, t, e) == Some(Answer(1, "pending"))
  {
    hide Submits, ServerInv, Inv, CanHappen, ForeignKeys, After, RequestAnswer, CurrentPlan, Next, TalkAnswer,
         SubmitAnswer, WithAttempt, InsertAttempt, StepFor;
    SubmitsPlan(cfg, l, t, e);
    SubmitEvent(cfg, l, t, e);
    StoreAnswers(cfg, l, t, e);
    Inserts(t.mem.db, t.control.request, t.control.request.talk.value);
  }

  /** One that finds the store busy: the attempt fails, or stays pending without a route if that last write fails. */
  lemma TalkNotTaken(cfg: Config, l: Limits, t: Server, e: Event)
    requires Submits(cfg, l, t, e) && t.mem.nextWorker < 0xFFFF_FFFF
    requires var step := StepFor(cfg, t, e.now);
      TalkAnswer(l, t.sys.inner, step.id, step.talk, step.scope, e.now) == Answer(6, "busy")
    ensures Inv(l, t.sys)
    ensures var r, m, u := t.control.request, t.mem, After(cfg, l, t, e);
      && u.mem.running == m.running && u.mem.nextWorker == m.nextWorker + 1 && u.control == Idle
      && u.sys == Next(l, t.sys, StepFor(cfg, t, e.now))
      && if e.late then
           && WithAttempt(m.db, u.mem.db, r, r.talk.value, Stage.Pending, "")
           && RequestAnswer(cfg, l, t, e) == Some(Answer(2, "memory_unavailable"))
         else
           && WithAttempt(m.db, u.mem.db, r, r.talk.value, Stage.Failed, "busy")
           && RequestAnswer(cfg, l, t, e) == Some(Answer(6, "busy"))
  {
    hide Submits, ServerInv, Inv, CanHappen, ForeignKeys, After, RequestAnswer, CurrentPlan, Next, TalkAnswer,
         SubmitAnswer, WithAttempt, InsertAttempt, StepFor, SetStage;
    SubmitsPlan(cfg, l, t, e);
    SubmitEvent(cfg, l, t, e);
    StoreAnswers(cfg, l, t, e);
    Inserts(t.mem.db, t.control.request, t.control.request.talk.value);
    InsertsThenFails(t.mem.db, t.control.request, t.control.request.talk.value, "busy");
  }

  /** And one for which no worker id is left: the store is not asked. */
  lemma NoWorkerId(cfg: Config, l: Limits, t: Server, e: Event)
    requires Submits(cfg, l, t, e) && t.mem.nextWorker >= 0xFFFF_FFFF
    ensures Inv(l, t.sys)
    ensures var r, m, u := t.control.request, t.mem, After(cfg, l, t, e);
      && u.mem.running == m.running && u.mem.nextWorker == m.nextWorker && u.sys == t.sys && u.control == Idle
      && if e.late then
           && WithAttempt(m.db, u.mem.db, r, r.talk.value, Stage.Pending, "")
           && RequestAnswer(cfg, l, t, e) == Some(Answer(2, "memory_unavailable"))
         else
           && WithAttempt(m.db, u.mem.db, r, r.talk.value, Stage.Failed, "worker_capacity")
           && RequestAnswer(cfg, l, t, e) == Some(Answer(2, "worker_capacity"))
  {
    hide Submits, ServerInv, Inv, CanHappen, ForeignKeys, After, RequestAnswer, CurrentPlan, WithAttempt,
         InsertAttempt, SetStage, StoreAnswer;
    SubmitsPlan(cfg, l, t, e);
    SubmitEvent(cfg, l, t, e);
    Inserts(t.mem.db, t.control.request, t.control.request.talk.value);
    InsertsThenFails(t.mem.db, t.control.request, t.control.request.talk.value, "worker_capacity");
  }

  // ------------------------------------------------------------------ collecting

  /** What a job, or its absence, is to the attempt that led to it: the stage and the reply. */
  function Comes(s: Inner, id: Id): Option<(Stage, string)> {
    if id !in s.jobs then Some((Stage.Failed, "unknown_job"))
    else match s.jobs[id].state
      case Pending => None
      case Ready(raw) =>
        (match Sanitize.SanitizeText(raw)
         case Ok(text) => Some((Stage.Ready, text))
         case Err(_) => Some((Stage.Ready, "empty_reply")))
      case Failed(reason) => Some((Stage.Failed, reason))
      case Canceled(reason) => Some((Stage.Canceled, reason))
  }

  /** The tables where the verdict is recorded: on a pending row, and on no other. */
  function WithVerdict(db: Db, a: nat, verdict: (Stage, string)): Db
    requires a < |db.attempts|
  {
    if db.attempts[a].stage.Pending? then
      db.(attempts := db.attempts[a := db.attempts[a].(stage := verdict.0, reply := verdict.1)])
    else db
  }

  lemma VerdictOf(s: Inner, id: Id)
    ensures match Comes(s, id)
            case None => AnswerFor(s, id).code == CODE_PENDING
            case Some(v) => AnswerFor(s, id).code != CODE_PENDING && Verdict(AnswerFor(s, id)) == v
  {
    hide Sanitize.SanitizeText;
    if id in s.jobs && s.jobs[id].state.Ready? {
      EmptyReply(s.jobs[id].state.raw);
    }
  }

  lemma EmptyReply(raw: string)
    ensures Sanitize.SanitizeText(raw).Err? ==> Sanitize.SanitizeText(raw).error == "empty_reply"
  {
  }

  /**
   * One visit of the collecting loop: a job still PENDING leaves everything as it is; any other, or none,
   * settles the attempt's row and takes its route; a failing update leaves both and ends the request.
   */
  lemma CollectMakes(cfg: Config, l: Limits, t: Server, a: nat, now: Time, ok: bool)
    requires Reachable(cfg, l, t) && CanHappen(t, Collect(a, now, ok))
    ensures Inv(l, t.sys) && a < |t.mem.db.attempts|
    ensures var u, e, s := After(cfg, l, t, Collect(a, now, ok)), Collect(a, now, ok), Sweep(l, t.sys.inner, now);
      && u.sys == Sys(s, t.sys.worker)
      && match Comes(s, t.mem.running[a])
         case None => u.mem == t.mem && u.control == t.control.(todo := t.control.todo - {a})
         case Some(verdict) =>
           if ok then
             && u.mem == Mem(WithVerdict(t.mem.db, a, verdict), t.mem.running - {a}, t.mem.nextWorker)
             && u.control == t.control.(todo := t.control.todo - {a})
           else
             u.mem == t.mem && u.control == Idle && RequestAnswer(cfg, l, t, e) == Some(Answer(2, "memory_unavailable"))
  {
    hide Reachable, ServerInv, Inv, Sweep, AnswerFor, Verdict, Comes;
    ReachableInv(cfg, l, t);
    RoutedRow(l, t, a);
    VerdictOf(Sweep(l, t.sys.inner, now), t.mem.running[a]);
  }

  lemma RoutedRow(l: Limits, t: Server, a: nat)
    requires ServerInv(l, t) && a in t.mem.running
    ensures Inv(l, t.sys) && a < |t.mem.db.attempts|
  {
    hide Inv, Tracked, Routed, SubmissionsOk, RepliesOk, ShownOk, PendingOk, DbInv;
  }

  // ------------------------------------------------------------------ a crash

  /**
   * After a crash and reopening, what was pending has failed as interrupted and all else in the tables is as
   * it was; there are no routes, the worker ids start over above the request ids, and the store is empty.
   */
  lemma CrashMakes(cfg: Config, l: Limits, t: Server)
    requires Inv(l, t.sys)
    ensures var u := After(cfg, l, t, Crash);
      && |u.mem.db.attempts| == |t.mem.db.attempts|
      && (forall a :: 0 <= a < |t.mem.db.attempts| ==>
            u.mem.db.attempts[a] == if t.mem.db.attempts[a].stage.Pending?
              then t.mem.db.attempts[a].(stage := Stage.Failed, reply := "interrupted") else t.mem.db.attempts[a])
      && u.mem.db == t.mem.db.(attempts := u.mem.db.attempts)
      && u.mem.running == map[] && u.mem.nextWorker == 1_000_000_000 && u.control == Idle
      && u.sys == Sys(Inner(map[], [], None), Polling)
  {
    hide Inv, NextPast;
  }
}
