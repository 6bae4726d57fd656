/**
 * A reply that its frame does not show: `living.rs` stores what the sanitizer makes of an outcome, and
 * the handler's frame sanitizes that text once more.
 */
module Framing {
  import opened Prelude
  import opened Protocol
  import opened Identity
  import opened Jobs
  import opened Runs
  import opened Living
  import opened Server
  import opened Custody
  import opened Provenance
  import Frame
  import Sanitize

  // ------------------------------------------------------------------ one more event

  /** What happens in a reachable state leads to a reachable state. */
  lemma ReachedByEvent(cfg: Config, l: Limits, s: Server, e: Event, t: Server)
    requires Reachable(cfg, l, s) && CanHappen(s, e) && (ReachableInv(cfg, l, s); t == After(cfg, l, s, e))
    ensures Reachable(cfg, l, t)
  {
    hide ServerInv, CanRun, Run, After, CanHappen;
    FreshInv(l);
    var events :| CanRun(cfg, l, FRESH, events) && s == Run(cfg, l, FRESH, events);
    OneMoreEvent(cfg, l, FRESH, events, e);
  }

  // ------------------------------------------------------------------ the run

  /** The default limits. */
  const DEFAULTS := Limits(64, 8, 600, 90)

  /** The first worker id. */
  const FIRST := RID_MAX + 1

  /** A first talk that the memory accepts. */
  datatype Case = Case(place: Place, job: nat, payload: Payload, prompt: string)
  {
    ghost predicate Accepted(cfg: Config) {
      && place.Valid() && payload.npc in cfg.profiles
      && prompt == cfg.prompt(payload, Recollection([], [])) && cfg.size(prompt) <= MAX_PROMPT
    }

    function Asking(): Request { Request(place, job, OpTalk, Some(payload)) }

    function AskingAgain(): Request { Request(place, job, OpResult, None) }

    function Work(): Job { Job(TalkOf(payload), Some(prompt), place.Scope(), Jobs.Pending, 0, 90, None) }

    function Table(stage: Stage, reply: string): Db {
      Db({(place.camp, place.branch)}, [Conversation(place, payload.npc, payload.day)],
         [Attempt(0, job, payload, stage, reply, payload.day)], [])
    }

    function Past(): History {
      History(0, [], [Submission(0, FIRST, 0, TalkOf(payload), prompt, place.Scope(), 0)], [], [], [], {})
    }

    function Requested(): Server {
      FRESH.(control := Collecting(Asking(), {}))
    }

    function Submitted(): Server {
      Server(Sys(Inner(map[FIRST := Work()], [FIRST], None), Polling),
             Mem(Table(Stage.Pending, ""), map[0 := FIRST], FIRST + 1), Idle, Past())
    }

    function Started(): Server {
      Submitted().(
        sys := Sys(Inner(map[FIRST := Work()], [], Some(Running(FIRST, None))), Working(Item(FIRST, Work()), false)),
        past := Past().(started := [Ticket(0, FIRST)]))
    }

    function Finished(raw: string): Server {
      Submitted().(
        sys := Sys(Inner(map[FIRST := Work().Settled(Jobs.Ready(raw), 0)], [], None), Polling),
        past := Past().(started := [Ticket(0, FIRST)], generated := [Generation(0, Item(FIRST, Work()), raw)]))
    }

    function AskedAgain(raw: string): Server {
      Finished(raw).(control := Collecting(AskingAgain(), {0}))
    }

    function Collected(raw: string, reply: string): Server {
      Finished(raw).(mem := Mem(Table(Stage.Ready, reply), map[], FIRST + 1), control := Collecting(AskingAgain(), {}))
    }
  }

  lemma NothingOverdue(s: Inner, now: Time)
    requires forall id :: id in s.jobs ==> s.jobs[id].deadline == 90 && now < 90 && !Expired(DEFAULTS, s.jobs[id], now)
    ensures Overdue(s, now) == {} && Sweep(DEFAULTS, s, now) == s
  {
    SettleNothing(s, Jobs.Failed(REASON_TIMEOUT), now);
  }

  /** The store is empty, so it admits the job. */
  lemma FirstJob(c: Case)
    ensures Admits(DEFAULTS, EMPTY_STORE, FIRST, TalkOf(c.payload), c.place.Scope(), 0)
    ensures TalkTo(DEFAULTS, EMPTY_STORE, FIRST, TalkOf(c.payload), Some(c.prompt), c.place.Scope(), 0)
         == Inner(map[FIRST := c.Work()], [FIRST], None)
    ensures TalkAnswer(DEFAULTS, EMPTY_STORE, FIRST, TalkOf(c.payload), c.place.Scope(), 0) == PENDING_ANSWER
  {
    hide Sweep;
    NothingOverdue(EMPTY_STORE, 0);
    assert Victims(EMPTY_STORE, LIVING_NPC, c.place.Scope()) == {};
    SettleNothing(EMPTY_STORE, Jobs.Canceled(REASON_SUPERSEDED), 0);
    assert MakeRoom(DEFAULTS, EMPTY_STORE, LIVING_NPC, c.place.Scope(), 0) == EMPTY_STORE;
  }

  lemma FirstPlan(cfg: Config, c: Case)
    requires c.Accepted(cfg)
    ensures PlanFor(cfg, NO_TABLES, c.Asking()) == Plan.Submit(c.payload, c.prompt)
  {
    assert Heard(NO_TABLES, [], c.place.camp, c.place.branch, c.payload.npc) == [];
    assert Memories(NO_TABLES, c.place.camp, c.place.branch, c.payload.npc) == Recollection([], []);
    assert !BranchAhead(NO_TABLES, c.place.camp, c.place.branch, c.payload.day) && !HasActive(NO_TABLES, c.place);
  }

  lemma RecoversNothing()
    ensures Recover(NO_TABLES) == NO_TABLES
  {
  }

  lemma Begins(cfg: Config, s: Server, e: Event, t: Server)
    requires Inv(DEFAULTS, s.sys) && CanHappen(s, e) && e.Begin?
    requires t == s.(control := Collecting(e.request, s.mem.running.Keys))
    ensures After(cfg, DEFAULTS, s, e) == t
  {
    hide Inv;
  }

  lemma Requests(cfg: Config, c: Case)
    requires c.Accepted(cfg) && Reachable(cfg, DEFAULTS, FRESH)
    ensures Reachable(cfg, DEFAULTS, c.Requested())
  {
    hide Reachable, MemOk, Inv, Tracked, Routed, Recover;
    ReachableInv(cfg, DEFAULTS, FRESH);
    var s, e := FRESH, Begin(c.Asking());
    assert s.mem.running.Keys == {};
    Begins(cfg, s, e, c.Requested());
    ReachedByEvent(cfg, DEFAULTS, s, e, c.Requested());
  }

  lemma SubmissionPlanned(cfg: Config, c: Case)
    requires c.Accepted(cfg)
    ensures var s, e := c.Requested(), Act(0, true, false);
      && s.mem == Mem(NO_TABLES, map[], FIRST) && CanHappen(s, e)
      && CurrentPlan(cfg, s) == Plan.Submit(c.payload, c.prompt)
  {
    hide PlanFor, Recover, Place.Valid, Case.Accepted;
    RecoversNothing();
    FirstPlan(cfg, c);
  }

  /** The access and the answer of the submission. */
  lemma SubmissionAsked(cfg: Config, c: Case)
    requires c.Accepted(cfg)
    ensures var s, e := c.Requested(), Act(0, true, false);
      && s.mem == Mem(NO_TABLES, map[], FIRST) && CanHappen(s, e)
      && CurrentPlan(cfg, s) == Plan.Submit(c.payload, c.prompt)
      && Access(cfg, s, e) == Some(TalkStep(s.mem, c.place, c.payload, c.prompt, 0))
      && SubmitAnswer(DEFAULTS, s, PlannedSubmit(s, CurrentPlan(cfg, s), e)) == PENDING_ANSWER
  {
    hide Case.Accepted, CurrentPlan, TalkAnswer, Recover, Place.Scope, CanHappen, ForeignKeys;
    SubmissionPlanned(cfg, c);
    FirstJob(c);
  }

  lemma SubmissionMade(cfg: Config, c: Case)
    requires c.Accepted(cfg)
    ensures var s, e := c.Requested(), Act(0, true, false);
      && CanHappen(s, e) && NextMem(cfg, DEFAULTS, s, e) == c.Submitted().mem
  {
    hide CurrentPlan, SubmitAnswer, Recover, ForeignKeys;
    SubmissionAsked(cfg, c);
    var s := c.Requested();
    InsertsFirst(c);
  }

  lemma InsertsFirst(c: Case)
    ensures InsertAttempt(NO_TABLES, c.place, c.job, c.payload) == c.Table(Stage.Pending, "")
  {
  }

  lemma SubmissionRecorded(cfg: Config, c: Case)
    requires c.Accepted(cfg)
    ensures var s, e := c.Requested(), Act(0, true, false);
      && CanHappen(s, e) && QueueOk(s.sys.inner) && NextPast(cfg, DEFAULTS, s, e) == c.Past()
  {
    hide Case.Accepted, CurrentPlan, SubmitAnswer, SubmitMem, Recover, ForeignKeys, Place.Scope;
    SubmissionAsked(cfg, c);
    SubmissionMade(cfg, c);
  }

  lemma SubmissionQueued(cfg: Config, c: Case)
    requires c.Accepted(cfg) && Inv(DEFAULTS, c.Requested().sys)
    ensures var s, e := c.Requested(), Act(0, true, false);
      CanHappen(s, e) && NextSys(cfg, DEFAULTS, s, e) == c.Submitted().sys
  {
    hide Inv, CurrentPlan, SubmitAnswer, Recover, TalkTo, Admits, CanHappen, PlanFor, Access;
    SubmissionAsked(cfg, c);
    FirstJob(c);
  }

  lemma Submits(cfg: Config, c: Case)
    requires c.Accepted(cfg) && Reachable(cfg, DEFAULTS, c.Requested())
    ensures Reachable(cfg, DEFAULTS, c.Submitted())
  {
    hide Reachable, MemOk, Inv, Tracked, Routed, NextMem, NextSys, NextPast, CanHappen, Recover;
    var s, e := c.Requested(), Act(0, true, false);
    ReachableInv(cfg, DEFAULTS, s);
    SubmissionMade(cfg, c);
    SubmissionRecorded(cfg, c);
    SubmissionQueued(cfg, c);
    ReachedByEvent(cfg, DEFAULTS, s, e, c.Submitted());
  }

  lemma Starts(cfg: Config, c: Case)
    requires Reachable(cfg, DEFAULTS, c.Submitted())
    ensures Reachable(cfg, DEFAULTS, c.Started())
  {
    hide Reachable, MemOk, Tracked, Routed, ControlOk, Valid, Settle;
    var s, e := c.Submitted(), Other(DoPoll(0));
    ReachableInv(cfg, DEFAULTS, s);
    assert LeadingOverdue(s.sys.inner, s.sys.inner.queue, 0) == 0;
    assert Elements(s.sys.inner.queue[..0]) == {};
    SettleNothing(s.sys.inner, Jobs.Failed(REASON_TIMEOUT), 0);
    assert After(cfg, DEFAULTS, s, e) == c.Started();
    ReachedByEvent(cfg, DEFAULTS, s, e, c.Started());
  }

  lemma Finishes(cfg: Config, c: Case, raw: string)
    requires Reachable(cfg, DEFAULTS, c.Started()) && Decide(Ok(raw)) == Jobs.Ready(raw)
    ensures Reachable(cfg, DEFAULTS, c.Finished(raw))
  {
    hide Reachable, MemOk, Tracked, Routed, ControlOk, Valid, Decide, Sweep;
    var s, e := c.Started(), Other(DoFinish(Ok(raw), 0));
    ReachableInv(cfg, DEFAULTS, s);
    NothingOverdue(s.sys.inner.(running := None), 0);
    assert After(cfg, DEFAULTS, s, e) == c.Finished(raw);
    ReachedByEvent(cfg, DEFAULTS, s, e, c.Finished(raw));
  }

  lemma AsksAgain(cfg: Config, c: Case, raw: string)
    requires c.place.Valid() && Reachable(cfg, DEFAULTS, c.Finished(raw))
    ensures Reachable(cfg, DEFAULTS, c.AskedAgain(raw))
  {
    hide Reachable, MemOk, Inv, Tracked, Routed;
    var s, e := c.Finished(raw), Begin(c.AskingAgain());
    ReachableInv(cfg, DEFAULTS, s);
    assert s.mem.running.Keys == {0};
    Begins(cfg, s, e, c.AskedAgain(raw));
    ReachedByEvent(cfg, DEFAULTS, s, e, c.AskedAgain(raw));
  }

  lemma Collects(cfg: Config, c: Case, raw: string, reply: string)
    requires Reachable(cfg, DEFAULTS, c.AskedAgain(raw)) && Sanitize.SanitizeText(raw) == Ok(reply)
    ensures Reachable(cfg, DEFAULTS, c.Collected(raw, reply))
  {
    hide Reachable, MemOk, Inv, Tracked, Routed, Sanitize.SanitizeText, Sweep;
    var s, e := c.AskedAgain(raw), Collect(0, 0, true);
    ReachableInv(cfg, DEFAULTS, s);
    NothingOverdue(s.sys.inner, 0);
    CollectsInto(c, raw, reply);
    assert s.sys.inner.jobs[FIRST].Reply() == Answer(CODE_READY, raw);
    assert {0} - {0} == {};
    assert NextMem(cfg, DEFAULTS, s, e) == c.Collected(raw, reply).mem;
    assert NextSys(cfg, DEFAULTS, s, e) == s.sys;
    assert After(cfg, DEFAULTS, s, e) == c.Collected(raw, reply);
    ReachedByEvent(cfg, DEFAULTS, s, e, c.Collected(raw, reply));
  }

  lemma CollectsInto(c: Case, raw: string, reply: string)
    requires Sanitize.SanitizeText(raw) == Ok(reply)
    ensures CollectOne(c.Submitted().mem, 0, Answer(CODE_READY, raw)) == c.Collected(raw, reply).mem
  {
    hide Sanitize.SanitizeText;
    assert c.Submitted().mem.running - {0} == map[];
  }

  lemma FreshReached(cfg: Config, l: Limits)
    ensures Reachable(cfg, l, FRESH)
  {
    hide ServerInv;
    FreshInv(l);
    assert CanRun(cfg, l, FRESH, []) && FRESH == Run(cfg, l, FRESH, []);
  }

  /** Any outcome that the sanitizer accepts becomes the stored reply of some reachable state. */
  lemma AnyOutcomeIsStored(cfg: Config, c: Case, raw: string)
    requires c.Accepted(cfg) && Sanitize.SanitizeText(raw).Ok?
    ensures Reachable(cfg, DEFAULTS, c.Collected(raw, Sanitize.SanitizeText(raw).value))
  {
    hide Reachable, Sanitize.SanitizeText;
    FreshReached(cfg, DEFAULTS);
    Requests(cfg, c);
    Submits(cfg, c);
    Starts(cfg, c);
    Finishes(cfg, c, raw);
    AsksAgain(cfg, c, raw);
    Collects(cfg, c, raw, Sanitize.SanitizeText(raw).value);
  }

  lemma AnswersCollected(cfg: Config, c: Case, raw: string, reply: string)
    ensures var t, e := c.Collected(raw, reply), Act(0, true, false);
      CanHappen(t, e) && RequestAnswer(cfg, DEFAULTS, t, e) == Some(Answer(CODE_READY, reply))
  {
    var t := c.Collected(raw, reply);
    assert FindAttempt(t.mem.db, c.place, c.job) == Some(0);
  }

  /**
   * The stored reply `a<think>` of a reachable state: it answers the request, and the frame of that answer
   * does not show it. The backend's outcome was `a<`, an empty think block and `think>`.
   */
  lemma StoredReplyIsNotShown(cfg: Config, c: Case, raw: string, reply: string, rid: nat)
    requires c.Accepted(cfg)
    requires |reply| == 8 && reply[0] == 'a' && reply[1..] == Sanitize.OPEN
    requires raw == reply[..2] + Sanitize.OPEN + (Sanitize.CLOSE + reply[2..])
    ensures var t, e := c.Collected(raw, reply), Act(0, true, false);
      && Reachable(cfg, DEFAULTS, t) && t.mem.db.attempts[0].HasReply() && t.mem.db.attempts[0].reply == reply
      && CanHappen(t, e) && RequestAnswer(cfg, DEFAULTS, t, e) == Some(Answer(CODE_READY, reply))
    ensures |Split(Frame.Frame(rid, CODE_READY, reply), '|')| == 4
      && Split(Frame.Frame(rid, CODE_READY, reply), '|')[2] != reply
  {
    hide Reachable, Sanitize.SanitizeText, Frame.Frame, Split, RequestAnswer, CanHappen, Sanitize.StripThink;
    Sanitize.NotIdempotent(raw, reply);
    AnyOutcomeIsStored(cfg, c, raw);
    AnswersCollected(cfg, c, raw, reply);
    Sanitize.SanitizeTwice(raw);
    RepliesAsFramed(cfg, DEFAULTS, c.Collected(raw, reply), 0, rid);
  }
}
