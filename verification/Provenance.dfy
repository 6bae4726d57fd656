/**
 * What holds in every state of every run of the whole server, across failed writes and crashes (`living.rs`
 * over `jobs.rs`).
 */
module Provenance {
  import opened Prelude
  import opened Protocol
  import opened Identity
  import opened Jobs
  import opened Runs
  import opened Living
  import opened Server
  import opened Custody
  import opened Keeping
  import opened Acting
  import opened Submitting
  import Frame
  import Recall
  import Sanitize

  // ------------------------------------------------------------------ runs

  lemma BeginKeeps(cfg: Config, l: Limits, s: Server, r: Request)
    requires ServerInv(l, s) && CanHappen(s, Begin(r))
    ensures ServerInv(l, After(cfg, l, s, Begin(r)))
  {
    hide Inv, MemOk, Tracked, Routed;
  }

  lemma EventKeeps(cfg: Config, l: Limits, s: Server, e: Event)
    requires ServerInv(l, s) && CanHappen(s, e)
    ensures ServerInv(l, After(cfg, l, s, e))
  {
    hide Inv, MemOk, Tracked, Routed, PlanFor, After, ControlOk;
    match e
    case Other(step) => OtherKeeps(cfg, l, s, step);
    case Begin(r) => BeginKeeps(cfg, l, s, r);
    case Collect(a, now, ok) => CollectKeeps(cfg, l, s, a, now, ok);
    case Crash => CrashKeeps(cfg, l, s);
    case Act(_, ok, _) =>
      if !ok {
        QuietKeeps(cfg, l, s, e);
      } else {
        match CurrentPlan(cfg, s)
        case Withdraw(_) => WithdrawKeeps(cfg, l, s, e);
        case Acknowledge(_) => AcknowledgeKeeps(cfg, l, s, e);
        case Submit(_, _) => SubmitKeeps(cfg, l, s, e);
        case _ => QuietKeeps(cfg, l, s, e);
      }
  }

  lemma FreshInv(l: Limits)
    ensures ServerInv(l, FRESH)
  {
    hide Inv, Tracked, MemOk;
    StartInv(l);
    FreshMem();
    FreshTracked();
  }

  lemma FreshMem()
    ensures MemOk(FRESH.mem, FRESH.past)
  {
    hide MemOk;
    assert FRESH.mem.db.attempts == [] && FRESH.mem.running == map[];
    EmptyMem(FRESH.mem, FRESH.past);
  }

  lemma EmptyMem(m: Mem, past: History)
    requires m.db.conversations == [] && m.db.attempts == [] && m.db.messages == [] && m.running == map[]
    requires RID_MAX < m.nextWorker <= U32_MAX
    requires past.order == [] && past.submitted == [] && past.shown == [] && past.lost == {}
    ensures MemOk(m, past)
  {
    hide SubmissionsOk, RepliesOk, ShownOk;
    NothingRecorded(m.db, past, m.nextWorker);
  }

  lemma NothingRecorded(db: Db, past: History, next: nat)
    requires db.attempts == [] && past.submitted == [] && past.shown == []
    ensures SubmissionsOk(db, past, next) && RepliesOk(db, past) && ShownOk(db, past)
  {
  }

  lemma FreshTracked()
    ensures Tracked(FRESH.past, FRESH.mem.nextWorker, FRESH.sys)
  {
  }

  ghost predicate CanRun(cfg: Config, l: Limits, s: Server, events: seq<Event>)
    requires ServerInv(l, s)
    decreases |events|
  {
    if events == [] then true
    else
      && CanHappen(s, events[0])
      && (EventKeeps(cfg, l, s, events[0]); CanRun(cfg, l, After(cfg, l, s, events[0]), events[1..]))
  }

  ghost function Run(cfg: Config, l: Limits, s: Server, events: seq<Event>): Server
    requires ServerInv(l, s) && CanRun(cfg, l, s, events)
    decreases |events|
  {
    if events == [] then s
    else EventKeeps(cfg, l, s, events[0]); Run(cfg, l, After(cfg, l, s, events[0]), events[1..])
  }

  /** The invariant holds wherever a run leads. */
  lemma {:induction false} RunKeepsInv(cfg: Config, l: Limits, s: Server, events: seq<Event>)
    requires ServerInv(l, s) && CanRun(cfg, l, s, events)
    ensures ServerInv(l, Run(cfg, l, s, events))
    decreases |events|
  {
    hide MemOk, Inv, Tracked, Routed, ControlOk, CanHappen, NextSys, NextMem, NextControl, NextPast;
    if events != [] {
      EventKeeps(cfg, l, s, events[0]);
      RunKeepsInv(cfg, l, After(cfg, l, s, events[0]), events[1..]);
    }
  }

  /** A run and then one more event. */
  lemma {:induction false} OneMoreEvent(cfg: Config, l: Limits, s: Server, events: seq<Event>, e: Event)
    requires ServerInv(l, s) && CanRun(cfg, l, s, events) && CanHappen(Run(cfg, l, s, events), e)
    ensures CanRun(cfg, l, s, events + [e]) && ServerInv(l, Run(cfg, l, s, events))
    ensures Run(cfg, l, s, events + [e]) == After(cfg, l, Run(cfg, l, s, events), e)
    decreases |events|
  {
    hide MemOk, Inv, Tracked, Routed, ControlOk, CanHappen, NextSys, NextMem, NextControl, NextPast;
    RunKeepsInv(cfg, l, s, events);
    if events == [] {
      assert ([e])[1..] == [];
      EventKeeps(cfg, l, s, e);
    } else {
      assert (events + [e])[1..] == events[1..] + [e];
      EventKeeps(cfg, l, s, events[0]);
      OneMoreEvent(cfg, l, After(cfg, l, s, events[0]), events[1..], e);
    }
  }

  /** A state that some run of a server on an empty database leads to. */
  ghost predicate Reachable(cfg: Config, l: Limits, t: Server) {
    FreshInv(l);
    exists events :: CanRun(cfg, l, FRESH, events) && t == Run(cfg, l, FRESH, events)
  }

  lemma ReachableInv(cfg: Config, l: Limits, t: Server)
    requires Reachable(cfg, l, t)
    ensures ServerInv(l, t)
  {
    hide ServerInv, CanRun, Run;
    FreshInv(l);
    var events :| CanRun(cfg, l, FRESH, events) && t == Run(cfg, l, FRESH, events);
    RunKeepsInv(cfg, l, FRESH, events);
  }

  // ------------------------------------------------------------------ whose reply it is

  /**
   * Attempt `a` was submitted once, as `i`, with its own message, and the backend's outcome `k` is the
   * only one of that submission's worker id: the reply is what the sanitizer makes of it.
   */
  ghost predicate Proven(t: Server, a: nat, i: nat, k: nat) {
    var past, row := t.past, t.mem.db.attempts;
    && a < |row| && i < |past.submitted| && k < |past.generated|
    && var sub, made := past.submitted[i], past.generated[k];
    && sub.attempt == a && sub.talk == TalkOf(row[a].payload)
    && (forall j :: 0 <= j < |past.submitted| && j != i ==> past.submitted[j].attempt != a)
    && made.epoch == sub.epoch && made.item.id == sub.worker && made.item.talk == sub.talk
    && made.item.prompt == Some(sub.prompt)
    && (forall m :: 0 <= m < |past.generated| && m != k ==> TicketOf(past.generated[m]) != TicketOf(made))
    && Sanitize.SanitizeText(made.raw) == Ok(row[a].reply)
  }

  lemma OwnReplyIsProven(t: Server, a: nat)
    requires ForeignKeys(t.mem.db) && SubmissionsOk(t.mem.db, t.past, t.mem.nextWorker)
      && OutcomesOnce(t.past, t.sys.worker)
    requires a < |t.mem.db.attempts| && OwnReply(t.past, a, t.mem.db.attempts[a].reply)
    ensures exists i, k :: Proven(t, a, i, k)
  {
    var past := t.past;
    var i, k :| 0 <= i < |past.submitted| && 0 <= k < |past.generated| && past.submitted[i].attempt == a
      && MadeOf(past.generated[k], past.submitted[i], t.mem.db.attempts[a].reply);
    assert SubmissionOk(t.mem.db, past, t.mem.nextWorker, past.submitted[i]);
    assert Proven(t, a, i, k);
  }

  /** Every reply that the database holds was generated for its own attempt, across crashes and failed writes. */
  lemma RepliesAreProven(cfg: Config, l: Limits, t: Server, a: nat)
    requires Reachable(cfg, l, t) && a < |t.mem.db.attempts| && t.mem.db.attempts[a].HasReply()
    ensures exists i, k :: Proven(t, a, i, k)
  {
    hide CanRun, Run, Inv, DbInv, Routed, RoutesOk, PendingOk, ShownOk, JobsTracked, ItemTracked, StartsTracked,
         OutcomesOnce, SubmissionsOk, OwnReply, Proven;
    ReachableInv(cfg, l, t);
    MemFacts(t.mem, t.past);
    OwnReplyIsProven(t, a);
  }

  lemma ShownWhole(rid: nat, reply: string)
    requires Sanitize.WellFormed(reply)
    ensures |Frame.Frame(rid, CODE_READY, reply)| <= 522 && |Split(Frame.Frame(rid, CODE_READY, reply), '|')| == 4
    ensures Split(Frame.Frame(rid, CODE_READY, reply), '|')[2] == reply <==> !Sanitize.Contains(reply, Sanitize.OPEN)
  {
    hide Frame.Frame, Split, Sanitize.SanitizeText, Sanitize.WellFormed;
    Frame.FrameRoundTrip(rid, CODE_READY, reply);
    Sanitize.FixedPointIffNoThink(reply);
    if reply == REASON_EMPTY_REPLY {
      EmptyReplyHasNoThink(reply);
    }
  }

  lemma EmptyReplyHasNoThink(reply: string)
    requires reply == REASON_EMPTY_REPLY
    ensures !Sanitize.Contains(reply, Sanitize.OPEN)
  {
    forall i: nat ensures !Sanitize.OccursAt(reply, i, Sanitize.OPEN) {
      if i + |Sanitize.OPEN| <= |reply| {
        assert reply[i] != '<';
      }
    }
  }

  /**
   * The frame sanitizes the stored reply once more. The client gets it whole exactly when it contains no
   * opening think tag, in every reachable state.
   */
  lemma RepliesAsFramed(cfg: Config, l: Limits, t: Server, a: nat, rid: nat)
    requires Reachable(cfg, l, t) && a < |t.mem.db.attempts| && t.mem.db.attempts[a].HasReply()
    ensures var reply := t.mem.db.attempts[a].reply;
      && |Split(Frame.Frame(rid, CODE_READY, reply), '|')| == 4
      && (Split(Frame.Frame(rid, CODE_READY, reply), '|')[2] == reply <==> !Sanitize.Contains(reply, Sanitize.OPEN))
  {
    hide CanRun, Run, ServerInv, Reachable, Frame.Frame, Split, Sanitize.SanitizeText, Sanitize.WellFormed;
    RepliesAreProven(cfg, l, t, a);
    var i: nat, k: nat :| Proven(t, a, i, k);
    Sanitize.SanitizedIsWellFormed(t.past.generated[k].raw);
    ShownWhole(rid, t.mem.db.attempts[a].reply);
  }

  /**
   * Each attempt is submitted to the store at most once ever, and the worker takes the job of an attempt at
   * most once ever, across crashes: whatever it takes of version 2 was submitted for exactly one attempt,
   * and no two takings are of the same one.
   */
  lemma AtMostOnce(cfg: Config, l: Limits, t: Server)
    requires Reachable(cfg, l, t)
    ensures forall i, j ::
      0 <= i < j < |t.past.submitted| ==> t.past.submitted[i].attempt != t.past.submitted[j].attempt
    ensures forall i :: 0 <= i < |t.past.started| && IsLiving(t.past.started[i].worker) ==>
      exists a: nat :: a < |t.mem.db.attempts| && IsStartOf(t.past, t.past.started[i], a)
    ensures forall i, j, a: nat, b: nat | 0 <= i <= j < |t.past.started|
              && IsStartOf(t.past, t.past.started[i], a) && IsStartOf(t.past, t.past.started[j], b) ::
      a == b <==> i == j
    ensures forall i, j | 0 <= i < j < |t.past.started| && IsLiving(t.past.started[i].worker) ::
      t.past.started[i] != t.past.started[j]
  {
    hide CanRun, Run, Reachable, Inv, DbInv, RoutesOk, PendingOk, RepliesOk, ShownOk, SubmissionsOk, JobsTracked,
         ItemTracked, OutcomesOnce, StartsTracked, StartsSubmitted, IsStartOf, Routed;
    ReachableInv(cfg, l, t);
    MemFacts(t.mem, t.past);
    StartedOnce(t.mem.db, t.past, t.mem.nextWorker, t.sys.inner);
  }

  lemma StartOfOne(db: Db, past: History, next: nat, ticket: Ticket, a: nat)
    requires ForeignKeys(db) && SubmissionsOk(db, past, next) && IsStartOf(past, ticket, a)
    ensures a < |db.attempts| && IsLiving(ticket.worker)
    ensures forall other, b: nat :: IsStartOf(past, other, b) ==> (a == b <==> ticket == other)
  {
    var k :| 0 <= k < |past.submitted| && past.submitted[k].attempt == a
      && past.submitted[k].epoch == ticket.epoch && past.submitted[k].worker == ticket.worker;
    assert SubmissionOk(db, past, next, past.submitted[k]);
  }

  lemma StartedOnce(db: Db, past: History, next: nat, s: Inner)
    requires ForeignKeys(db) && SubmissionsOk(db, past, next) && StartsTracked(past, next, s) && StartsSubmitted(past)
    ensures forall i :: 0 <= i < |past.started| && IsLiving(past.started[i].worker) ==>
      exists a: nat :: a < |db.attempts| && IsStartOf(past, past.started[i], a)
    ensures forall i, j, a: nat, b: nat | 0 <= i <= j < |past.started|
              && IsStartOf(past, past.started[i], a) && IsStartOf(past, past.started[j], b) ::
      a == b <==> i == j
    ensures forall i, j | 0 <= i < j < |past.started| && IsLiving(past.started[i].worker) ::
      past.started[i] != past.started[j]
    ensures forall i, j :: 0 <= i < j < |past.submitted| ==> past.submitted[i].attempt != past.submitted[j].attempt
  {
    hide IsStartOf, SubmissionOk;
    forall i, a: nat | 0 <= i < |past.started| && IsStartOf(past, past.started[i], a)
      ensures a < |db.attempts| && IsLiving(past.started[i].worker)
      ensures forall other, b: nat :: IsStartOf(past, other, b) ==> (a == b <==> past.started[i] == other)
    {
      StartOfOne(db, past, next, past.started[i], a);
    }
  }

  /** The fallback for a reply that cannot be sanitized is never taken: what the store calls READY has a text. */
  lemma FallbackIsDead(cfg: Config, l: Limits, t: Server, a: nat, now: Time)
    requires Reachable(cfg, l, t) && a in t.mem.running
    requires AnswerFor(Sweep(l, t.sys.inner, now), t.mem.running[a]).code == CODE_READY
    ensures Sanitize.SanitizeText(AnswerFor(Sweep(l, t.sys.inner, now), t.mem.running[a]).text).Ok?
  {
    hide CanRun, Run, MemOk, Tracked, Routed;
    ReachableInv(cfg, l, t);
    SweepValid(l, t.sys.inner, now);
    assert JobOk(l, Sweep(l, t.sys.inner, now).jobs[t.mem.running[a]]);
  }

  /** A pending attempt is routed into the store, unless the write that would have closed it failed. */
  lemma PendingIsRouted(cfg: Config, l: Limits, t: Server, a: nat)
    requires Reachable(cfg, l, t) && a < |t.mem.db.attempts|
    ensures a in t.mem.running <==> t.mem.db.attempts[a].stage.Pending? && a !in t.past.lost
  {
    hide CanRun, Run, Inv, DbInv, Tracked, Routed, SubmissionsOk, RepliesOk, ShownOk;
    ReachableInv(cfg, l, t);
  }

  // ------------------------------------------------------------------ what is remembered

  /** The player's row and then the reply, at position `i`, are the only rows of attempt `a`. */
  ghost predicate ExchangeAt(db: Db, a: nat, i: nat) {
    && a < |db.attempts| && i + 1 < |db.messages|
    && db.messages[i] == Message(a, Player, db.attempts[a].payload.msg, db.attempts[a].day)
    && db.messages[i + 1] == Message(a, Npc, db.attempts[a].reply, db.attempts[a].day)
    && forall j :: 0 <= j < |db.messages| && db.messages[j].attempt == a ==> j == i || j == i + 1
  }

  lemma CommittedExchange(db: Db, order: seq<nat>, n: nat)
    requires Recorded(db, order) && n < |order|
    ensures ExchangeAt(db, order[n], 2 * n)
  {
    RowOfCommitted(db.attempts, order, n);
    forall j | 0 <= j < |db.messages| && db.messages[j].attempt == order[n] ensures j == 2 * n || j == 2 * n + 1 {
      RowOfCommitted(db.attempts, order, j / 2);
      assert order[j / 2] == order[n];
    }
  }

  /**
   * Memory is the acknowledged exchanges: an attempt has rows exactly when it is committed, and then
   * its message and its reply, once each; any reply shown for it as READY was that same reply.
   */
  lemma MemoryIsAcknowledged(cfg: Config, l: Limits, t: Server, a: nat)
    requires Reachable(cfg, l, t) && a < |t.mem.db.attempts|
    ensures t.mem.db.attempts[a].stage.Committed? <==> exists i :: ExchangeAt(t.mem.db, a, i)
    ensures !t.mem.db.attempts[a].stage.Committed? ==>
      forall j :: 0 <= j < |t.mem.db.messages| ==> t.mem.db.messages[j].attempt != a
    ensures t.mem.db.attempts[a].stage.Committed? ==>
      forall i | 0 <= i < |t.past.shown| && t.past.shown[i].0 == a :: t.past.shown[i].1 == t.mem.db.attempts[a].reply
  {
    hide CanRun, Run, Inv, Tracked, Routed, RoutesOk, PendingOk, SubmissionsOk, RepliesOk, Matching, Unique,
         OneActive, Chronological;
    ReachableInv(cfg, l, t);
    var db, order := t.mem.db, t.past.order;
    if db.attempts[a].stage.Committed? {
      var n :| 0 <= n < |order| && order[n] == a;
      CommittedExchange(db, order, n);
    }
    forall j | 0 <= j < |db.messages| ensures db.messages[j].attempt in order {
      RowOfCommitted(db.attempts, order, j / 2);
    }
  }

  lemma RejectIsNotReady(cfg: Config, db: Db, r: Request)
    requires ForeignKeys(db) && PlanFor(cfg, db, r).Reject?
    ensures PlanFor(cfg, db, r).answer.code != CODE_READY
  {
    hide BranchAhead, HasActive, Memories, FindConversation, FindAttempt;
  }

  /** The plan that a READY answer comes from. */
  lemma ReadyAnswerPlan(cfg: Config, l: Limits, t: Server, e: Event)
    requires CanHappen(t, e) && e.Act? && e.ok
    requires RequestAnswer(cfg, l, t, e).Some? && RequestAnswer(cfg, l, t, e).value.code == CODE_READY
    requires CurrentPlan(cfg, t).Submit? ==>
      SubmitAnswer(l, t, PlannedSubmit(t, CurrentPlan(cfg, t), e)) in {PENDING_ANSWER, BUSY_ANSWER, WORKER_CAPACITY}
    ensures CurrentPlan(cfg, t).Show? || CurrentPlan(cfg, t).Acknowledge?
    ensures var row := t.mem.db.attempts[CurrentPlan(cfg, t).attempt];
      RequestAnswer(cfg, l, t, e).value.text == row.reply && (CurrentPlan(cfg, t).Show? ==> row.HasReply())
  {
    hide PlanFor, SubmitAnswer;
    if CurrentPlan(cfg, t).Reject? {
      RejectIsNotReady(cfg, t.mem.db, t.control.request);
    }
  }

  /** A READY answer to a request of version 2 is on record with its attempt. */
  lemma ReadyAnswersAreShown(cfg: Config, l: Limits, t: Server, e: Event)
    requires Reachable(cfg, l, t) && CanHappen(t, e)
    requires RequestAnswer(cfg, l, t, e).Some? && RequestAnswer(cfg, l, t, e).value.code == CODE_READY
    ensures Inv(l, t.sys) && exists a: nat ::
      ShownFor(t, After(cfg, l, t, e), a, RequestAnswer(cfg, l, t, e).value.text)
  {
    hide CanRun, Run, MemOk, Routed, JobTracked, ItemTracked, StartsTracked, OutcomesOnce, Valid, Coupled, PlanFor,
         NextSys, NextMem, SubmitAnswer, SubmitHistory, AnswerFor, Sweep;
    ReachableInv(cfg, l, t);
    MemFacts(t.mem, t.past);
    if CurrentPlan(cfg, t).Submit? {
      FreshIdAnswer(l, t, PlannedSubmit(t, CurrentPlan(cfg, t), e));
    }
    ReadyAnswerPlan(cfg, l, t, e);
    assert ShownFor(t, After(cfg, l, t, e), CurrentPlan(cfg, t).attempt, RequestAnswer(cfg, l, t, e).value.text);
  }

  /** `text` is the reply of the very attempt that was requested, and is added to the record of what was shown. */
  ghost predicate ShownFor(before: Server, after: Server, a: nat, text: string) {
    var db := before.mem.db;
    && ForeignKeys(db) && a < |db.attempts| && before.control.Collecting?
    && PlaceOf(db, a) == before.control.request.place && db.attempts[a].job == before.control.request.job
    && text == db.attempts[a].reply && after.past.shown == before.past.shown + [(a, text)]
  }

  /** The store has never seen the id of a submission, so it queues the job or is busy. */
  lemma FreshIdAnswer(l: Limits, t: Server, u: Submit)
    requires Inv(l, t.sys) && JobsTracked(t.past, t.mem.nextWorker, t.sys.inner) && RID_MAX < t.mem.nextWorker
    ensures SubmitAnswer(l, t, u) in {PENDING_ANSWER, BUSY_ANSWER, WORKER_CAPACITY}
  {
    forall id | id in t.sys.inner.jobs ensures id != t.mem.nextWorker {
      assert JobTracked(t.past, t.mem.nextWorker, id, t.sys.inner.jobs[id]);
    }
  }

  // ------------------------------------------------------------------ one conversation at a time

  /** Each conversation has at most one attempt that is pending or ready. */
  lemma OneActiveAttempt(cfg: Config, l: Limits, t: Server, a: nat, b: nat)
    requires Reachable(cfg, l, t) && a < |t.mem.db.attempts| && b < |t.mem.db.attempts| && ForeignKeys(t.mem.db)
    requires t.mem.db.attempts[a].Active() && t.mem.db.attempts[b].Active()
      && PlaceOf(t.mem.db, a) == PlaceOf(t.mem.db, b)
    ensures a == b
  {
    hide CanRun, Run, Inv, Tracked, Routed, RoutesOk, PendingOk, SubmissionsOk, RepliesOk, ShownOk, Matching,
         Recorded, Chronological;
    ReachableInv(cfg, l, t);
    var db := t.mem.db;
    var c, d := db.attempts[a].conversation, db.attempts[b].conversation;
    assert c == d by {
      assert !(c < d) && !(d < c);
    }
    assert SameConversation(db, a, b) && SameConversation(db, b, a);
  }

  /** Along the messages, the days of one conversation never go back. */
  lemma DaysNeverGoBack(cfg: Config, l: Limits, t: Server, i: nat, j: nat)
    requires Reachable(cfg, l, t) && i < j < |t.mem.db.messages|
    requires var db := t.mem.db;
      && db.messages[i].attempt < |db.attempts| && db.messages[j].attempt < |db.attempts|
      && SameConversation(db, db.messages[i].attempt, db.messages[j].attempt)
    ensures t.mem.db.messages[i].day <= t.mem.db.messages[j].day
  {
    hide CanRun, Run, Inv, Tracked, Routed, RoutesOk, PendingOk, SubmissionsOk, RepliesOk, ShownOk, Matching, Unique,
         OneActive;
    ReachableInv(cfg, l, t);
    var db, order := t.mem.db, t.past.order;
    RowOfCommitted(db.attempts, order, i / 2);
    RowOfCommitted(db.attempts, order, j / 2);
    assert db.messages[i].attempt == order[i / 2] && db.messages[j].attempt == order[j / 2];
    assert SameConversation(db, order[i / 2], order[j / 2]);
  }

  /** What a prompt recalls, in every reachable state: whole exchanges of its scope, the last six at most. */
  lemma RecalledInEveryState(cfg: Config, l: Limits, t: Server, camp: string, branch: string, npc: string)
    requires Reachable(cfg, l, t)
    ensures exists last: seq<nat> :: Recalled(t.mem.db, t.past.order, last, camp, branch, npc)
  {
    hide CanRun, Run, Inv, Tracked, Routed, RoutesOk, PendingOk, SubmissionsOk, RepliesOk, ShownOk, Unique, OneActive,
         Chronological, Memories, Rows;
    ReachableInv(cfg, l, t);
    Recall.RecentIsWholeExchanges(t.mem.db, t.past.order, camp, branch, npc);
    Recall.PinnedAreFirstRequests(t.mem.db, t.past.order, camp, branch, npc);
    var last := Recall.LastSix(Recall.Selected(t.mem.db, t.past.order, camp, branch, npc));
    assert Recalled(t.mem.db, t.past.order, last, camp, branch, npc);
  }

  /**
   * Recent memory is the exchanges `last`: the last six acknowledged in scope, or all if there are fewer;
   * the pinned statements are the player's rows of the first three that ask to remember.
   */
  ghost predicate Recalled(db: Db, order: seq<nat>, last: seq<nat>, camp: string, branch: string, npc: string) {
    && ForeignKeys(db) && InTable(db.attempts, order) && InTable(db.attempts, last)
    && last == Recall.LastSix(Recall.Selected(db, order, camp, branch, npc))
    && Memories(db, camp, branch, npc).recent == Rows(db.attempts, last)
    && (forall a :: a in last ==> db.attempts[a].stage.Committed? && Recall.InScope(db, a, camp, branch, npc))
    && var first := Recall.FirstThree(Recall.Asking(db.attempts, Recall.Selected(db, order, camp, branch, npc)));
      InTable(db.attempts, first) && Memories(db, camp, branch, npc).claims == Recall.PlayerRows(db.attempts, first)
  }

  // ------------------------------------------------------------------ the two versions side by side

  /** No job of version 2 is ever superseded. */
  lemma LivingNeverSuperseded(cfg: Config, l: Limits, t: Server, id: Id)
    requires Reachable(cfg, l, t) && IsLiving(id) && id in t.sys.inner.jobs
    ensures t.sys.inner.jobs[id].state != Jobs.Canceled(REASON_SUPERSEDED)
  {
    hide CanRun, Run, Inv, MemOk, Routed;
    ReachableInv(cfg, l, t);
    assert JobTracked(t.past, t.mem.nextWorker, id, t.sys.inner.jobs[id]);
  }

  lemma SubmissionAccess(cfg: Config, t: Server, e: Event)
    requires CanHappen(t, e) && e.Act? && e.ok && CurrentPlan(cfg, t).Submit? && Access(cfg, t, e).Some?
    ensures var step := Access(cfg, t, e).value; step.DoTalk? && step.scope == t.control.request.place.Scope()
    ensures PlanFor(cfg, t.mem.db, t.control.request).Submit?
  {
    hide PlanFor, ForeignKeys, TalkOf;
  }

  /** A submission of version 2 supersedes nothing, whatever version 1 has in the store. */
  lemma SubmissionSupersedesNothing(cfg: Config, l: Limits, t: Server, e: Event)
    requires Reachable(cfg, l, t) && CanHappen(t, e) && e.Act? && e.ok && CurrentPlan(cfg, t).Submit?
    requires Access(cfg, t, e).Some?
    ensures var step := Access(cfg, t, e).value;
      step.DoTalk? && Victims(Sweep(l, t.sys.inner, e.now), step.talk.npc, step.scope) == {}
  {
    hide CanRun, Run, Reachable, MemOk, Tracked, Routed, PlanFor, QueueOk, Placed, OnePerScope, WithinCapacity, Sweep,
         Coupled, ForeignKeys, TalkOf, Access, CurrentPlan, Place.Valid;
    ReachableInv(cfg, l, t);
    SubmissionAccess(cfg, t, e);
    var step, s := Access(cfg, t, e).value, Sweep(l, t.sys.inner, e.now);
    SweepPending(l, t.sys.inner, e.now);
    forall id | PendingAt(s, id) ensures s.jobs[id].scope != step.scope {
      NothingPendingInScope(cfg, l, t, t.control.request, id);
    }
  }
}
