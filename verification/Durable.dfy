/** What a client of version 2 can rely on: admissions, retransmissions, and answers that last (`living.rs`). */
module Durable {
  import opened Prelude
  import opened Protocol
  import opened Identity
  import opened Jobs
  import opened Runs
  import opened Living
  import opened Server
  import opened Custody
  import opened Acting
  import opened Provenance

  // ------------------------------------------------------------------ when a talk becomes an attempt

  /** The attempt of this conversation under this job id. */
  ghost predicate IsAttempt(db: Db, place: Place, job: nat, a: nat) {
    ForeignKeys(db) && a < |db.attempts| && PlaceOf(db, a) == place && db.attempts[a].job == job
  }

  lemma AttemptFound(db: Db, place: Place, job: nat)
    requires ForeignKeys(db)
    ensures FindAttempt(db, place, job).None? <==> forall a :: !IsAttempt(db, place, job, a)
    ensures FindAttempt(db, place, job).Some? ==> IsAttempt(db, place, job, FindAttempt(db, place, job).value)
  {
    if FindAttempt(db, place, job).Some? {
      assert IsAttempt(db, place, job, FindAttempt(db, place, job).value);
    }
  }

  lemma UniqueAttempt(db: Db, place: Place, job: nat, a: nat)
    requires Unique(db) && IsAttempt(db, place, job, a)
    ensures FindAttempt(db, place, job) == Some(a)
  {
    AttemptFound(db, place, job);
    var b := FindAttempt(db, place, job).value;
    var c, d := db.attempts[a].conversation, db.attempts[b].conversation;
    assert c == d by {
      assert !(c < d) && !(d < c);
    }
    assert SameConversation(db, a, b) && SameConversation(db, b, a);
  }

  lemma ConversationFound(db: Db, place: Place, npc: string)
    requires forall c, d :: 0 <= c < d < |db.conversations| ==> db.conversations[c].place != db.conversations[d].place
    ensures (FindConversation(db, place).Some? ==> db.conversations[FindConversation(db, place).value].npc == npc)
       <==> SameNpc(db, place, npc)
  {
  }

  /** The conversation is new, or with this NPC. */
  ghost predicate SameNpc(db: Db, place: Place, npc: string) {
    forall c | 0 <= c < |db.conversations| && db.conversations[c].place == place :: db.conversations[c].npc == npc
  }

  /** The day of a new talk is behind its branch exactly when some committed exchange of the branch is later. */
  lemma BranchAheadIff(db: Db, order: seq<nat>, camp: string, branch: string, day: nat)
    requires ForeignKeys(db) && Recorded(db, order)
    ensures BranchAhead(db, camp, branch, day)
       <==> exists i :: 0 <= i < |order| && LaterIn(db, order[i], camp, branch, day)
  {
    if BranchAhead(db, camp, branch, day) {
      var m :| 0 <= m < |db.messages| && day < db.messages[m].day && MessageOf(db, db.messages[m], camp, branch);
      RowOfCommitted(db.attempts, order, m / 2);
      assert LaterIn(db, order[m / 2], camp, branch, day);
    }
    if i :| 0 <= i < |order| && LaterIn(db, order[i], camp, branch, day) {
      RowOfCommitted(db.attempts, order, i);
      assert MessageOf(db, db.messages[2 * i], camp, branch);
    }
  }

  ghost predicate LaterIn(db: Db, a: nat, camp: string, branch: string, day: nat)
    requires ForeignKeys(db)
  {
    a < |db.attempts| && PlaceOf(db, a).camp == camp && PlaceOf(db, a).branch == branch && day < db.attempts[a].day
  }

  lemma ActiveIff(db: Db, place: Place)
    requires ForeignKeys(db)
    ensures HasActive(db, place)
      <==> !(forall a :: 0 <= a < |db.attempts| && db.attempts[a].Active() ==> PlaceOf(db, a) != place)
  {
  }

  lemma PlanNewSubmits(cfg: Config, db: Db, r: Request)
    requires ForeignKeys(db)
    ensures PlanFor(cfg, db, r).Submit? <==>
      && r.talk.Some? && FindAttempt(db, r.place, r.job).None? && PlanNew(cfg, db, r.place, r.talk.value).Submit?
  {
    hide ForeignKeys, FindAttempt, PlanNew;
  }

  lemma SubmitDecision(cfg: Config, db: Db, order: seq<nat>, r: Request)
    requires DbInv(db, order)
    ensures PlanFor(cfg, db, r).Submit? <==>
      && r.talk.Some?
      && (forall a :: !IsAttempt(db, r.place, r.job, a))
      && !(exists i :: 0 <= i < |order| && LaterIn(db, order[i], r.place.camp, r.place.branch, r.talk.value.day))
      && r.talk.value.npc in cfg.profiles
      && SameNpc(db, r.place, r.talk.value.npc)
      && (forall a :: 0 <= a < |db.attempts| && db.attempts[a].Active() ==> PlaceOf(db, a) != r.place)
      && cfg.size(cfg.prompt(r.talk.value, Memories(db, r.place.camp, r.place.branch, r.talk.value.npc))) <= MAX_PROMPT
  {
    hide Memories, OneActive, Chronological, Recorded, FindAttempt, FindConversation, BranchAhead, HasActive, PlanFor,
         LaterIn, IsAttempt;
    PlanNewSubmits(cfg, db, r);
    AttemptFound(db, r.place, r.job);
    ActiveIff(db, r.place);
    if r.talk.Some? {
      BranchAheadIff(db, order, r.place.camp, r.place.branch, r.talk.value.day);
      ConversationFound(db, r.place, r.talk.value.npc);
    }
  }

  /**
   * In every reachable state a request leads to a new attempt exactly when all of these hold, each a fact
   * about the tables.
   */
  lemma SubmitsIff(cfg: Config, l: Limits, t: Server, r: Request)
    requires Reachable(cfg, l, t)
    ensures var db, order := t.mem.db, t.past.order;
      ForeignKeys(db) &&
      (PlanFor(cfg, db, r).Submit? <==>
        && r.talk.Some?
        && (forall a :: !IsAttempt(db, r.place, r.job, a))
        && !(exists i :: 0 <= i < |order| && LaterIn(db, order[i], r.place.camp, r.place.branch, r.talk.value.day))
        && r.talk.value.npc in cfg.profiles
        && SameNpc(db, r.place, r.talk.value.npc)
        && (forall a :: 0 <= a < |db.attempts| && db.attempts[a].Active() ==> PlaceOf(db, a) != r.place)
        && cfg.size(cfg.prompt(r.talk.value,
            Memories(db, r.place.camp, r.place.branch, r.talk.value.npc))) <= MAX_PROMPT)
  {
    hide Reachable, Inv, Tracked, Routed, SubmissionsOk, RepliesOk, ShownOk, RoutesOk, PendingOk, PlanFor, LaterIn,
         IsAttempt, Memories;
    ReachableInv(cfg, l, t);
    SubmitDecision(cfg, t.mem.db, t.past.order, r);
  }

  // ------------------------------------------------------------------ what never changes

  /** A row keeps what was asked; a terminal row keeps everything, and a ready one its reply unless it is canceled. */
  ghost predicate Progress(a: Attempt, b: Attempt) {
    && b == a.(stage := b.stage, reply := b.reply)
    && (!a.Active() ==> b == a)
    && (a.stage.Ready? ==> b.stage.Canceled? || (b.HasReply() && b.reply == a.reply))
  }

  /** Messages and conversations are only appended, rows stay and make progress. */
  ghost predicate Preserves(before: Db, after: Db) {
    && before.messages <= after.messages && before.conversations <= after.conversations
    && |before.attempts| <= |after.attempts|
    && forall a :: 0 <= a < |before.attempts| ==> Progress(before.attempts[a], after.attempts[a])
  }

  lemma SetStagePreserves(db: Db, a: nat, stage: Stage, reply: string)
    requires a < |db.attempts| && (db.attempts[a].stage.Pending? || (db.attempts[a].stage.Ready? && stage.Canceled?))
    ensures Preserves(db, SetStage(db, a, stage, reply))
  {
  }

  lemma CommitPreserves(db: Db, a: nat)
    requires a < |db.attempts| && db.attempts[a].stage.Ready?
    ensures Preserves(db, CommitAttempt(db, a))
  {
  }

  lemma SubmitPreserves(m: Mem, r: Request, payload: Payload, answer: Answer, late: bool)
    ensures Preserves(m.db, SubmitOne(m, r, payload, answer, late).db)
  {
  }

  lemma RecoverPreserves(db: Db)
    ensures Preserves(db, Recover(db))
  {
  }

  lemma CollectPreserves(m: Mem, a: nat, answer: Answer)
    ensures Preserves(m.db, CollectOne(m, a, answer).db)
  {
    hide Verdict;
  }

  lemma NothingPreserves(db: Db)
    ensures Preserves(db, db)
  {
  }

  lemma EventPreserves(cfg: Config, l: Limits, s: Server, e: Event)
    requires CanHappen(s, e)
    ensures Preserves(s.mem.db, NextMem(cfg, l, s, e).db)
  {
    hide PlanFor, StoreAnswer, AnswerFor, Preserves, SubmitOne, CollectOne, CommitAttempt, SetStage, Recover;
    NothingPreserves(s.mem.db);
    match e
    case Collect(a, now, _) => CollectPreserves(s.mem, a, AnswerFor(Sweep(l, s.sys.inner, now), s.mem.running[a]));
    case Crash => RecoverPreserves(s.mem.db);
    case Act(_, _, _) =>
      match CurrentPlan(cfg, s) {
        case Withdraw(a) =>
          WithdrawPlanned(cfg, s.mem.db, s.control.request);
          SetStagePreserves(s.mem.db, a, Stage.Canceled, REASON_CANCELED);
        case Acknowledge(a) =>
          AcknowledgePlanned(cfg, s.mem.db, s.control.request);
          CommitPreserves(s.mem.db, a);
        case Submit(_, _) =>
          var u := PlannedSubmit(s, CurrentPlan(cfg, s), e);
          SubmitPreserves(s.mem, u.request, u.payload, SubmitAnswer(l, s, u), u.late);
        case _ =>
      }
    case _ =>
  }

  lemma PreservesTransitive(a: Db, b: Db, c: Db)
    requires Preserves(a, b) && Preserves(b, c)
    ensures Preserves(a, c)
  {
  }

  lemma {:induction false} RunPreserves(cfg: Config, l: Limits, s: Server, events: seq<Event>)
    requires ServerInv(l, s) && CanRun(cfg, l, s, events)
    ensures Preserves(s.mem.db, Run(cfg, l, s, events).mem.db)
    decreases |events|
  {
    hide Inv, MemOk, Tracked, Routed, NextMem, CanHappen, NextSys, NextControl, NextPast, Preserves;
    if events == [] {
      NothingPreserves(s.mem.db);
    } else {
      EventKeeps(cfg, l, s, events[0]);
      EventPreserves(cfg, l, s, events[0]);
      RunPreserves(cfg, l, After(cfg, l, s, events[0]), events[1..]);
      PreservesTransitive(s.mem.db, After(cfg, l, s, events[0]).mem.db, Run(cfg, l, s, events).mem.db);
    }
  }

  lemma InvUnique(l: Limits, s: Server)
    requires ServerInv(l, s)
    ensures ForeignKeys(s.mem.db) && Unique(s.mem.db)
  {
    hide Inv, Tracked, Routed, SubmissionsOk, RepliesOk, ShownOk, RoutesOk, PendingOk;
  }

  /** A run leads from the reachable state `s` to `t`. */
  ghost predicate Leads(cfg: Config, l: Limits, s: Server, t: Server) {
    Reachable(cfg, l, s)
      && (ReachableInv(cfg, l, s); exists events :: CanRun(cfg, l, s, events) && t == Run(cfg, l, s, events))
  }

  /** Original messages are never rewritten or lost, in any run, with any failures and crashes. */
  lemma HistoryIsPreserved(cfg: Config, l: Limits, s: Server, t: Server)
    requires Leads(cfg, l, s, t)
    ensures Preserves(s.mem.db, t.mem.db) && ForeignKeys(t.mem.db) && Unique(t.mem.db)
  {
    hide ServerInv, Reachable, CanRun, Run, Preserves;
    ReachableInv(cfg, l, s);
    var events :| CanRun(cfg, l, s, events) && t == Run(cfg, l, s, events);
    RunKeepsInv(cfg, l, s, events);
    RunPreserves(cfg, l, s, events);
    InvUnique(l, t);
  }

  // ------------------------------------------------------------------ answers that last

  lemma AttemptStays(before: Db, after: Db, place: Place, job: nat, a: nat)
    requires ForeignKeys(after) && Preserves(before, after) && IsAttempt(before, place, job, a)
    ensures IsAttempt(after, place, job, a) && after.attempts[a].payload == before.attempts[a].payload
  {
    assert Progress(before.attempts[a], after.attempts[a]);
  }

  /**
   * Retransmission: once a talk has become an attempt, in every later state of every run the same job
   * id never makes another. A different message is a conflict that changes nothing; a plain repetition
   * gets the attempt's own answer.
   */
  lemma RepeatedTalk(cfg: Config, l: Limits, s: Server, t: Server, a: nat, r: Request)
    requires Leads(cfg, l, s, t) && IsAttempt(s.mem.db, r.place, r.job, a)
    ensures var db := t.mem.db;
      && IsAttempt(db, r.place, r.job, a) && !PlanFor(cfg, db, r).Submit?
      && (r.talk.Some? && r.talk.value != s.mem.db.attempts[a].payload
          ==> PlanFor(cfg, db, r) == Reject(CONFLICT_ANSWER))
      && (r.talk == Some(s.mem.db.attempts[a].payload) && r.op.OpTalk? ==> PlanFor(cfg, db, r) == Show(a))
  {
    hide Leads, PlanNew, FindAttempt, Preserves, Unique;
    HistoryIsPreserved(cfg, l, s, t);
    AttemptStays(s.mem.db, t.mem.db, r.place, r.job, a);
    UniqueAttempt(t.mem.db, r.place, r.job, a);
  }

  /**
   * Once committed, canceled or failed, an attempt answers the same for ever: in every later state of
   * every run, crashes included, every request about it that is not a conflict gets that same answer.
   */
  lemma FinalAnswerLasts(cfg: Config, l: Limits, s: Server, t: Server, a: nat, r: Request)
    requires Leads(cfg, l, s, t) && IsAttempt(s.mem.db, r.place, r.job, a)
    requires !s.mem.db.attempts[a].Active() && (r.talk.None? || r.talk.value == s.mem.db.attempts[a].payload)
    ensures var db := t.mem.db;
      && ForeignKeys(db) && PlanFor(cfg, db, r) == Show(a) && a < |db.attempts|
      && RowAnswer(db.attempts[a]) == RowAnswer(s.mem.db.attempts[a])
  {
    hide Leads, PlanNew, FindAttempt, Unique;
    HistoryIsPreserved(cfg, l, s, t);
    AttemptStays(s.mem.db, t.mem.db, r.place, r.job, a);
    UniqueAttempt(t.mem.db, r.place, r.job, a);
    assert Progress(s.mem.db.attempts[a], t.mem.db.attempts[a]);
  }

  /** A reply once recorded stays available, word for word, until the attempt is canceled. */
  lemma ReplyLasts(cfg: Config, l: Limits, s: Server, t: Server, a: nat)
    requires Leads(cfg, l, s, t) && a < |s.mem.db.attempts| && s.mem.db.attempts[a].HasReply()
    ensures var db := t.mem.db;
      && a < |db.attempts|
      && (db.attempts[a].stage.Canceled? || RowAnswer(db.attempts[a]) == Answer(CODE_READY, s.mem.db.attempts[a].reply))
  {
    hide Leads;
    HistoryIsPreserved(cfg, l, s, t);
    assert Progress(s.mem.db.attempts[a], t.mem.db.attempts[a]);
  }
}
