/**
 * What the backend was asked: each submission's prompt, traced to the exchanges acknowledged before it
 * (`living.rs`).
 */
module Prompts {
  import opened Prelude
  import opened Identity
  import opened Jobs
  import opened Runs
  import opened Living
  import opened Server
  import opened Custody
  import opened Submitting
  import opened Provenance
  import Durable
  import Recall

  // ------------------------------------------------------------------ what these exchanges tell

  /** The last six exchanges of `order` in scope, and the player's rows of the first three that ask to remember. */
  function Told(db: Db, order: seq<nat>, camp: string, branch: string, npc: string): Recollection
    requires ForeignKeys(db) && InTable(db.attempts, order)
  {
    var selected := Recall.Selected(db, order, camp, branch, npc);
    Recollection(Rows(db.attempts, Recall.LastSix(selected)),
                 Recall.PlayerRows(db.attempts, Recall.FirstThree(Recall.Asking(db.attempts, selected))))
  }

  lemma MemoriesAreTold(db: Db, order: seq<nat>, camp: string, branch: string, npc: string)
    requires DbInv(db, order)
    ensures Memories(db, camp, branch, npc) == Told(db, order, camp, branch, npc)
  {
    hide Unique, OneActive, Chronological, NoDuplicates, Memories, Rows;
    Recall.RecentIsWholeExchanges(db, order, camp, branch, npc);
    Recall.PinnedAreFirstRequests(db, order, camp, branch, npc);
  }

  /** The exchanges of `order` are settled: both tables hold them, with the same rows and conversations. */
  ghost predicate SameExchanges(before: Db, after: Db, order: seq<nat>) {
    && ForeignKeys(before) && ForeignKeys(after) && InTable(before.attempts, order) && InTable(after.attempts, order)
    && before.conversations <= after.conversations
    && forall i :: 0 <= i < |order| ==> after.attempts[order[i]] == before.attempts[order[i]]
  }

  lemma SameAmong(before: Db, after: Db, order: seq<nat>, some: seq<nat>)
    requires SameExchanges(before, after, order) && forall a :: a in some ==> a in order
    ensures SameExchanges(before, after, some)
  {
    forall i | 0 <= i < |some|
      ensures some[i] < |before.attempts| && some[i] < |after.attempts|
        && after.attempts[some[i]] == before.attempts[some[i]]
    {
      assert some[i] in order;
    }
  }

  lemma {:induction false} SelectedStays(before: Db, after: Db, order: seq<nat>, camp: string, branch: string,
      npc: string)
    requires SameExchanges(before, after, order)
    ensures Recall.Selected(after, order, camp, branch, npc) == Recall.Selected(before, order, camp, branch, npc)
  {
    if order != [] {
      SelectedStays(before, after, order[1..], camp, branch, npc);
    }
  }

  lemma {:induction false} AskingStays(before: Db, after: Db, order: seq<nat>)
    requires SameExchanges(before, after, order)
    ensures Recall.Asking(after.attempts, order) == Recall.Asking(before.attempts, order)
  {
    hide Recall.BeginsRemember;
    if order != [] {
      AskingStays(before, after, order[1..]);
    }
  }

  lemma {:induction false} PlayerRowsStay(before: Db, after: Db, order: seq<nat>)
    requires SameExchanges(before, after, order)
    ensures Recall.PlayerRows(after.attempts, order) == Recall.PlayerRows(before.attempts, order)
  {
    if order != [] {
      PlayerRowsStay(before, after, order[1..]);
    }
  }

  /** What settled exchanges tell does not change. */
  lemma ToldStays(before: Db, after: Db, order: seq<nat>, camp: string, branch: string, npc: string)
    requires SameExchanges(before, after, order)
    ensures Told(after, order, camp, branch, npc) == Told(before, order, camp, branch, npc)
  {
    hide Recall.BeginsRemember, Recall.LastSix, Recall.FirstThree, Rows, ForeignKeys, InTable;
    var selected := Recall.Selected(before, order, camp, branch, npc);
    SelectedStays(before, after, order, camp, branch, npc);
    SameAmong(before, after, order, selected);
    AskingStays(before, after, selected);
    var last, first := Recall.LastSix(selected), Recall.FirstThree(Recall.Asking(before.attempts, selected));
    SameAmong(before, after, order, last);
    SameAmong(before, after, order, first);
    RowsStay(before, after, last);
    PlayerRowsStay(before, after, first);
  }

  lemma RowsStay(before: Db, after: Db, order: seq<nat>)
    requires SameExchanges(before, after, order)
    ensures Rows(after.attempts, order) == Rows(before.attempts, order)
  {
    RowsUnchanged(before.attempts, after.attempts, order);
  }

  // ------------------------------------------------------------------ every submission

  /**
   * The prompt of `sub` was written from its attempt's own message and from what the exchanges told that
   * were acknowledged before it, all of them with attempts older than its own.
   */
  ghost predicate Recollected(cfg: Config, db: Db, order: seq<nat>, sub: Submission) {
    && ForeignKeys(db) && InTable(db.attempts, order) && sub.attempt < |db.attempts| && sub.acked <= |order|
    && (forall k :: 0 <= k < sub.acked ==> order[k] < sub.attempt)
    && var row, place := db.attempts[sub.attempt], PlaceOf(db, sub.attempt);
      && sub.prompt == cfg.prompt(row.payload, Told(db, order[..sub.acked], place.camp, place.branch, row.payload.npc))
      && cfg.size(sub.prompt) <= MAX_PROMPT
  }

  ghost predicate AllRecollected(cfg: Config, s: Server) {
    forall i :: 0 <= i < |s.past.submitted| ==> Recollected(cfg, s.mem.db, s.past.order, s.past.submitted[i])
  }

  /** Settled exchanges stay as they are. */
  lemma SettledStay(before: Db, after: Db, order: seq<nat>)
    requires Durable.Preserves(before, after) && ForeignKeys(before) && ForeignKeys(after) && Recorded(before, order)
    ensures SameExchanges(before, after, order)
  {
    forall i | 0 <= i < |order|
      ensures order[i] < |after.attempts| && after.attempts[order[i]] == before.attempts[order[i]]
    {
      assert order[i] in order;
      assert Durable.Progress(before.attempts[order[i]], after.attempts[order[i]]);
    }
  }

  lemma SameSoFar(before: Db, after: Db, order: seq<nat>, n: nat)
    requires SameExchanges(before, after, order) && n <= |order|
    ensures SameExchanges(before, after, order[..n])
  {
    SameAmong(before, after, order, order[..n]);
  }

  /** A submission once made stays recollected, whatever happens to the tables. */
  lemma RecollectedStays(cfg: Config, before: Db, after: Db, order: seq<nat>, order': seq<nat>, sub: Submission)
    requires Recollected(cfg, before, order, sub) && SameExchanges(before, after, order)
      && Durable.Preserves(before, after)
    requires order <= order' && InTable(after.attempts, order')
    ensures Recollected(cfg, after, order', sub)
  {
    hide Told;
    assert Durable.Progress(before.attempts[sub.attempt], after.attempts[sub.attempt]);
    assert order'[..sub.acked] == order[..sub.acked];
    var row, place := before.attempts[sub.attempt], PlaceOf(before, sub.attempt);
    SameSoFar(before, after, order, sub.acked);
    ToldStays(before, after, order[..sub.acked], place.camp, place.branch, row.payload.npc);
  }

  /** What an event adds to the record is at most one submission, the planned one. */
  lemma SubmittedByEvent(cfg: Config, l: Limits, s: Server, e: Event)
    requires CanHappen(s, e) && QueueOk(s.sys.inner) && ForeignKeys(s.mem.db)
    ensures s.past.order <= NextPast(cfg, l, s, e).order
    ensures NextPast(cfg, l, s, e).submitted != s.past.submitted ==>
      && e.Act? && e.ok && CurrentPlan(cfg, s).Submit?
      && NextPast(cfg, l, s, e) == SubmitHistory(l, s, PlannedSubmit(s, CurrentPlan(cfg, s), e))
  {
    hide PlanFor, SubmitMem, Poll, QueueOk, ForeignKeys;
  }

  lemma InsertedRow(m: Mem, r: Request, payload: Payload, answer: Answer, late: bool)
    requires ForeignKeys(m.db)
    ensures var db, a := SubmitOne(m, r, payload, answer, late).db, |m.db.attempts|;
      ForeignKeys(db) && |db.attempts| == a + 1 && PlaceOf(db, a) == r.place && db.attempts[a].payload == payload
  {
  }

  /** The planned submission: its prompt recollects everything acknowledged so far. */
  lemma PlannedIsRecollected(cfg: Config, l: Limits, s: Server, u: Submit, sub: Submission)
    requires MemOk(s.mem, s.past) && Planned(cfg, s, u)
    requires SubmitHistory(l, s, u).submitted == s.past.submitted + [sub]
    ensures Recollected(cfg, SubmitMem(l, s, u).db, s.past.order, sub)
  {
    hide Unique, OneActive, Chronological, SubmissionsOk, RepliesOk, ShownOk, RoutesOk, PendingOk, Told, Memories,
         PlanNew, SubmitOne, SubmitAnswer;
    var before, after, r := s.mem.db, SubmitMem(l, s, u).db, u.request;
    InsertedRow(s.mem, r, u.payload, SubmitAnswer(l, s, u), u.late);
    Durable.SubmitPreserves(s.mem, r, u.payload, SubmitAnswer(l, s, u), u.late);
    MemoriesAreTold(before, s.past.order, r.place.camp, r.place.branch, u.payload.npc);
    SettledStay(before, after, s.past.order);
    ToldStays(before, after, s.past.order, r.place.camp, r.place.branch, u.payload.npc);
    PlannedPrompt(cfg, before, u);
    assert s.past.order[..|s.past.order|] == s.past.order;
    assert sub == SubmitHistory(l, s, u).submitted[|s.past.submitted|];
  }

  lemma PlannedPrompt(cfg: Config, db: Db, u: Submit)
    requires ForeignKeys(db) && PlanFor(cfg, db, u.request) == Plan.Submit(u.payload, u.prompt)
    ensures u.prompt == cfg.prompt(u.payload, Memories(db, u.request.place.camp, u.request.place.branch, u.payload.npc))
    ensures cfg.size(u.prompt) <= MAX_PROMPT
  {
    hide BranchAhead, HasActive, Memories, FindConversation, FindAttempt, ForeignKeys;
  }

  lemma InvFacts(l: Limits, s: Server)
    requires ServerInv(l, s)
    ensures QueueOk(s.sys.inner) && ForeignKeys(s.mem.db) && Recorded(s.mem.db, s.past.order)
  {
    hide Placed, OnePerScope, WithinCapacity, Coupled, Tracked, Routed, SubmissionsOk, RepliesOk, ShownOk, RoutesOk,
         PendingOk, Unique, OneActive, Chronological, NoDuplicates;
  }

  /** An event settles more, and unsettles nothing. */
  lemma EventSettles(cfg: Config, l: Limits, s: Server, e: Event)
    requires ServerInv(l, s) && CanHappen(s, e) && QueueOk(s.sys.inner)
    ensures var after := NextMem(cfg, l, s, e).db;
      && Durable.Preserves(s.mem.db, after) && SameExchanges(s.mem.db, after, s.past.order)
      && InTable(after.attempts, NextPast(cfg, l, s, e).order)
  {
    hide Inv, MemOk, Tracked, Routed, NextMem, NextPast, NextSys, NextControl, CanHappen, NoDuplicates, QueueOk;
    EventKeeps(cfg, l, s, e);
    InvFacts(l, s);
    InvFacts(l, After(cfg, l, s, e));
    Durable.EventPreserves(cfg, l, s, e);
    SettledStay(s.mem.db, NextMem(cfg, l, s, e).db, s.past.order);
  }

  lemma EventKeepsRecollected(cfg: Config, l: Limits, s: Server, e: Event)
    requires ServerInv(l, s) && CanHappen(s, e) && AllRecollected(cfg, s)
    ensures AllRecollected(cfg, After(cfg, l, s, e))
  {
    hide Inv, MemOk, Tracked, Routed, ControlOk, CanHappen, NextMem, NextPast, NextSys, NextControl, Recollected,
         SameExchanges, QueueOk, CurrentPlan, ForeignKeys, SubmitHistory;
    InvFacts(l, s);
    EventSettles(cfg, l, s, e);
    SubmittedByEvent(cfg, l, s, e);
    var db, past := NextMem(cfg, l, s, e).db, NextPast(cfg, l, s, e);
    forall i | 0 <= i < |s.past.submitted| ensures Recollected(cfg, db, past.order, s.past.submitted[i]) {
      RecollectedStays(cfg, s.mem.db, db, s.past.order, past.order, s.past.submitted[i]);
    }
    if past.submitted != s.past.submitted {
      SubmissionIsRecollected(cfg, l, s, e);
    }
  }

  /** The event that submits. */
  lemma SubmissionIsRecollected(cfg: Config, l: Limits, s: Server, e: Event)
    requires ServerInv(l, s) && CanHappen(s, e) && e.Act? && e.ok && CurrentPlan(cfg, s).Submit? && QueueOk(s.sys.inner)
    requires NextPast(cfg, l, s, e) == SubmitHistory(l, s, PlannedSubmit(s, CurrentPlan(cfg, s), e))
    requires NextPast(cfg, l, s, e).submitted != s.past.submitted
    ensures var past := NextPast(cfg, l, s, e);
      && s.past.submitted < past.submitted && |past.submitted| == |s.past.submitted| + 1
      && Recollected(cfg, NextMem(cfg, l, s, e).db, past.order, past.submitted[|s.past.submitted|])
  {
    hide Inv, MemOk, Tracked, Routed, PlanFor, NextPast, Recollected, SubmitMem, QueueOk, Place.Valid, ForeignKeys,
         SubmitAnswer, TalkOf, Place.Scope;
    var u := PlannedSubmit(s, CurrentPlan(cfg, s), e);
    PlannedIsRecollected(cfg, l, s, u, NextPast(cfg, l, s, e).submitted[|s.past.submitted|]);
  }

  lemma {:induction false} RunKeepsRecollected(cfg: Config, l: Limits, s: Server, events: seq<Event>)
    requires ServerInv(l, s) && CanRun(cfg, l, s, events) && AllRecollected(cfg, s)
    ensures AllRecollected(cfg, Run(cfg, l, s, events))
    decreases |events|
  {
    hide MemOk, Inv, Tracked, Routed, ControlOk, CanHappen, NextSys, NextMem, NextControl, NextPast, AllRecollected;
    if events != [] {
      EventKeeps(cfg, l, s, events[0]);
      EventKeepsRecollected(cfg, l, s, events[0]);
      RunKeepsRecollected(cfg, l, After(cfg, l, s, events[0]), events[1..]);
    }
  }

  /**
   * Every prompt that was ever submitted, in every reachable state: written from the attempt's own message
   * and from the last six exchanges of its scope, and the first three requests to remember, that had been
   * acknowledged when it was submitted.
   */
  lemma PromptsAreRecollections(cfg: Config, l: Limits, t: Server)
    requires Reachable(cfg, l, t)
    ensures AllRecollected(cfg, t)
  {
    hide ServerInv, CanRun, Run, Recollected;
    FreshInv(l);
    var events :| CanRun(cfg, l, FRESH, events) && t == Run(cfg, l, FRESH, events);
    RunKeepsRecollected(cfg, l, FRESH, events);
  }

  /**
   * Where a stored reply comes from, all the way: the sole outcome made of the attempt's sole submission,
   * whose prompt was written from the attempt's message and the memory of that moment.
   */
  lemma RepliesAreAnsweredFromMemory(cfg: Config, l: Limits, t: Server, a: nat)
    requires Reachable(cfg, l, t) && a < |t.mem.db.attempts| && t.mem.db.attempts[a].HasReply()
    ensures exists i: nat, k: nat ::
      Proven(t, a, i, k) && Recollected(cfg, t.mem.db, t.past.order, t.past.submitted[i])
  {
    hide Reachable, Recollected;
    RepliesAreProven(cfg, l, t, a);
    PromptsAreRecollections(cfg, l, t);
  }
}
