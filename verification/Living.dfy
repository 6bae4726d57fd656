/**
 * The durable memory (`living.rs`): its tables as values, what each request does to them, and the
 * invariant of the tables. A row id is a position; rows are never deleted.
 */
module Living {
  import opened Prelude
  import opened Protocol
  import opened Identity
  import Jobs
  import Sanitize

  // ------------------------------------------------------------------ the tables

  /** What a talk request says, apart from where it belongs; `facts` are the other game values. */
  datatype Payload = Payload(npc: string, day: nat, pname: string, msg: string, facts: seq<int>)

  datatype Stage = Pending | Ready | Committed | Canceled | Failed

  datatype Conversation = Conversation(place: Place, npc: string, startedDay: nat)

  datatype Attempt = Attempt(conversation: nat, job: nat, payload: Payload, stage: Stage, reply: string, day: nat)
  {
    /** In the way of another attempt of its conversation. */
    predicate Active() {
      stage.Pending? || stage.Ready?
    }

    predicate HasReply() {
      stage.Ready? || stage.Committed?
    }
  }

  datatype Role = Player | Npc

  datatype Message = Message(attempt: nat, role: Role, text: string, day: nat)

  datatype Db = Db(campaigns: set<(string, string)>, conversations: seq<Conversation>, attempts: seq<Attempt>,
                   messages: seq<Message>)

  const NO_TABLES := Db({}, [], [], [])

  predicate ForeignKeys(db: Db) {
    forall a :: 0 <= a < |db.attempts| ==> db.attempts[a].conversation < |db.conversations|
  }

  function PlaceOf(db: Db, a: nat): Place
    requires ForeignKeys(db) && a < |db.attempts|
  {
    db.conversations[db.attempts[a].conversation].place
  }

  function ConversationFrom(cs: seq<Conversation>, place: Place, i: nat): (r: Option<nat>)
    requires i <= |cs|
    ensures r.Some? ==> i <= r.value < |cs| && cs[r.value].place == place
    ensures r.None? ==> forall k :: i <= k < |cs| ==> cs[k].place != place
    decreases |cs| - i
  {
    if i == |cs| then None else if cs[i].place == place then Some(i) else ConversationFrom(cs, place, i + 1)
  }

  function FindConversation(db: Db, place: Place): Option<nat> {
    ConversationFrom(db.conversations, place, 0)
  }

  function AttemptFrom(db: Db, place: Place, job: nat, i: nat): (r: Option<nat>)
    requires ForeignKeys(db) && i <= |db.attempts|
    ensures r.Some? ==> i <= r.value < |db.attempts| && PlaceOf(db, r.value) == place && db.attempts[r.value].job == job
    ensures r.None? ==> forall a :: i <= a < |db.attempts| && db.attempts[a].job == job ==> PlaceOf(db, a) != place
    decreases |db.attempts| - i
  {
    if i == |db.attempts| then None
    else if PlaceOf(db, i) == place && db.attempts[i].job == job then Some(i)
    else AttemptFrom(db, place, job, i + 1)
  }

  function FindAttempt(db: Db, place: Place, job: nat): Option<nat>
    requires ForeignKeys(db)
  {
    AttemptFrom(db, place, job, 0)
  }

  predicate HasActive(db: Db, place: Place)
    requires ForeignKeys(db)
  {
    exists a :: 0 <= a < |db.attempts| && db.attempts[a].Active() && PlaceOf(db, a) == place
  }

  /** The latest committed day of the branch lies after `day`. */
  predicate BranchAhead(db: Db, camp: string, branch: string, day: nat)
    requires ForeignKeys(db)
  {
    exists m :: 0 <= m < |db.messages| && day < db.messages[m].day && MessageOf(db, db.messages[m], camp, branch)
  }

  predicate MessageOf(db: Db, m: Message, camp: string, branch: string)
    requires ForeignKeys(db)
  {
    m.attempt < |db.attempts| && PlaceOf(db, m.attempt).camp == camp && PlaceOf(db, m.attempt).branch == branch
  }

  // ------------------------------------------------------------------ transactions

  function SetStage(db: Db, a: nat, stage: Stage, reply: string): Db
    requires a < |db.attempts|
  {
    db.(attempts := db.attempts[a := db.attempts[a].(stage := stage, reply := reply)])
  }

  function Exchange(attempts: seq<Attempt>, a: nat): seq<Message>
    requires a < |attempts|
  {
    [Message(a, Player, attempts[a].payload.msg, attempts[a].day), Message(a, Npc, attempts[a].reply, attempts[a].day)]
  }

  /** Acknowledged: both rows of the exchange and the new stage, all or nothing. */
  function CommitAttempt(db: Db, a: nat): Db
    requires a < |db.attempts|
  {
    SetStage(db, a, Committed, db.attempts[a].reply).(messages := db.messages + Exchange(db.attempts, a))
  }

  /** A new attempt, with its campaign and conversation unless they exist. */
  function InsertAttempt(db: Db, place: Place, job: nat, payload: Payload): (t: Db)
    ensures |t.attempts| == |db.attempts| + 1
  {
    var found := FindConversation(db, place);
    Db(
      db.campaigns + {(place.camp, place.branch)},
      if found.Some? then db.conversations else db.conversations + [Conversation(place, payload.npc, payload.day)],
      db.attempts
        + [Attempt(if found.Some? then found.value else |db.conversations|, job, payload, Pending, "", payload.day)],
      db.messages)
  }

  function Interrupt(row: Attempt): Attempt {
    if row.stage.Pending? then row.(stage := Failed, reply := "interrupted") else row
  }

  /** Opening the database: attempts that were pending when the server stopped have failed. */
  function Recover(db: Db): Db {
    db.(attempts := seq(|db.attempts|, i requires 0 <= i < |db.attempts| => Interrupt(db.attempts[i])))
  }

  // ------------------------------------------------------------------ recollection

  /** The messages exchanged with one NPC in one branch, oldest first. */
  function Heard(db: Db, ms: seq<Message>, camp: string, branch: string, npc: string): seq<Message>
    requires ForeignKeys(db)
  {
    if ms == [] then []
    else
      var m, rest := ms[0], Heard(db, ms[1..], camp, branch, npc);
      if MessageOf(db, m, camp, branch) && db.conversations[db.attempts[m.attempt].conversation].npc == npc
        then [m] + rest else rest
  }

  function LastOnes<T>(s: seq<T>, n: nat): seq<T> {
    if |s| <= n then s else s[|s| - n..]
  }

  function FirstOnes<T>(s: seq<T>, n: nat): seq<T> {
    if |s| <= n then s else s[..n]
  }

  function Lower(c: char): char {
    if 'A' <= c <= 'Z' then c - 'A' + 'a' else c
  }

  const REMEMBER := "remember "

  predicate AsksToRemember(text: string) {
    |REMEMBER| <= |text| && forall i :: 0 <= i < |REMEMBER| ==> Lower(text[i]) == REMEMBER[i]
  }

  function Claims(ms: seq<Message>): seq<Message> {
    if ms == [] then []
    else (if ms[0].role.Player? && AsksToRemember(ms[0].text) then [ms[0]] else []) + Claims(ms[1..])
  }

  datatype Recollection = Recollection(recent: seq<Message>, claims: seq<Message>)

  const RECENT_ROWS := 12
  const CLAIM_ROWS := 3

  /** `memories`. */
  function Memories(db: Db, camp: string, branch: string, npc: string): Recollection
    requires ForeignKeys(db)
  {
    var heard := Heard(db, db.messages, camp, branch, npc);
    Recollection(LastOnes(heard, RECENT_ROWS), FirstOnes(Claims(heard), CLAIM_ROWS))
  }

  // ------------------------------------------------------------------ what a request leads to

  datatype Op = OpTalk | OpResult | OpCancel | OpAck

  datatype Request = Request(place: Place, job: nat, op: Op, talk: Option<Payload>)

  /** The profiles, and how a prompt is written and measured. */
  datatype Config = Config(profiles: set<string>, prompt: (Payload, Recollection) -> string, size: string -> nat)

  const MAX_PROMPT := 16_000

  /** The NPC id under which every job of version 2 runs. */
  const LIVING_NPC := 1

  function TalkOf(payload: Payload): Jobs.Talk {
    Jobs.Talk(LIVING_NPC, payload.day, payload.pname, payload.msg)
  }

  /** What an attempt answers. */
  function RowAnswer(row: Attempt): Jobs.Answer {
    match row.stage
    case Pending => Jobs.PENDING_ANSWER
    case Ready => Jobs.Answer(CODE_READY, row.reply)
    case Committed => Jobs.Answer(CODE_READY, row.reply)
    case Canceled => Jobs.Answer(CODE_CANCELED, row.reply)
    case Failed => Jobs.Answer(CODE_FAILED, row.reply)
  }

  datatype Plan =
    | Reject(answer: Jobs.Answer)
    | Show(attempt: nat)
    | Withdraw(attempt: nat)
    | Acknowledge(attempt: nat)
    | Submit(payload: Payload, prompt: string)

  const BRANCH_REQUIRED := Jobs.Answer(CODE_BAD_REQUEST, "branch_required")
  const MISSING_PROFILE := Jobs.Answer(CODE_BAD_REQUEST, "missing_profile")
  const TOO_LONG_ANSWER := Jobs.Answer(CODE_BAD_REQUEST, REASON_TOO_LONG)
  const WORKER_CAPACITY := Jobs.Answer(CODE_FAILED, "worker_capacity")
  const UNAVAILABLE_ANSWER := Jobs.Answer(CODE_FAILED, "memory_unavailable")

  function PlanNew(cfg: Config, db: Db, place: Place, payload: Payload): Plan
    requires ForeignKeys(db)
  {
    var found := FindConversation(db, place);
    var prompt := cfg.prompt(payload, Memories(db, place.camp, place.branch, payload.npc));
    if BranchAhead(db, place.camp, place.branch, payload.day) then Reject(BRANCH_REQUIRED)
    else if payload.npc !in cfg.profiles then Reject(MISSING_PROFILE)
    else if found.Some? && db.conversations[found.value].npc != payload.npc then Reject(Jobs.CONFLICT_ANSWER)
    else if HasActive(db, place) then Reject(Jobs.BUSY_ANSWER)
    else if cfg.size(prompt) > MAX_PROMPT then Reject(TOO_LONG_ANSWER)
    else Submit(payload, prompt)
  }

  /** The decision of `respond_inner`, once the finished jobs are collected. */
  function PlanFor(cfg: Config, db: Db, r: Request): (p: Plan)
    requires ForeignKeys(db)
    ensures p.Show? || p.Withdraw? || p.Acknowledge? ==>
      p.attempt < |db.attempts| && PlaceOf(db, p.attempt) == r.place && db.attempts[p.attempt].job == r.job
  {
    match FindAttempt(db, r.place, r.job)
    case Some(a) =>
      var row := db.attempts[a];
      if r.talk.Some? && r.talk.value != row.payload then Reject(Jobs.CONFLICT_ANSWER)
      else if r.op.OpCancel? && row.Active() then Withdraw(a)
      else if r.op.OpAck? && row.stage.Ready? then Acknowledge(a)
      else Show(a)
    case None =>
      match r.talk
      case None => Reject(Jobs.UNKNOWN_ANSWER)
      case Some(payload) => PlanNew(cfg, db, r.place, payload)
  }

  // ------------------------------------------------------------------ the memory in use

  /** The database and the routing into the store; `running` maps an attempt to its worker id. */
  datatype Mem = Mem(db: Db, running: map<nat, Jobs.Id>, nextWorker: nat)

  function Opened(db: Db): Mem {
    Mem(Recover(db), map[], RID_MAX + 1)
  }

  /** What a terminal answer of the store makes of an attempt. */
  function Verdict(answer: Jobs.Answer): (Stage, string) {
    if answer.code == CODE_READY then
      (Ready, match Sanitize.SanitizeText(answer.text) case Ok(text) => text case Err(reason) => reason)
    else if answer.code == CODE_CANCELED then (Canceled, answer.text)
    else (Failed, answer.text)
  }

  /** `UPDATE ... WHERE state='pending'` with the verdict. */
  function RecordVerdict(db: Db, a: nat, answer: Jobs.Answer): Db {
    if a < |db.attempts| && db.attempts[a].stage.Pending?
      then SetStage(db, a, Verdict(answer).0, Verdict(answer).1) else db
  }

  /** One attempt collected: a job still PENDING stays where it is. */
  function CollectOne(m: Mem, a: nat, answer: Jobs.Answer): Mem {
    if answer.code == CODE_PENDING then m else Mem(RecordVerdict(m.db, a, answer), m.running - {a}, m.nextWorker)
  }

  function WithdrawOne(m: Mem, a: nat): Mem
    requires a < |m.db.attempts|
  {
    Mem(SetStage(m.db, a, Canceled, REASON_CANCELED), m.running - {a}, m.nextWorker)
  }

  /**
   * What follows the transaction of a submission, given the store's answer: the attempt runs under the
   * next worker id, or fails, or stays pending without a route where that last write fails (`late`).
   * With the worker ids used up the store is not asked.
   */
  function CloseSubmission(m: Mem, a: nat, answer: Jobs.Answer, late: bool): Mem
    requires a < |m.db.attempts|
  {
    if m.nextWorker >= U32_MAX then m.(db := if late then m.db else SetStage(m.db, a, Failed, WORKER_CAPACITY.text))
    else if answer.code == CODE_PENDING then Mem(m.db, m.running[a := m.nextWorker], m.nextWorker + 1)
    else Mem(if late then m.db else SetStage(m.db, a, Failed, answer.text), m.running, m.nextWorker + 1)
  }

  function SubmitOne(m: Mem, r: Request, payload: Payload, answer: Jobs.Answer, late: bool): Mem {
    CloseSubmission(m.(db := InsertAttempt(m.db, r.place, r.job, payload)), |m.db.attempts|, answer, late)
  }

  // ------------------------------------------------------------------ the invariant of the tables

  predicate SameConversation(db: Db, a: nat, b: nat)
    requires a < |db.attempts| && b < |db.attempts|
  {
    db.attempts[a].conversation == db.attempts[b].conversation
  }

  ghost predicate Unique(db: Db) {
    && (forall c, d :: 0 <= c < d < |db.conversations| ==> db.conversations[c].place != db.conversations[d].place)
    && (forall a, b ::
        0 <= a < b < |db.attempts| && SameConversation(db, a, b) ==> db.attempts[a].job != db.attempts[b].job)
  }

  ghost predicate Matching(db: Db) {
    && ForeignKeys(db)
    && (forall c :: 0 <= c < |db.conversations| ==> db.conversations[c].place.Valid())
    && (forall a :: 0 <= a < |db.attempts| ==>
          && db.attempts[a].day == db.attempts[a].payload.day
          && db.conversations[db.attempts[a].conversation].npc == db.attempts[a].payload.npc)
  }

  ghost predicate OneActive(db: Db) {
    forall a, b :: 0 <= a < b < |db.attempts| && SameConversation(db, a, b) ==>
      !(db.attempts[a].Active() && db.attempts[b].Active())
  }

  predicate InTable(attempts: seq<Attempt>, order: seq<nat>) {
    forall i :: 0 <= i < |order| ==> order[i] < |attempts|
  }

  /** The rows of the exchanges `order`, one after the other. */
  function Rows(attempts: seq<Attempt>, order: seq<nat>): (r: seq<Message>)
    requires InTable(attempts, order)
    ensures |r| == 2 * |order|
  {
    if order == [] then [] else Exchange(attempts, order[0]) + Rows(attempts, order[1..])
  }

  /** The messages are exactly the committed exchanges, each once, in the order of their acknowledgements. */
  ghost predicate Recorded(db: Db, order: seq<nat>) {
    && InTable(db.attempts, order) && NoDuplicates(order)
    && (forall a :: 0 <= a < |db.attempts| ==> (db.attempts[a].stage.Committed? <==> a in order))
    && db.messages == Rows(db.attempts, order)
  }

  /** Within a conversation, days never decrease along the order, nor from there to the active attempt. */
  ghost predicate Chronological(db: Db, order: seq<nat>)
    requires InTable(db.attempts, order)
  {
    && (forall i, j | 0 <= i < j < |order| && SameConversation(db, order[i], order[j]) ::
          db.attempts[order[i]].day <= db.attempts[order[j]].day)
    && (forall i, a | 0 <= i < |order| && 0 <= a < |db.attempts| && db.attempts[a].Active()
                      && SameConversation(db, order[i], a) ::
          db.attempts[order[i]].day <= db.attempts[a].day)
  }

  ghost predicate DbInv(db: Db, order: seq<nat>) {
    Matching(db) && Unique(db) && OneActive(db) && Recorded(db, order) && Chronological(db, order)
  }

  // ------------------------------------------------------------------ every transaction keeps it

  lemma {:induction false} RowsUnchanged(before: seq<Attempt>, after: seq<Attempt>, order: seq<nat>)
    requires InTable(before, order) && InTable(after, order)
    requires forall i :: 0 <= i < |order| ==> after[order[i]] == before[order[i]]
    ensures Rows(after, order) == Rows(before, order)
  {
    if order != [] {
      RowsUnchanged(before, after, order[1..]);
    }
  }

  lemma {:induction false} RowsSnoc(attempts: seq<Attempt>, order: seq<nat>, a: nat)
    requires InTable(attempts, order) && a < |attempts|
    ensures Rows(attempts, order + [a]) == Rows(attempts, order) + Exchange(attempts, a)
  {
    if order == [] {
      assert [a][1..] == [];
    } else {
      assert (order + [a])[1..] == order[1..] + [a];
      RowsSnoc(attempts, order[1..], a);
    }
  }

  /** A row keeps what was asked, and only moves on: from pending, or from ready to committed or canceled. */
  ghost predicate MovesOn(a: Attempt, b: Attempt) {
    || b == a
    || (b == a.(stage := b.stage, reply := b.reply) && a.stage.Pending? && !b.stage.Committed?)
    || (a.stage.Ready? && b == a.(stage := Committed))
    || (a.stage.Ready? && b == a.(stage := Canceled, reply := b.reply))
  }

  /** Rows are never lost and only move on; messages are only appended. */
  ghost predicate Grows(before: Db, after: Db) {
    && |before.conversations| <= |after.conversations|
    && before.conversations == after.conversations[..|before.conversations|]
    && |before.attempts| <= |after.attempts|
    && (forall a :: 0 <= a < |before.attempts| ==> MovesOn(before.attempts[a], after.attempts[a]))
    && before.messages <= after.messages
  }

  /** Only stages and replies change, and no attempt becomes active. */
  ghost predicate Restaged(before: Db, after: Db) {
    && after.conversations == before.conversations && |after.attempts| == |before.attempts|
    && forall a :: 0 <= a < |before.attempts| ==> Restage(before.attempts[a], after.attempts[a])
  }

  ghost predicate Restage(a: Attempt, b: Attempt) {
    b == a.(stage := b.stage, reply := b.reply) && (b.Active() ==> a.Active())
  }

  lemma RestagedKeeps(before: Db, after: Db)
    requires Restaged(before, after) && Matching(before) && Unique(before) && OneActive(before)
    ensures Matching(after) && Unique(after) && OneActive(after)
  {
    assert Matching(after) by {
      hide Unique, OneActive;
    }
    assert Unique(after) by {
      hide Matching, OneActive;
      forall a, b | 0 <= a < b < |after.attempts| && SameConversation(after, a, b)
        ensures after.attempts[a].job != after.attempts[b].job
      {
        assert SameConversation(before, a, b);
      }
    }
    assert OneActive(after) by {
      hide Matching, Unique;
      forall a, b | 0 <= a < b < |after.attempts| && SameConversation(after, a, b)
        ensures !(after.attempts[a].Active() && after.attempts[b].Active())
      {
        assert SameConversation(before, a, b);
      }
    }
  }

  lemma RestagedChronological(before: Db, after: Db, order: seq<nat>)
    requires Restaged(before, after) && InTable(before.attempts, order) && Chronological(before, order)
    ensures Chronological(after, order)
  {
    forall i, j | 0 <= i < j < |order| && SameConversation(after, order[i], order[j])
      ensures after.attempts[order[i]].day <= after.attempts[order[j]].day
    {
      assert SameConversation(before, order[i], order[j]);
    }
    forall i, a | 0 <= i < |order| && 0 <= a < |after.attempts| && after.attempts[a].Active()
      && SameConversation(after, order[i], a)
      ensures after.attempts[order[i]].day <= after.attempts[a].day
    {
      assert SameConversation(before, order[i], a);
    }
  }

  /** Stages that change without a commit. */
  lemma RestageKeeps(before: Db, after: Db, order: seq<nat>)
    requires DbInv(before, order) && Restaged(before, after) && after.messages == before.messages
    requires forall a | 0 <= a < |before.attempts|
      && (before.attempts[a].stage.Committed? || after.attempts[a].stage.Committed?) ::
      after.attempts[a] == before.attempts[a]
    ensures DbInv(after, order)
  {
    RestagedKeeps(before, after);
    RestagedChronological(before, after, order);
    hide Matching, Unique, OneActive, Chronological;
    RowsUnchanged(before.attempts, after.attempts, order);
  }

  lemma SetStageKeeps(db: Db, order: seq<nat>, a: nat, stage: Stage, reply: string)
    requires DbInv(db, order) && a < |db.attempts| && !stage.Committed?
    requires db.attempts[a].stage.Pending? || (db.attempts[a].stage.Ready? && stage.Canceled?)
    ensures DbInv(SetStage(db, a, stage, reply), order) && Grows(db, SetStage(db, a, stage, reply))
  {
    hide DbInv;
    var t := SetStage(db, a, stage, reply);
    RestageKeeps(db, t, order);
    assert t.conversations == t.conversations[..|db.conversations|];
  }

  lemma CommitKeeps(db: Db, order: seq<nat>, a: nat)
    requires DbInv(db, order) && a < |db.attempts| && db.attempts[a].stage.Ready?
    ensures DbInv(CommitAttempt(db, a), order + [a]) && Grows(db, CommitAttempt(db, a))
  {
    hide Matching, Unique, OneActive, Chronological, NoDuplicates, Rows;
    var t := CommitAttempt(db, a);
    RestagedKeeps(db, t);
    CommitRecorded(db, order, a);
    CommitChronological(db, order, a);
    assert t.conversations == t.conversations[..|db.conversations|];
  }

  lemma CommitRecorded(db: Db, order: seq<nat>, a: nat)
    requires Recorded(db, order) && a < |db.attempts| && db.attempts[a].stage.Ready?
    ensures Recorded(CommitAttempt(db, a), order + [a])
  {
    var t := CommitAttempt(db, a);
    assert a !in order;
    RowsUnchanged(db.attempts, t.attempts, order);
    RowsSnoc(t.attempts, order, a);
  }

  lemma AppendChronological(t: Db, order: seq<nat>, a: nat)
    requires InTable(t.attempts, order) && Chronological(t, order) && a < |t.attempts|
    requires forall b :: 0 <= b < |t.attempts| && t.attempts[b].Active() ==> !SameConversation(t, a, b)
    requires forall i ::
      0 <= i < |order| && SameConversation(t, order[i], a) ==> t.attempts[order[i]].day <= t.attempts[a].day
    ensures InTable(t.attempts, order + [a]) && Chronological(t, order + [a])
  {
    var longer := order + [a];
    assert forall i :: 0 <= i < |longer| ==> longer[i] == if i < |order| then order[i] else a;
  }

  lemma CommitChronological(db: Db, order: seq<nat>, a: nat)
    requires OneActive(db) && InTable(db.attempts, order) && Chronological(db, order)
    requires a < |db.attempts| && db.attempts[a].stage.Ready?
    ensures InTable(CommitAttempt(db, a).attempts, order + [a]) && Chronological(CommitAttempt(db, a), order + [a])
  {
    var t := CommitAttempt(db, a);
    RestagedChronological(db, t, order);
    forall b | 0 <= b < |t.attempts| && t.attempts[b].Active() ensures !SameConversation(t, a, b) {
      assert db.attempts[b].Active() && a != b;
      assert !SameConversation(db, if a < b then a else b, if a < b then b else a);
    }
    forall i | 0 <= i < |order| && SameConversation(t, order[i], a)
      ensures t.attempts[order[i]].day <= t.attempts[a].day
    {
      assert SameConversation(db, order[i], a) && db.attempts[a].Active();
    }
    AppendChronological(t, order, a);
  }

  lemma {:induction false} RowOfCommitted(attempts: seq<Attempt>, order: seq<nat>, i: nat)
    requires InTable(attempts, order) && i < |order|
    ensures Rows(attempts, order)[2 * i] == Exchange(attempts, order[i])[0]
    ensures Rows(attempts, order)[2 * i + 1] == Exchange(attempts, order[i])[1]
  {
    if i > 0 {
      RowOfCommitted(attempts, order[1..], i - 1);
    }
  }

  /** The check on the whole branch bounds every committed day of the conversation. */
  lemma NotAheadOfConversation(db: Db, order: seq<nat>, place: Place, day: nat, i: nat)
    requires DbInv(db, order) && !BranchAhead(db, place.camp, place.branch, day)
    requires i < |order| && PlaceOf(db, order[i]) == place
    ensures db.attempts[order[i]].day <= day
  {
    RowOfCommitted(db.attempts, order, i);
    var m := db.messages[2 * i];
    assert MessageOf(db, m, place.camp, place.branch);
  }

  lemma SubmitMeans(cfg: Config, db: Db, r: Request)
    requires ForeignKeys(db) && PlanFor(cfg, db, r).Submit?
    ensures r.talk.Some? && PlanFor(cfg, db, r).payload == r.talk.value
    ensures FindAttempt(db, r.place, r.job).None? && !HasActive(db, r.place)
    ensures !BranchAhead(db, r.place.camp, r.place.branch, r.talk.value.day)
    ensures var found := FindConversation(db, r.place);
      found.Some? ==> db.conversations[found.value].npc == r.talk.value.npc
  {
    hide BranchAhead, HasActive, Memories, ForeignKeys, FindConversation, FindAttempt;
  }

  /** What the decision to submit has checked. */
  lemma SubmitChecked(cfg: Config, db: Db, order: seq<nat>, r: Request)
    requires DbInv(db, order) && PlanFor(cfg, db, r).Submit?
    ensures r.talk.Some?
    ensures forall a :: 0 <= a < |db.attempts| && PlaceOf(db, a) == r.place ==>
      && db.attempts[a].job != r.job && !db.attempts[a].Active()
      && (a in order ==> db.attempts[a].day <= r.talk.value.day)
  {
    hide PlanFor, Unique, OneActive, Chronological, BranchAhead, FindConversation, Place.Valid, Rows, NoDuplicates;
    SubmitMeans(cfg, db, r);
    forall a | 0 <= a < |db.attempts| && PlaceOf(db, a) == r.place && a in order
      ensures db.attempts[a].day <= r.talk.value.day
    {
      var i :| 0 <= i < |order| && order[i] == a;
      NotAheadOfConversation(db, order, r.place, r.talk.value.day, i);
    }
  }

  /** A new row next to the old ones, whose conversation `place` had nothing active, nothing later and no such job. */
  ghost predicate Inserted(before: Db, after: Db, order: seq<nat>, place: Place) {
    var n := |before.attempts|;
    && ForeignKeys(before) && ForeignKeys(after) && |after.attempts| == n + 1
    && after.attempts[..n] == before.attempts && after.messages == before.messages
    && PlaceOf(after, n) == place && after.attempts[n].stage.Pending?
    && (forall a :: 0 <= a < n ==> PlaceOf(after, a) == PlaceOf(before, a))
    && (forall a :: 0 <= a < n && PlaceOf(before, a) == place ==>
          && before.attempts[a].job != after.attempts[n].job && !before.attempts[a].Active()
          && (a in order ==> before.attempts[a].day <= after.attempts[n].day))
  }

  lemma InsertedRow(db: Db, order: seq<nat>, place: Place, job: nat, payload: Payload)
    requires ForeignKeys(db)
    requires forall a :: 0 <= a < |db.attempts| && PlaceOf(db, a) == place ==>
      && db.attempts[a].job != job && !db.attempts[a].Active() && (a in order ==> db.attempts[a].day <= payload.day)
    ensures Inserted(db, InsertAttempt(db, place, job, payload), order, place)
  {
    var t, n := InsertAttempt(db, place, job, payload), |db.attempts|;
    assert t.attempts[..n] == db.attempts && t.conversations[..|db.conversations|] == db.conversations;
    forall a | 0 <= a < |t.attempts| ensures t.attempts[a].conversation < |t.conversations| {
      if a < n {
        assert t.attempts[a] == db.attempts[a];
      }
    }
    forall a | 0 <= a < n ensures PlaceOf(t, a) == PlaceOf(db, a) {
      assert t.attempts[a] == t.attempts[..n][a];
    }
  }

  ghost predicate PlacesDiffer(cs: seq<Conversation>) {
    forall c, d :: 0 <= c < d < |cs| ==> cs[c].place != cs[d].place
  }

  lemma InsertPlaces(db: Db, place: Place, job: nat, payload: Payload)
    requires PlacesDiffer(db.conversations)
    ensures PlacesDiffer(InsertAttempt(db, place, job, payload).conversations)
  {
  }

  /** The conversation of the new row, and the old ones where they were. */
  lemma InsertConversation(db: Db, place: Place, job: nat, payload: Payload)
    requires ForeignKeys(db) && place.Valid()
    requires forall c :: 0 <= c < |db.conversations| ==> db.conversations[c].place.Valid()
    requires var found := FindConversation(db, place); found.Some? ==> db.conversations[found.value].npc == payload.npc
    ensures var t, n := InsertAttempt(db, place, job, payload), |db.attempts|;
      && (forall c :: 0 <= c < |t.conversations| ==> t.conversations[c].place.Valid())
      && |db.conversations| <= |t.conversations| && t.conversations[..|db.conversations|] == db.conversations
      && t.attempts[n].conversation < |t.conversations|
      && t.conversations[t.attempts[n].conversation].npc == payload.npc
      && t.attempts[n].payload == payload && t.attempts[n].day == payload.day && t.attempts[..n] == db.attempts
  {
    hide Place.Valid;
  }

  lemma InsertMatches(db: Db, place: Place, job: nat, payload: Payload)
    requires Matching(db) && place.Valid()
    requires var found := FindConversation(db, place); found.Some? ==> db.conversations[found.value].npc == payload.npc
    ensures Matching(InsertAttempt(db, place, job, payload))
  {
    hide Place.Valid, InsertAttempt, FindConversation;
    InsertConversation(db, place, job, payload);
    var t, n := InsertAttempt(db, place, job, payload), |db.attempts|;
    forall a | 0 <= a < |t.attempts|
      ensures t.attempts[a].conversation < |t.conversations| && t.attempts[a].day == t.attempts[a].payload.day
      ensures t.conversations[t.attempts[a].conversation].npc == t.attempts[a].payload.npc
    {
      if a < n {
        var c := db.attempts[a].conversation;
        assert t.attempts[a] == t.attempts[..n][a] == db.attempts[a];
        assert t.conversations[c] == t.conversations[..|db.conversations|][c] == db.conversations[c];
      }
    }
  }

  lemma InsertedOthers(before: Db, after: Db, order: seq<nat>, place: Place, a: nat)
    requires Inserted(before, after, order, place) && a < |before.attempts|
      && SameConversation(after, a, |before.attempts|)
    ensures before.attempts[a].job != after.attempts[|before.attempts|].job && !before.attempts[a].Active()
    ensures a in order ==> before.attempts[a].day <= after.attempts[|before.attempts|].day
  {
    assert PlaceOf(after, a) == PlaceOf(after, |before.attempts|);
  }

  lemma InsertedApart(before: Db, after: Db, order: seq<nat>, place: Place)
    requires Unique(before) && OneActive(before) && Inserted(before, after, order, place)
    ensures OneActive(after)
    ensures forall a, b | 0 <= a < b < |after.attempts| && SameConversation(after, a, b) ::
      after.attempts[a].job != after.attempts[b].job
  {
    var n := |before.attempts|;
    forall a, b | 0 <= a < b < |after.attempts| && SameConversation(after, a, b)
      ensures after.attempts[a].job != after.attempts[b].job
        && !(after.attempts[a].Active() && after.attempts[b].Active())
    {
      assert after.attempts[a] == after.attempts[..n][a];
      if b < n {
        assert after.attempts[b] == after.attempts[..n][b] && SameConversation(before, a, b);
      } else {
        InsertedOthers(before, after, order, place, a);
      }
    }
  }

  lemma InsertedRecorded(before: Db, after: Db, order: seq<nat>, place: Place)
    requires Recorded(before, order) && Inserted(before, after, order, place)
    ensures Recorded(after, order)
  {
    var n := |before.attempts|;
    forall a | 0 <= a < |after.attempts| ensures after.attempts[a].stage.Committed? <==> a in order {
      if a < n {
        assert after.attempts[a] == after.attempts[..n][a];
      }
    }
    forall i | 0 <= i < |order| ensures after.attempts[order[i]] == before.attempts[order[i]] {
      assert after.attempts[order[i]] == after.attempts[..n][order[i]];
    }
    RowsUnchanged(before.attempts, after.attempts, order);
  }

  lemma InsertedChronological(before: Db, after: Db, order: seq<nat>, place: Place)
    requires InTable(before.attempts, order) && Chronological(before, order) && Inserted(before, after, order, place)
    ensures Chronological(after, order)
  {
    var n := |before.attempts|;
    forall a | 0 <= a < n ensures after.attempts[a] == before.attempts[a] {
      assert after.attempts[a] == after.attempts[..n][a];
    }
    forall i, j | 0 <= i < j < |order| && SameConversation(after, order[i], order[j])
      ensures after.attempts[order[i]].day <= after.attempts[order[j]].day
    {
      assert SameConversation(before, order[i], order[j]);
    }
    forall i, a | 0 <= i < |order| && 0 <= a < |after.attempts| && after.attempts[a].Active()
      && SameConversation(after, order[i], a)
      ensures after.attempts[order[i]].day <= after.attempts[a].day
    {
      if a < n {
        assert SameConversation(before, order[i], a);
      } else {
        InsertedOthers(before, after, order, place, order[i]);
      }
    }
  }

  lemma InsertKeeps(cfg: Config, db: Db, order: seq<nat>, r: Request)
    requires DbInv(db, order) && r.place.Valid() && PlanFor(cfg, db, r).Submit?
    ensures r.talk.Some?
    ensures var t := InsertAttempt(db, r.place, r.job, r.talk.value);
      DbInv(t, order) && Grows(db, t) && Inserted(db, t, order, r.place)
  {
    hide PlanFor, OneActive, Rows, NoDuplicates, InTable, Chronological, InsertAttempt, FindConversation, FindAttempt,
         Grows, Inserted, Place.Valid;
    SubmitMeans(cfg, db, r);
    SubmitChecked(cfg, db, order, r);
    var t := InsertAttempt(db, r.place, r.job, r.talk.value);
    InsertedRow(db, order, r.place, r.job, r.talk.value);
    InsertMatches(db, r.place, r.job, r.talk.value);
    InsertPlaces(db, r.place, r.job, r.talk.value);
    InsertedApart(db, t, order, r.place);
    InsertedRecorded(db, t, order, r.place);
    InsertedChronological(db, t, order, r.place);
    InsertGrows(db, r.place, r.job, r.talk.value);
  }

  lemma InsertGrows(db: Db, place: Place, job: nat, payload: Payload)
    ensures Grows(db, InsertAttempt(db, place, job, payload))
  {
    var t := InsertAttempt(db, place, job, payload);
    assert t.attempts[..|db.attempts|] == db.attempts && t.conversations[..|db.conversations|] == db.conversations;
    forall a | 0 <= a < |db.attempts| ensures t.attempts[a] == db.attempts[a] {
      assert t.attempts[a] == t.attempts[..|db.attempts|][a];
    }
  }

  lemma RecoverKeeps(db: Db, order: seq<nat>)
    requires DbInv(db, order)
    ensures DbInv(Recover(db), order) && Grows(db, Recover(db))
    ensures forall a :: 0 <= a < |db.attempts| ==> !Recover(db).attempts[a].stage.Pending?
    ensures forall a :: 0 <= a < |db.attempts| && !db.attempts[a].stage.Pending? ==>
      Recover(db).attempts[a] == db.attempts[a]
    ensures Recover(db).messages == db.messages && |Recover(db).attempts| == |db.attempts|
  {
    hide DbInv;
    var t := Recover(db);
    RestageKeeps(db, t, order);
    assert t.conversations == t.conversations[..|db.conversations|];
  }
}
