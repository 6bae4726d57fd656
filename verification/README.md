# Calradia server: a verified model

The server lets a game talk to characters played by a language model. Three layers are modelled:

- **The job store and its worker** (`jobs.rs`). `Jobs` gives each access to the state behind the mutex in
  closed form, `Store` is the class that updates it in place and is proved equal to it, and `Accesses` says in
  plain terms what each access makes and answers. `Runs` interleaves
  handlers and the worker in any order; each step has its own clock reading, and nothing is assumed about
  those readings, so clocks may go back. `Answers`, `Order`, `Admissions`, `Race`, `Reuse`, `Sockets`,
  `Retention` and `Capacity` hold the results about whole runs; `Admissions` numbers the admissions, so that an
  id that is admitted again is told from its former job.
- **The durable attempts of version 2** (`living.rs`). `Living` models the four tables as sequences, `Memory`
  is the class that updates them in place, `Recall` is what a prompt recalls. `Server` puts this on top of the
  job store: one request at a time, other threads between any two of its accesses to the store, writes that
  may fail, and crashes that leave only the database. `Custody`, `Keeping`, `Acting` and `Submitting` show that
  every event keeps one invariant; `Provenance`, `Prompts`, `Routing` and `Durable` state what follows for every
  reachable state and every run, `Sequential` ties the class to the runs, and
  `Framing` gives a run whose reply is stored but not shown. `Effects` says in plain terms what every request, the
  collecting of a job and a crash make and answer.
- **The wire formats**. `Sanitize` and `Frame` are the sanitizer and the response frame, `Http` is the request
  reader and the query decoder, `Upstream`, `Chunked` and `Response` read the model server's answers from a
  stream of bytes that may never end. `Cleaning`, `Numbers`, `Requests` and `Refusals` say what becomes of every
  kind of character, number, request and broken response.

`Prelude`, `Protocol`, `Bytes` and `Identity` hold what they share. A transaction is one step that happens or
does not. A socket is an opaque token. The backend's outcome is any reply or any failure. A step of the server
that makes an access to the store and writes to the database next to it is one event: only a crash could come
between the two, and that is the same as the write failing before the crash.

Where the code and its documentation differ, the model follows the code:

- `docs/protocol-v1.md` says that a cancel of a terminal job answers with a token; the code answers a READY job
  with its reply (`jobs.rs`, lines 282 to 299).
- It says that a new job supersedes any PENDING job of the same NPC; the code also asks for the same scope.
- It says that READY is answered until the job expires; a full store evicts it earlier, and `AnswersUntil` says
  exactly how long a terminal job answers.
- The comment on `frame` says that the sanitizer runs exactly once on every text; a reply of version 2 is
  sanitized when it is collected and again in the frame. `RepliesAsFramed` says when that matters, and
  `StoredReplyIsNotShown` that it can.

Four statements that one might expect are false of the code, and are given with their exact condition: the
sanitizer is idempotent on an output if and only if that contains no opening think tag; the request reader is
independent of how reads are cut if and only if the head terminator does not end in the one-buffer stretch
after the limit; every reply of version 1 is its job's own along a run if and only if no finish in it comes
after a new admission of the id that the worker has in hand, while the newly admitted job still waits in time
for a reply and the old one can be sanitized; a shutdown hits the connection of the job that it is for if and
only if the id that the worker has in hand was not admitted again since it was taken.

## Model

| member | source | states |
|---|---|---|
| Provenance.ReachableInv | calradia-server/src/living.rs:156-163 | In every reachable state jobs of version 2, routes, pending rows, replies and submissions fit together: each can be traced to one submission. |
| Provenance.EventKeeps | calradia-server/src/living.rs:272-423 | Every event of the server keeps its invariant: an access of version 1 or of the worker between any two accesses of one version 2 request, a collected job, the last step of a request with any of its writes failing, a crash followed by a reopening. |
| Provenance.RepliesAreProven | calradia-server/src/living.rs:350-379 | In every reachable state, across crashes and failed writes, a ready or committed reply is what the sanitizer makes of the only outcome generated for the only submission of that attempt, whose message is the attempt's own and whose prompt is the one generated from. |
| Provenance.AtMostOnce | calradia-server/src/living.rs:350-373 | Each attempt is submitted to the store at most once ever, and the worker takes the job of an attempt at most once ever, across crashes: every job of version 2 that it takes was submitted for an attempt, and two takings are of the same attempt only if they are the same. |
| Routing.RoutesAreBounded | calradia-server/src/living.rs:396-423 | In every reachable state the routes are at most two more than the queue can hold, and at most one more once the request at hand has visited them all. |
| Provenance.FallbackIsDead | calradia-server/src/living.rs:411-412 | Whenever the store answers READY for a routed attempt, at any clock reading, the text can be sanitized: the `unwrap_or_else` branch cannot run. |
| Provenance.PendingIsRouted | calradia-server/src/living.rs:371-378 | An attempt has a route into the store exactly when it is pending and the write that would have closed it did not fail. |
| Provenance.MemoryIsAcknowledged | calradia-server/src/living.rs:298-310 | An attempt has message rows exactly when it is committed; then it has its player's message and its reply, adjacent, once each, and every reply shown for it as READY was that reply. |
| Provenance.ReadyAnswersAreShown | calradia-server/src/living.rs:295-310 | Every READY answer to a version 2 request is the reply of the attempt that the request names, and is on the record that `MemoryIsAcknowledged` speaks of. |
| Provenance.OneActiveAttempt | calradia-server/src/living.rs:333-336 | In every reachable state a conversation has at most one attempt that is pending or ready. |
| Provenance.DaysNeverGoBack | calradia-server/src/living.rs:315-318 | Along the message rows, the days of one conversation never decrease, although the check at admission is on the whole branch and happens before the commit. |
| Provenance.RecalledInEveryState | calradia-server/src/living.rs:424-440 | In every reachable state the recent memory of a campaign, branch and NPC is the last six committed exchanges of that scope, or all if fewer, whole and oldest first, and the pinned statements are the player's rows of the first three that ask to remember. |
| Provenance.LivingNeverSuperseded | calradia-server/src/living.rs:369 | No job of version 2 is ever superseded, by either version. |
| Provenance.SubmissionSupersedesNothing | calradia-server/src/living.rs:360-370 | A submission of version 2 finds no PENDING job in its scope, so it supersedes nothing of version 1 either. |
| Prompts.PromptsAreRecollections | calradia-server/src/living.rs:336-370 | In every reachable state, every prompt ever submitted was written from its attempt's own message and from the recollection of the exchanges acknowledged before it, none of them its own: the last six of the scope and the first three requests to remember; later commits and crashes do not change what that recollection was. |
| Prompts.RepliesAreAnsweredFromMemory | calradia-server/src/living.rs:336-379 | A stored reply is the sanitized sole outcome of its attempt's sole submission, and the prompt of that submission is such a recollection. |
| Prompts.ToldStays | calradia-server/src/living.rs:424-440 | What a list of exchanges tells a prompt is the same in any later tables that still hold their rows and conversations. |
| Framing.AnyOutcomeIsStored | calradia-server/src/living.rs:400-420 | Every outcome that the sanitizer accepts becomes the stored reply of some reachable state, for any configuration and any first talk that it accepts. |
| Framing.StoredReplyIsNotShown | calradia-server/src/protocol.rs:63-77 | A reachable state with the stored reply `a<think>`, which a request gets as READY and whose frame does not show it. |
| Provenance.RepliesAsFramed | calradia-server/src/protocol.rs:63-77 | The frame sanitizes the stored reply a second time: the client reads it back whole exactly when it contains no opening think tag. |
| Effects.AckCommits | calradia-server/src/living.rs:298-310 | An acknowledgement of a ready attempt appends its message and then its reply to the messages, commits it, changes nothing else, and answers 0 with the reply. |
| Effects.CancelCancels | calradia-server/src/living.rs:282-293 | A cancel of a pending or ready attempt makes it canceled with the reply `canceled`, removes its route, cancels the job that it led to, and answers 3 with `canceled`. |
| Effects.ConflictRefused | calradia-server/src/living.rs:277-281 | A request whose talk is not the attempt's own answers 4 with `conflict` and changes nothing, whatever it asks. |
| Effects.OthersShow | calradia-server/src/living.rs:294-310 | Any other request about an attempt changes nothing and answers 1 `pending`, 0 with the reply, 3 or 2 with the row's text, by where the attempt stands. |
| Effects.NothingKnown | calradia-server/src/living.rs:312-314 | Without an attempt and a talk the answer is 5 `unknown_job`. |
| Effects.TalkRefused | calradia-server/src/living.rs:315-340 | A new talk is refused for the first of these, and changes nothing: a later committed exchange in the branch (4 `branch_required`), no profile (4 `missing_profile`), another NPC (4 `conflict`), a pending or ready attempt (6 `busy`), a prompt beyond 16,000 (4 `too_long`). |
| Effects.TalkTaken | calradia-server/src/living.rs:341-373 | A new talk without objection that the store takes: one more attempt, pending and without a reply, in its conversation, which is new if there was none; its route; and the store is asked under the next worker id for NPC 1 with the day, name and message of the talk, the prompt, and the three identities joined by colons. |
| Effects.TalkNotTaken | calradia-server/src/living.rs:371-379 | Where the store is busy the attempt fails as `busy`, or stays pending without a route and answers `memory_unavailable` if that write fails. |
| Effects.NoWorkerId | calradia-server/src/living.rs:350-358 | Where no worker id is left the store is not asked and the attempt fails as `worker_capacity`, or stays pending if that write fails. |
| Effects.FailedRequest | calradia-server/src/living.rs:259-271 | A request whose own statements fail changes nothing and answers 2 `memory_unavailable`. |
| Effects.CollectMakes | calradia-server/src/living.rs:400-423 | One visit of the collecting loop, by what the store has under the worker id: PENDING leaves everything; READY makes a pending row ready with the sanitized reply, FAILED and CANCELED give their reason, no job is failed as `unknown_job`; the route goes; a failing update leaves row and route and ends the request. |
| Effects.CrashMakes | calradia-server/src/living.rs:235-254 | After a crash and reopening every pending attempt is failed as `interrupted`, all else in the tables is as it was, no route is left, worker ids start at 1,000,000,000 and the store is empty. |
| Durable.SubmitsIff | calradia-server/src/living.rs:312-340 | In every reachable state a request becomes a new attempt if and only if: it carries a talk; no attempt has its job id in that conversation; no committed exchange of the branch is later; the profile exists; the conversation is new or has the same NPC; nothing in it is pending or ready; the prompt fits. |
| Durable.BranchAheadIff | calradia-server/src/living.rs:315-318 | The maximum over the message rows exceeds a day exactly when some committed attempt of that campaign and branch has a later day. |
| Durable.RepeatedTalk | calradia-server/src/living.rs:277-281 | In every later state of every run, the job id of an attempt never makes another attempt: a different talk is a conflict that changes nothing, the same talk gets the attempt's own answer. |
| Durable.FinalAnswerLasts | calradia-server/src/living.rs:295-310 | Once an attempt is committed, canceled or failed, every later request about it in every run, crashes included, gets that same answer. |
| Durable.ReplyLasts | calradia-server/src/living.rs:282-297 | A reply once recorded is answered word for word in every later state, unless the attempt is canceled. |
| Durable.EventPreserves | calradia-server/src/living.rs:400-423 | No event rewrites or removes a message or a conversation, changes what an attempt asked, changes a terminal attempt, or changes a ready reply other than by a cancel. |
| Durable.HistoryIsPreserved | calradia-server/src/living.rs:424-425 | The same over whole runs: message rows are only appended. |
| Keeping.OtherKeeps | calradia-server/src/jobs.rs:161-416 | Accesses of version 1 and of the worker keep the invariant of the whole server at any point of a version 2 request. |
| Keeping.CollectKeeps | calradia-server/src/living.rs:400-423 | Collecting one attempt keeps it, whether its update succeeds or fails and whatever the store answers. |
| Keeping.CollectedIsOwn | calradia-server/src/living.rs:407-413 | A READY answer under an attempt's worker id was generated for that attempt's own submission. |
| Acting.WithdrawKeeps | calradia-server/src/living.rs:282-292 | A cancel keeps the invariant: the row is canceled, its route goes, and the job behind it leaves PENDING or is gone. |
| Acting.AcknowledgeKeeps | calradia-server/src/living.rs:298-306 | An acknowledgement keeps it: both rows and the new state, or nothing. |
| Acting.CrashKeeps | calradia-server/src/living.rs:235-254 | A crash at any point followed by opening the database keeps it, although worker ids start over. |
| Submitting.SubmitKeeps | calradia-server/src/living.rs:341-379 | A submission keeps it, whether the store takes the job or not, the worker ids are used up or not, and the closing write succeeds or fails. |
| Submitting.NothingPendingInScope | calradia-server/src/living.rs:333-336 | When the decision is to submit, no PENDING job of the store has the scope of that conversation. |
| Custody.JobStaysTracked | calradia-server/src/jobs.rs:385-416 | Through any access of the store, a job of version 2 keeps a submission of its talk and prompt, is not superseded, and if READY has its outcome on record. |
| Custody.FinishedIsMade | calradia-server/src/jobs.rs:385-407 | The outcome that settles a job of version 2 was generated for that job's own talk and prompt. |
| Memory.Memory.Open | calradia-server/src/living.rs:235-254 | Opening fails what was pending, keeps every other row, and starts with no routes and the first worker id above the request ids. |
| Memory.Memory.Record | calradia-server/src/living.rs:416-419 | The update records the verdict only while the row is pending. |
| Memory.Memory.CollectFinished | calradia-server/src/living.rs:400-423 | The loop visits every route once, in any order, over a changing store; a failing update stops it with that attempt's route and row untouched. |
| Memory.CollectedInAnyOrder | calradia-server/src/living.rs:401-421 | What the loop leaves depends only on the terminal answers it found, not on the order in which the hash map yields the routes. |
| Memory.Memory.SubmitAttempt | calradia-server/src/living.rs:341-379 | The insertion, the worker id, the store's access and the route or failure, equal to the step of the server. |
| Memory.Memory.Perform | calradia-server/src/living.rs:272-380 | The decision and its effects on tables, routes and store, with the answer, equal to the step of the server, failed writes included. |
| Memory.Memory.Respond | calradia-server/src/living.rs:259-271 | Collecting and then performing; an error of either answers `memory_unavailable` and leaves what was done until then. |
| Sequential.RespondIsRun | calradia-server/src/living.rs:259-271 | What `respond` does is a run of the server: begin, one event for each visit of the collecting loop, and the last step, or a run that the failing update ends; memory, jobs and answer are equal in both cases. |
| Living.SetStageKeeps | calradia-server/src/living.rs:284-287 | Settling an attempt other than by a commit keeps the invariant of the tables. |
| Living.CommitKeeps | calradia-server/src/living.rs:299-304 | A commit keeps it: the exchange is appended once, in the order of acknowledgements, and days still do not go back. |
| Living.InsertKeeps | calradia-server/src/living.rs:341-349 | Inserting an attempt, with its campaign and conversation if new, keeps unique keys, one active attempt, and the order of days. |
| Living.RecoverKeeps | calradia-server/src/living.rs:244 | The recovery update leaves nothing pending, every row that was not pending as it was, and the messages untouched. |
| Living.NotAheadOfConversation | calradia-server/src/living.rs:315-318 | A day that passes the check on the branch is no earlier than any committed day of the conversation. |
| Recall.RecentIsWholeExchanges | calradia-server/src/living.rs:426-429 | Twelve rows by descending id, reversed, are the last six exchanges of the scope: never half an exchange, never a row of another scope. |
| Recall.PinnedAreFirstRequests | calradia-server/src/living.rs:430-437 | The pinned statements are the player's own words in the first three committed exchanges of the scope that ask to remember. |
| Recall.AsksIsBegins | calradia-server/src/living.rs:430 | A message asks to remember if it begins with `remember` and a space, in letters of any case. |
| Identity.ScopeIsInjective | calradia-server/src/living.rs:369 | Valid conversations have equal scopes only if they are equal, and no scope is the empty one of version 1. |
| Identity.ScopeReadsBack | calradia-server/src/living.rs:46-53 | The three identities of a valid conversation are read back from its scope, because none contains a colon. |
| Store.Store.constructor | calradia-server/src/jobs.rs:141-151 | A new store is empty and consistent. |
| Store.Store.SettleOne | calradia-server/src/jobs.rs:420-443 | Settling changes one PENDING job and nothing else, takes it off the queue, and hands out the socket of the running job. |
| Store.Store.SettleEach | calradia-server/src/jobs.rs:212-219 | Settling a group one by one, in any order, is settling all of it at once; at most one socket is handed out. |
| Jobs.SettleTwice | calradia-server/src/jobs.rs:304-315 | Settling two disjoint groups in turn equals settling their union, sockets included. |
| Store.Store.SweepAll | calradia-server/src/jobs.rs:304-324 | A sweep fails exactly the overdue PENDING jobs and removes exactly the expired terminal ones. |
| Store.Store.FindOldest | calradia-server/src/jobs.rs:222-228 | The job found is terminal and no terminal job is earlier in (finished, id); none is found only if none is terminal. |
| Store.Store.EvictWhileFull | calradia-server/src/jobs.rs:222-231 | The loop removes nothing from a store with room and exactly the oldest terminal job from a full one; its `break` is unreachable. |
| Store.Store.AdmitNew | calradia-server/src/jobs.rs:189-267 | Admission answers busy and changes nothing, or supersedes, evicts and queues, keeping the store consistent. |
| Store.Store.Talk | calradia-server/src/jobs.rs:165-187 | A talk as one critical section: state, answer and sockets. |
| Store.Store.Result | calradia-server/src/jobs.rs:270-279 | A result as one critical section. |
| Store.Store.CancelJob | calradia-server/src/jobs.rs:282-299 | A cancel as one critical section; a terminal job answers with its own state. |
| Store.Store.PopQueue | calradia-server/src/jobs.rs:332-354 | The popping loop fails exactly the overdue heads of the queue and takes the first job in time. |
| Store.Store.NextJob | calradia-server/src/jobs.rs:327-361 | One pass of the worker keeps the store consistent and leaves the queue empty when it takes nothing. |
| Store.Store.AttachSocket | calradia-server/src/jobs.rs:365-381 | A socket is registered only for the running job while that is PENDING; a failed clone registers nothing. |
| Store.Store.FinishJob | calradia-server/src/jobs.rs:385-416 | The outcome settles the job only if the sweep left it PENDING, and the sweep in it hands out no socket. |
| Jobs.SweepPending | calradia-server/src/jobs.rs:304-324 | After a sweep a job is PENDING exactly if it was and its deadline is still to come. |
| Jobs.SweepKeepsUntilTtl | calradia-server/src/jobs.rs:316-323 | After a sweep a job is left exactly if it is still in time, or terminal for less than a positive time to live; with clocks that go back it only stays longer. |
| Jobs.MakeRoomValid | calradia-server/src/jobs.rs:198-231 | After superseding and evicting there is room, nothing PENDING is left in the scope, and at most one job was removed. |
| Jobs.AdmitValid | calradia-server/src/jobs.rs:198-267 | An admission keeps capacity, queue and one PENDING job per NPC and scope; it keeps queue and running slot disjoint exactly if it does not admit the running id. |
| Jobs.FinishIsSweepSettleClear | calradia-server/src/jobs.rs:395-410 | Clearing the slot before the sweep equals clearing it last, and the sweep then has no socket to hand out. |
| Jobs.FinishValid | calradia-server/src/jobs.rs:385-416 | A finished run leaves a consistent store: a READY job beat its deadline and its text can be sanitized. |
| Accesses.NewTalkAnswer | calradia-server/src/jobs.rs:198-220 | A talk under an id that is not there after the sweep answers 6 `busy` if and only if as many jobs of other NPCs or scopes are queued as the queue can hold, or the store is full of PENDING jobs of which none is of this NPC and scope; else 1 `pending`. |
| Accesses.TakenTalk | calradia-server/src/jobs.rs:221-267 | What such a talk makes: its rivals are CANCELED as `superseded` at this clock reading and leave the queue, a full store loses the terminal job that finished first, every other job is as it was, and the new job, created now with its deadline, is last in the queue. |
| Accesses.KnownTalk | calradia-server/src/jobs.rs:177-184 | A talk under an id that is there changes nothing; it answers with the job's state if NPC, day, name and message are all equal, and 4 `conflict` otherwise. |
| Accesses.BusyTalk | calradia-server/src/jobs.rs:198-220 | A busy talk leaves what the sweep left. |
| Accesses.ResultAnswers | calradia-server/src/jobs.rs:82-91 | The code and text of each state of a job: 1 `pending`, 0 with the raw reply, 2 and 3 with the reason, and 5 `unknown_job` where there is none. |
| Accesses.SweepMakes | calradia-server/src/jobs.rs:304-324 | A job that a sweep leaves is as it was, or was overdue and has failed with `timeout` at this clock reading. |
| Accesses.SweepQueue | calradia-server/src/jobs.rs:304-315 | A sweep takes exactly the overdue jobs off the queue, in order, and a running one gives up its socket. |
| Accesses.CancelMakes | calradia-server/src/jobs.rs:282-299 | A cancel makes a job that is PENDING after the sweep CANCELED with `canceled` at this clock reading, off the queue, and changes nothing else. |
| Accesses.FinishMakes | calradia-server/src/jobs.rs:385-416 | The end of a run frees the slot, and a job PENDING and in time becomes READY with the raw reply, FAILED with `empty_reply` if that cannot be sanitized, or FAILED with the backend's reason. |
| Accesses.PollMakes | calradia-server/src/jobs.rs:327-361 | A poll fails the overdue jobs at the head of the queue with `timeout` and takes the first one in time, with its talk, prompt and deadline. |
| Accesses.AttachMakes | calradia-server/src/jobs.rs:365-381 | An attach is accepted exactly for the running job while that is PENDING, whether or not the socket could be cloned; a clone is then in the slot, and nothing else changes. |
| Runs.ReachedInv | calradia-server/src/jobs.rs:327-361 | In every state of every run the store is consistent, and the worker holds the running slot exactly while it works and never sleeps on a non-empty queue. |
| Runs.NextKeepsInv | calradia-server/src/jobs.rs:165-416 | Every critical section, with any clock reading, keeps the invariant of the store and its coupling to the worker. |
| Capacity.StoreIsPartitioned | calradia-server/src/jobs.rs:189-267 | In every state of every run: no id queued twice, only PENDING jobs queued, finished set exactly for terminal jobs, every PENDING job queued or running, both capacities kept, one PENDING job per NPC and scope. |
| Capacity.MakingRoomEvictsTheOldest | calradia-server/src/jobs.rs:222-231 | Making room removes nothing, or exactly the terminal job that finished first (ties by id) of a full store. |
| Capacity.BusyChangesNothing | calradia-server/src/jobs.rs:198-218 | A busy answer leaves the sweep of the old state and hands out only the sweep's socket. |
| Answers.StepEvolves | calradia-server/src/jobs.rs:420-443 | Any step only moves jobs from PENDING to a terminal state, for a stated reason, except for the one it admits. |
| Answers.TerminalIsFinal | calradia-server/src/jobs.rs:420-443 | No step changes a terminal job; its id can only go or be admitted anew. |
| Answers.AnswerHistory | calradia-server/src/jobs.rs:270-299 | Between two admissions of an id, its answers read PENDING any number of times, then one constant terminal answer, then UNKNOWN, over every run. |
| Answers.PendingAnswerIsInTime | calradia-server/src/jobs.rs:304-315 | With a positive limit, an answer of PENDING is given before the deadline, whatever the clock did before. |
| Answers.ReadyBeatDeadline | calradia-server/src/jobs.rs:395-406 | A READY job was finished before its deadline, in every state of every run, with clocks that may go back. |
| Admissions.StartsInAdmissionOrder | calradia-server/src/jobs.rs:327-361 | First in, first out by admission and not only by id: under any cancels, supersessions, timeouts and reuses of ids, the numbers of the admissions whose jobs the worker takes strictly increase, and each work item is what its own admission asked. |
| Admissions.QueueIsInAdmissionOrder | calradia-server/src/jobs.rs:255-267 | The queue holds the latest admissions of its ids in the order of admission, all of them after everything taken so far. |
| Retention.StaysIff | calradia-server/src/jobs.rs:222-231 | A critical section leaves a terminal job as it is if and only if its sweep does not find the time to live over and it does not evict the job as the one that finished first in a full store. |
| Retention.AnswersUntil | calradia-server/src/jobs.rs:270-323 | Along a whole run, with any clock readings, a terminal job keeps its answer if and only if no step comes when its time to live is over and none evicts it. |
| Order.NoLostWakeup | calradia-server/src/jobs.rs:262-266 | A worker that waits without a notification has no PENDING job to run. |
| Race.JobTakenIsPending | calradia-server/src/jobs.rs:332-354 | The job the worker takes is PENDING, in time, and equals the work item in every field. |
| Race.CancelAttachRace | calradia-server/src/jobs.rs:365-381 | From taking a job to finishing it, in every interleaving that does not admit its id again: the registered socket is handed out exactly once when the job leaves PENDING, or none was registered and every attach is refused. |
| Reuse.DisjointUnlessReused | calradia-server/src/jobs.rs:189-267 | A step makes the running job also a queued one if and only if it admits the running id. |
| Reuse.OwnUnlessMisdelivered | calradia-server/src/jobs.rs:399-411 | From a state in which every READY reply was made for its job's own admission, a step leads to such a state if and only if it is not a finish that misdelivers: the id in hand was admitted again since it was taken, the reply can be sanitized, and the job now under that id is PENDING and in time. |
| Reuse.MisdeliveredReply | calradia-server/src/jobs.rs:399-411 | What such a finish leaves: the job of a later admission holds the reply made of an earlier admission of the same id. |
| Reuse.RepliesAreOwnIff | calradia-server/src/jobs.rs:399-411 | In all states of a run every READY reply is its job's own, if and only if no finish of the run misdelivers. |
| Reuse.MisdeliversIff | calradia-server/src/jobs.rs:327-411 | From a poll that takes a job to the finish of it: the finish misdelivers if and only if a step in between admits that id, the reply can be sanitized, and the job then under the id is PENDING and in time. |
| Reuse.RepliesAreOwn | calradia-server/src/jobs.rs:399-411 | Runs that never admit the id of the running job keep queue and running slot disjoint, and every READY reply is its job's own in all their states. |
| Reuse.ReusedIdGetsOldReply | calradia-server/src/jobs.rs:399-411 | Such runs exist: with a time to live of one second, which the command line accepts (`main.rs`, lines 148 to 164), a cancelled running job expires, its id is admitted with another talk, and the old outcome settles the new job. |
| Sockets.SocketIsOwnIff | calradia-server/src/jobs.rs:365-381 | From taking a job until it finishes: a socket in the slot was registered with that job in hand, the job under the id is PENDING, and both are of the same admission if and only if no step in between admitted the id. |
| Sockets.OwnUnlessMisattached | calradia-server/src/jobs.rs:365-381 | A step leads from a slot whose socket is its job's own to such a slot if and only if it is not an attach for the PENDING job of a later admission of the id in hand. |
| Sockets.SocketsAreOwnIff | calradia-server/src/jobs.rs:365-381 | In all states of a run the socket in the slot is its job's own, if and only if no attach of the run is of that kind. |
| Sockets.ShutdownIsOwnIff | calradia-server/src/jobs.rs:420-443 | What a step shuts down is the one socket in the slot, with the PENDING job under the id in hand, which leaves that state unless its id is admitted anew; it is the job's own socket if and only if the id was not admitted again since it was taken. |
| Sockets.ReusedIdGetsOldSocket | calradia-server/src/jobs.rs:365-381 | With a time to live of one second: the worker registers the first job's socket for the second job of the id, and a cancel of the second shuts it down. |
| Sanitize.StripThinkLoop | calradia-server/src/sanitize.rs:67-82 | The loop computes the recursive removal of think blocks. |
| Sanitize.StripThinkOfRendered | calradia-server/src/sanitize.rs:67-82 | Of a text written as kept pieces and think blocks, closed or not at the end, exactly the kept pieces remain. |
| Sanitize.EveryTextIsRendered | calradia-server/src/sanitize.rs:67-82 | Every text is such a text, so the previous line says what happens to any input. |
| Sanitize.CleanLoop | calradia-server/src/sanitize.rs:43-63 | The single pass over the characters and the joined words are the steps of the specification. |
| Sanitize.Transliterate | calradia-server/src/sanitize.rs:100-128 | A replacement is never empty and holds only letters, quotes, minus signs, dots and spaces; of U+00C0 to U+017F only the signs U+00D7 and U+00F7 have none. |
| Sanitize.CapCutsAtAWord | calradia-server/src/sanitize.rs:85-96 | An overlong text is cut at the last space in [400, 497], else at 497, and ends in three dots. |
| Sanitize.SanitizedIsWellFormed | calradia-server/src/sanitize.rs:22-29 | A text that passes has a letter, single inner spaces, at most 500 characters, and nothing that the engine splits on or expands. |
| Sanitize.SanitizedInputIsPlain | calradia-server/src/sanitize.rs:31-38 | A sanitized input is printable ASCII with single inner spaces and without the two characters the engine splits on. |
| Sanitize.FixedPointIffNoThink | calradia-server/src/sanitize.rs:22-29 | A well-formed text is a fixed point if and only if it contains no opening think tag. |
| Sanitize.SanitizeTwice | calradia-server/src/sanitize.rs:22-29 | Sanitizing an output again changes it only if removing think blocks does. |
| Sanitize.NotIdempotent | calradia-server/src/sanitize.rs:67-82 | A concrete input whose output is changed by sanitizing it again. |
| Cleaning.CharacterBetween | calradia-server/src/sanitize.rs:43-61 | Any character between two texts that need no cleaning: control characters, carets and wide spaces part them with one space; a bar becomes a slash; braces become parentheses on output and stay on input; curly quotes, dashes, the ellipsis and the ordinals become their likeness; what has none goes on output and is a question mark on input. |
| Cleaning.BlanksCollapse | calradia-server/src/sanitize.rs:43-63 | Blanks of any kind before and after a text go, and any run of them within it is one space. |
| Cleaning.NoLetterIsEmptyReply | calradia-server/src/sanitize.rs:22-29 | An ASCII outcome without a letter is refused as `empty_reply`. |
| Cleaning.CasesAgree | calradia-server/src/sanitize.rs:134-159 | Each capital letter of U+00C0 to U+017F becomes one or two letters beginning with a capital, and its small letter the same letters in lower case. |
| Cleaning.CapitalsStandFor | calradia-server/src/sanitize.rs:134-159 | And which letters those are, for each capital letter. |
| Cleaning.LoneSmallLetters | calradia-server/src/sanitize.rs:134-159 | Four small letters without a capital beside them become `ss`, `k`, `n` and `s`. |
| Cleaning.ThinkBlocksGo | calradia-server/src/sanitize.rs:67-82 | A block between `<think>` and `</think>` goes with its tags, an unclosed one with the rest of the text. |
| Frame.IdRoundTrip | calradia-server/src/protocol.rs:174-183 | A number printed and parsed comes back exactly if it is a valid id. |
| Frame.FrameRoundTrip | calradia-server/src/protocol.rs:63-77 | Every frame has at most 522 characters and splits into four fields: the same rid twice, the code, and a well-formed text. |
| Numbers.ZerosAreRead | calradia-server/src/protocol.rs:173-183 | A printed number with any leading zeros is an id if and only if it has at most ten digits and lies in 1 to 999,999,999. |
| Numbers.OnlyDigitsAreIds | calradia-server/src/protocol.rs:173-183 | The empty text and any text with a character that is no digit are no ids. |
| Numbers.IdentityIff | calradia-server/src/living.rs:39-53 | The names of campaigns, branches and conversations are exactly two numbers of 1 to 900,000,000, printed without leading zeros, with a minus sign between them. |
| Http.PercentDecodeLoop | calradia-server/src/http.rs:37-58 | The index loop computes the recursive decoding. |
| Http.DecodeEncoded | calradia-server/src/http.rs:37-58 | Decoding inverts percent-encoding (section 2.1 of RFC 3986) on every byte string, with or without plus as space. |
| Http.QueryRoundTrip | calradia-server/src/http.rs:61-69 | Parsing the encoded pairs returns the pairs. |
| Http.HeadEndStable | calradia-server/src/http.rs:72-82 | A head end once found stays where it is when bytes are appended. |
| Http.ReadHead | calradia-server/src/http.rs:121-136 | The loop over the reads returns the first head end, or fails where the buffer outgrows the limit or the stream ends. |
| Http.ReadBody | calradia-server/src/http.rs:147-160 | The body is the declared number of bytes after the head, from the buffer and the following reads. |
| Http.ReadRequest | calradia-server/src/http.rs:118-163 | A request as a function of the reads served. |
| Http.TripsIffBoundary | calradia-server/src/http.rs:121-127 | The size limit is hit exactly if some read ends beyond it before the head terminator is complete. |
| Http.SplitIndependentIff | calradia-server/src/http.rs:118-163 | The result is the same for every way to cut the stream into reads if and only if the head terminator does not end in the one-buffer stretch after the limit. |
| Requests.RequestReadBack | calradia-server/src/http.rs:118-162 | A head, an empty line of either kind that ends within 65,537 bytes, the body its head announces and anything after it: every split gives that head and that body. |
| Requests.RequestRefused | calradia-server/src/http.rs:138-157 | Otherwise the result is the parser's reason, the announced length where it is beyond 1,048,576, or the number of body bytes that arrived of those announced. |
| Requests.HeadNeverEnds | calradia-server/src/http.rs:122-136 | Without an empty line the result is that the head is too long if more than 65,536 bytes arrive, and else how many arrived. |
| Requests.HeadEndsTooLate | calradia-server/src/http.rs:122-128 | A head that ends more than one buffer beyond the limit is too long in every split. |
| Requests.PlainTextDecoded | calradia-server/src/http.rs:37-58 | Without a percent sign decoding changes nothing but, in a query, each plus sign into a space. |
| Requests.LonePercentKept | calradia-server/src/http.rs:43-50 | A percent sign without two hexadecimal digits after it stands for itself. |
| Requests.EscapeDecoded | calradia-server/src/http.rs:43-48 | A percent sign and two digits of either case stand for that byte. |
| Requests.PartsReadBack | calradia-server/src/http.rs:61-69 | Any query of pairs, names alone and empty parts is read back: a name alone has the empty value and empty parts are skipped. |
| Upstream.Reader.ReadUntilLf | calradia-server/src/upstream.rs:394-399 | The bytes taken are those of the stream up to a LF, the budget or the end, with no LF before the last. |
| Upstream.RawLineOfScan | calradia-server/src/upstream.rs:400-406 | Where such a scan stops decides the line or its error, which depends on the budget and not on the end of the stream alone. |
| Upstream.Reader.ReadLine | calradia-server/src/upstream.rs:392-412 | A line, its cost charged to the budget, or why there is none; on every outcome no more than the budget is consumed. |
| Upstream.Reader.ReadExact | calradia-server/src/upstream.rs:381-384 | Exactly the bytes asked for, or an error, and never more consumed. |
| Upstream.LineReadBack | calradia-server/src/upstream.rs:392-412 | A line sent with CRLF is read back exactly if it fits the budget, and is too long otherwise. |
| Chunked.SizeLineReadBack | calradia-server/src/upstream.rs:370-372 | A line of hexadecimal digits of either case, leading zeros included, with or without a plus sign, white space around it and an extension, is read as the number of its digits if that fits 64 bits, and refused otherwise. |
| Chunked.SizeCanBeSent | calradia-server/src/upstream.rs:370-372 | So every size within 64 bits has such a line. |
| Chunked.ReadRound | calradia-server/src/upstream.rs:368-387 | One round of the loop, given the cap that is left. |
| Chunked.ReadChunked | calradia-server/src/upstream.rs:366-389 | The loop ends on any stream; its cap subtraction never goes below zero, the body never exceeds the cap, and whatever the outcome the bytes consumed are bounded. |
| Chunked.ChunkedRoundTrip | calradia-server/src/upstream.rs:366-389 | Any encoding of non-empty chunks (section 7.1 of RFC 9112), with any extensions, is read as their concatenation exactly if that fits the cap, and is too large otherwise. |
| Response.ReadHeaders | calradia-server/src/upstream.rs:320-339 | The inner loop over the header lines, whose budget strictly decreases; on every outcome no more than that budget is consumed. |
| Response.ReadHead | calradia-server/src/upstream.rs:310-343 | The outer loop ends on any stream; whether a head is returned or refused, endless interim responses included, all head lines together consume at most the budget. |
| Response.ReadToEnd | calradia-server/src/upstream.rs:353-360 | A body up to the end of the connection, refused exactly if more than the cap arrives. |
| Response.ReadResponse | calradia-server/src/upstream.rs:308-364 | A response as a function of the stream; a refused head has consumed at most the limit of heads, and a body after its head at most the bound of the longest framing. |
| Response.InterimsSkipped | calradia-server/src/upstream.rs:340-343 | Interim responses, those with a status of 100 to 199 (section 15.2 of RFC 9110), are skipped and paid for from the one budget. |
| Response.EndlessInterimsRefused | calradia-server/src/upstream.rs:308-312 | A stream that goes on with interim responses until the budget is spent is refused as too long. |
| Response.HeadsReadBack | calradia-server/src/upstream.rs:310-343 | Interim heads and a final head are read as the final head, with the last values of its fields, exactly if all their lines fit the budget. |
| Response.ResponseReadBack | calradia-server/src/upstream.rs:308-364 | A response as sent, with its body in chunks, by length or up to the end, is read back exactly if its head lines fit the budget and its body fits the cap. |
| Refusals.BareLfReadBack | calradia-server/src/upstream.rs:392-412 | A line that ends in a bare LF is read back exactly if it fits the budget. |
| Refusals.LastHeaderWins | calradia-server/src/upstream.rs:320-339 | The last Transfer-Encoding and the last Content-Length decide; without any the body is not chunked and has no length. |
| Refusals.BrokenHeadRefused | calradia-server/src/upstream.rs:311-339 | After any interim responses: an unreadable status line, a header line without a colon or with a bad length, and a stream that ends within a line are refused each for its own reason. |
| Refusals.BrokenBodyRefused | calradia-server/src/upstream.rs:344-389 | After a head that is read: a body shorter than its length, a length or a chunk beyond the cap, a body without end, a chunk line that is no size, a stream that ends within a chunk, and more bytes than its size are refused each for its own reason. |

## Left out

- UTF-8: `http.rs` and `upstream.rs` are modelled on bytes, `sanitize.rs` on code points; the lossy conversion between them, and trimming of non-ASCII white space in a chunk size, are not.
- `Grammar` in `Response`: how a status line and a header line are read is a parameter, so the results hold for any reading of them.
- `HeadParser` in `Http`: likewise, the request line and header fields are a parameter of the request reader.
- Errors of `read` and `write` on sockets: a stream ends or goes on, and a backend failure is any reason.
- Field checks of `living::parse` and `parse_v1` (ranges of numbers, allowed keys): single-branch facts; a request arrives with a valid conversation, as they ensure.
- Prompt text, profiles and the world file: the prompt is any function of the talk and of what is recalled, with any measure of its size.
- SQLite, JSON and the file lock: tables are sequences, payloads are compared as structures, a second owner of the database does not exist. A commit that reports an error leaves nothing.
- The condition variable and the mutex: waiting releases and blocks in one step, a notified worker polls again, and so may one that was not; poisoning does not occur.
- Overflow of `Instant` additions: times are natural numbers and differences stop at zero, as the code's do.
- The iteration order of hash maps: the loops take their elements in any order, and the results do not depend on it.
- Several version 2 requests at once: the mutex around the memory admits one at a time; the model has one request in progress.
- Liveness: that the worker eventually takes a job, or a request eventually ends, depends on scheduling and is not stated; loops are proved to end.
- `npc.rs`, `prompt.rs`, `main.rs`, `parse_endpoint`, `parse_completion`, connecting, sending and `format_response`: plumbing or single-branch functions.
- The game module, its tools and generated constants: not part of this model.
