/**
 * `Store` (`jobs.rs`): the state behind the mutex, updated in place. Each method is one critical
 * section, or a helper of one, and is proved equal to the closed form in `Jobs.dfy`.
 */
module Store {
  import opened Prelude
  import opened Protocol
  import opened Jobs

  class Store {
    var jobs: map<Id, Job>
    var queue: seq<Id>
    var running: Option<Running>
    const limits: Limits

    function Snapshot(): Inner
      reads this
    {
      Inner(jobs, queue, running)
    }

    ghost predicate Consistent()
      reads this
    {
      Valid(limits, Snapshot())
    }

    constructor (limits: Limits)
      ensures Snapshot() == EMPTY_STORE && this.limits == limits && Consistent()
    {
      this.limits := limits;
      jobs, queue, running := map[], [], None;
    }

    /** `settle`. */
    method SettleOne(id: Id, st: State, now: Time) returns (conn: Option<Socket>)
      modifies this
      ensures Snapshot() == SettleIfPending(old(Snapshot()), id, st, now)
      ensures ToSeq(conn) == if PendingAt(old(Snapshot()), id) then KillOf(old(Snapshot()), {id}) else []
    {
      if id !in jobs || !jobs[id].IsPending() {
        return None;
      }
      jobs := jobs[id := jobs[id].Settled(st, now)];
      queue := Without(queue, {id});
      if running.Some? && running.value.id == id {
        conn := running.value.conn;
        running := Some(Running(id, None));
      } else {
        conn := None;
      }
      assert jobs == Settle(old(Snapshot()), {id}, st, now).jobs;
    }

    /** The loop that settles a group of jobs, in whatever order the hash map yields them. */
    method SettleEach(ids: set<Id>, st: State, now: Time) returns (kill: seq<Socket>)
      requires AllPending(Snapshot(), ids)
      modifies this
      ensures Snapshot() == Settle(old(Snapshot()), ids, st, now)
      ensures kill == KillOf(old(Snapshot()), ids)
    {
      ghost var start := Snapshot();
      var todo := ids;
      kill := [];
      SettleNothing(start, st, now);
      assert ids - todo == {};
      while todo != {}
        invariant todo <= ids
        invariant Snapshot() == Settle(start, ids - todo, st, now)
        invariant kill == KillOf(start, ids - todo)
      {
        var id :| id in todo;
        SettleTwice(start, ids - todo, {id}, st, now);
        assert ids - (todo - {id}) == (ids - todo) + {id};
        assert PendingAt(start, id) && PendingAt(Snapshot(), id);
        var conn := SettleOne(id, st, now);
        kill := kill + ToSeq(conn);
        todo := todo - {id};
      }
      assert ids - todo == ids;
    }

    /** `sweep`. */
    method SweepAll(now: Time) returns (kill: seq<Socket>)
      modifies this
      ensures Snapshot() == Sweep(limits, old(Snapshot()), now)
      ensures kill == SweepKill(old(Snapshot()), now)
    {
      var overdue := Overdue(Snapshot(), now);
      kill := SettleEach(overdue, Failed(REASON_TIMEOUT), now);
      jobs := map id | id in jobs && !Expired(limits, jobs[id], now) :: jobs[id];
    }

    /** The minimum of (finished, id) over the terminal jobs. */
    method FindOldest() returns (found: Option<Id>)
      ensures found.None? ==> !HasTerminal(jobs)
      ensures found.Some? ==> IsOldest(jobs, found.value)
    {
      var todo := jobs.Keys;
      found := None;
      while todo != {}
        invariant todo <= jobs.Keys
        invariant found.None? ==> forall id :: id in jobs && id !in todo ==> jobs[id].finished.None?
        invariant found.Some? ==> found.value in jobs && jobs[found.value].finished.Some?
        invariant found.Some? ==> forall id :: id in jobs && id !in todo && jobs[id].finished.Some?
                                               ==> NoLater(jobs, found.value, id)
      {
        var id :| id in todo;
        if jobs[id].finished.Some? {
          if found.None? || !NoLater(jobs, found.value, id) {
            found := Some(id);
          }
        }
        todo := todo - {id};
      }
    }

    /** The eviction loop of `admit`; with a job to evict it never meets its `break`. */
    method EvictWhileFull()
      requires Consistent() && (|jobs| >= limits.maxJobs ==> HasTerminal(jobs))
      modifies this`jobs
      ensures |old(jobs)| < limits.maxJobs ==> jobs == old(jobs)
      ensures |old(jobs)| >= limits.maxJobs ==> jobs == old(jobs) - {Oldest(old(jobs))}
    {
      ghost var full := jobs;
      while |jobs| >= limits.maxJobs
        invariant jobs == full || (|jobs| < limits.maxJobs && |full| >= limits.maxJobs && jobs == full - {Oldest(full)})
        decreases |jobs|
      {
        var oldest := FindOldest();
        if oldest.None? {
          assert false;
        } else {
          OldestIsUnique(jobs, oldest.value);
          EvictValid(limits, Snapshot());
          jobs := jobs - {oldest.value};
        }
      }
    }

    /** The part of `admit` that changes other jobs: victims are superseded, then a full store evicts. */
    method Clear(victims: set<Id>, npc: nat, scope: string, now: Time) returns (kill: seq<Socket>)
      requires Consistent() && victims == Victims(Snapshot(), npc, scope) && !IsBusy(limits, Snapshot(), npc, scope)
      modifies this
      ensures Snapshot() == MakeRoom(limits, old(Snapshot()), npc, scope, now)
      ensures kill == KillOf(old(Snapshot()), Victims(old(Snapshot()), npc, scope))
    {
      if |jobs| >= limits.maxJobs {
        EvictableAfterSettling(limits, Snapshot(), npc, scope, now);
      }
      SettleValid(limits, Snapshot(), victims, Canceled(REASON_SUPERSEDED), now);
      kill := SettleEach(victims, Canceled(REASON_SUPERSEDED), now);
      EvictWhileFull();
    }

    /** `admit`. Capacity is checked before anything changes. */
    method AdmitNew(id: Id, talk: Talk, prompt: Option<string>, scope: string, now: Time)
      returns (answer: Answer, kill: seq<Socket>)
      requires Consistent() && id !in jobs
      modifies this
      ensures Consistent()
      ensures IsBusy(limits, old(Snapshot()), talk.npc, scope) ==>
                answer == BUSY_ANSWER && Snapshot() == old(Snapshot()) && kill == []
      ensures !IsBusy(limits, old(Snapshot()), talk.npc, scope) ==>
                && answer == PENDING_ANSWER
                && Snapshot() == Admit(limits, old(Snapshot()), id, talk, prompt, scope, now)
                && kill == KillOf(old(Snapshot()), Victims(old(Snapshot()), talk.npc, scope))
    {
      var victims := Victims(Snapshot(), talk.npc, scope);
      var waiting := |Without(queue, victims)|;
      var evictable := victims != {} || HasTerminal(jobs);
      if waiting >= limits.queueLen || (|jobs| >= limits.maxJobs && !evictable) {
        return BUSY_ANSWER, [];
      }
      AdmitValid(limits, Snapshot(), id, talk, prompt, scope, now);
      kill := Clear(victims, talk.npc, scope, now);
      jobs := jobs[id := NewJob(limits, talk, prompt, scope, now)];
      queue := queue + [id];
      answer := PENDING_ANSWER;
    }

    /** `talk_with_prompt`. */
    method Talk(id: Id, talk: Talk, prompt: Option<string>, scope: string, now: Time)
      returns (answer: Answer, kill: seq<Socket>)
      requires Consistent()
      modifies this
      ensures Consistent()
      ensures Snapshot() == TalkTo(limits, old(Snapshot()), id, talk, prompt, scope, now)
      ensures answer == TalkAnswer(limits, old(Snapshot()), id, talk, scope, now)
      ensures kill == TalkKill(limits, old(Snapshot()), id, talk, scope, now)
    {
      SweepValid(limits, Snapshot(), now);
      kill := SweepAll(now);
      if id in jobs {
        answer := if jobs[id].talk == talk then jobs[id].Reply() else CONFLICT_ANSWER;
      } else {
        var more;
        answer, more := AdmitNew(id, talk, prompt, scope, now);
        kill := kill + more;
      }
    }

    /** `result`. */
    method Result(id: Id, now: Time) returns (answer: Answer, kill: seq<Socket>)
      requires Consistent()
      modifies this
      ensures Consistent()
      ensures Snapshot() == Sweep(limits, old(Snapshot()), now)
      ensures answer == AnswerFor(Snapshot(), id) && kill == SweepKill(old(Snapshot()), now)
    {
      SweepValid(limits, Snapshot(), now);
      kill := SweepAll(now);
      answer := if id in jobs then jobs[id].Reply() else UNKNOWN_ANSWER;
    }

    /** `cancel`. */
    method CancelJob(id: Id, now: Time) returns (answer: Answer, kill: seq<Socket>)
      requires Consistent()
      modifies this
      ensures Consistent()
      ensures Snapshot() == Cancel(limits, old(Snapshot()), id, now)
      ensures answer == AnswerFor(Snapshot(), id) && kill == CancelKill(limits, old(Snapshot()), id, now)
    {
      CancelValid(limits, Snapshot(), id, now);
      kill := SweepAll(now);
      if id !in jobs {
        answer := UNKNOWN_ANSWER;
      } else if jobs[id].IsPending() {
        var conn := SettleOne(id, Canceled(REASON_CANCELED), now);
        kill := kill + ToSeq(conn);
        answer := CANCELED_ANSWER;
      } else {
        answer := jobs[id].Reply();
      }
    }

    /** One pass of `next_job` over the queue; `None` is the point where the worker waits. */
    method NextJob(now: Time) returns (item: Option<WorkItem>)
      requires Consistent() && running.None?
      modifies this
      ensures Consistent()
      ensures (Snapshot(), item) == Poll(old(Snapshot()), now)
    {
      PollValid(limits, Snapshot(), now);
      item := PopQueue(now);
    }

    /** The popping loop of `next_job`. */
    method PopQueue(now: Time) returns (item: Option<WorkItem>)
      requires QueueOk(Snapshot())
      modifies this
      ensures (Snapshot(), item) == Poll(old(Snapshot()), now)
    {
      ghost var start, done := Snapshot(), 0;
      PopNone(start, now);
      while queue != []
        invariant Popped(start, Snapshot(), done, now)
        decreases |queue|
      {
        var id := queue[0];
        ghost var s := Snapshot();
        HeadIsPending(start, s, done, now);
        queue := queue[1..];
        if !PendingAt(Snapshot(), id) {
          assert false;
        } else if now >= jobs[id].deadline {
          PopOverdue(start, s, done, now);
          var conn := SettleOne(id, Failed(REASON_TIMEOUT), now);
          done := done + 1;
        } else {
          PopTaken(start, s, done, now);
          running := Some(Running(id, None));
          return Some(Item(id, jobs[id]));
        }
      }
      PopEmpty(start, Snapshot(), done, now);
      item := None;
    }

    /** `attach`. `clone` is what cloning the socket gave, before the lock was taken. */
    method AttachSocket(id: Id, clone: Option<Socket>) returns (live: bool)
      requires Consistent()
      modifies this
      ensures Consistent()
      ensures (Snapshot(), live) == Attach(old(Snapshot()), id, clone)
    {
      AttachValid(limits, Snapshot(), id, clone);
      var pending := id in jobs && jobs[id].IsPending();
      if running.Some? && running.value.id == id && pending {
        if clone.Some? {
          running := Some(Running(id, clone));
        }
        return true;
      }
      return false;
    }

    /** `finish`. */
    method FinishJob(id: Id, outcome: Outcome, now: Time) returns (kill: seq<Socket>)
      requires Consistent() && IsRunning(Snapshot(), id)
      modifies this
      ensures Consistent()
      ensures Snapshot() == Finish(limits, old(Snapshot()), id, outcome, now)
      ensures kill == []
    {
      FinishValid(limits, Snapshot(), id, outcome, now);
      FinishIsSweepSettleClear(limits, Snapshot(), id, outcome, now);
      var st := Decide(outcome);
      running := None;
      kill := SweepAll(now);
      if id in jobs && jobs[id].IsPending() {
        var conn := SettleOne(id, st, now);
      }
    }
  }

  /** Where `next_job` stands after popping `done` overdue jobs off the queue of `start`. */
  ghost predicate Popped(start: Inner, s: Inner, done: nat, now: Time) {
    && QueueOk(start) && done <= |start.queue|
    && s == Settle(start, Elements(start.queue[..done]), Failed(REASON_TIMEOUT), now)
    && s.queue == start.queue[done..]
    && done + LeadingOverdue(start, s.queue, now) == LeadingOverdue(start, start.queue, now)
  }

  lemma PopNone(start: Inner, now: Time)
    requires QueueOk(start)
    ensures Popped(start, start, 0, now)
  {
    SettleNothing(start, Failed(REASON_TIMEOUT), now);
    assert Elements(start.queue[..0]) == {};
  }

  lemma HeadIsPending(start: Inner, s: Inner, done: nat, now: Time)
    requires Popped(start, s, done, now) && s.queue != []
    ensures PendingAt(s, s.queue[0]) && s.jobs[s.queue[0]] == start.jobs[s.queue[0]]
    ensures s.queue[0] == start.queue[done] && s.queue[0] !in Elements(start.queue[..done])
  {
    assert s.queue[0] == start.queue[done] && start.queue[done] in start.queue;
  }

  /** Popping an overdue head and then settling it is settling one more of the original queue. */
  lemma PopOverdue(start: Inner, s: Inner, done: nat, now: Time)
    requires Popped(start, s, done, now) && s.queue != []
    requires s.queue[0] in s.jobs && now >= s.jobs[s.queue[0]].deadline
    ensures Popped(start, SettleIfPending(s.(queue := s.queue[1..]), s.queue[0], Failed(REASON_TIMEOUT), now),
      done + 1, now)
  {
    var st := Failed(REASON_TIMEOUT);
    var ids, id := Elements(start.queue[..done]), s.queue[0];
    HeadIsPending(start, s, done, now);
    SettleTwice(start, ids, {id}, st, now);
    assert Elements(start.queue[..done + 1]) == ids + {id};
    WithoutPrefix(start.queue, done + 1, ids + {id});
    WithoutNothing(s.queue[1..], {id});
  }

  lemma PopTaken(start: Inner, s: Inner, done: nat, now: Time)
    requires Popped(start, s, done, now) && s.queue != []
    requires s.queue[0] in s.jobs && now < s.jobs[s.queue[0]].deadline
    ensures Poll(start, now) == (Inner(s.jobs, s.queue[1..], Some(Running(s.queue[0], None))),
                                 Some(Item(s.queue[0], s.jobs[s.queue[0]])))
  {
    HeadIsPending(start, s, done, now);
    assert LeadingOverdue(start, start.queue, now) == done;
  }

  lemma PopEmpty(start: Inner, s: Inner, done: nat, now: Time)
    requires Popped(start, s, done, now) && s.queue == []
    ensures Poll(start, now) == (s, None)
  {
    assert start.queue[..done] == start.queue;
  }
}
