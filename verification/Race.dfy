/** Cancel against attach, and what reusing the id of a running job breaks (`jobs.rs`). */
module Race {
  import opened Prelude
  import opened Protocol
  import opened Jobs
  import opened Runs
  import opened Answers

  // ------------------------------------------------------------------ sockets handed out for shutdown

  /** The sockets a step shuts down after unlocking. */
  function KillBy(l: Limits, s: Sys, step: Step): seq<Socket> {
    match step
    case DoTalk(id, talk, _, scope, now) => TalkKill(l, s.inner, id, talk, scope, now)
    case DoResult(_, now) => SweepKill(s.inner, now)
    case DoCancel(id, now) => CancelKill(l, s.inner, id, now)
    case DoFinish(_, now) => SweepKill(s.inner.(running := None), now)
    case _ => []
  }

  /** The socket a step registers for the running job. */
  function RegisteredBy(s: Sys, step: Step): Option<Socket>
    requires Enabled(s, step)
  {
    if step.DoAttach? && Attach(s.inner, s.worker.item.id, step.clone).1 then step.clone else None
  }

  ghost function Kills(l: Limits, s: Sys, steps: seq<Step>): seq<Socket>
    requires Inv(l, s) && Legal(l, s, steps)
    decreases |steps|
  {
    if steps == [] then []
    else NextKeepsInv(l, s, steps[0]); KillBy(l, s, steps[0]) + Kills(l, Next(l, s, steps[0]), steps[1..])
  }

  ghost function Registered(l: Limits, s: Sys, steps: seq<Step>): Option<Socket>
    requires Inv(l, s) && Legal(l, s, steps)
    decreases |steps|
  {
    if steps == [] then None
    else
      NextKeepsInv(l, s, steps[0]);
      var later := Registered(l, Next(l, s, steps[0]), steps[1..]);
      if later.Some? then later else RegisteredBy(s, steps[0])
  }

  /** Between `s` and `t` the running job `id` keeps its socket while PENDING and gives it up once on leaving. */
  ghost predicate Hands(s: Inner, t: Inner, id: Id, kill: seq<Socket>) {
    && IsRunning(s, id) && IsRunning(t, id)
    && if PendingAt(t, id) then PendingAt(s, id) && kill == [] && t.running == s.running
       else t.running.value.conn.None? && kill == if PendingAt(s, id) then ToSeq(s.running.value.conn) else []
  }

  /** A running job that is no longer PENDING has no socket left. */
  ghost predicate Released(s: Inner, id: Id) {
    IsRunning(s, id) && (PendingAt(s, id) || s.running.value.conn.None?)
  }

  lemma HandsTwice(s: Inner, t: Inner, u: Inner, id: Id, a: seq<Socket>, b: seq<Socket>)
    requires Hands(s, t, id, a) && Hands(t, u, id, b)
    ensures Hands(s, u, id, a + b)
  {
  }

  lemma SettleHands(s: Inner, ids: set<Id>, st: State, now: Time, id: Id)
    requires AllPending(s, ids) && !st.Pending? && Released(s, id)
    ensures Hands(s, Settle(s, ids, st, now), id, KillOf(s, ids))
  {
  }

  lemma SweepHands(l: Limits, s: Inner, now: Time, id: Id)
    requires Valid(l, s) && Released(s, id)
    ensures Hands(s, Sweep(l, s, now), id, SweepKill(s, now))
  {
    SettleHands(s, Overdue(s, now), Failed(REASON_TIMEOUT), now, id);
    SweepPending(l, s, now);
  }

  lemma CancelHands(l: Limits, s: Inner, x: Id, now: Time, id: Id)
    requires Valid(l, s) && Released(s, id)
    ensures Hands(s, Cancel(l, s, x, now), id, CancelKill(l, s, x, now))
  {
    var t := Sweep(l, s, now);
    SweepHands(l, s, now, id);
    if PendingAt(t, x) {
      SettleHands(t, {x}, Canceled(REASON_CANCELED), now, id);
      HandsTwice(s, t, Cancel(l, s, x, now), id, SweepKill(s, now), KillOf(t, {x}));
    }
  }

  lemma MakeRoomHands(l: Limits, s: Inner, npc: nat, scope: string, now: Time, id: Id)
    requires Valid(l, s) && !IsBusy(l, s, npc, scope) && Released(s, id)
    ensures Hands(s, MakeRoom(l, s, npc, scope, now), id, KillOf(s, Victims(s, npc, scope)))
  {
    hide IsBusy, IsOldest, Valid, Victims;
    var victims := Victims(s, npc, scope);
    var t := Settle(s, victims, Canceled(REASON_SUPERSEDED), now);
    assert AllPending(s, victims) by {
      VictimsPending(s, npc, scope);
    }
    SettleValid(l, s, victims, Canceled(REASON_SUPERSEDED), now);
    SettleHands(s, victims, Canceled(REASON_SUPERSEDED), now, id);
    if HasTerminal(t.jobs) {
      EvictValid(l, t);
    }
  }

  lemma VictimsPending(s: Inner, npc: nat, scope: string)
    ensures AllPending(s, Victims(s, npc, scope))
  {
  }

  lemma TalkHands(l: Limits, s: Inner, x: Id, talk: Talk, prompt: Option<string>, scope: string, now: Time, id: Id)
    requires Valid(l, s) && Released(s, id) && !(Admits(l, s, x, talk, scope, now) && x == id)
    ensures Hands(s, TalkTo(l, s, x, talk, prompt, scope, now), id, TalkKill(l, s, x, talk, scope, now))
  {
    hide Sweep, MakeRoom, IsBusy, Valid, Settle, Victims;
    var t := Sweep(l, s, now);
    SweepValid(l, s, now);
    SweepHands(l, s, now, id);
    if Admits(l, s, x, talk, scope, now) {
      var u := MakeRoom(l, t, talk.npc, scope, now);
      MakeRoomHands(l, t, talk.npc, scope, now, id);
      HandsTwice(s, t, u, id, SweepKill(s, now), KillOf(t, Victims(t, talk.npc, scope)));
    }
  }

  lemma HandlerHands(l: Limits, s: Sys, step: Step, id: Id)
    requires Inv(l, s) && Released(s.inner, id) && !(AdmitsJob(l, s, step) && step.id == id)
    requires step.DoTalk? || step.DoResult? || step.DoCancel?
    ensures Hands(s.inner, Next(l, s, step).inner, id, KillBy(l, s, step))
  {
    match step
    case DoTalk(x, talk, prompt, scope, now) => TalkHands(l, s.inner, x, talk, prompt, scope, now, id);
    case DoResult(_, now) => SweepHands(l, s.inner, now, id);
    case DoCancel(x, now) => CancelHands(l, s.inner, x, now, id);
  }

  ghost predicate NoFinish(steps: seq<Step>) {
    forall i :: 0 <= i < |steps| ==> !steps[i].DoFinish?
  }

  /** What a stretch of a run does to the running job `id`: `Hands`, with attaches allowed. */
  ghost predicate Raced(s: Inner, t: Inner, id: Id, kills: seq<Socket>, registered: Option<Socket>) {
    && IsRunning(s, id) && Released(t, id)
    && var final := if registered.Some? then registered else s.running.value.conn;
    && (PendingAt(t, id) ==> PendingAt(s, id) && kills == [] && t.running.value.conn == final)
    && (PendingAt(s, id) && !PendingAt(t, id) ==> kills == ToSeq(final))
    && (!PendingAt(s, id) ==> kills == [] && registered.None?)
  }

  lemma HandsThenRaced(s: Inner, t: Inner, u: Inner, id: Id, a: seq<Socket>, b: seq<Socket>, registered: Option<Socket>)
    requires Released(s, id) && Hands(s, t, id, a) && Raced(t, u, id, b, registered)
    ensures Raced(s, u, id, a + b, registered)
  {
  }

  lemma AttachThenRaced(s: Inner, u: Inner, id: Id, clone: Option<Socket>, b: seq<Socket>, registered: Option<Socket>)
    requires Released(s, id) && Raced(Attach(s, id, clone).0, u, id, b, registered)
    ensures Raced(s, u, id, [] + b,
                  if registered.Some? then registered else if Attach(s, id, clone).1 then clone else None)
  {
    assert [] + b == b;
  }

  lemma {:induction false} RunRaces(l: Limits, s: Sys, steps: seq<Step>, id: Id)
    requires Inv(l, s) && Legal(l, s, steps) && NoFinish(steps) && NeverAdmits(l, s, steps, id)
    requires s.worker.Working? && s.worker.item.id == id && Released(s.inner, id)
    ensures Exec(l, s, steps).worker.Working? && Exec(l, s, steps).worker.item == s.worker.item
    ensures Raced(s.inner, Exec(l, s, steps).inner, id, Kills(l, s, steps), Registered(l, s, steps))
    decreases |steps|
  {
    if steps != [] {
      var step := steps[0];
      NextKeepsInv(l, s, step);
      var t := Next(l, s, step);
      assert !step.DoFinish?;
      if step.DoAttach? {
        RunRaces(l, t, steps[1..], id);
        AttachThenRaced(s.inner, Exec(l, s, steps).inner, id, step.clone, Kills(l, t, steps[1..]),
          Registered(l, t, steps[1..]));
      } else {
        HandlerHands(l, s, step, id);
        RunRaces(l, t, steps[1..], id);
        HandsThenRaced(s.inner, t.inner, Exec(l, s, steps).inner, id, KillBy(l, s, step),
                       Kills(l, t, steps[1..]), Registered(l, t, steps[1..]));
      }
    }
  }

  /**
   * Cancel against attach. From the moment the worker takes a job until it finishes, in every
   * interleaving that does not admit the same id again: while the job is PENDING nothing is handed
   * out and the slot holds what was registered; once it left PENDING, exactly the registered socket
   * has been handed out, once, or nothing if none was registered, and any attach is refused.
   */
  lemma CancelAttachRace(l: Limits, s: Sys, now: Time, taken: Sys, steps: seq<Step>)
    requires Inv(l, s) && Enabled(s, DoPoll(now)) && taken == Next(l, s, DoPoll(now)) && taken.worker.Working?
    requires Inv(l, taken) && Legal(l, taken, steps) && NoFinish(steps)
    requires NeverAdmits(l, taken, steps, taken.worker.item.id)
    ensures var t, id := Exec(l, taken, steps), taken.worker.item.id;
      if PendingAt(t.inner, id) then
        Kills(l, taken, steps) == [] && t.inner.running == Some(Running(id, Registered(l, taken, steps)))
      else
        && Kills(l, taken, steps) == ToSeq(Registered(l, taken, steps))
        && forall clone :: !Attach(t.inner, id, clone).1
  {
    JobTakenIsPending(l, s, now);
    RunRaces(l, taken, steps, taken.worker.item.id);
  }

  /** The job the worker takes is PENDING, has no socket yet, and is the work item in every field. */
  lemma JobTakenIsPending(l: Limits, s: Sys, now: Time)
    requires Inv(l, s) && Enabled(s, DoPoll(now)) && Next(l, s, DoPoll(now)).worker.Working?
    ensures var t := Next(l, s, DoPoll(now)); var id := t.worker.item.id;
      && PendingAt(t.inner, id) && t.inner.running == Some(Running(id, None))
      && t.worker.item == Item(id, t.inner.jobs[id]) && id in s.inner.queue && now < t.inner.jobs[id].deadline
  {
    var k, popped := PollSplits(l, s.inner, now);
    if k < |s.inner.queue| {
      assert popped.queue[0] == s.inner.queue[k] && popped.queue[0] in popped.queue;
    }
  }
}
