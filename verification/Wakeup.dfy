/** Waiting for a job: one call of Dequeue against producers, closing, and the cancellation of its context, whose
    broadcast is sent without the lock. */
module Wakeup {
  import opened Queue

  /** The consumer: wanting the lock, at the loop test with the lock, about to sleep and still with the lock, in the list
      of sleepers without the lock, woken and wanting the lock, returned. */
  datatype Pc = Entering | Testing | Checked | Asleep | Woken | Returned(found: Found<string>)

  /** Jobs stand for their watch names. `fired`: the broadcast that the end of the context causes has been sent. */
  datatype State = State(jobs: seq<string>, closed: bool, done: bool, fired: bool, pc: Pc)

  /** A call finds the queue, and the context, as they are. */
  function Start(jobs: seq<string>, closed: bool, done: bool): State {
    State(jobs, closed, done, false, Entering)
  }

  datatype Event = Lock | Test | Wait | Arrive(job: string) | Shut | Cancel | Broadcast

  predicate Enabled(s: State, e: Event) {
    match e
    case Lock => s.pc.Entering? || s.pc.Woken?
    case Test => s.pc.Testing?
    case Wait => s.pc.Checked?
    case Arrive(_) => !s.pc.Testing? && !s.pc.Checked?
    case Shut => !s.pc.Testing? && !s.pc.Checked?
    case Cancel => !s.done
    case Broadcast => s.done && !s.fired
  }

  function Woke(pc: Pc): Pc {
    if pc.Asleep? then Woken else pc
  }

  function WatchName(job: string): string {
    job
  }

  function Step(s: State, e: Event, cap: int): State
    requires cap >= 1
  {
    match e
    case Lock => s.(pc := Testing)
    case Test =>
      (match Look(s.jobs, s.closed, s.done)
       case Sleep => s.(pc := Checked)
       case Job(j) => s.(jobs := s.jobs[1..], pc := Returned(Job(j)))
       case r => s.(pc := Returned(r)))
    case Wait => s.(pc := Asleep)
    case Arrive(j) =>
      s.(jobs := Put(s.jobs, cap, WatchName, j), pc := if |s.jobs| < cap then Woke(s.pc) else s.pc)
    case Shut => s.(closed := true, pc := Woke(s.pc))
    case Cancel => s.(done := true)
    case Broadcast => s.(fired := true, pc := Woke(s.pc))
  }

  function RunAll(s: State, evs: seq<Event>, cap: int): State
    requires cap >= 1
    decreases |evs|
  {
    if evs == [] then s else RunAll(Step(s, evs[0], cap), evs[1..], cap)
  }

  predicate CanRun(s: State, evs: seq<Event>, cap: int)
    requires cap >= 1
    decreases |evs|
  {
    evs == [] || (Enabled(s, evs[0]) && CanRun(Step(s, evs[0], cap), evs[1..], cap))
  }

  /** A state some run of some call reaches. */
  ghost predicate Reachable(s: State, cap: int)
    requires cap >= 1
  {
    exists jobs, closed, done, evs ::
      CanRun(Start(jobs, closed, done), evs, cap) && RunAll(Start(jobs, closed, done), evs, cap) == s
  }

  // ---- no job is missed ----

  ghost predicate Inv(s: State) {
    s.pc.Checked? || s.pc.Asleep? ==> s.jobs == [] && !s.closed
  }

  lemma {:induction false} RunInv(s: State, evs: seq<Event>, cap: int)
    requires cap >= 1 && Inv(s) && CanRun(s, evs, cap)
    ensures Inv(RunAll(s, evs, cap))
    decreases |evs|
  {
    if evs != [] {
      RunInv(Step(s, evs[0], cap), evs[1..], cap);
    }
  }

  /** A call never sleeps on a queue that holds a job or is closed. */
  lemma NoJobMissed(s: State, cap: int)
    requires cap >= 1 && Reachable(s, cap)
    ensures s.pc.Asleep? ==> s.jobs == [] && !s.closed
  {
    var jobs, closed, done, evs :|
      CanRun(Start(jobs, closed, done), evs, cap) && RunAll(Start(jobs, closed, done), evs, cap) == s;
    RunInv(Start(jobs, closed, done), evs, cap);
  }

  // ---- cancellation ----

  /** Steps of the call itself until it returns, if it does not go to sleep. */
  function Left(pc: Pc): nat {
    match pc
    case Entering => 2
    case Woken => 2
    case Testing => 1
    case Checked => 3
    case Asleep => 3
    case Returned(_) => 0
  }

  function OwnSteps(evs: seq<Event>): nat {
    if evs == [] then 0 else (if evs[0] in {Lock, Test, Wait} then 1 else 0) + OwnSteps(evs[1..])
  }

  /** With its context done, a call that is awake and outside the gap between test and sleep never sleeps again: each
      step of its own brings it closer to returning, which is at most two steps away, and it returns the cancellation. */
  lemma {:induction false} AwakeReturns(s: State, evs: seq<Event>, cap: int)
    requires cap >= 1 && CanRun(s, evs, cap) && s.done && !s.pc.Checked? && !s.pc.Asleep?
    ensures var t := RunAll(s, evs, cap);
            && t.done && !t.pc.Checked? && !t.pc.Asleep?
            && Left(t.pc) + OwnSteps(evs) == Left(s.pc)
            && (t.pc.Returned? ==> t.pc == (if s.pc.Returned? then s.pc else Returned(Cancelled)))
    decreases |evs|
  {
    if evs != [] {
      AwakeReturns(Step(s, evs[0], cap), evs[1..], cap);
    }
  }

  /** When the broadcast comes, the call has returned, or returns the cancellation after at most two more steps of its
      own, in every continuation, if and only if it is not just then in the gap between its test and going to sleep. */
  lemma BroadcastWakesIff(s: State, cap: int)
    requires cap >= 1 && Enabled(s, Broadcast)
    ensures var t := Step(s, Broadcast, cap);
            (forall more | CanRun(t, more, cap) ::
               && !RunAll(t, more, cap).pc.Asleep?
               && Left(RunAll(t, more, cap).pc) + OwnSteps(more) <= 2
               && (RunAll(t, more, cap).pc.Returned? ==>
                     RunAll(t, more, cap).pc == (if s.pc.Returned? then s.pc else Returned(Cancelled))))
            <==> !s.pc.Checked?
  {
    var t := Step(s, Broadcast, cap);
    if s.pc.Checked? {
      var more := [Wait];
      assert more[1..] == [];
      assert CanRun(t, more, cap) && RunAll(t, more, cap).pc.Asleep?;
    } else {
      forall more | CanRun(t, more, cap)
        ensures !RunAll(t, more, cap).pc.Asleep? && Left(RunAll(t, more, cap).pc) + OwnSteps(more) <= 2
        ensures RunAll(t, more, cap).pc.Returned? ==>
                  RunAll(t, more, cap).pc == (if s.pc.Returned? then s.pc else Returned(Cancelled))
      {
        AwakeReturns(t, more, cap);
      }
    }
  }

  predicate Stirs(e: Event) {
    e.Arrive? || e.Shut?
  }

  /** A call asleep behind its broadcast: nothing but the arrival of a job or the closing of the queue can happen next,
      and only behind that does the call return, with the cancellation, after two steps of its own. */
  lemma StuckUntilStirred(s: State, evs: seq<Event>, cap: int)
    requires cap >= 1 && Inv(s) && s.pc.Asleep? && s.done && s.fired && CanRun(s, evs, cap) && evs != []
    ensures var t := RunAll(s, evs, cap);
            && Stirs(evs[0]) && !t.pc.Asleep? && Left(t.pc) + OwnSteps(evs) == 2
            && (t.pc.Returned? ==> t.pc == Returned(Cancelled))
  {
    AwakeReturns(Step(s, evs[0], cap), evs[1..], cap);
  }

  /** The cancellation can be missed: on an empty queue, a context that ends, and broadcasts, between the test and the
      sleep leaves the call asleep with no step to take for anybody but a producer or whoever closes the queue. */
  lemma CancellationMissed(cap: int)
    requires cap >= 1
    ensures var s, evs := Start([], false, false), [Lock, Test, Cancel, Broadcast, Wait];
            && CanRun(s, evs, cap)
            && RunAll(s, evs, cap) == State([], false, true, true, Asleep)
            && forall e :: Enabled(RunAll(s, evs, cap), e) <==> Stirs(e)
  {
  }
}
