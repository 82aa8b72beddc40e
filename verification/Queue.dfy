/** The bounded job queue: a full queue replaces the waiting job of the same watch, or drops its head. */
module Queue {
  import opened Text

  /** Index of the first job of the watch `w`. */
  function FirstOf<T>(q: seq<T>, watch: T -> string, w: string): (r: Option<nat>)
    ensures r.Some? ==> r.value < |q| && watch(q[r.value]) == w && forall k | 0 <= k < r.value :: watch(q[k]) != w
    ensures r.None? ==> forall k | 0 <= k < |q| :: watch(q[k]) != w
  {
    if q == [] then None
    else if watch(q[0]) == w then Some(0)
    else match FirstOf(q[1..], watch, w) case Some(i) => Some(i + 1) case None => None
  }

  /** The queue behind an enqueue. */
  function Put<T>(q: seq<T>, cap: int, watch: T -> string, x: T): (r: seq<T>)
    requires cap >= 1 || q != []
    ensures cap >= 1 && |q| <= cap ==> |r| <= cap
    ensures x in r
  {
    if |q| < cap then
      assert (q + [x])[|q|] == x;
      q + [x]
    else
      match FirstOf(q, watch, watch(x))
      case Some(i) => assert q[i := x][i] == x; q[i := x]
      case None => assert (q[1..] + [x])[|q| - 1] == x; q[1..] + [x]
  }

  /** Where jobs stand behind an enqueue: with room, the newcomer comes last. In a full queue it stands where the first
      job of its watch stood; without one, the head goes and the others move up. Everybody else keeps their place. */
  lemma PutPlaces<T>(q: seq<T>, cap: int, watch: T -> string, x: T)
    requires cap >= 1
    ensures var r := Put(q, cap, watch, x);
            && (|q| < cap ==> r == q + [x])
            && (forall i | |q| >= cap && 0 <= i < |q| && watch(q[i]) == watch(x)
                           && (forall k | 0 <= k < i :: watch(q[k]) != watch(x)) ::
                  |r| == |q| && r[i] == x && forall k | 0 <= k < |q| && k != i :: r[k] == q[k])
            && (|q| >= cap && (forall k | 0 <= k < |q| :: watch(q[k]) != watch(x)) ==>
                  |r| == |q| && r[|q| - 1] == x && forall k | 0 < k < |q| :: r[k - 1] == q[k])
  {
    hide FirstOf;
    forall i | |q| >= cap && 0 <= i < |q| && watch(q[i]) == watch(x) && (forall k | 0 <= k < i :: watch(q[k]) != watch(x))
      ensures FirstOf(q, watch, watch(x)) == Some(i)
    {
    }
  }

  /** What a consumer finds: a job, nothing yet (it goes to sleep), a cancelled context, or a closed queue. */
  datatype Found<+T> = Job(job: T) | Sleep | Cancelled | Closed

  function Look<T>(q: seq<T>, closed: bool, done: bool): Found<T> {
    if q == [] && !closed then (if done then Cancelled else Sleep)
    else if done then Cancelled
    else if q == [] then Closed
    else Job(q[0])
  }

  /** Shared by producers and one consumer; every method runs under the lock. `asleep` is the consumer waiting on the
      condition variable, `signalled` that it has been woken since. */
  class Queue<T> {
    var jobs: seq<T>
    const cap: int
    var closed: bool
    const watch: T -> string
    var asleep: bool
    var signalled: bool

    /** The length is bounded, and the consumer never sleeps unsignalled on a queue it could leave. */
    ghost predicate Valid()
      reads this
    {
      && cap >= 1 && |jobs| <= cap
      && (asleep && !signalled ==> jobs == [] && !closed)
    }

    constructor (cap: int, watch: T -> string)
      requires cap >= 1
      ensures Valid() && jobs == [] && !closed && !asleep && this.cap == cap && this.watch == watch
    {
      this.jobs, this.cap, this.closed, this.watch := [], cap, false, watch;
      this.asleep, this.signalled := false, false;
    }

    method Enqueue(j: T)
      requires Valid()
      modifies this
      ensures Valid() && jobs == Put(old(jobs), cap, watch, j) && j in jobs
      ensures closed == old(closed) && asleep == old(asleep)
      ensures signalled == (old(signalled) || |old(jobs)| < cap)
    {
      if |jobs| < cap {
        jobs := jobs + [j];
        signalled := true;
        return;
      }
      for i := 0 to |jobs|
        invariant jobs == old(jobs) && signalled == old(signalled) && closed == old(closed) && asleep == old(asleep)
        invariant forall k | 0 <= k < i :: watch(jobs[k]) != watch(j)
      {
        if watch(jobs[i]) == watch(j) {
          jobs := jobs[i := j];
          return;
        }
      }
      jobs := jobs[1..] + [j];
    }

    /** One pass of the consumer's loop with the lock held, on entry or after waking up. */
    method Dequeue(done: bool) returns (r: Found<T>)
      requires Valid()
      modifies this
      ensures Valid() && r == Look(old(jobs), old(closed), done)
      ensures done ==> r == Cancelled
      ensures !done && old(jobs) != [] ==> r == Job(old(jobs)[0])
      ensures !done && old(jobs) == [] ==> r == if old(closed) then Closed else Sleep
      ensures jobs == (if r.Job? then old(jobs)[1..] else old(jobs)) && closed == old(closed)
      ensures asleep == r.Sleep?
    {
      asleep, signalled := false, false;
      if |jobs| == 0 && !closed {
        if done { return Cancelled; }
        asleep := true;
        return Sleep;
      }
      if done { return Cancelled; }
      if closed && |jobs| == 0 { return Closed; }
      r := Job(jobs[0]);
      jobs := jobs[1..];
    }

    method Close()
      requires Valid()
      modifies this
      ensures Valid() && closed && jobs == old(jobs) && asleep == old(asleep) && signalled
    {
      closed := true;
      signalled := true;
    }
  }

  // ---- whole runs ----

  /** A job with the number under which it was accepted. */
  datatype Entry = Entry(ticket: nat, watch: string)

  function WatchOf(e: Entry): string {
    e.watch
  }

  /** Where a job went that is no longer waiting. A dropped job remembers the full queue it was the head of. */
  datatype Fate = Taken | Superseded(later: nat) | Dropped(later: nat, full: seq<Entry>)

  datatype Op = Enq(watch: string) | Deq(done: bool) | CloseQueue

  datatype Run = Run(jobs: seq<Entry>, closed: bool, accepted: seq<string>, fates: map<nat, Fate>, out: seq<nat>)

  const FRESH := Run([], false, [], map[], [])

  /** The fate an enqueue brings over some waiting job, if any. */
  function Displaced(q: seq<Entry>, cap: int, x: Entry): map<nat, Fate>
    requires cap >= 1
  {
    if |q| < cap then map[]
    else
      match FirstOf(q, WatchOf, x.watch)
      case Some(i) => map[q[i].ticket := Superseded(x.ticket)]
      case None => map[q[0].ticket := Dropped(x.ticket, q)]
  }

  function Do(s: Run, cap: int, op: Op): Run
    requires cap >= 1
  {
    match op
    case Enq(w) =>
      var x := Entry(|s.accepted|, w);
      s.(jobs := Put(s.jobs, cap, WatchOf, x), accepted := s.accepted + [w],
         fates := s.fates + Displaced(s.jobs, cap, x))
    case Deq(done) =>
      (match Look(s.jobs, s.closed, done)
       case Job(e) => s.(jobs := s.jobs[1..], fates := s.fates[e.ticket := Taken], out := s.out + [e.ticket])
       case _ => s)
    case CloseQueue => s.(closed := true)
  }

  function DoAll(cap: int, ops: seq<Op>): Run
    requires cap >= 1
  {
    if ops == [] then FRESH else Do(DoAll(cap, ops[..|ops| - 1]), cap, ops[|ops| - 1])
  }

  predicate Waiting(s: Run, t: nat) {
    exists i | 0 <= i < |s.jobs| :: s.jobs[i].ticket == t
  }

  /** Every accepted job is waiting once or has one fate, never both, and nothing else is in the queue. */
  ghost predicate Accounted(s: Run) {
    && (forall i | 0 <= i < |s.jobs| :: s.jobs[i].ticket < |s.accepted| && s.jobs[i].watch == s.accepted[s.jobs[i].ticket])
    && (forall i, j | 0 <= i < j < |s.jobs| :: s.jobs[i].ticket != s.jobs[j].ticket)
    && (forall i | 0 <= i < |s.jobs| :: s.jobs[i].ticket !in s.fates)
    && (forall t | t in s.fates :: t < |s.accepted|)
    && (forall t: nat | t < |s.accepted| :: t in s.fates || Waiting(s, t))
  }

  /** Fates are what they say: a later job of the same watch, or a later job that met a full queue without its watch. */
  ghost predicate Justified(s: Run, cap: int)
    requires cap >= 1
  {
    forall t | t in s.fates && t < |s.accepted| ::
      match s.fates[t]
      case Taken => true
      case Superseded(b) => t < b < |s.accepted| && s.accepted[t] == s.accepted[b]
      case Dropped(b, q) =>
        && t < b < |s.accepted| && |q| == cap && q[0].ticket == t
        && forall k | 0 <= k < |q| :: q[k].watch != s.accepted[b]
  }

  ghost predicate Good(s: Run, cap: int)
    requires cap >= 1
  {
    |s.jobs| <= cap && Accounted(s) && Justified(s, cap)
  }

  lemma AppendGood(s: Run, cap: int, w: string)
    requires cap >= 1 && Good(s, cap) && |s.jobs| < cap
    ensures Good(Do(s, cap, Enq(w)), cap)
  {
    var s' := Do(s, cap, Enq(w));
    assert s.fates + map[] == s.fates;
    assert Accounted(s') by { AppendAccounted(s, s', Entry(|s.accepted|, w)); }
    assert Justified(s', cap) by { JustifiedKept(s, s', cap); }
    hide Accounted, Justified;
  }

  lemma AppendAccounted(s: Run, s': Run, x: Entry)
    requires Accounted(s) && x.ticket == |s.accepted| && s'.accepted == s.accepted + [x.watch]
    requires s'.jobs == s.jobs + [x] && s'.fates == s.fates
    ensures Accounted(s')
  {
    forall t: nat | t < |s'.accepted| ensures t in s'.fates || Waiting(s', t) {
      if t == |s.accepted| {
        assert s'.jobs[|s.jobs|].ticket == t;
      } else if t !in s.fates {
        var i :| 0 <= i < |s.jobs| && s.jobs[i].ticket == t;
        assert s'.jobs[i].ticket == t;
      }
    }
  }

  /** Fates stay justified as more jobs are accepted and taken. */
  lemma JustifiedKept(s: Run, s': Run, cap: int)
    requires cap >= 1 && Justified(s, cap) && s.accepted <= s'.accepted
    requires forall t | t in s.fates :: t < |s.accepted|
    requires forall t | t in s'.fates :: s'.fates[t].Taken? || (t in s.fates && s'.fates[t] == s.fates[t])
    ensures Justified(s', cap)
  {
  }

  /** One more accepted job, and one justified fate. */
  lemma JustifiedMore(s: Run, s': Run, cap: int, t: nat, f: Fate, w: string)
    requires cap >= 1 && Justified(s, cap) && (forall u | u in s.fates :: u < |s.accepted|)
    requires s'.accepted == s.accepted + [w] && s'.fates == s.fates[t := f] && t < |s.accepted|
    requires (f == Superseded(|s.accepted|) && s.accepted[t] == w)
             || (f.Dropped? && f.later == |s.accepted| && |f.full| == cap && f.full[0].ticket == t
                 && forall k | 0 <= k < |f.full| :: f.full[k].watch != w)
    ensures Justified(s', cap)
  {
  }

  lemma ReplaceGood(s: Run, cap: int, w: string)
    requires cap >= 1 && Good(s, cap) && |s.jobs| == cap && FirstOf(s.jobs, WatchOf, w).Some?
    ensures Good(Do(s, cap, Enq(w)), cap)
  {
    var s' := Do(s, cap, Enq(w));
    var r := FirstOf(s.jobs, WatchOf, w).value;
    var x := Entry(|s.accepted|, w);
    assert s'.jobs == s.jobs[r := x];
    assert s'.fates == s.fates[s.jobs[r].ticket := Superseded(x.ticket)];
    JustifiedMore(s, s', cap, s.jobs[r].ticket, Superseded(x.ticket), w);
    assert Accounted(s') by { ReplaceAccounted(s, s', r, x, Superseded(x.ticket)); }
    hide Accounted, Justified;
  }

  lemma ReplaceAccounted(s: Run, s': Run, r: nat, x: Entry, f: Fate)
    requires Accounted(s) && r < |s.jobs| && x.ticket == |s.accepted| && s'.accepted == s.accepted + [x.watch]
    requires s'.jobs == s.jobs[r := x] && s'.fates == s.fates[s.jobs[r].ticket := f]
    ensures Accounted(s')
  {
    forall t: nat | t < |s'.accepted| ensures t in s'.fates || Waiting(s', t) {
      if t == |s.accepted| {
        assert s'.jobs[r].ticket == t;
      } else if t !in s.fates && t != s.jobs[r].ticket {
        var i :| 0 <= i < |s.jobs| && s.jobs[i].ticket == t;
        assert s'.jobs[i].ticket == t;
      }
    }
  }

  lemma DropGood(s: Run, cap: int, w: string)
    requires cap >= 1 && Good(s, cap) && |s.jobs| == cap && FirstOf(s.jobs, WatchOf, w).None?
    ensures Good(Do(s, cap, Enq(w)), cap)
  {
    var s' := Do(s, cap, Enq(w));
    var x := Entry(|s.accepted|, w);
    var f := Dropped(x.ticket, s.jobs);
    assert s'.jobs == s.jobs[1..] + [x];
    assert s'.fates == s.fates[s.jobs[0].ticket := f];
    assert forall k | 0 <= k < |s.jobs| :: s.jobs[k].watch != w by {
      assert forall k | 0 <= k < |s.jobs| :: WatchOf(s.jobs[k]) != w;
    }
    JustifiedMore(s, s', cap, s.jobs[0].ticket, f, w);
    assert Accounted(s') by { DropAccounted(s, s', x, f); }
    hide Accounted, Justified;
  }

  lemma DropAccounted(s: Run, s': Run, x: Entry, f: Fate)
    requires Accounted(s) && s.jobs != [] && x.ticket == |s.accepted| && s'.accepted == s.accepted + [x.watch]
    requires s'.jobs == s.jobs[1..] + [x] && s'.fates == s.fates[s.jobs[0].ticket := f]
    ensures Accounted(s')
  {
    var n := |s.jobs|;
    assert forall i | 0 <= i < n - 1 :: s'.jobs[i] == s.jobs[i + 1];
    forall t: nat | t < |s'.accepted| ensures t in s'.fates || Waiting(s', t) {
      if t == |s.accepted| {
        assert s'.jobs[n - 1].ticket == t;
      } else if t !in s.fates && t != s.jobs[0].ticket {
        var i :| 0 <= i < n && s.jobs[i].ticket == t;
        assert s'.jobs[i - 1].ticket == t;
      }
    }
  }

  lemma TakeGood(s: Run, cap: int)
    requires cap >= 1 && Good(s, cap) && s.jobs != []
    ensures Good(Do(s, cap, Deq(false)), cap)
  {
    var s' := Do(s, cap, Deq(false));
    assert Accounted(s') by { TakeAccounted(s, s'); }
    assert Justified(s', cap) by { JustifiedKept(s, s', cap); }
    hide Accounted, Justified;
  }

  lemma TakeAccounted(s: Run, s': Run)
    requires Accounted(s) && s.jobs != [] && s'.accepted == s.accepted
    requires s'.jobs == s.jobs[1..] && s'.fates == s.fates[s.jobs[0].ticket := Taken]
    ensures Accounted(s')
  {
    forall t: nat | t < |s'.accepted| ensures t in s'.fates || Waiting(s', t) {
      if t !in s.fates && t != s.jobs[0].ticket {
        var i :| 0 <= i < |s.jobs| && s.jobs[i].ticket == t;
        assert s'.jobs[i - 1].ticket == t;
      }
    }
  }

  lemma DoGood(s: Run, cap: int, op: Op)
    requires cap >= 1 && Good(s, cap)
    ensures Good(Do(s, cap, op), cap)
  {
    match op
    case Enq(w) =>
      hide Good, Do;
      assert |s.jobs| <= cap by { GoodBound(s, cap); }
      if |s.jobs| < cap { AppendGood(s, cap, w); }
      else if FirstOf(s.jobs, WatchOf, w).Some? { ReplaceGood(s, cap, w); }
      else { DropGood(s, cap, w); }
    case Deq(done) =>
      if s.jobs != [] && !done { TakeGood(s, cap); }
    case CloseQueue => CloseGood(s, cap);
  }

  lemma GoodBound(s: Run, cap: int)
    requires cap >= 1 && Good(s, cap)
    ensures |s.jobs| <= cap
  {
  }

  lemma CloseGood(s: Run, cap: int)
    requires cap >= 1 && Good(s, cap)
    ensures Good(s.(closed := true), cap)
  {
    assert forall t: nat :: Waiting(s, t) ==> Waiting(s.(closed := true), t);
  }

  /** Over any run of queue operations the length stays within the capacity, and every accepted job is exactly one of
      waiting, taken, superseded by a later job of its watch, or dropped as the head of a full queue that held no job
      of the newcomer's watch. */
  lemma {:induction false} RunsAccounted(cap: int, ops: seq<Op>)
    requires cap >= 1
    ensures Good(DoAll(cap, ops), cap)
  {
    if ops != [] {
      RunsAccounted(cap, ops[..|ops| - 1]);
      DoGood(DoAll(cap, ops[..|ops| - 1]), cap, ops[|ops| - 1]);
    }
  }

  // ---- order ----

  function Tickets(q: seq<Entry>): (r: seq<nat>)
    ensures |r| == |q|
  {
    seq(|q|, i requires 0 <= i < |q| => q[i].ticket)
  }

  ghost predicate NoneSuperseded(s: Run) {
    forall t | t in s.fates :: !s.fates[t].Superseded?
  }

  ghost predicate NoneDropped(s: Run) {
    forall t | t in s.fates :: !s.fates[t].Dropped?
  }

  /** Jobs taken so far, then the jobs waiting. */
  function Line(s: Run): seq<nat> {
    s.out + Tickets(s.jobs)
  }

  ghost predicate Ascending(l: seq<nat>, bound: nat) {
    && (forall i, j | 0 <= i < j < |l| :: l[i] < l[j])
    && (forall i | 0 <= i < |l| :: l[i] < bound)
  }

  /** In order of acceptance; and if nothing was dropped either, without gaps. */
  ghost predicate InOrder(s: Run) {
    && Ascending(Line(s), |s.accepted|)
    && (NoneDropped(s) ==> |Line(s)| == |s.accepted|)
  }

  lemma FifoStep(s: Run, cap: int, op: Op)
    requires cap >= 1 && Good(s, cap) && NoneSuperseded(Do(s, cap, op))
    requires NoneSuperseded(s) ==> InOrder(s)
    ensures InOrder(Do(s, cap, op))
  {
    FatesGrow(s, cap, op);
    assert NoneSuperseded(s);
    match op
    case Enq(w) => hide InOrder, Good; FifoEnq(s, cap, w);
    case Deq(done) =>
      if s.jobs != [] && !done { FifoTake(s, cap); }
    case CloseQueue =>
  }

  lemma FifoEnq(s: Run, cap: int, w: string)
    requires cap >= 1 && Good(s, cap) && InOrder(s) && NoneSuperseded(Do(s, cap, Enq(w)))
    ensures InOrder(Do(s, cap, Enq(w)))
  {
    hide Accounted, Justified, FirstOf;
    var s' := Do(s, cap, Enq(w));
    if |s.jobs| < cap {
      assert s.fates + map[] == s.fates;
      LineGrows(s.out, s.jobs, Entry(|s.accepted|, w));
    } else {
      if FirstOf(s.jobs, WatchOf, w).Some? { ReplaceSupersedes(s, cap, w); }
      assert s'.fates[s.jobs[0].ticket].Dropped?;
      LineShifts(s.out, s.jobs, Entry(|s.accepted|, w));
    }
  }

  lemma ReplaceSupersedes(s: Run, cap: int, w: string)
    requires cap >= 1 && |s.jobs| == cap && FirstOf(s.jobs, WatchOf, w).Some?
    ensures !NoneSuperseded(Do(s, cap, Enq(w)))
  {
    var t := s.jobs[FirstOf(s.jobs, WatchOf, w).value].ticket;
    assert Do(s, cap, Enq(w)).fates[t].Superseded?;
  }

  lemma LineGrows(out: seq<nat>, q: seq<Entry>, x: Entry)
    requires Ascending(out + Tickets(q), x.ticket)
    ensures Ascending(out + Tickets(q + [x]), x.ticket + 1)
    ensures |out + Tickets(q + [x])| == |out + Tickets(q)| + 1
  {
    assert out + Tickets(q + [x]) == out + Tickets(q) + [x.ticket];
  }

  lemma LineShifts(out: seq<nat>, q: seq<Entry>, x: Entry)
    requires Ascending(out + Tickets(q), x.ticket) && q != []
    ensures Ascending(out + Tickets(q[1..] + [x]), x.ticket + 1)
  {
    var l, l' := out + Tickets(q), out + Tickets(q[1..] + [x]);
    assert forall i | 0 <= i < |out| :: l'[i] == l[i];
    assert forall i | |out| <= i < |l| - 1 :: l'[i] == l[i + 1];
    assert l'[|l| - 1] == x.ticket;
  }

  lemma FifoTake(s: Run, cap: int)
    requires cap >= 1 && InOrder(s) && s.jobs != []
    requires Good(s, cap)
    ensures InOrder(Do(s, cap, Deq(false)))
  {
    hide Justified, Ascending;
    var s' := Do(s, cap, Deq(false));
    assert s'.out + Tickets(s'.jobs) == s.out + Tickets(s.jobs);
    assert forall t | t in s.fates :: t in s'.fates && s'.fates[t] == s.fates[t] by { FatesGrow(s, cap, Deq(false)); }
  }

  /** A fate is final. */
  lemma FatesGrow(s: Run, cap: int, op: Op)
    requires cap >= 1 && Good(s, cap)
    ensures forall t | t in s.fates :: t in Do(s, cap, op).fates && Do(s, cap, op).fates[t] == s.fates[t]
  {
  }

  /** As long as no waiting job was replaced, jobs leave in the order in which they were accepted; if none was dropped
      either, every accepted job is in that line, so the queue is first in, first out. */
  lemma {:induction false} Fifo(cap: int, ops: seq<Op>)
    requires cap >= 1
    ensures NoneSuperseded(DoAll(cap, ops)) ==> InOrder(DoAll(cap, ops))
  {
    if ops != [] && NoneSuperseded(DoAll(cap, ops)) {
      var front := ops[..|ops| - 1];
      Fifo(cap, front);
      RunsAccounted(cap, front);
      FifoStep(DoAll(cap, front), cap, ops[|ops| - 1]);
    }
  }
}
