/** Running the jobs of a workflow wave by wave: a job is skipped when a job it needs directly ran and failed. */
module JobLoop {
  import opened Text
  import opened Context
  import opened Sets
  import opened Waves
  import opened Schedule

  /** What running a job comes to: an error that ends the whole run, or a status. */
  datatype JobResult = Erred | Done(status: JobStatus)

  /** A status callback. */
  datatype Event = Event(job: JobId, status: JobStatus)

  datatype RunResult = BadOrder | JobErred(job: JobId) | Exit(code: int)

  predicate Fails(outcome: JobId -> JobResult, j: JobId) {
    outcome(j) == Done(Failure)
  }

  /** The rule without any order in it: a job runs unless some direct need both ran and failed. */
  ghost predicate Fixpoint(g: Graph, outcome: JobId -> JobResult, ran: set<JobId>) {
    && ran <= g.Keys
    && forall j | j in g :: j in ran <==> forall n | n in g[j] :: !(n in ran && outcome(n) == Done(Failure))
  }

  lemma {:induction false} FixpointsAgree(g: Graph, outcome: JobId -> JobResult, a: set<JobId>, b: set<JobId>, k: nat)
    requires Fixpoint(g, outcome, a) && Fixpoint(g, outcome, b)
    ensures forall j | j in Placed(g, k) :: j in a <==> j in b
  {
    hide Fixpoint;
    if k > 0 {
      FixpointsAgree(g, outcome, a, b, k - 1);
      forall j | j in Placed(g, k) ensures j in a <==> j in b {
        if j !in Placed(g, k - 1) {
          AgreeOn(g, outcome, a, b, j);
        }
      }
    }
  }

  lemma AgreeOn(g: Graph, outcome: JobId -> JobResult, a: set<JobId>, b: set<JobId>, j: JobId)
    requires Fixpoint(g, outcome, a) && Fixpoint(g, outcome, b)
    requires j in g && forall n | n in g[j] :: n in a <==> n in b
    ensures j in a <==> j in b
  {
  }

  /** On acyclic needs the rule has at most one solution, so no order of the jobs can make a difference. */
  lemma FixpointUnique(g: Graph, outcome: JobId -> JobResult, a: set<JobId>, b: set<JobId>, k: nat)
    requires Fixpoint(g, outcome, a) && Fixpoint(g, outcome, b) && Placed(g, k) == g.Keys
    ensures a == b
  {
    hide Fails, Placed;
    FixpointsAgree(g, outcome, a, b, k);
  }

  /** The solution, layer by layer. */
  ghost function RanUpTo(g: Graph, outcome: JobId -> JobResult, k: nat): (r: set<JobId>)
    ensures r <= Placed(g, k)
  {
    if k == 0 then {}
    else
      var before := RanUpTo(g, outcome, k - 1);
      before + Admitted(g, outcome, before, Layer(g, k - 1))
  }

  /** The jobs of a layer that run, given what ran before. */
  ghost function Admitted(g: Graph, outcome: JobId -> JobResult, before: set<JobId>, layer: set<JobId>): (r: set<JobId>)
    requires layer <= g.Keys
    ensures r <= layer
  {
    set j | j in layer && forall n | n in g[j] :: !(n in before && Fails(outcome, n))
  }

  /** Later layers do not change what is decided for earlier ones. */
  lemma {:induction false} RanStable(g: Graph, outcome: JobId -> JobResult, j: nat, k: nat, id: JobId)
    requires j <= k && id in Placed(g, j)
    ensures id in RanUpTo(g, outcome, j) <==> id in RanUpTo(g, outcome, k)
    decreases k
  {
    hide Fails, Placed;
    if j < k {
      RanStable(g, outcome, j, k - 1, id);
      PlacedMonotone(g, j, k - 1);
      assert id !in Layer(g, k - 1);
    }
  }

  lemma RanDecided(g: Graph, outcome: JobId -> JobResult, m: nat, k: nat, id: JobId)
    requires m < k && id in Layer(g, m)
    ensures id in RanUpTo(g, outcome, k) <==>
            forall n | n in g[id] :: !(n in RanUpTo(g, outcome, k) && Fails(outcome, n))
  {
    RanStable(g, outcome, m + 1, k, id);
    assert id !in RanUpTo(g, outcome, m);
    PlacedMonotone(g, m, k);
    forall n | n in g[id] ensures n in RanUpTo(g, outcome, m) <==> n in RanUpTo(g, outcome, k) {
      RanStable(g, outcome, m, k, n);
    }
  }

  lemma RanIsFixpoint(g: Graph, outcome: JobId -> JobResult, k: nat)
    requires Placed(g, k) == g.Keys
    ensures Fixpoint(g, outcome, RanUpTo(g, outcome, k))
  {
    forall j | j in g
      ensures j in RanUpTo(g, outcome, k) <==>
              forall n | n in g[j] :: !(n in RanUpTo(g, outcome, k) && Fails(outcome, n))
    {
      PlacedLayer(g, k, j);
      var m: nat :| m < k && j in Layer(g, m);
      RanDecided(g, outcome, m, k, j);
    }
  }

  /** The rule looks at direct needs only: behind a skipped job the next one runs again. */
  lemma SkipIsNotTransitive(outcome: JobId -> JobResult, ran: set<JobId>)
    requires Fails(outcome, "a") && Fixpoint(map["a" := [], "b" := ["a"], "c" := ["b"]], outcome, ran)
    ensures ran == {"a", "c"}
  {
    var g: Graph := map["a" := [], "b" := ["a"], "c" := ["b"]];
    assert "a" in g["b"] && "b" in g["c"];
    assert "a" in ran && "b" !in ran && "c" in ran;
  }

  /** Behind a skipped job every job is skipped, too. */
  ghost predicate SkipsOn(g: Graph, ran: set<JobId>) {
    forall j, n | j in g && n in g[j] && n in g && n !in ran :: j !in ran
  }

  /** Every job lists the needs of its needs as its own. */
  ghost predicate TransitiveNeeds(g: Graph) {
    forall j, n, m | j in g && n in g[j] && n in g && m in g[n] :: m in g[j]
  }

  lemma TransitiveSkipsOn(g: Graph, outcome: JobId -> JobResult, ran: set<JobId>)
    requires TransitiveNeeds(g) && Fixpoint(g, outcome, ran)
    ensures SkipsOn(g, ran)
  {
    forall j, n | j in g && n in g[j] && n in g && n !in ran ensures j !in ran {
      var m :| m in g[n] && m in ran && Fails(outcome, m);
      assert m in g[j];
    }
  }

  /** The outcome in which one job fails and all others succeed, and which jobs then run. */
  lemma OneFails(g: Graph, m: JobId) returns (outcome: JobId -> JobResult, ran: set<JobId>)
    requires Known(g) && Acyclic(g) && m in g
    ensures Fixpoint(g, outcome, ran) && ran == set x | x in g && m !in g[x]
  {
    outcome := x => if x == m then Done(Failure) else Done(Success);
    ran := set x | x in g && m !in g[x];
    assert !IsCycle(g, [m, m]);
    assert m !in g[m];
  }

  /** Skipping carries on through a workflow, whatever its jobs come to, if and only if every job lists the needs of its
      needs as its own. */
  lemma SkipsOnIffTransitive(g: Graph)
    requires Known(g) && Acyclic(g)
    ensures (forall outcome: JobId -> JobResult, ran: set<JobId> | Fixpoint(g, outcome, ran) :: SkipsOn(g, ran))
            <==> TransitiveNeeds(g)
  {
    hide Fixpoint, Acyclic, Known;
    if TransitiveNeeds(g) {
      forall outcome: JobId -> JobResult, ran: set<JobId> | Fixpoint(g, outcome, ran) ensures SkipsOn(g, ran) {
        TransitiveSkipsOn(g, outcome, ran);
      }
    } else {
      var j, n, m :| j in g && n in g[j] && n in g && m in g[n] && m !in g[j];
      assert m in g by { NeedKnown(g, n, m); }
      var outcome, ran := OneFails(g, m);
      assert j in ran && n !in ran;
      assert !SkipsOn(g, ran);
    }
  }

  lemma NeedKnown(g: Graph, id: JobId, n: JobId)
    requires Known(g) && id in g && n in g[id]
    ensures n in g
  {
  }

  // ---- the loop ----

  /** The callbacks for one job. */
  function Events(outcome: JobId -> JobResult, ran: set<JobId>, j: JobId): seq<Event> {
    if j !in ran then [Event(j, Skipped)]
    else
      [Event(j, Running), Event(j, match outcome(j) case Erred => Failure case Done(s) => s)]
  }

  function Trace(outcome: JobId -> JobResult, ran: set<JobId>, order: seq<JobId>): seq<Event> {
    if order == [] then []
    else Trace(outcome, ran, order[..|order| - 1]) + Events(outcome, ran, order[|order| - 1])
  }

  /** The jobs handled so far, in order, with what was recorded about them. */
  ghost predicate Handled(outcome: JobId -> JobResult, ran: set<JobId>, order: seq<JobId>,
                          failed: set<JobId>, code: int, log: seq<Event>) {
    && (forall j :: j in failed <==> j in order && j in ran && Fails(outcome, j))
    && code == (if failed == {} then 0 else 1)
    && log == Trace(outcome, ran, order)
    && NoneErred(outcome, ran, order)
  }

  ghost predicate NoneErred(outcome: JobId -> JobResult, ran: set<JobId>, order: seq<JobId>) {
    forall j | j in order && j in ran :: outcome(j) != Erred
  }

  method DependencyFailed(needs: seq<JobId>, failed: set<JobId>) returns (b: bool)
    ensures b <==> exists n | n in needs :: n in failed
  {
    for i := 0 to |needs|
      invariant forall n | n in needs[..i] :: n !in failed
    {
      if needs[i] in failed { return true; }
    }
    return false;
  }

  /** One job: skip it, or run it and record what came of it. */
  method HandleJob(jobs: map<JobId, NeedsField>, outcome: JobId -> JobResult, j: JobId, ghost ran: set<JobId>,
                   ghost order: seq<JobId>, failed0: set<JobId>, code0: int, log0: seq<Event>)
    returns (erred: bool, failed: set<JobId>, code: int, log: seq<Event>)
    requires j in jobs && Fixpoint(GraphOf(jobs), outcome, ran)
    requires forall n | n in GraphOf(jobs)[j] :: n in order
    requires Handled(outcome, ran, order, failed0, code0, log0)
    ensures erred <==> j in ran && outcome(j) == Erred
    ensures erred ==> log == Trace(outcome, ran, order + [j])
    ensures !erred ==> Handled(outcome, ran, order + [j], failed, code, log)
  {
    erred, failed, code, log := false, failed0, code0, log0;
    assert (order + [j])[..|order|] == order;
    var skip := DependencyFailed(NeedsIDs(jobs[j]), failed);
    assert skip <==> j !in ran;
    if skip {
      log := log + [Event(j, Skipped)];
      return;
    }
    log := log + [Event(j, Running)];
    match outcome(j)
    case Erred =>
      log := log + [Event(j, Failure)];
      erred := true;
    case Done(status) =>
      log := log + [Event(j, status)];
      if status == Failure {
        code := 1;
        failed := failed + {j};
      }
  }

  /** No job comes twice, every job comes behind all its needs, and no job of a later wave comes in front of one of an
      earlier wave. */
  ghost predicate Arranged(g: Graph, order: seq<JobId>) {
    && NoDup(order)
    && (forall i | 0 <= i < |order| :: order[i] in g)
    && (forall i, n | 0 <= i < |order| && n in g[order[i]] :: n in order[..i])
    && (forall i, j, a: nat, b: nat | 0 <= i < j < |order| && order[i] in Layer(g, a) && order[j] in Layer(g, b) :: a <= b)
  }

  /** The jobs of the first `k` waves, all of them, then some of the next. */
  ghost predicate UpTo(g: Graph, k: nat, order: seq<JobId>, more: seq<JobId>) {
    && Elements(order) == Placed(g, k)
    && forall j | j in more :: j in Layer(g, k)
  }

  lemma BeforeLater(g: Graph, k: nat, order: seq<JobId>, more: seq<JobId>, x: JobId, a: nat)
    requires UpTo(g, k, order, more) && x in order + more && x in Layer(g, a)
    ensures a <= k
  {
    if x in order {
      assert x in Elements(order);
      PlacedLayer(g, k, x);
      var b: nat :| b < k && x in Layer(g, b);
      LayersDisjoint(g, a, b, x);
    } else {
      LayersDisjoint(g, a, k, x);
    }
  }

  /** One more job of the wave at hand. */
  lemma ArrangedMore(g: Graph, k: nat, order: seq<JobId>, more: seq<JobId>, x: JobId)
    requires UpTo(g, k, order, more) && Arranged(g, order + more) && x in Layer(g, k) && x !in more
    ensures Arranged(g, order + more + [x]) && UpTo(g, k, order, more + [x])
  {
    var all, big := order + more, order + more + [x];
    assert x !in order by {
      assert x in order ==> x in Elements(order);
    }
    forall i, n | 0 <= i < |big| && n in g[big[i]] ensures n in big[..i] {
      NeedInFront(g, k, order, more, x, i, n);
    }
    forall i, j, a: nat, b: nat | 0 <= i < j < |big| && big[i] in Layer(g, a) && big[j] in Layer(g, b) ensures a <= b {
      if j < |all| {
        assert all[i] in Layer(g, a) && all[j] in Layer(g, b);
      } else {
        LayersDisjoint(g, b, k, x);
        BeforeLater(g, k, order, more, all[i], a);
      }
    }
  }

  lemma NeedInFront(g: Graph, k: nat, order: seq<JobId>, more: seq<JobId>, x: JobId, i: nat, n: JobId)
    requires UpTo(g, k, order, more) && Arranged(g, order + more) && x in Layer(g, k)
    requires i <= |order + more| && (order + more + [x])[i] in g && n in g[(order + more + [x])[i]]
    ensures n in (order + more + [x])[..i]
  {
    var all := order + more;
    assert (all + [x])[..i] == all[..i];
    if i == |all| {
      assert n in Elements(order);
      assert all[..i] == all;
    }
  }

  // ---- the callbacks ----

  /** The statuses reported for one job, in order. */
  function Callbacks(log: seq<Event>, j: JobId): seq<JobStatus> {
    if log == [] then []
    else
      var n := |log| - 1;
      Callbacks(log[..n], j) + if log[n].job == j then [log[n].status] else []
  }

  lemma {:induction false} CallbacksConcat(a: seq<Event>, b: seq<Event>, j: JobId)
    ensures Callbacks(a + b, j) == Callbacks(a, j) + Callbacks(b, j)
  {
    if b == [] {
      assert a + b == a;
    } else {
      var n := |b| - 1;
      assert (a + b)[..|a + b| - 1] == a + b[..n];
      CallbacksConcat(a, b[..n], j);
    }
  }

  /** A job handled but not run is reported once, as skipped; a job that ran is reported as running and then as what it
      came to, an error being a failure; no other job is reported. */
  ghost predicate ReportOf(outcome: JobId -> JobResult, ran: set<JobId>, order: seq<JobId>, log: seq<Event>, j: JobId) {
    Callbacks(log, j) ==
    if j !in order then []
    else if j !in ran then [Skipped]
    else if outcome(j) == Erred then [Running, Failure]
    else [Running, outcome(j).status]
  }

  ghost predicate OnlyFrom(log: seq<Event>, order: seq<JobId>) {
    forall p | 0 <= p < |log| :: log[p].job in order
  }

  /** Reports come in the order of the jobs, so those of two jobs do not mix. */
  ghost predicate Follows(log: seq<Event>, order: seq<JobId>) {
    forall p, q, a, b | 0 <= p < q < |log| && 0 <= a < |order| && 0 <= b < |order|
                        && log[p].job == order[a] && log[q].job == order[b] :: a <= b
  }

  ghost predicate Reported(outcome: JobId -> JobResult, ran: set<JobId>, order: seq<JobId>, log: seq<Event>) {
    OnlyFrom(log, order) && Follows(log, order) && forall j :: ReportOf(outcome, ran, order, log, j)
  }

  lemma OneCallback(e: Event, j: JobId)
    ensures Callbacks([e], j) == if e.job == j then [e.status] else []
  {
    assert [e][..0] == [];
  }

  lemma EventCallbacks(outcome: JobId -> JobResult, ran: set<JobId>, x: JobId, j: JobId)
    ensures Callbacks(Events(outcome, ran, x), j) ==
            if j != x then []
            else if x !in ran then [Skipped]
            else if outcome(x) == Erred then [Running, Failure]
            else [Running, outcome(x).status]
  {
    hide Callbacks;
    var es := Events(outcome, ran, x);
    OneCallback(es[0], j);
    if x in ran {
      OneCallback(es[1], j);
      CallbacksConcat([es[0]], [es[1]], j);
      assert es == [es[0]] + [es[1]];
    }
  }

  lemma ReportMore(outcome: JobId -> JobResult, ran: set<JobId>, order: seq<JobId>, log: seq<Event>, x: JobId, j: JobId)
    requires ReportOf(outcome, ran, order, log, j) && x !in order
    ensures ReportOf(outcome, ran, order + [x], log + Events(outcome, ran, x), j)
  {
    hide Callbacks, Events;
    CallbacksConcat(log, Events(outcome, ran, x), j);
    EventCallbacks(outcome, ran, x, j);
  }

  lemma FollowsMore(order: seq<JobId>, log: seq<Event>, x: JobId, es: seq<Event>)
    requires Follows(log, order) && x !in order && forall e | e in es :: e.job == x
    requires OnlyFrom(log, order)
    ensures Follows(log + es, order + [x])
  {
    var log', order' := log + es, order + [x];
    forall p, q, a, b | 0 <= p < q < |log'| && 0 <= a < |order'| && 0 <= b < |order'|
                        && log'[p].job == order'[a] && log'[q].job == order'[b]
      ensures a <= b
    {
      if q < |log| {
        assert log[p].job in order && log[q].job in order;
        assert a < |order| && b < |order|;
        assert log[p].job == order[a] && log[q].job == order[b];
      } else {
        assert log'[q] == es[q - |log|] && es[q - |log|] in es;
        assert log'[q].job == x && x !in order;
      }
    }
  }

  lemma ReportedMore(outcome: JobId -> JobResult, ran: set<JobId>, order: seq<JobId>, log: seq<Event>, x: JobId)
    requires Reported(outcome, ran, order, log) && x !in order
    ensures Reported(outcome, ran, order + [x], log + Events(outcome, ran, x))
  {
    hide Follows, ReportOf;
    FollowsMore(order, log, x, Events(outcome, ran, x));
    forall j ensures ReportOf(outcome, ran, order + [x], log + Events(outcome, ran, x), j) {
      ReportMore(outcome, ran, order, log, x, j);
    }
  }

  lemma NothingReported(outcome: JobId -> JobResult, ran: set<JobId>)
    ensures Reported(outcome, ran, [], Trace(outcome, ran, []))
  {
  }

  lemma {:induction false} TraceReported(outcome: JobId -> JobResult, ran: set<JobId>, order: seq<JobId>)
    requires NoDup(order)
    ensures Reported(outcome, ran, order, Trace(outcome, ran, order))
  {
    hide Reported, Trace, Events;
    if order == [] {
      NothingReported(outcome, ran);
    } else {
      var n := |order| - 1;
      var front, x := order[..n], order[n];
      assert order == front + [x] && x !in front;
      TraceReported(outcome, ran, front);
      ReportedMore(outcome, ran, front, Trace(outcome, ran, front), x);
      TraceSnoc(outcome, ran, order);
    }
  }

  lemma TraceSnoc(outcome: JobId -> JobResult, ran: set<JobId>, order: seq<JobId>)
    requires order != []
    ensures Trace(outcome, ran, order) ==
            Trace(outcome, ran, order[..|order| - 1]) + Events(outcome, ran, order[|order| - 1])
  {
  }

  lemma ArrangedNoDup(g: Graph, order: seq<JobId>)
    requires Arranged(g, order)
    ensures NoDup(order)
  {
  }

  /** The whole run. A schedule exists exactly for known, acyclic needs. Then `ran` is the one solution of the rule,
      whatever order the map iteration gave: the run errs exactly when some job of it errs, and otherwise the exit
      code is 1 exactly when some job of it fails. Reported are the jobs handled, in an order that respects waves and
      needs: all jobs, or those up to and including the first that errs. */
  method Run(jobs: map<JobId, NeedsField>, outcome: JobId -> JobResult)
    returns (r: RunResult, log: seq<Event>, ghost ran: set<JobId>, ghost order: seq<JobId>)
    ensures var g := GraphOf(jobs); r.BadOrder? <==> !(Known(g) && Acyclic(g))
    ensures r.BadOrder? ==> log == []
    ensures !r.BadOrder? ==> Fixpoint(GraphOf(jobs), outcome, ran)
    ensures !r.BadOrder? ==> Arranged(GraphOf(jobs), order) && Reported(outcome, ran, order, log)
    ensures r.Exit? ==> Elements(order) == jobs.Keys && forall j | j in ran :: outcome(j) != Erred
    ensures r.Exit? ==> r.code == if exists j | j in ran :: outcome(j) == Done(Failure) then 1 else 0
    ensures r.JobErred? ==> FirstErred(outcome, ran, order, r.job)
  {
    hide Fixpoint, Handled, Trace, Reported, ListsLayers, Placed, Arranged, FirstErred, Acyclic, Known, Elements;
    ghost var g := GraphOf(jobs);
    var built := BuildExecutionOrder(jobs);
    if !built.Ok? {
      return BadOrder, [], {}, [];
    }
    var waves := built.waves;
    ran := RanUpTo(g, outcome, |waves|);
    RanIsFixpoint(g, outcome, |waves|);
    order := [];
    var failed: set<JobId> := {};
    var code := 0;
    log := [];
    RunBegin(g, outcome, ran);
    for k := 0 to |waves|
      invariant Elements(order) == Placed(g, k) && Arranged(g, order)
      invariant Handled(outcome, ran, order, failed, code, log)
    {
      var erred;
      erred, failed, code, log, order := RunWave(jobs, outcome, waves, k, ran, order, failed, code, log);
      if erred.Some? {
        TraceReported(outcome, ran, order) by { ArrangedNoDup(g, order); }
        return JobErred(erred.value), log, ran, order;
      }
    }
    RunEnd(g, outcome, ran, order, failed, code, log);
    TraceReported(outcome, ran, order) by { ArrangedNoDup(g, order); }
    r := Exit(code);
  }

  /** The last job handled ran and erred, and no job handled before it did. */
  ghost predicate FirstErred(outcome: JobId -> JobResult, ran: set<JobId>, order: seq<JobId>, j: JobId) {
    && order != [] && order[|order| - 1] == j && j in ran && outcome(j) == Erred
    && forall i | 0 <= i < |order| - 1 && order[i] in ran :: outcome(order[i]) != Erred
  }

  lemma RunBegin(g: Graph, outcome: JobId -> JobResult, ran: set<JobId>)
    ensures Elements([]) == Placed(g, 0) && Arranged(g, []) && Handled(outcome, ran, [], {}, 0, [])
  {
  }

  lemma RunEnd(g: Graph, outcome: JobId -> JobResult, ran: set<JobId>, order: seq<JobId>, failed: set<JobId>,
               code: int, log: seq<Event>)
    requires Handled(outcome, ran, order, failed, code, log) && Elements(order) == g.Keys && Fixpoint(g, outcome, ran)
    ensures log == Trace(outcome, ran, order)
    ensures forall j | j in ran :: outcome(j) != Erred
    ensures code == if exists j | j in ran :: outcome(j) == Done(Failure) then 1 else 0
  {
    assert forall j | j in ran :: j in Elements(order);
    if failed != {} {
      var j :| j in failed;
    }
  }

  method RunWave(jobs: map<JobId, NeedsField>, outcome: JobId -> JobResult, waves: seq<seq<JobId>>, k: nat,
                 ghost ran: set<JobId>, ghost order0: seq<JobId>, failed0: set<JobId>, code0: int, log0: seq<Event>)
    returns (erred: Option<JobId>, failed: set<JobId>, code: int, log: seq<Event>, ghost order: seq<JobId>)
    requires ListsLayers(GraphOf(jobs), waves) && k < |waves| && Fixpoint(GraphOf(jobs), outcome, ran)
    requires Elements(order0) == Placed(GraphOf(jobs), k) && Arranged(GraphOf(jobs), order0)
    requires Handled(outcome, ran, order0, failed0, code0, log0)
    ensures Arranged(GraphOf(jobs), order) && log == Trace(outcome, ran, order)
    ensures erred.Some? ==> FirstErred(outcome, ran, order, erred.value)
    ensures erred.None? ==> Elements(order) == Placed(GraphOf(jobs), k + 1)
    ensures erred.None? ==> Handled(outcome, ran, order, failed, code, log)
  {
    hide Fixpoint, Handled, Trace, ListsLayers, Arranged, UpTo, Layer, Placed, Elements, NoDup, FirstErred;
    var wave := waves[k];
    ghost var g := GraphOf(jobs);
    WaveOf(g, waves, k);
    erred, failed, code, log, order := None, failed0, code0, log0, order0;
    WaveBegin(g, k, order0, wave);
    for i := 0 to |wave|
      invariant order == order0 + wave[..i]
      invariant Arranged(g, order) && UpTo(g, k, order0, wave[..i])
      invariant Handled(outcome, ran, order, failed, code, log)
    {
      WaveStep(g, k, order0, wave, i);
      var e;
      ghost var before := order;
      HandledLog(outcome, ran, order, failed, code, log);
      e, failed, code, log := HandleJob(jobs, outcome, wave[i], ran, order, failed, code, log);
      order := order + [wave[i]];
      if e {
        ErredFirst(outcome, ran, before, wave[i]);
        return Some(wave[i]), failed, code, log, order;
      }
    }
    assert wave[..|wave|] == wave;
    WaveEnd(g, k, order0, wave);
    HandledLog(outcome, ran, order, failed, code, log);
  }

  lemma WaveOf(g: Graph, waves: seq<seq<JobId>>, k: nat)
    requires ListsLayers(g, waves) && k < |waves|
    ensures Elements(waves[k]) == Layer(g, k) && NoDup(waves[k])
  {
  }

  lemma WaveBegin(g: Graph, k: nat, order: seq<JobId>, wave: seq<JobId>)
    requires Elements(order) == Placed(g, k)
    ensures order + wave[..0] == order && UpTo(g, k, order, wave[..0])
  {
    assert order + wave[..0] == order;
  }

  /** The next job of the wave: its needs are handled, and taking it in keeps the order. */
  lemma WaveStep(g: Graph, k: nat, order: seq<JobId>, wave: seq<JobId>, i: nat)
    requires i < |wave| && Elements(wave) == Layer(g, k) && NoDup(wave)
    requires UpTo(g, k, order, wave[..i]) && Arranged(g, order + wave[..i])
    ensures wave[i] in g && forall n | n in g[wave[i]] :: n in order + wave[..i]
    ensures Arranged(g, order + wave[..i] + [wave[i]]) && UpTo(g, k, order, wave[..i + 1])
    ensures order + wave[..i] + [wave[i]] == order + wave[..i + 1]
  {
    hide Arranged;
    assert wave[i] in Elements(wave);
    assert wave[..i + 1] == wave[..i] + [wave[i]];
    ArrangedMore(g, k, order, wave[..i], wave[i]);
    forall n | n in g[wave[i]] ensures n in order + wave[..i] {
      assert n in Elements(order);
    }
  }

  lemma ErredFirst(outcome: JobId -> JobResult, ran: set<JobId>, order: seq<JobId>, j: JobId)
    requires NoneErred(outcome, ran, order) && j in ran && outcome(j) == Erred
    ensures FirstErred(outcome, ran, order + [j], j)
  {
  }

  lemma WaveEnd(g: Graph, k: nat, order: seq<JobId>, wave: seq<JobId>)
    requires Elements(order) == Placed(g, k) && Elements(wave) == Layer(g, k)
    ensures Elements(order + wave) == Placed(g, k + 1)
  {
    assert Elements(order + wave) == Elements(order) + Elements(wave);
  }

  lemma HandledLog(outcome: JobId -> JobResult, ran: set<JobId>, order: seq<JobId>, failed: set<JobId>, code: int,
                   log: seq<Event>)
    requires Handled(outcome, ran, order, failed, code, log)
    ensures log == Trace(outcome, ran, order) && NoneErred(outcome, ran, order)
  {
  }
}
