/** The job schedule: Kahn's algorithm in waves, over in-degree counters and dependents lists kept in maps. */
module Schedule {
  import opened Text
  import opened Sets
  import opened Waves

  /** The `needs` entry of a job: absent, one name, or a list that may hold other things than names. */
  datatype NeedsField = NoNeeds | One(id: string) | Many(items: seq<NeedItem>)
  datatype NeedItem = Name(s: string) | Other

  function NeedsIDs(n: NeedsField): seq<JobId> {
    match n
    case NoNeeds => []
    case One(s) => if s == "" then [] else [s]
    case Many(items) => Names(items)
  }

  function Names(items: seq<NeedItem>): seq<JobId> {
    if items == [] then []
    else (match items[0] case Name(s) => [s] case Other => []) + Names(items[1..])
  }

  /** A job needs exactly the names in its list; anything else in it, and an empty single name, is ignored. */
  lemma {:induction false} NeedsAreNames(items: seq<NeedItem>, id: JobId)
    ensures id in NeedsIDs(Many(items)) <==> Name(id) in items
    ensures NeedsIDs(NoNeeds) == [] && NeedsIDs(One("")) == []
    ensures id != "" ==> NeedsIDs(One(id)) == [id]
  {
    if items != [] {
      NeedsAreNames(items[1..], id);
      assert items == [items[0]] + items[1..];
    }
  }

  function GraphOf(jobs: map<JobId, NeedsField>): Graph {
    map id | id in jobs :: NeedsIDs(jobs[id])
  }

  datatype Outcome = Ok(waves: seq<seq<JobId>>) | UnknownNeed(id: JobId, need: JobId) | CycleFound

  // ---- counting entries ----

  ghost function Times(s: seq<JobId>, x: JobId): nat {
    multiset(s)[x]
  }

  /** The entries of a needs list that are not placed yet, repeats included. */
  ghost function Unplaced(ns: seq<JobId>, placed: set<JobId>): nat {
    if ns == [] then 0 else (if ns[0] in placed then 0 else 1) + Unplaced(ns[1..], placed)
  }

  lemma TimesSnoc(s: seq<JobId>, x: JobId, y: JobId)
    ensures Times(s + [x], y) == Times(s, y) + if x == y then 1 else 0
  {
  }

  lemma TimesPrefix(s: seq<JobId>, i: nat, y: JobId)
    requires i < |s|
    ensures Times(s[..i + 1], y) == Times(s[..i], y) + if s[i] == y then 1 else 0
  {
    assert s[..i + 1] == s[..i] + [s[i]];
  }

  lemma {:induction false} UnplacedAll(ns: seq<JobId>)
    ensures Unplaced(ns, {}) == |ns|
  {
    if ns != [] { UnplacedAll(ns[1..]); }
  }

  lemma {:induction false} UnplacedZero(ns: seq<JobId>, placed: set<JobId>)
    ensures Unplaced(ns, placed) == 0 <==> forall n | n in ns :: n in placed
  {
    if ns != [] { UnplacedZero(ns[1..], placed); }
  }

  lemma {:induction false} UnplacedStep(ns: seq<JobId>, placed: set<JobId>, x: JobId)
    requires x !in placed
    ensures Unplaced(ns, placed + {x}) + Times(ns, x) == Unplaced(ns, placed)
  {
    if ns != [] {
      UnplacedStep(ns[1..], placed, x);
      assert multiset(ns) == multiset{ns[0]} + multiset(ns[1..]) by { assert ns == [ns[0]] + ns[1..]; }
    }
  }

  // ---- building the counters ----

  function Entry(deps: map<JobId, seq<JobId>>, n: JobId): seq<JobId> {
    if n in deps then deps[n] else []
  }

  /** Each dependents list names the jobs in `done` as often as they name its owner, and no other jobs;
      of the job `cur` only the first `i` needs have been entered. */
  ghost predicate Linked(g: Graph, done: set<JobId>, cur: JobId, i: nat, deps: map<JobId, seq<JobId>>) {
    forall n, d :: Times(Entry(deps, n), d) == Entered(g, done, cur, i, n, d)
  }

  ghost function Entered(g: Graph, done: set<JobId>, cur: JobId, i: nat, n: JobId, d: JobId): nat {
    if d !in g then 0
    else if d in done then Times(g[d], n)
    else if d == cur && i <= |g[d]| then Times(g[d][..i], n)
    else 0
  }

  method CountNeeds(g: Graph)
    returns (bad: Option<(JobId, JobId)>, inDegree: map<JobId, int>, deps: map<JobId, seq<JobId>>)
    ensures bad.Some? ==> bad.value.0 in g && bad.value.1 in g[bad.value.0] && bad.value.1 !in g
    ensures bad.None? ==> Known(g) && Linked(g, g.Keys, "", 0, deps)
    ensures bad.None? ==> inDegree.Keys == g.Keys && forall d | d in g :: inDegree[d] == |g[d]|
  {
    inDegree := map id | id in g :: 0;
    deps := map[];
    var todo := g.Keys;
    while todo != {}
      invariant todo <= g.Keys && inDegree.Keys == g.Keys
      invariant forall d | d in g :: inDegree[d] == if d in todo then 0 else |g[d]|
      invariant forall d, n | d in g.Keys - todo && n in g[d] :: n in g
      invariant Linked(g, g.Keys - todo, "", 0, deps)
      decreases todo
    {
      var id :| id in todo;
      var unknown;
      unknown, inDegree, deps := AddJob(g, g.Keys - todo, id, inDegree, deps);
      if unknown.Some? {
        return unknown, inDegree, deps;
      }
      assert g.Keys - (todo - {id}) == g.Keys - todo + {id};
      todo := todo - {id};
    }
    assert g.Keys - todo == g.Keys;
    bad := None;
  }

  method AddJob(g: Graph, ghost done: set<JobId>, id: JobId, inDegree0: map<JobId, int>, deps0: map<JobId, seq<JobId>>)
    returns (bad: Option<(JobId, JobId)>, inDegree: map<JobId, int>, deps: map<JobId, seq<JobId>>)
    requires id in g && id !in done && id in inDegree0 && inDegree0[id] == 0
    requires Linked(g, done, "", 0, deps0)
    ensures bad.Some? ==> bad.value.0 in g && bad.value.1 in g[bad.value.0] && bad.value.1 !in g
    ensures bad.None? ==> forall n | n in g[id] :: n in g
    ensures bad.None? ==> inDegree == inDegree0[id := |g[id]|] && Linked(g, done + {id}, "", 0, deps)
  {
    inDegree, deps := inDegree0, deps0;
    var i := 0;
    LinkedStart(g, done, id, deps);
    while i < |g[id]|
      invariant 0 <= i <= |g[id]|
      invariant forall n | n in g[id][..i] :: n in g
      invariant inDegree == inDegree0[id := i]
      invariant Linked(g, done, id, i, deps)
    {
      var need := g[id][i];
      if need !in g {
        return Some((id, need)), inDegree, deps;
      }
      LinkedStep(g, done, id, i, deps);
      inDegree := inDegree[id := inDegree[id] + 1];
      deps := deps[need := Entry(deps, need) + [id]];
      i := i + 1;
    }
    assert g[id][..i] == g[id];
    LinkedEnd(g, done, id, deps);
    bad := None;
  }

  lemma LinkedStart(g: Graph, done: set<JobId>, id: JobId, deps: map<JobId, seq<JobId>>)
    requires Linked(g, done, "", 0, deps)
    ensures Linked(g, done, id, 0, deps)
  {
    forall n, d ensures Entered(g, done, id, 0, n, d) == Entered(g, done, "", 0, n, d) {
    }
  }

  lemma LinkedStep(g: Graph, done: set<JobId>, id: JobId, i: nat, deps: map<JobId, seq<JobId>>)
    requires id in g && id !in done && i < |g[id]| && Linked(g, done, id, i, deps)
    ensures Linked(g, done, id, i + 1, deps[g[id][i] := Entry(deps, g[id][i]) + [id]])
  {
    var need := g[id][i];
    var after := deps[need := Entry(deps, need) + [id]];
    forall n, d ensures Times(Entry(after, n), d) == Entered(g, done, id, i + 1, n, d) {
      assert Times(Entry(deps, n), d) == Entered(g, done, id, i, n, d);
      TimesSnoc(Entry(deps, need), id, d);
      TimesPrefix(g[id], i, n);
    }
  }

  lemma LinkedEnd(g: Graph, done: set<JobId>, id: JobId, deps: map<JobId, seq<JobId>>)
    requires id in g && id !in done && Linked(g, done, id, |g[id]|, deps)
    ensures Linked(g, done + {id}, "", 0, deps)
  {
    assert g[id][..|g[id]|] == g[id];
    forall n, d ensures Times(Entry(deps, n), d) == Entered(g, done + {id}, "", 0, n, d) {
      assert Times(Entry(deps, n), d) == Entered(g, done, id, |g[id]|, n, d);
    }
  }

  // ---- the waves ----

  /** Exactly the unplaced jobs have a counter, and it counts their unplaced needs. */
  ghost predicate Counting(g: Graph, gone: set<JobId>, placed: set<JobId>, inDegree: map<JobId, int>) {
    inDegree.Keys == g.Keys - gone && forall d | d in inDegree :: inDegree[d] == Unplaced(g[d], placed)
  }

  ghost function Elements(s: seq<JobId>): set<JobId> {
    set x | x in s
  }

  /** The ids whose counter is zero, in the arbitrary order in which a map is ranged over. */
  method CollectWave(inDegree: map<JobId, int>) returns (wave: seq<JobId>)
    ensures NoDup(wave) && forall id :: id in wave <==> id in inDegree && inDegree[id] == 0
  {
    wave := [];
    var todo := inDegree.Keys;
    while todo != {}
      invariant todo <= inDegree.Keys && NoDup(wave)
      invariant forall id :: id in wave <==> id in inDegree && id !in todo && inDegree[id] == 0
      decreases todo
    {
      var id :| id in todo;
      if inDegree[id] == 0 {
        wave := wave + [id];
      }
      todo := todo - {id};
    }
  }

  method DeleteAll(inDegree0: map<JobId, int>, wave: seq<JobId>) returns (inDegree: map<JobId, int>)
    ensures inDegree == inDegree0 - Elements(wave)
  {
    inDegree := inDegree0;
    for i := 0 to |wave|
      invariant inDegree == inDegree0 - Elements(wave[..i])
    {
      inDegree := inDegree - {wave[i]};
      assert Elements(wave[..i + 1]) == Elements(wave[..i]) + {wave[i]};
    }
    assert wave[..|wave|] == wave;
  }

  /** Reading a missing key yields zero, so decrementing one would bring it back. */
  function Decremented(inDegree: map<JobId, int>, d: JobId): map<JobId, int> {
    inDegree[d := (if d in inDegree then inDegree[d] else 0) - 1]
  }

  /** One counter goes down for each entry of the list; no key is created. */
  method DecrementEach(inDegree0: map<JobId, int>, ds: seq<JobId>) returns (inDegree: map<JobId, int>)
    requires forall d | d in ds :: d in inDegree0
    ensures inDegree.Keys == inDegree0.Keys
    ensures forall d | d in inDegree :: inDegree[d] == inDegree0[d] - Times(ds, d)
  {
    inDegree := inDegree0;
    for j := 0 to |ds|
      invariant inDegree.Keys == inDegree0.Keys
      invariant forall d | d in inDegree :: inDegree[d] == inDegree0[d] - Times(ds[..j], d)
    {
      forall d ensures Times(ds[..j + 1], d) == Times(ds[..j], d) + if ds[j] == d then 1 else 0 {
        TimesPrefix(ds, j, d);
      }
      inDegree := Decremented(inDegree, ds[j]);
    }
    assert ds[..|ds|] == ds;
  }

  /** A job that depends on one not yet placed is itself neither placed nor in the current wave. */
  lemma DependentsCounted(g: Graph, deps: map<JobId, seq<JobId>>, placed: set<JobId>, gone: set<JobId>, x: JobId)
    requires Linked(g, g.Keys, "", 0, deps) && x !in placed
    requires forall d, n | d in gone && d in g && n in g[d] :: n in placed
    ensures forall d | d in Entry(deps, x) :: d in g.Keys - gone
  {
    forall d | d in Entry(deps, x) ensures d in g.Keys - gone {
      assert Times(Entry(deps, x), d) == Entered(g, g.Keys, "", 0, x, d);
      assert Times(g[d], x) > 0;
    }
  }

  /** The decrements of a whole wave bring every remaining counter down to the needs that are still unplaced. */
  method Relax(g: Graph, deps: map<JobId, seq<JobId>>, wave: seq<JobId>, inDegree0: map<JobId, int>,
               ghost placed: set<JobId>)
    returns (inDegree: map<JobId, int>)
    requires Linked(g, g.Keys, "", 0, deps) && NoDup(wave) && Elements(wave) !! placed
    requires forall d, n | d in placed + Elements(wave) && d in g && n in g[d] :: n in placed
    requires Counting(g, placed + Elements(wave), placed, inDegree0)
    ensures Counting(g, placed + Elements(wave), placed + Elements(wave), inDegree)
  {
    ghost var gone := placed + Elements(wave);
    inDegree := inDegree0;
    assert placed + Elements(wave[..0]) == placed;
    for i := 0 to |wave|
      invariant Counting(g, gone, placed + Elements(wave[..i]), inDegree)
    {
      ghost var now := placed + Elements(wave[..i]);
      ghost var before := inDegree;
      assert wave[i] in Elements(wave) && wave[i] !in now;
      DependentsCounted(g, deps, placed, gone, wave[i]);
      inDegree := DecrementEach(inDegree, Entry(deps, wave[i]));
      RelaxOne(g, deps, gone, now, wave[i], before, inDegree);
      assert placed + Elements(wave[..i + 1]) == now + {wave[i]};
    }
    assert wave[..|wave|] == wave;
  }

  lemma RelaxOne(g: Graph, deps: map<JobId, seq<JobId>>, gone: set<JobId>, now: set<JobId>, x: JobId,
                 before: map<JobId, int>, after: map<JobId, int>)
    requires Linked(g, g.Keys, "", 0, deps) && x !in now && Counting(g, gone, now, before)
    requires after.Keys == before.Keys && forall d | d in after :: after[d] == before[d] - Times(Entry(deps, x), d)
    ensures Counting(g, gone, now + {x}, after)
  {
    forall d | d in after ensures after[d] == Unplaced(g[d], now + {x}) {
      assert Times(Entry(deps, x), d) == Entered(g, g.Keys, "", 0, x, d);
      UnplacedStep(g[d], now, x);
    }
  }

  /** The ids with a zero counter are the next layer. */
  lemma ZeroIsReady(g: Graph, placed: set<JobId>, inDegree: map<JobId, int>, wave: seq<JobId>)
    requires Counting(g, placed, placed, inDegree)
    requires forall id :: id in wave <==> id in inDegree && inDegree[id] == 0
    ensures Elements(wave) == Ready(g, placed)
  {
    forall d | d in inDegree ensures inDegree[d] == 0 <==> forall n | n in g[d] :: n in placed {
      UnplacedZero(g[d], placed);
    }
  }

  /** Every wave lists one layer, each job once. */
  ghost predicate ListsLayers(g: Graph, waves: seq<seq<JobId>>) {
    forall k | 0 <= k < |waves| :: waves[k] != [] && NoDup(waves[k]) && Elements(waves[k]) == Layer(g, k)
  }

  /** A schedule with fewer waves does not exist: any wave numbers that put needs strictly earlier give some job a number
      as high as the last wave's. */
  lemma FewestWaves(g: Graph, waves: seq<seq<JobId>>, wave: map<JobId, nat>)
    requires ListsLayers(g, waves) && waves != []
    requires g.Keys <= wave.Keys && forall d, n | d in g && n in g[d] && n in wave :: wave[n] < wave[d]
    ensures exists id | id in g :: wave[id] >= |waves| - 1
  {
    var k := |waves| - 1;
    var id := waves[k][0];
    assert id in Elements(waves[k]);
    LayerIsEarliest(g, wave, id, k);
  }

  /** The first layers are listed, and what they hold needs nothing outside them. */
  ghost predicate Progress(g: Graph, waves: seq<seq<JobId>>, placed: set<JobId>) {
    && placed == Placed(g, |waves|)
    && ListsLayers(g, waves)
    && forall d, n | d in placed && d in g && n in g[d] :: n in placed
  }

  lemma NextWave(g: Graph, waves: seq<seq<JobId>>, placed: set<JobId>, wave: seq<JobId>)
    requires Progress(g, waves, placed) && wave != [] && NoDup(wave) && Elements(wave) == Ready(g, placed)
    ensures Progress(g, waves + [wave], placed + Elements(wave))
    ensures Elements(wave) !! placed && Elements(wave) <= g.Keys && Elements(wave) != {}
    ensures forall d, n | d in placed + Elements(wave) && d in g && n in g[d] :: n in placed
    ensures |placed + Elements(wave)| == |placed| + |wave|
  {
    hide Ready, ListsLayers, NoDup;
    ListsMore(g, waves, wave);
    ReadyClosed(g, placed);
    NoDupSize(wave);
    assert wave[0] in Elements(wave);
    assert Placed(g, |waves + [wave]|) == placed + Ready(g, placed);
  }

  lemma ListsMore(g: Graph, waves: seq<seq<JobId>>, wave: seq<JobId>)
    requires ListsLayers(g, waves) && wave != [] && NoDup(wave) && Elements(wave) == Layer(g, |waves|)
    ensures ListsLayers(g, waves + [wave])
  {
  }

  lemma ReadyClosed(g: Graph, placed: set<JobId>)
    requires forall d, n | d in placed && d in g && n in g[d] :: n in placed
    ensures Ready(g, placed) !! placed && Ready(g, placed) <= g.Keys
    ensures forall d, n | d in placed + Ready(g, placed) && d in g && n in g[d] :: n in placed
  {
  }

  lemma DeletedCounting(g: Graph, placed: set<JobId>, wave: set<JobId>, inDegree: map<JobId, int>)
    requires Counting(g, placed, placed, inDegree)
    ensures Counting(g, placed + wave, placed, inDegree - wave)
  {
  }

  /** Waves are taken until no counter is zero. */
  method TakeWaves(g: Graph, deps: map<JobId, seq<JobId>>, inDegree0: map<JobId, int>)
    returns (waves: seq<seq<JobId>>, processed: nat)
    requires Linked(g, g.Keys, "", 0, deps) && Counting(g, {}, {}, inDegree0)
    ensures ListsLayers(g, waves) && Layer(g, |waves|) == {} && processed == |Placed(g, |waves|)|
  {
    hide Counting, Ready, Linked, NoDup;
    var inDegree := inDegree0;
    waves, processed := [], 0;
    ghost var placed: set<JobId> := {};
    while true
      invariant Progress(g, waves, placed) && placed <= g.Keys && processed == |placed|
      invariant Counting(g, placed, placed, inDegree)
      decreases g.Keys - placed
    {
      var wave := CollectWave(inDegree);
      ZeroIsReady(g, placed, inDegree, wave);
      if |wave| == 0 {
        break;
      }
      NextWave(g, waves, placed, wave);
      var kept := DeleteAll(inDegree, wave);
      DeletedCounting(g, placed, Elements(wave), inDegree);
      inDegree := Relax(g, deps, wave, kept, placed);
      waves := waves + [wave];
      processed := processed + |wave|;
      assert g.Keys - (placed + Elements(wave)) < g.Keys - placed;
      placed := placed + Elements(wave);
    }
  }

  /** The schedule exists exactly when every need is known and the needs are acyclic; its waves are then the layers,
      and together they hold every job. */
  method BuildExecutionOrder(jobs: map<JobId, NeedsField>) returns (r: Outcome)
    ensures var g := GraphOf(jobs);
            && (r.Ok? <==> Known(g) && Acyclic(g))
            && (r.Ok? ==> ListsLayers(g, r.waves) && Placed(g, |r.waves|) == g.Keys)
            && (r.UnknownNeed? ==> r.id in g && r.need in g[r.id] && r.need !in g)
            && (r.CycleFound? ==> Known(g) && !Acyclic(g))
  {
    hide ListsLayers, Layer, Placed, Acyclic, Linked;
    var g := GraphOf(jobs);
    var bad, inDegree, deps := CountNeeds(g);
    if bad.Some? {
      return UnknownNeed(bad.value.0, bad.value.1);
    }
    CountingStart(g, inDegree);
    var waves, processed := TakeWaves(g, deps, inDegree);
    CompleteIffAcyclic(g, |waves|);
    SubsetSize(Placed(g, |waves|), g.Keys);
    assert g.Keys == jobs.Keys;
    if processed != |jobs| {
      return CycleFound;
    }
    return Ok(waves);
  }

  lemma CountingStart(g: Graph, inDegree: map<JobId, int>)
    requires inDegree.Keys == g.Keys && forall d | d in g :: inDegree[d] == |g[d]|
    ensures Counting(g, {}, {}, inDegree)
  {
    forall d | d in g ensures inDegree[d] == Unplaced(g[d], {}) {
      UnplacedAll(g[d]);
    }
  }
}
