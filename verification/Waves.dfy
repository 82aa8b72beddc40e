/** The needs relation between jobs and its layers: each layer holds the jobs whose needs all lie in earlier ones.
    Nothing here depends on how a schedule is computed. */
module Waves {
  import opened Sets

  type JobId = string

  /** The jobs of a workflow, each with the ids it needs, as listed (repeats kept). */
  type Graph = map<JobId, seq<JobId>>

  ghost predicate Known(g: Graph) {
    forall id, n | id in g && n in g[id] :: n in g
  }

  /** Each job in the list needs the one behind it. */
  ghost predicate IsChain(g: Graph, p: seq<JobId>) {
    && (forall i | 0 <= i < |p| :: p[i] in g)
    && (forall i | 0 < i < |p| :: p[i] in g[p[i - 1]])
  }

  ghost predicate IsCycle(g: Graph, p: seq<JobId>) {
    |p| >= 2 && IsChain(g, p) && p[0] == p[|p| - 1]
  }

  ghost predicate Acyclic(g: Graph) {
    forall p :: !IsCycle(g, p)
  }

  ghost function Ready(g: Graph, placed: set<JobId>): set<JobId> {
    set id | id in g && id !in placed && forall n | n in g[id] :: n in placed
  }

  /** The jobs in the first `k` layers. */
  ghost function Placed(g: Graph, k: nat): (r: set<JobId>)
    ensures r <= g.Keys
  {
    if k == 0 then {} else Placed(g, k - 1) + Ready(g, Placed(g, k - 1))
  }

  ghost function Layer(g: Graph, k: nat): set<JobId> {
    Ready(g, Placed(g, k))
  }

  lemma {:induction false} PlacedLayer(g: Graph, k: nat, id: JobId)
    ensures id in Placed(g, k) <==> exists j: nat | j < k :: id in Layer(g, j)
  {
    if k > 0 {
      PlacedLayer(g, k - 1, id);
      if id in Layer(g, k - 1) { assert k - 1 < k; }
    }
  }

  lemma {:induction false} PlacedMonotone(g: Graph, j: nat, k: nat)
    requires j <= k
    ensures Placed(g, j) <= Placed(g, k)
    decreases k
  {
    if j < k {
      PlacedMonotone(g, j, k - 1);
    }
  }

  /** No job lies in two layers. */
  lemma LayersDisjoint(g: Graph, j: nat, k: nat, id: JobId)
    requires id in Layer(g, j) && id in Layer(g, k)
    ensures j == k
  {
    if j < k {
      PlacedMonotone(g, j + 1, k);
    } else if k < j {
      PlacedMonotone(g, k + 1, j);
    }
  }

  /** Every need lies in a strictly earlier layer. */
  lemma NeedEarlier(g: Graph, k: nat, id: JobId, n: JobId) returns (j: nat)
    requires id in Layer(g, k) && n in g[id]
    ensures j < k && n in Layer(g, j)
  {
    PlacedLayer(g, k, n);
    j :| j < k && n in Layer(g, j);
  }

  /** A job behind the first layer has a need in the layer right in front of it. */
  lemma NeedJustBefore(g: Graph, k: nat, id: JobId) returns (n: JobId)
    requires k > 0 && id in Layer(g, k)
    ensures n in g[id] && n in Layer(g, k - 1)
  {
    assert id !in Placed(g, k - 1) && id !in Layer(g, k - 1);
    n :| n in g[id] && n !in Placed(g, k - 1);
    assert n in Placed(g, k);
  }

  /** Along a chain the layers go strictly down, so the chain has at most as many links as its first job's layer. */
  lemma {:induction false} ChainDescends(g: Graph, p: seq<JobId>, k: nat) returns (last: nat)
    requires IsChain(g, p) && |p| >= 1 && p[0] in Layer(g, k)
    ensures p[|p| - 1] in Layer(g, last) && last + |p| - 1 <= k
    decreases |p|
  {
    if |p| == 1 {
      last := k;
    } else {
      var j := NeedEarlier(g, k, p[0], p[1]);
      last := ChainDescends(g, p[1..], j);
    }
  }

  lemma {:induction false} ChainOfLength(g: Graph, id: JobId, k: nat) returns (p: seq<JobId>)
    requires id in Layer(g, k)
    ensures IsChain(g, p) && |p| == k + 1 && p[0] == id
    decreases k
  {
    if k == 0 {
      p := [id];
    } else {
      var n := NeedJustBefore(g, k, id);
      var rest := ChainOfLength(g, n, k - 1);
      p := [id] + rest;
    }
  }

  /** The layer of a job is the number of links of its longest chain of needs. */
  lemma LayerIsLongestChain(g: Graph, id: JobId, k: nat)
    requires id in Layer(g, k)
    ensures exists p :: IsChain(g, p) && |p| == k + 1 && p[0] == id
    ensures forall p | IsChain(g, p) && |p| >= 1 && p[0] == id :: |p| <= k + 1
  {
    var w := ChainOfLength(g, id, k);
    forall p | IsChain(g, p) && |p| >= 1 && p[0] == id ensures |p| <= k + 1 {
      var _ := ChainDescends(g, p, k);
    }
  }

  /** Any assignment of wave numbers that puts needs strictly earlier gives a job at least its layer, so no valid
      schedule is shorter. */
  lemma {:induction false} LayerIsEarliest(g: Graph, wave: map<JobId, nat>, id: JobId, k: nat)
    requires g.Keys <= wave.Keys
    requires forall d, n | d in g && n in g[d] && n in wave :: wave[n] < wave[d]
    requires id in Layer(g, k)
    ensures wave[id] >= k
    decreases k
  {
    if k > 0 {
      var n := NeedJustBefore(g, k, id);
      LayerIsEarliest(g, wave, n, k - 1);
    }
  }

  /** When the layers reach every job there is no cycle. */
  lemma CompleteIsAcyclic(g: Graph, k: nat)
    requires Placed(g, k) == g.Keys
    ensures Acyclic(g)
  {
    forall p ensures !IsCycle(g, p) {
      if IsCycle(g, p) {
        PlacedLayer(g, k, p[0]);
        var j: nat :| j < k && p[0] in Layer(g, j);
        var last := ChainDescends(g, p, j);
        LayersDisjoint(g, j, last, p[0]);
      }
    }
  }

  // ---- stuck layers mean a cycle ----

  /** From any stuck job one can walk along unplaced needs for as long as one likes. */
  lemma {:induction false} StuckWalk(g: Graph, placed: set<JobId>, id: JobId, n: nat) returns (p: seq<JobId>)
    requires Known(g) && Ready(g, placed) == {} && id in g && id !in placed
    ensures IsChain(g, p) && |p| == n + 1 && p[0] == id && forall x | x in p :: x in g.Keys - placed
    decreases n
  {
    if n == 0 {
      p := [id];
    } else {
      assert id !in Ready(g, placed);
      var need :| need in g[id] && need !in placed;
      var rest := StuckWalk(g, placed, need, n - 1);
      p := [id] + rest;
    }
  }

  lemma LoopIsCycle(g: Graph, p: seq<JobId>, i: nat, j: nat)
    requires IsChain(g, p) && i < j < |p| && p[i] == p[j]
    ensures IsCycle(g, p[i..j + 1])
  {
    var c := p[i..j + 1];
    assert forall k | 0 <= k < |c| :: c[k] == p[i + k];
    forall k | 0 < k < |c| ensures c[k] in g[c[k - 1]] {
      assert p[i + k] in g[p[i + k - 1]];
    }
  }

  lemma StuckHasCycle(g: Graph, placed: set<JobId>)
    requires Known(g) && placed <= g.Keys && Ready(g, placed) == {} && placed != g.Keys
    ensures !Acyclic(g)
  {
    hide IsChain, IsCycle, Ready, Known;
    var rest := g.Keys - placed;
    assert g.Keys == placed + rest;
    assert rest != {};
    var id :| id in rest;
    var p := StuckWalk(g, placed, id, |rest|);
    var i, j := Pigeonhole(p, rest);
    LoopIsCycle(g, p, i, j);
    assert IsCycle(g, p[i..j + 1]);
  }

  /** Layers that have come to a halt cover all jobs exactly when the needs are acyclic. */
  lemma CompleteIffAcyclic(g: Graph, k: nat)
    requires Known(g) && Layer(g, k) == {}
    ensures Placed(g, k) == g.Keys <==> Acyclic(g)
  {
    if Placed(g, k) == g.Keys {
      CompleteIsAcyclic(g, k);
    } else {
      StuckHasCycle(g, Placed(g, k));
    }
  }
}
