/** Work queues on a topology the library has built: the assumption of the queue sort about
    stealing orders holds there. */
module WqTopology {
  import opened LatencyTable
  import opened TopologyQuery
  import opened SortProtocol
  import opened StealOrder

  /** Contexts of sockets s and t, if these are different, are l apart. */
  ghost predicate IsLatency(topo: Mctop, lat: Table, s: nat, t: nat, l: int)
    reads topo
  {
    forall x: nat, y: nat :: topo.InSocket(x, s) && topo.InSocket(y, t) && s != t ==>
        x < |lat| && y < |lat[x]| && lat[x][y] == l
  }

  /** The other sockets are listed in the order of the latencies between contexts. */
  ghost predicate StealsByLatency(topo: Mctop, lat: Table, chosen: seq<nat>, next: seq<nat>, s: nat)
    requires (forall k :: 0 <= k < |next| ==> next[k] < |chosen|)
    reads topo
  {
    forall k, m, x: nat, y: nat, z: nat ::
      (&& 0 <= k < m < |next| - 1 && chosen[next[k]] != s && chosen[next[m]] != s
       && topo.InSocket(x, s) && topo.InSocket(y, chosen[next[k]]) && topo.InSocket(z, chosen[next[m]])) ==>
        x < |lat| && y < |lat[x]| && z < |lat[x]| && lat[x][y] <= lat[x][z]
  }

  /** The latencies from one of the chosen sockets to all of them: it is closest to itself. */
  method LatencyRow(topo: Mctop, chosen: seq<nat>, i: nat, ghost lat: Table, ghost ns: nat) returns (row: seq<int>)
    requires topo.Built(lat, ns) && i < |chosen| && forall k :: 0 <= k < |chosen| ==> chosen[k] < ns
    ensures |row| == |chosen| && OwnIsClosest(row, i)
    ensures forall j :: 0 <= j < |chosen| ==> IsLatency(topo, lat, chosen[i], chosen[j], row[j])
  {
    row := [];
    var j: nat := 0;
    while j < |chosen|
      invariant j <= |chosen| && |row| == j
      invariant j > 0 ==> topo.socketLevel < |topo.latencies|
      invariant forall k :: 0 <= k < j ==> topo.latencies[topo.socketLevel] <= row[k]
      invariant i < j ==> row[i] == topo.latencies[topo.socketLevel]
      invariant forall k :: 0 <= k < j ==> IsLatency(topo, lat, chosen[i], chosen[k], row[k])
    {
      var l := topo.GetSocketLatency(chosen[i], chosen[j], lat, ns);
      row := row + [l];
      j := j + 1;
    }
  }

  /** The queues of an allocation of sockets of a built topology: every thread's scan covers them all. */
  method CreateQueues(topo: Mctop, chosen: seq<nat>, node: seq<nat>, ghost lat: Table, ghost ns: nat)
    returns (cfg: Config)
    requires topo.Built(lat, ns) && |chosen| > 0 && (forall k :: 0 <= k < |chosen| ==> chosen[k] < ns)
    requires |node| > 0 && forall t :: 0 <= t < |node| ==> node[t] < |chosen|
    ensures cfg.node == node && |cfg.nextQ| == |chosen| && ConfigOk(cfg)
    ensures forall i :: 0 <= i < |chosen| ==> |cfg.nextQ[i]| == |chosen| && cfg.nextQ[i][|chosen| - 1] == i
    ensures forall i, k, m :: 0 <= i < |chosen| && 0 <= k < m < |chosen| ==> cfg.nextQ[i][k] != cfg.nextQ[i][m]
    ensures forall i, k :: 0 <= i < |chosen| && 0 <= k < |chosen| ==> cfg.nextQ[i][k] < |chosen|
    ensures forall i :: 0 <= i < |chosen| ==> StealsByLatency(topo, lat, chosen, cfg.nextQ[i], chosen[i])
  {
    var lats := [];
    var i: nat := 0;
    while i < |chosen|
      invariant i <= |chosen| && |lats| == i
      invariant forall k :: 0 <= k < i ==> |lats[k]| == |chosen| && OwnIsClosest(lats[k], k)
      invariant forall k, j :: 0 <= k < i && 0 <= j < |chosen| ==>
                  IsLatency(topo, lat, chosen[k], chosen[j], lats[k][j])
    {
      var row := LatencyRow(topo, chosen, i, lat, ns);
      lats := lats + [row];
      i := i + 1;
    }
    cfg := WqCreate(lats, node);
    forall k | 0 <= k < |chosen| ensures OthersByLatency(cfg.nextQ[k], lats[k], k) {}
    forall k | 0 <= k < |chosen| ensures StealsByLatency(topo, lat, chosen, cfg.nextQ[k], chosen[k]) {
      RowGivesOrder(topo, lat, chosen, lats[k], cfg.nextQ[k], k);
    }
  }

  lemma RowGivesOrder(topo: Mctop, lat: Table, chosen: seq<nat>, row: seq<int>, next: seq<nat>, i: nat)
    requires |row| == |chosen| && i < |chosen| && OthersByLatency(next, row, i)
    requires forall j :: 0 <= j < |chosen| ==> IsLatency(topo, lat, chosen[i], chosen[j], row[j])
    ensures StealsByLatency(topo, lat, chosen, next, chosen[i])
  {}
}
