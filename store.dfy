/**
 * The client-side store: the last node list the dashboard received, whether a fetch
 * is still outstanding, and the headline statistics computed from the list.
 */
module Store {

  import opened Wrappers
  import Seqs
  import Route

  /** The headline statistics. `totalUsed` does not exist until the first successful
      fetch. */
  datatype Stats = Stats(totalNodes: int, online: int, totalStorage: int, totalUsed: Option<int>)

  /** The statistics before any fetch has succeeded. */
  const InitialStats: Stats := Stats(0, 0, 0, None)

  predicate IsOnline(n: Route.PNode) {
    n.record.status == Route.Online
  }

  /** `nodes.filter(n => n.status === 'online').length`: never more than the nodes. */
  function OnlineCount(nodes: seq<Route.PNode>): (c: nat)
    ensures c <= |nodes|
  {
    Seqs.FilterMembers(IsOnline, nodes);
    |Seqs.Filter(IsOnline, nodes)|
  }

  /** `nodes.reduce((sum, n) => sum + n.storageCapacity, 0)`: no capacity is
      negative, then neither is the sum, and it is at least each capacity. */
  function TotalStorage(nodes: seq<Route.PNode>): (t: int)
    ensures (forall i :: 0 <= i < |nodes| ==> nodes[i].record.storageCapacity >= 0) ==>
      t >= 0 && forall i :: 0 <= i < |nodes| ==> nodes[i].record.storageCapacity <= t
  {
    if nodes == [] then 0
    else TotalStorage(nodes[..|nodes| - 1]) + nodes[|nodes| - 1].record.storageCapacity
  }

  /** `nodes.reduce((sum, n) => sum + n.storageUsed, 0)`: no used figure is
      negative, then neither is the sum, and it is at least each figure. */
  function TotalUsed(nodes: seq<Route.PNode>): (t: int)
    ensures (forall i :: 0 <= i < |nodes| ==> nodes[i].record.storageUsed >= 0) ==>
      t >= 0 && forall i :: 0 <= i < |nodes| ==> nodes[i].record.storageUsed <= t
  {
    if nodes == [] then 0
    else TotalUsed(nodes[..|nodes| - 1]) + nodes[|nodes| - 1].record.storageUsed
  }

  /** The statistics a successful fetch stores for `nodes`. */
  function StatsOf(nodes: seq<Route.PNode>): (st: Stats)
    ensures st.totalNodes == |nodes|
    ensures 0 <= st.online <= st.totalNodes
    ensures st.totalUsed.Some?
  {
    Stats(|nodes|, OnlineCount(nodes), TotalStorage(nodes), Some(TotalUsed(nodes)))
  }

  /** Every node is online exactly when the online count is the node count. */
  lemma {:induction false} OnlineCountAll(nodes: seq<Route.PNode>)
    ensures OnlineCount(nodes) == |nodes| <==> forall i :: 0 <= i < |nodes| ==> IsOnline(nodes[i])
  {
    if nodes != [] {
      var init := nodes[..|nodes| - 1];
      OnlineCountAll(init);
      Seqs.FilterMembers(IsOnline, init);
      if forall i :: 0 <= i < |nodes| ==> IsOnline(nodes[i]) {
        assert forall i :: 0 <= i < |init| ==> IsOnline(init[i]) by {
          forall i | 0 <= i < |init| ensures IsOnline(init[i]) {
            assert init[i] == nodes[i];
          }
        }
      }
      if OnlineCount(nodes) == |nodes| {
        forall i | 0 <= i < |nodes| ensures IsOnline(nodes[i]) {
          if i < |init| {
            assert init[i] == nodes[i];
          }
        }
      }
    }
  }

  /** The storage totals add up over any split of the list. */
  lemma {:induction false} TotalsAppend(a: seq<Route.PNode>, b: seq<Route.PNode>)
    ensures TotalStorage(a + b) == TotalStorage(a) + TotalStorage(b)
    ensures TotalUsed(a + b) == TotalUsed(a) + TotalUsed(b)
  {
    if b == [] {
      assert a + b == a;
    } else {
      var b' := b[..|b| - 1];
      assert (a + b)[..|a + b| - 1] == a + b';
      TotalsAppend(a, b');
    }
  }

  /** How one call of `fetchPNodes` ends. */
  datatype Outcome =
    | Answered(success: bool, pnodes: seq<Route.PNode>)
    | Threw

  class XandStore {
    var pnodes: seq<Route.PNode>
    var isLoading: bool
    var stats: Stats

    /** The statistics describe the stored list, or nothing has been fetched yet. */
    ghost predicate Consistent()
      reads this
    {
      stats == StatsOf(pnodes) || (pnodes == [] && stats == InitialStats)
    }

    /** The store as created: nothing fetched, loading. */
    constructor()
      ensures pnodes == [] && isLoading && stats == InitialStats
      ensures Consistent()
    {
      pnodes := [];
      isLoading := true;
      stats := InitialStats;
    }

    /** A response with `success` set replaces the list and its statistics wholesale
        and ends loading. */
    method Succeed(nodes: seq<Route.PNode>)
      modifies this
      ensures pnodes == nodes && stats == StatsOf(nodes) && !isLoading
      ensures Consistent()
    {
      pnodes := nodes;
      stats := StatsOf(nodes);
      isLoading := false;
    }

    /** A response without `success` changes nothing, so loading goes on. */
    method Decline()
      ensures pnodes == old(pnodes) && stats == old(stats) && isLoading == old(isLoading)
    {
    }

    /** A failed request or an unreadable body only ends loading: the last list that
        was received stays on screen. */
    method Fail()
      modifies this
      ensures pnodes == old(pnodes) && stats == old(stats) && !isLoading
      ensures old(Consistent()) ==> Consistent()
    {
      isLoading := false;
    }

    /** `fetchPNodes`, given how the request ends. */
    method FetchPNodes(outcome: Outcome)
      modifies this
      ensures outcome.Answered? && outcome.success ==>
        pnodes == outcome.pnodes && stats == StatsOf(outcome.pnodes) && !isLoading
      ensures outcome.Answered? && !outcome.success ==>
        pnodes == old(pnodes) && stats == old(stats) && isLoading == old(isLoading)
      ensures outcome.Threw? ==> pnodes == old(pnodes) && stats == old(stats) && !isLoading
      ensures old(Consistent()) ==> Consistent()
    {
      match outcome
      case Answered(success, nodes) =>
        if success {
          Succeed(nodes);
        } else {
          Decline();
        }
      case Threw =>
        Fail();
    }
  }

  /** Whatever the store went through, its online count never exceeds its node
      count. */
  lemma OnlineWithinTotal(s: XandStore)
    requires s.Consistent()
    ensures 0 <= s.stats.online <= s.stats.totalNodes == |s.pnodes|
  {
  }
}
