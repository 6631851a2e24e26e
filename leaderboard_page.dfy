/**
 * The leaderboard page: the nodes ranked by credits, the three leaders on a podium
 * and the next twelve in a hall of fame.
 */
module LeaderboardPage {

  import Seqs
  import Sorting
  import Route

  /** `node.credits || 0`; a record always carries its credits, zero when missing. */
  function Score(n: Route.PNode): int {
    Route.Credits(n.record)
  }

  /** `[...pnodes].sort((a, b) => (b.credits || 0) - (a.credits || 0))`. */
  function Sorted(pnodes: seq<Route.PNode>): (r: seq<Route.PNode>)
    ensures |r| == |pnodes|
  {
    Sorting.SortDesc(Score, pnodes)
  }

  const PodiumSize: nat := 3
  const HallEnd: nat := 15

  const OnlineUptime: string := "99.9%"
  const OfflineUptime: string := "84.2%"

  /** The uptime label of a podium node. */
  function UptimeLabel(n: Route.PNode): string {
    if n.record.status == Route.Online then OnlineUptime else OfflineUptime
  }

  /** The text colour of podium place `i`, counting from 0. */
  function PodiumColor(i: nat): string {
    if i == 0 then "text-yellow-400" else if i == 1 then "text-cyan-400" else "text-fuchsia-400"
  }

  /** One podium place. `storage` is the byte count the shard label is formatted
      from. */
  datatype Podium = Podium(rank: int, pubkey: string, score: int, uptime: string, storage: int, color: string)

  function PodiumOf(n: Route.PNode, i: nat): Podium {
    Podium(i + 1, n.record.pubkey, Score(n), UptimeLabel(n), n.record.storageCapacity, PodiumColor(i))
  }

  /** `sorted.slice(0, 3).map(...)`: one place for each of the first min(3, n) ranked
      nodes. */
  function TopThree(pnodes: seq<Route.PNode>): (r: seq<Podium>)
    ensures |r| == Seqs.Min(PodiumSize, |pnodes|)
  {
    var top := Seqs.Slice(Sorted(pnodes), 0, PodiumSize);
    seq(|top|, i requires 0 <= i < |top| => PodiumOf(top[i], i))
  }

  /** `sorted.slice(3, 15)`: never more than twelve rows. */
  function HallOfFame(pnodes: seq<Route.PNode>): (r: seq<Route.PNode>)
    ensures |r| <= HallEnd - PodiumSize
  {
    Seqs.Slice(Sorted(pnodes), PodiumSize, HallEnd)
  }

  /** The rank shown beside hall-of-fame row `i`. */
  function HallRank(i: nat): nat {
    i + PodiumSize + 1
  }

  /** The ranking holds the same nodes, from most credits to fewest, and nodes with
      equal credits keep their order in the store. */
  lemma SortedFacts(pnodes: seq<Route.PNode>)
    ensures multiset(Sorted(pnodes)) == multiset(pnodes)
    ensures Sorting.SortedDesc(Score, Sorted(pnodes))
    ensures forall c :: Sorting.WithKey(Score, Sorted(pnodes), c) == Sorting.WithKey(Score, pnodes, c)
  {
    Sorting.SortDescCorrect(Score, pnodes);
  }

  /** The podium shows the first ranked nodes, ranked 1, 2, 3, with their credits as
      score; the first place has the most credits of all nodes. */
  lemma TopThreeFacts(pnodes: seq<Route.PNode>)
    ensures forall i :: 0 <= i < |TopThree(pnodes)| ==>
      && TopThree(pnodes)[i].rank == i + 1
      && TopThree(pnodes)[i].pubkey == Sorted(pnodes)[i].record.pubkey
      && TopThree(pnodes)[i].score == Score(Sorted(pnodes)[i])
    ensures forall i, j :: 0 <= i < j < |TopThree(pnodes)| ==> TopThree(pnodes)[i].score >= TopThree(pnodes)[j].score
    ensures |pnodes| > 0 ==> forall n :: n in pnodes ==> Score(n) <= TopThree(pnodes)[0].score
  {
    SortedFacts(pnodes);
    var s := Sorted(pnodes);
    forall n | n in pnodes && |pnodes| > 0 ensures Score(n) <= Score(s[0]) {
      assert n in multiset(s);
      var k :| 0 <= k < |s| && s[k] == n;
    }
  }

  /** A podium node shows the online uptime exactly when it is online, and each place
      takes its colour from its position, however many places there are: yellow,
      cyan, fuchsia. */
  lemma PodiumLabels(pnodes: seq<Route.PNode>)
    ensures forall i :: 0 <= i < |TopThree(pnodes)| ==>
      (TopThree(pnodes)[i].uptime == OnlineUptime <==> Sorted(pnodes)[i].record.status == Route.Online)
    ensures forall i :: 0 <= i < |TopThree(pnodes)| ==> TopThree(pnodes)[i].color == PodiumColor(i)
    ensures PodiumColor(0) == "text-yellow-400" && PodiumColor(1) == "text-cyan-400"
         && PodiumColor(2) == "text-fuchsia-400"
  {
  }

  /** The hall of fame is ranked nodes 4 to 15: row `i` shows ranked node i + 3, and
      its numbering continues where the podium's ends. */
  lemma HallOfFameFacts(pnodes: seq<Route.PNode>)
    ensures |HallOfFame(pnodes)| == if |pnodes| <= PodiumSize then 0 else Seqs.Min(HallEnd, |pnodes|) - PodiumSize
    ensures forall i :: 0 <= i < |HallOfFame(pnodes)| ==>
      HallOfFame(pnodes)[i] == Sorted(pnodes)[i + PodiumSize]
    ensures |HallOfFame(pnodes)| > 0 ==> HallRank(0) == |TopThree(pnodes)| + 1
  {
    SortedFacts(pnodes);
  }

  /** Podium and hall of fame together are the first min(n, 15) ranked nodes; no node
      of the hall has more credits than a podium node; and when the store holds no
      node twice, as the route guarantees, no node is in both. */
  lemma PodiumAndHall(pnodes: seq<Route.PNode>)
    ensures Seqs.Slice(Sorted(pnodes), 0, PodiumSize) + HallOfFame(pnodes)
         == Sorted(pnodes)[..Seqs.Min(HallEnd, |pnodes|)]
    ensures forall i, j :: 0 <= i < |TopThree(pnodes)| && 0 <= j < |HallOfFame(pnodes)| ==>
      Score(HallOfFame(pnodes)[j]) <= TopThree(pnodes)[i].score
    ensures Seqs.Distinct(pnodes) ==>
      forall n :: n in Seqs.Slice(Sorted(pnodes), 0, PodiumSize) ==> n !in HallOfFame(pnodes)
  {
    SortedFacts(pnodes);
    var s := Sorted(pnodes);
    if Seqs.Distinct(pnodes) {
      Seqs.DistinctPermutation(pnodes, s);
      var top, hall := Seqs.Slice(s, 0, PodiumSize), HallOfFame(pnodes);
      forall i, j | 0 <= i < |top| && 0 <= j < |hall| ensures top[i] != hall[j] {
        assert top[i] == s[i] && hall[j] == s[j + PodiumSize];
      }
    }
  }
}
