/**
 * The global radar page: nodes are tallied per region into sectors, each sector is
 * placed on the map from a fixed coordinate table, and the sector list is sorted in
 * place by node count.
 */
module MapPage {

  import Seqs
  import Sorting
  import Route

  /** The region a node without one is counted under. */
  const FallbackRegion: string := "Global Node"
  /** The colour of a sector missing from the coordinate table. */
  const FallbackColor: string := "#00f2ff"
  const FallbackCoords: (real, real) := (0.0, 0.0)

  /** Where each known region is drawn, and in which colour. */
  const RegionCoords: map<string, ((real, real), string)> := map[
    "Germany, EU" := ((10.4515, 51.1657), "#00f2ff"),
    "USA, North America" := ((-95.7129, 37.0902), "#ff00bd"),
    "London, UK" := ((-0.1276, 51.5074), "#b5ff00"),
    "Netherlands, EU" := ((5.2913, 52.1326), "#00f2ff"),
    "Spain, EU" := ((-3.7492, 40.4637), "#00f2ff"),
    "United Kingdom" := ((-3.436, 55.3781), "#b5ff00"),
    "USA, West Coast" := ((-122.4194, 37.7749), "#ff00bd"),
    "Global Node" := ((0.0, 20.0), "#94a3b8")
  ]

  /* ---------- Tallies ---------- */

  /** `node.region || "Global Node"`. */
  function SectorOf(n: Route.PNode): string {
    if n.record.region == [] then FallbackRegion else n.record.region
  }

  function SectorKeys(pnodes: seq<Route.PNode>): (ks: seq<string>)
    ensures |ks| == |pnodes| && forall i :: 0 <= i < |pnodes| ==> ks[i] == SectorOf(pnodes[i])
  {
    seq(|pnodes|, i requires 0 <= i < |pnodes| => SectorOf(pnodes[i]))
  }

  /** The sector names in the order they are first met: `Object.keys(aggregates)`. */
  function SectorNames(pnodes: seq<Route.PNode>): seq<string> {
    Seqs.Dedup(SectorKeys(pnodes))
  }

  /** The nodes counted under sector `r`. */
  function CountIn(pnodes: seq<Route.PNode>, r: string): nat {
    if pnodes == [] then 0
    else CountIn(pnodes[..|pnodes| - 1], r) + (if SectorOf(pnodes[|pnodes| - 1]) == r then 1 else 0)
  }

  /** The online nodes counted under sector `r`. */
  function OnlineIn(pnodes: seq<Route.PNode>, r: string): nat {
    if pnodes == [] then 0
    else
      var n := pnodes[|pnodes| - 1];
      OnlineIn(pnodes[..|pnodes| - 1], r) + (if SectorOf(n) == r && n.record.status == Route.Online then 1 else 0)
  }

  /** The storage capacity of the nodes counted under sector `r`. */
  function StorageIn(pnodes: seq<Route.PNode>, r: string): int {
    if pnodes == [] then 0
    else
      var n := pnodes[|pnodes| - 1];
      StorageIn(pnodes[..|pnodes| - 1], r) + (if SectorOf(n) == r then n.record.storageCapacity else 0)
  }

  /** One entry of the `aggregates` dictionary. */
  datatype Agg = Agg(count: int, online: int, storage: int)

  /** The tally of sector `r`. */
  function Tally(pnodes: seq<Route.PNode>, r: string): Agg {
    Agg(CountIn(pnodes, r), OnlineIn(pnodes, r), StorageIn(pnodes, r))
  }

  /** A sector no node belongs to has empty tallies. */
  lemma {:induction false} AbsentSector(pnodes: seq<Route.PNode>, r: string)
    requires r !in SectorKeys(pnodes)
    ensures Tally(pnodes, r) == Agg(0, 0, 0)
  {
    if pnodes != [] {
      var init := pnodes[..|pnodes| - 1];
      assert SectorKeys(pnodes) == SectorKeys(init) + [SectorOf(pnodes[|pnodes| - 1])];
      AbsentSector(init, r);
    }
  }

  /** The tally of a sector after counting node `n` in it. */
  function Bump(a: Agg, n: Route.PNode): Agg {
    Agg(a.count + 1,
        a.online + (if n.record.status == Route.Online then 1 else 0),
        a.storage + n.record.storageCapacity)
  }

  /** Counting one more node changes the tally of its own sector only. */
  lemma TallySnoc(s: seq<Route.PNode>, x: Route.PNode, q: string)
    ensures Tally(s + [x], q) == if SectorOf(x) == q then Bump(Tally(s, q), x) else Tally(s, q)
  {
    assert (s + [x])[..|s|] == s;
  }

  /** Counting one more node: its sector is added at the end if new. */
  lemma NamesSnoc(s: seq<Route.PNode>, x: Route.PNode)
    ensures var k := SectorOf(x);
      SectorNames(s + [x]) == if k in SectorNames(s) then SectorNames(s) else SectorNames(s) + [k]
    ensures forall r :: r in SectorNames(s) <==> r in SectorKeys(s)
  {
    var k := SectorOf(x);
    assert SectorKeys(s + [x]) == SectorKeys(s) + [k];
    assert (SectorKeys(s) + [k])[..|s|] == SectorKeys(s);
    Seqs.DedupFacts(SectorKeys(s));
  }

  /** `names` and `aggregates` hold the sectors of `s` in first-seen order, each with
      its tally. */
  ghost predicate Tallied(names: seq<string>, aggregates: map<string, Agg>, s: seq<Route.PNode>) {
    && names == SectorNames(s)
    && (forall r :: r in aggregates <==> r in names)
    && (forall r :: r in aggregates ==> aggregates[r] == Tally(s, r))
  }

  /** Counting one more node into the dictionary: its sector's name is added if new,
      and its sector's entry is bumped from the old one, or from zero. */
  lemma TalliedSnoc(names: seq<string>, aggregates: map<string, Agg>, s: seq<Route.PNode>, x: Route.PNode,
                    names': seq<string>, aggregates': map<string, Agg>, s': seq<Route.PNode>)
    requires Tallied(names, aggregates, s)
    requires s' == s + [x]
    requires names' == if SectorOf(x) in aggregates then names else names + [SectorOf(x)]
    requires aggregates' == aggregates[SectorOf(x) := Bump(if SectorOf(x) in aggregates then aggregates[SectorOf(x)] else Agg(0, 0, 0), x)]
    ensures Tallied(names', aggregates', s')
  {
    var r := SectorOf(x);
    NamesSnoc(s, x);
    if r !in aggregates {
      AbsentSector(s, r);
    }
    forall q | q in aggregates' ensures aggregates'[q] == Tally(s + [x], q) {
      TallySnoc(s, x, q);
    }
  }

  /** The `reduce` callback: counts `node` into the dictionary in place. The entry of
      a sector met for the first time starts from zero and its name is added. */
  method CountNode(names: seq<string>, aggregates: map<string, Agg>, node: Route.PNode)
    returns (names': seq<string>, aggregates': map<string, Agg>)
    ensures var r := SectorOf(node);
      && names' == (if r in aggregates then names else names + [r])
      && aggregates' == aggregates[r := Bump(if r in aggregates then aggregates[r] else Agg(0, 0, 0), node)]
  {
    var r := if node.record.region == [] then FallbackRegion else node.record.region;
    var a := Agg(0, 0, 0);
    names' := names;
    if r in aggregates {
      a := aggregates[r];
    } else {
      names' := names + [r];
    }
    a := a.(count := a.count + 1);
    if node.record.status == Route.Online {
      a := a.(online := a.online + 1);
    }
    a := a.(storage := a.storage + node.record.storageCapacity);
    aggregates' := aggregates[r := a];
  }

  /** `pnodes.reduce(...)`: one pass over the nodes filling a dictionary keyed by
      sector. */
  method Aggregate(pnodes: seq<Route.PNode>) returns (names: seq<string>, aggregates: map<string, Agg>)
    ensures names == SectorNames(pnodes)
    ensures forall r :: r in aggregates <==> r in names
    ensures forall r :: r in aggregates ==> aggregates[r] == Tally(pnodes, r)
  {
    names := [];
    aggregates := map[];
    var i := 0;
    while i < |pnodes|
      invariant 0 <= i <= |pnodes|
      invariant Tallied(names, aggregates, pnodes[..i])
    {
      var names', aggregates' := CountNode(names, aggregates, pnodes[i]);
      assert pnodes[..i + 1] == pnodes[..i] + [pnodes[i]];
      TalliedSnoc(names, aggregates, pnodes[..i], pnodes[i], names', aggregates', pnodes[..i + 1]);
      names, aggregates := names', aggregates';
      i := i + 1;
    }
    assert pnodes[..i] == pnodes;
  }

  /** The node counts of the sectors `names`, added up. */
  function SumCounts(pnodes: seq<Route.PNode>, names: seq<string>): int {
    if names == [] then 0
    else SumCounts(pnodes, names[..|names| - 1]) + CountIn(pnodes, names[|names| - 1])
  }

  /** One more node adds one to the sum for each time its sector is listed. */
  lemma {:induction false} SumCountsShift(pnodes: seq<Route.PNode>, x: Route.PNode, names: seq<string>)
    ensures SumCounts(pnodes + [x], names) == SumCounts(pnodes, names) + multiset(names)[SectorOf(x)]
  {
    assert (pnodes + [x])[..|pnodes|] == pnodes;
    if names != [] {
      var init := names[..|names| - 1];
      assert names == init + [names[|names| - 1]];
      SumCountsShift(pnodes, x, init);
    }
  }

  /** Every node is counted in exactly one sector. */
  lemma {:induction false} CountsSumToTotal(pnodes: seq<Route.PNode>)
    ensures SumCounts(pnodes, SectorNames(pnodes)) == |pnodes|
  {
    if pnodes != [] {
      var init, x := pnodes[..|pnodes| - 1], pnodes[|pnodes| - 1];
      assert pnodes == init + [x];
      CountsSumToTotal(init);
      var names := SectorNames(init);
      var k := SectorOf(x);
      assert SectorKeys(pnodes) == SectorKeys(init) + [k];
      assert (SectorKeys(init) + [k])[..|init|] == SectorKeys(init);
      Seqs.DedupFacts(SectorKeys(init));
      SumCountsShift(init, x, names);
      if k in names {
        Seqs.DistinctCountedOnce(names, k);
      } else {
        assert (names + [k])[..|names|] == names;
        AbsentSector(init, k);
      }
    }
  }

  /** A sector that occurs holds at least one node, and no more online nodes than
      nodes. */
  lemma {:induction false} SectorTallyBounds(pnodes: seq<Route.PNode>, r: string)
    ensures r in SectorNames(pnodes) ==> CountIn(pnodes, r) >= 1
    ensures OnlineIn(pnodes, r) <= CountIn(pnodes, r)
  {
    Seqs.DedupFacts(SectorKeys(pnodes));
    if pnodes != [] {
      var init := pnodes[..|pnodes| - 1];
      assert SectorKeys(pnodes) == SectorKeys(init) + [SectorOf(pnodes[|pnodes| - 1])];
      Seqs.DedupFacts(SectorKeys(init));
      SectorTallyBounds(init, r);
    }
  }

  /* ---------- Sectors ---------- */

  /** One sector as the page draws it. */
  datatype Sector = Sector(name: string, count: int, online: int, storage: int,
                           coordinates: (real, real), color: string)

  /** The sector drawn for one region: its tallies unchanged, at the position and in
      the colour the table gives the name, or at the fallback ones. */
  function Place(name: string, a: Agg): (r: Sector)
    ensures r.name == name && r.count == a.count && r.online == a.online && r.storage == a.storage
    ensures name in RegionCoords ==> (r.coordinates, r.color) == RegionCoords[name]
    ensures name !in RegionCoords ==> r.coordinates == FallbackCoords && r.color == FallbackColor
  {
    if name in RegionCoords then
      Sector(name, a.count, a.online, a.storage, RegionCoords[name].0, RegionCoords[name].1)
    else
      Sector(name, a.count, a.online, a.storage, FallbackCoords, FallbackColor)
  }

  /** `Object.keys(aggregates).map(...)`. */
  function Project(names: seq<string>, aggregates: map<string, Agg>): seq<Sector>
    requires forall r :: r in names ==> r in aggregates
  {
    if names == [] then []
    else Project(names[..|names| - 1], aggregates) + [Place(names[|names| - 1], aggregates[names[|names| - 1]])]
  }

  predicate KeepSector(s: Sector) {
    s.name != FallbackRegion || s.count > 0
  }

  /** `regionalData`, from the tallies. */
  function RegionalData(names: seq<string>, aggregates: map<string, Agg>): seq<Sector>
    requires forall r :: r in names ==> r in aggregates
  {
    Seqs.Filter(KeepSector, Project(names, aggregates))
  }

  function SectorCount(s: Sector): int {
    s.count
  }

  function SectorTotal(sectors: seq<Sector>): int {
    if sectors == [] then 0 else SectorTotal(sectors[..|sectors| - 1]) + sectors[|sectors| - 1].count
  }

  /** The projection keeps the names, in order. */
  lemma {:induction false} ProjectNames(names: seq<string>, aggregates: map<string, Agg>)
    requires forall r :: r in names ==> r in aggregates
    ensures var ss := Project(names, aggregates);
      |ss| == |names| && forall i :: 0 <= i < |ss| ==> ss[i].name == names[i]
  {
    if names != [] {
      ProjectNames(names[..|names| - 1], aggregates);
    }
  }

  lemma {:induction false} ProjectFacts(pnodes: seq<Route.PNode>, names: seq<string>, aggregates: map<string, Agg>)
    requires forall r :: r in names ==> r in aggregates && aggregates[r] == Tally(pnodes, r)
    ensures var ss := Project(names, aggregates);
      && |ss| == |names|
      && (forall i :: 0 <= i < |ss| ==>
            && ss[i].name == names[i]
            && ss[i].count == CountIn(pnodes, names[i])
            && ss[i].online == OnlineIn(pnodes, names[i])
            && ss[i].storage == StorageIn(pnodes, names[i]))
      && SectorTotal(ss) == SumCounts(pnodes, names)
  {
    if names != [] {
      var init, last := names[..|names| - 1], names[|names| - 1];
      ProjectFacts(pnodes, init, aggregates);
      var ss, pre := Project(names, aggregates), Project(init, aggregates);
      var sector := Place(last, aggregates[last]);
      assert ss == pre + [sector];
      assert ss[..|ss| - 1] == pre;
      assert sector.count == CountIn(pnodes, last);
      forall i | 0 <= i < |ss|
        ensures ss[i].name == names[i] && ss[i].count == CountIn(pnodes, names[i])
        ensures ss[i].online == OnlineIn(pnodes, names[i]) && ss[i].storage == StorageIn(pnodes, names[i])
      {
        if i < |pre| {
          assert ss[i] == pre[i] && names[i] == init[i];
        }
      }
    }
  }

  /** The filter on the fallback sector never removes anything: every sector holds a
      node, and no more online nodes than nodes. */
  lemma NothingFiltered(pnodes: seq<Route.PNode>, names: seq<string>, aggregates: map<string, Agg>)
    requires Tallied(names, aggregates, pnodes)
    ensures RegionalData(names, aggregates) == Project(names, aggregates)
    ensures var ss := Project(names, aggregates);
      forall i :: 0 <= i < |ss| ==> 1 <= ss[i].count && 0 <= ss[i].online <= ss[i].count
  {
    ProjectFacts(pnodes, names, aggregates);
    var ss := Project(names, aggregates);
    forall i | 0 <= i < |ss| ensures KeepSector(ss[i]) && 1 <= ss[i].count && ss[i].online <= ss[i].count {
      SectorTallyBounds(pnodes, names[i]);
    }
    Seqs.FilterAll(KeepSector, ss);
  }

  /** Every node's sector is listed. */
  lemma NodesHaveSectors(pnodes: seq<Route.PNode>, names: seq<string>, aggregates: map<string, Agg>)
    requires names == SectorNames(pnodes)
    requires forall r :: r in names ==> r in aggregates
    ensures var ss := Project(names, aggregates);
      forall k :: 0 <= k < |pnodes| ==> exists i :: 0 <= i < |ss| && ss[i].name == SectorOf(pnodes[k])
  {
    ProjectNames(names, aggregates);
    var keys := SectorKeys(pnodes);
    Seqs.DedupFacts(keys);
    var ss := Project(names, aggregates);
    forall k | 0 <= k < |pnodes|
      ensures exists i :: 0 <= i < |ss| && ss[i].name == SectorOf(pnodes[k])
    {
      var key := SectorOf(pnodes[k]);
      assert keys[k] == key;
      assert key in keys;
      assert key in names;
      var i :| 0 <= i < |names| && names[i] == key;
      assert ss[i].name == key;
    }
  }

  /** Every listed sector is some node's, and none is listed twice. */
  lemma SectorsFromNodes(pnodes: seq<Route.PNode>, names: seq<string>, aggregates: map<string, Agg>)
    requires names == SectorNames(pnodes)
    requires forall r :: r in names ==> r in aggregates
    ensures var ss := Project(names, aggregates);
      && (forall i :: 0 <= i < |ss| ==> exists k :: 0 <= k < |pnodes| && SectorOf(pnodes[k]) == ss[i].name)
      && (forall i, j :: 0 <= i < j < |ss| ==> ss[i].name != ss[j].name)
  {
    ProjectNames(names, aggregates);
    var keys := SectorKeys(pnodes);
    Seqs.DedupFacts(keys);
    var ss := Project(names, aggregates);
    forall i | 0 <= i < |ss|
      ensures exists k :: 0 <= k < |pnodes| && SectorOf(pnodes[k]) == ss[i].name
    {
      assert names[i] in keys;
      var k :| 0 <= k < |keys| && keys[k] == names[i];
    }
  }

  /** Each sector carries its region's tallies, holds a node, and the counts add up
      to the number of nodes. */
  lemma RegionalTallies(pnodes: seq<Route.PNode>, names: seq<string>, aggregates: map<string, Agg>)
    requires Tallied(names, aggregates, pnodes)
    ensures var ss := RegionalData(names, aggregates);
      && |ss| == |SectorNames(pnodes)|
      && (forall i :: 0 <= i < |ss| ==>
            && ss[i].name == SectorNames(pnodes)[i]
            && ss[i].count == CountIn(pnodes, ss[i].name)
            && ss[i].online == OnlineIn(pnodes, ss[i].name)
            && ss[i].storage == StorageIn(pnodes, ss[i].name))
      && (forall i :: 0 <= i < |ss| ==> 1 <= ss[i].count && 0 <= ss[i].online <= ss[i].count)
      && SectorTotal(ss) == |pnodes|
  {
    NothingFiltered(pnodes, names, aggregates);
    ProjectFacts(pnodes, names, aggregates);
    CountsSumToTotal(pnodes);
  }

  /** The sectors are exactly the nodes' sectors, each once. */
  lemma RegionalCoverage(pnodes: seq<Route.PNode>, names: seq<string>, aggregates: map<string, Agg>)
    requires Tallied(names, aggregates, pnodes)
    ensures var ss := RegionalData(names, aggregates);
      && (forall i, j :: 0 <= i < j < |ss| ==> ss[i].name != ss[j].name)
      && (forall k :: 0 <= k < |pnodes| ==> exists i :: 0 <= i < |ss| && ss[i].name == SectorOf(pnodes[k]))
      && (forall i :: 0 <= i < |ss| ==> exists k :: 0 <= k < |pnodes| && SectorOf(pnodes[k]) == ss[i].name)
  {
    NothingFiltered(pnodes, names, aggregates);
    var ss := Project(names, aggregates);
    assert RegionalData(names, aggregates) == ss;
    NodesHaveSectors(pnodes, names, aggregates);
    SectorsFromNodes(pnodes, names, aggregates);
  }

  /** The memoised `regionalData`: tally the nodes, then project. There is one sector
      per region name that occurs, in first-seen order, with that region's tallies;
      every sector holds a node and no more online nodes than nodes; and the counts
      add up to the number of nodes. */
  method ComputeRegionalData(pnodes: seq<Route.PNode>) returns (sectors: seq<Sector>)
    ensures |sectors| == |SectorNames(pnodes)|
    ensures forall i :: 0 <= i < |sectors| ==>
      && sectors[i].name == SectorNames(pnodes)[i]
      && sectors[i].count == CountIn(pnodes, sectors[i].name)
      && sectors[i].online == OnlineIn(pnodes, sectors[i].name)
      && sectors[i].storage == StorageIn(pnodes, sectors[i].name)
    ensures forall i, j :: 0 <= i < j < |sectors| ==> sectors[i].name != sectors[j].name
    ensures forall k :: 0 <= k < |pnodes| ==> exists i :: 0 <= i < |sectors| && sectors[i].name == SectorOf(pnodes[k])
    ensures forall i :: 0 <= i < |sectors| ==> exists k :: 0 <= k < |pnodes| && SectorOf(pnodes[k]) == sectors[i].name
    ensures forall i :: 0 <= i < |sectors| ==> 1 <= sectors[i].count && 0 <= sectors[i].online <= sectors[i].count
    ensures SectorTotal(sectors) == |pnodes|
  {
    var names, aggregates := Aggregate(pnodes);
    RegionalTallies(pnodes, names, aggregates);
    RegionalCoverage(pnodes, names, aggregates);
    sectors := RegionalData(names, aggregates);
  }

  /** Where a sector is drawn: its table entry, or the fallback for a name the table
      does not know, such as the route's "Global Relay". */
  lemma PlaceFallback(a: Agg)
    ensures Place(Route.GlobalRelay, a).coordinates == (0.0, 0.0)
    ensures Place(Route.GlobalRelay, a).color == "#00f2ff"
    ensures Place(Route.GlobalNode, a).coordinates == (0.0, 20.0)
    ensures Place(Route.Usa, a).color == "#ff00bd"
  {
  }

  /* ---------- Sector order ---------- */

  /** One step of the insertion sort: `a[i]` moves left past every sector with fewer
      nodes, and stops behind the first one with as many or more. */
  method InsertAt(a: array<Sector>, i: nat)
    requires i < a.Length
    modifies a
    ensures a[..i + 1] == Sorting.InsertLast(SectorCount, old(a[..i]), old(a[i]))
    ensures a[i + 1..] == old(a[i + 1..])
  {
    ghost var t := a[..i];
    var x := a[i];
    var j := i;
    while j > 0 && a[j - 1].count < x.count
      invariant 0 <= j <= i
      invariant forall k {:trigger a[k]} :: 0 <= k < j ==> a[k] == t[k]
      invariant forall k {:trigger a[k]} :: j < k <= i ==> a[k] == t[k - 1]
      invariant forall k :: i < k < a.Length ==> a[k] == old(a[k])
      invariant forall k :: j <= k < i ==> SectorCount(t[k]) < SectorCount(x)
    {
      a[j] := a[j - 1];
      j := j - 1;
    }
    a[j] := x;
    Sorting.InsertLastShape(SectorCount, t, x, j, a[..]);
    assert a[i + 1..] == old(a[i + 1..]);
  }

  /** `regionalData.sort((a, b) => b.count - a.count)`: a stable insertion sort in
      place. */
  method SortSectors(a: array<Sector>)
    modifies a
    ensures a[..] == Sorting.SortDesc(SectorCount, old(a[..]))
  {
    ghost var s := a[..];
    var i := 0;
    while i < a.Length
      invariant 0 <= i <= a.Length
      invariant a[..i] == Sorting.SortDesc(SectorCount, s[..i])
      invariant a[i..] == s[i..]
    {
      assert a[i] == s[i];
      ghost var sorted := a[..i];
      InsertAt(a, i);
      assert s[..i + 1][..i] == s[..i] && s[..i + 1][i] == s[i];
      assert a[..i + 1] == Sorting.InsertLast(SectorCount, sorted, s[i]) == Sorting.SortDesc(SectorCount, s[..i + 1]);
      assert a[i + 1..] == s[i + 1..];
      i := i + 1;
    }
    assert a[..] == a[..a.Length] && s == s[..a.Length];
  }

  /** After the sort the sectors run from most to fewest nodes, the same sectors as
      before, and sectors with equal counts keep their earlier order. */
  lemma SortSectorsCorrect(s: seq<Sector>)
    ensures Sorting.SortedDesc(SectorCount, Sorting.SortDesc(SectorCount, s))
    ensures multiset(Sorting.SortDesc(SectorCount, s)) == multiset(s)
    ensures forall c :: Sorting.WithKey(SectorCount, Sorting.SortDesc(SectorCount, s), c)
                     == Sorting.WithKey(SectorCount, s, c)
  {
    Sorting.SortDescCorrect(SectorCount, s);
  }
}
