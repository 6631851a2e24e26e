/**
 * The node registry page: the region choices, the search, status and region filters,
 * paging by eight, and how the page's controls change what is shown.
 */
module NodesPage {

  import Seqs
  import Strings
  import Route

  const AllRegions: string := "All Regions"
  const AllStatuses: string := "ALL"
  const NodesPerPage: nat := 8

  /* ---------- Region choices ---------- */

  function RegionNames(pnodes: seq<Route.PNode>): (rs: seq<string>)
    ensures |rs| == |pnodes| && forall i :: 0 <= i < |pnodes| ==> rs[i] == pnodes[i].record.region
  {
    seq(|pnodes|, i requires 0 <= i < |pnodes| => pnodes[i].record.region)
  }

  predicate NonEmpty(r: string) {
    r != []
  }

  /** `["All Regions", ...new Set(pnodes.map(n => n.region).filter(Boolean))]`:
      "All Regions" first, then no region twice. */
  function Regions(pnodes: seq<Route.PNode>): (rs: seq<string>)
    ensures |rs| >= 1 && rs[0] == AllRegions
    ensures Seqs.Distinct(rs[1..])
  {
    var choices := Seqs.Dedup(Seqs.Filter(NonEmpty, RegionNames(pnodes)));
    Seqs.DedupFacts(Seqs.Filter(NonEmpty, RegionNames(pnodes)));
    assert ([AllRegions] + choices)[1..] == choices;
    [AllRegions] + choices
  }

  lemma RegionNamesIff(pnodes: seq<Route.PNode>)
    ensures forall r :: r in RegionNames(pnodes) <==> exists i :: 0 <= i < |pnodes| && pnodes[i].record.region == r
  {
    var names := RegionNames(pnodes);
    forall r
      ensures r in names <==> exists i :: 0 <= i < |pnodes| && pnodes[i].record.region == r
    {
      if r in names {
        var i :| 0 <= i < |names| && names[i] == r;
      }
    }
  }

  /** The choices after the first are the non-empty regions of the nodes. */
  lemma RegionsFacts(pnodes: seq<Route.PNode>)
    ensures forall r :: r in Regions(pnodes)[1..] <==>
      r != [] && exists i :: 0 <= i < |pnodes| && pnodes[i].record.region == r
  {
    var names := RegionNames(pnodes);
    RegionNamesIff(pnodes);
    Seqs.FilterMembers(NonEmpty, names);
    Seqs.DedupFacts(Seqs.Filter(NonEmpty, names));
    assert Regions(pnodes)[1..] == Seqs.Dedup(Seqs.Filter(NonEmpty, names));
  }

  /** Unless some node's region is itself called "All Regions", no choice is offered
      twice. */
  lemma RegionsDistinct(pnodes: seq<Route.PNode>)
    requires forall i :: 0 <= i < |pnodes| ==> pnodes[i].record.region != AllRegions
    ensures Seqs.Distinct(Regions(pnodes))
  {
    RegionsFacts(pnodes);
    var rs := Regions(pnodes);
    forall i, j | 0 <= i < j < |rs| ensures rs[i] != rs[j] {
      if i == 0 {
        assert rs[j] in rs[1..];
      } else {
        assert rs[i] == rs[1..][i - 1] && rs[j] == rs[1..][j - 1];
      }
    }
  }

  /** Regions keep the order in which they were first seen: more nodes only ever add
      choices at the end. */
  lemma RegionsGrow(a: seq<Route.PNode>, b: seq<Route.PNode>)
    ensures Regions(a) <= Regions(a + b)
  {
    assert RegionNames(a + b) == RegionNames(a) + RegionNames(b);
    Seqs.FilterAppend(NonEmpty, RegionNames(a), RegionNames(b));
    Seqs.DedupPrefix(Seqs.Filter(NonEmpty, RegionNames(a)), Seqs.Filter(NonEmpty, RegionNames(b)));
  }

  /* ---------- Filters ---------- */

  /** The lower-cased pubkey or the lower-cased address contains the lower-cased
      query. */
  predicate MatchesSearch(n: Route.PNode, search: string) {
    var q := Strings.Lower(search);
    || Strings.Contains(Strings.Lower(n.record.pubkey), q)
    || (n.record.address.Some? && Strings.Contains(Strings.Lower(n.record.address.value), q))
  }

  /** How a status is written in the route's response. */
  function StatusText(s: Route.Status): string {
    match s
    case Online => "online"
    case Offline => "offline"
  }

  predicate MatchesStatus(n: Route.PNode, filter: string) {
    filter == AllStatuses || Strings.Upper(StatusText(n.record.status)) == filter
  }

  predicate MatchesRegion(n: Route.PNode, region: string) {
    region == AllRegions || n.record.region == region
  }

  /** What the filters are set to, and the page being shown. */
  datatype View = View(search: string, status: string, region: string, page: int)

  /** The page as first shown. */
  const InitialView: View := View("", AllStatuses, AllRegions, 1)

  predicate Keep(n: Route.PNode, v: View) {
    MatchesSearch(n, v.search) && MatchesStatus(n, v.status) && MatchesRegion(n, v.region)
  }

  /** `filteredNodes`: a node is shown exactly when it passes all three filters. */
  function Filtered(pnodes: seq<Route.PNode>, v: View): (r: seq<Route.PNode>)
    ensures forall n :: n in r <==>
      n in pnodes && MatchesSearch(n, v.search) && MatchesStatus(n, v.status) && MatchesRegion(n, v.region)
  {
    Seqs.FilterMembers(n => Keep(n, v), pnodes);
    Seqs.Filter(n => Keep(n, v), pnodes)
  }

  /** The search ignores the case of the query. */
  lemma SearchIgnoresCase(n: Route.PNode, search: string)
    ensures MatchesSearch(n, Strings.Lower(search)) == MatchesSearch(n, search)
    ensures MatchesSearch(n, Strings.Upper(search)) == MatchesSearch(n, search)
  {
    Strings.CaseFolding(search);
  }

  /** The empty query accepts every node, since every node has a pubkey. */
  lemma EmptySearchAcceptsAll(n: Route.PNode)
    ensures MatchesSearch(n, "")
  {
    Strings.ContainsEmpty(Strings.Lower(n.record.pubkey));
  }

  /** "ALL" accepts every node, "ONLINE" and "OFFLINE" accept the nodes with that
      status, and "SYNCING" accepts none, since no node is ever syncing. */
  lemma StatusFilterMeaning(n: Route.PNode)
    ensures MatchesStatus(n, "ALL")
    ensures MatchesStatus(n, "ONLINE") <==> n.record.status == Route.Online
    ensures MatchesStatus(n, "OFFLINE") <==> n.record.status == Route.Offline
    ensures !MatchesStatus(n, "SYNCING")
  {
    assert Strings.Upper("online") == "ONLINE";
    assert Strings.Upper("offline") == "OFFLINE";
  }

  /** The shown nodes keep their order in the store's list. */
  lemma FilteredFacts(pnodes: seq<Route.PNode>, v: View)
    ensures |Filtered(pnodes, v)| <= |pnodes|
    ensures Seqs.IsSubsequence(Filtered(pnodes, v), pnodes)
  {
    Seqs.FilterMembers(n => Keep(n, v), pnodes);
    Seqs.FilterIsSubsequence(n => Keep(n, v), pnodes);
  }

  /** With the filters as first set, every node is shown. */
  lemma InitialViewShowsAll(pnodes: seq<Route.PNode>)
    ensures Filtered(pnodes, InitialView) == pnodes
  {
    forall i | 0 <= i < |pnodes| ensures Keep(pnodes[i], InitialView) {
      EmptySearchAcceptsAll(pnodes[i]);
    }
    Seqs.FilterAll(n => Keep(n, InitialView), pnodes);
  }

  /* ---------- Paging ---------- */

  /** `filtered.slice((page - 1) * 8, page * 8)`: never more than eight nodes,
      whatever the page number. */
  function CurrentNodes<T>(f: seq<T>, page: int): (r: seq<T>)
    ensures |r| <= NodesPerPage
  {
    Seqs.Slice(f, (page - 1) * NodesPerPage, page * NodesPerPage)
  }

  /** `Math.ceil(len / 8)`: the fewest pages of eight that hold `len` nodes. */
  function TotalPages(len: nat): (t: nat)
    ensures t * NodesPerPage >= len
    ensures t > 0 ==> (t - 1) * NodesPerPage < len
  {
    (len + NodesPerPage - 1) / NodesPerPage
  }

  /** Page `page` holds the nodes from position (page-1)*8 on, up to position page*8,
      and nothing once the page is past the last one. */
  lemma PageBounds<T>(f: seq<T>, page: int)
    requires page >= 1
    ensures (page - 1) * NodesPerPage < |f| ==>
      CurrentNodes(f, page) == f[(page - 1) * NodesPerPage .. Seqs.Min(page * NodesPerPage, |f|)]
    ensures page > TotalPages(|f|) ==> CurrentNodes(f, page) == []
  {
  }

  /** Pages 1 to `n`, one after the other. */
  function PagesUpTo<T>(f: seq<T>, n: nat): seq<T> {
    if n == 0 then [] else PagesUpTo(f, n - 1) + CurrentNodes(f, n)
  }

  lemma {:induction false} PagesUpToPrefix<T>(f: seq<T>, n: nat)
    ensures PagesUpTo(f, n) == f[..Seqs.Min(n * NodesPerPage, |f|)]
  {
    if n > 0 {
      PagesUpToPrefix(f, n - 1);
      PageBounds(f, n);
    }
  }

  /** Reading every page from the first to the last gives back the filtered list. */
  lemma PagesCoverFiltered<T>(f: seq<T>)
    ensures PagesUpTo(f, TotalPages(|f|)) == f
  {
    PagesUpToPrefix(f, TotalPages(|f|));
  }

  /* ---------- Controls ---------- */

  /** What the user can do on the page. */
  datatype Action =
    | EditSearch(text: string)
    | PickStatus(status: string)
    | PickRegion(region: string)
    | PrevPage
    | NextPage
    | ResetFilters

  function PageCount(pnodes: seq<Route.PNode>, v: View): nat {
    TotalPages(|Filtered(pnodes, v)|)
  }

  /** The nodes on screen. */
  function Visible(pnodes: seq<Route.PNode>, v: View): seq<Route.PNode> {
    CurrentNodes(Filtered(pnodes, v), v.page)
  }

  /** The view after `a`; a click on a disabled button (Prev on page 1, Next on the
      last page) does nothing. No action takes the page below 1, editing the search
      goes back to the first page, and only the paging buttons move the page. */
  function Apply(pnodes: seq<Route.PNode>, v: View, a: Action): (r: View)
    ensures v.page >= 1 ==> r.page >= 1
    ensures a.EditSearch? ==> r.page == 1
    ensures !a.EditSearch? && !a.PrevPage? && !a.NextPage? ==> r.page == v.page
    // the disabled buttons: Prev on the first page, Next on or past the last one
    ensures a.PrevPage? && v.page == 1 ==> r == v
    ensures a.NextPage? && v.page >= PageCount(pnodes, v) ==> r == v
    // an enabled button moves by exactly one page, wherever the page stands
    ensures a.PrevPage? && v.page != 1 ==> r == v.(page := v.page - 1)
    ensures a.NextPage? && v.page < PageCount(pnodes, v) ==> r == v.(page := v.page + 1)
    // what each control stores, with every other field kept
    ensures a.EditSearch? ==> r == v.(search := a.text, page := 1)
    ensures a.PickStatus? ==> r == v.(status := a.status)
    ensures a.PickRegion? ==> r == v.(region := a.region)
    ensures a.ResetFilters? ==> r == v.(status := AllStatuses, region := AllRegions)
  {
    match a
    case EditSearch(text) => v.(search := text, page := 1)
    case PickStatus(s) => v.(status := s)
    case PickRegion(r) => v.(region := r)
    case PrevPage => if v.page == 1 then v else v.(page := v.page - 1)
    case NextPage => if v.page >= PageCount(pnodes, v) then v else v.(page := v.page + 1)
    case ResetFilters => v.(status := AllStatuses, region := AllRegions)
  }

  /** Next never goes past the last page; Prev undoes Next, and Next undoes Prev while
      the page is within range. */
  lemma PagingInverse(pnodes: seq<Route.PNode>, v: View)
    requires v.page >= 1
    ensures v.page < PageCount(pnodes, v) ==> Apply(pnodes, v, NextPage).page <= PageCount(pnodes, v)
    ensures v.page < PageCount(pnodes, v) ==> Apply(pnodes, Apply(pnodes, v, NextPage), PrevPage) == v
    ensures 1 < v.page <= PageCount(pnodes, v) ==> Apply(pnodes, Apply(pnodes, v, PrevPage), NextPage) == v
  {
    var prev := v.(page := v.page - 1);
    assert Filtered(pnodes, prev) == Filtered(pnodes, v) by {
      Seqs.FilterExt(n => Keep(n, prev), n => Keep(n, v), pnodes);
    }
    var next := v.(page := v.page + 1);
    assert Filtered(pnodes, next) == Filtered(pnodes, v) by {
      Seqs.FilterExt(n => Keep(n, next), n => Keep(n, v), pnodes);
    }
  }

  /** Changing the status or region filter keeps the page, so the page shown can be
      past the last one, and then it is empty. */
  lemma FilterChangeMayEmptyPage(pnodes: seq<Route.PNode>, v: View, s: string)
    requires v.page >= 1
    requires v.page > PageCount(pnodes, Apply(pnodes, v, PickStatus(s)))
    ensures Visible(pnodes, Apply(pnodes, v, PickStatus(s))) == []
  {
    PageBounds(Filtered(pnodes, Apply(pnodes, v, PickStatus(s))), v.page);
  }

  /** After Reset only the search decides what is shown. */
  lemma ResetLeavesSearch(pnodes: seq<Route.PNode>, v: View)
    ensures Apply(pnodes, v, ResetFilters).search == v.search
    ensures Filtered(pnodes, Apply(pnodes, v, ResetFilters))
         == Seqs.Filter(n => MatchesSearch(n, v.search), pnodes)
  {
    var r := Apply(pnodes, v, ResetFilters);
    forall i | 0 <= i < |pnodes| ensures Keep(pnodes[i], r) == MatchesSearch(pnodes[i], v.search) {
      StatusFilterMeaning(pnodes[i]);
    }
    Seqs.FilterExt(n => Keep(n, r), n => MatchesSearch(n, v.search), pnodes);
  }
}
