# XandOS pNode pipeline — a Dafny model

XandOS is a dashboard for the pNode storage network. It has two halves.

- The `/api/pnodes` route asks a fixed list of seed nodes for their pod lists. It merges what they report into one record per pubkey, keeping the freshest observation. It derives each node's region from its IP prefix and its liveness from a five-minute window. Finally it sorts the nodes by credits and ranks them 1..n.
- The client side is a small store that holds the last node list and its statistics. Four pages shape that list into views:
  - the node registry: filters, search and pages of eight;
  - the global radar: per-region sectors;
  - the leaderboard: podium and hall of fame;
  - the overview: top ten by storage and five storage ranges.

This project models that logic in Dafny and proves what each piece promises.

| file | module | models |
|---|---|---|
| `wrappers.dfy` | `Wrappers` | `Option`, for properties that may be missing |
| `seqs.dfy` | `Seqs` | JavaScript `slice` index clamping, `filter`, `Set` de-duplication in first-seen order, subsequences |
| `strings.dfy` | `Strings` | `startsWith`, `includes`, ASCII `toLowerCase`/`toUpperCase`, `split(":")[0]` |
| `sorting.dfy` | `Sorting` | the stable `sort` by a descending integer key |
| `prpc.dfy` | `Prpc` | the pod shape, the seed list, `toMillisMaybe` |
| `route.dfy` | `Route` | `getRegionFromIP`, the merge loop over the `Map`, the sort and the ranking |
| `store.dfy` | `Store` | the store as a class with fields `pnodes`, `isLoading`, `stats` and the three outcomes of `fetchPNodes` |
| `nodes_page.dfy` | `NodesPage` | region choices, the three filters, paging, and how the controls change the view |
| `map_page.dfy` | `MapPage` | the per-region `reduce` as a loop over a dictionary, the sector projection, the in-place sector sort on an array |
| `leaderboard_page.dfy` | `LeaderboardPage` | the credits ranking, podium and hall of fame |
| `overview_page.dfy` | `OverviewPage` | the top-ten chart and the five storage ranges |

## Modelling choices

- `Date.now()` is the parameter `now`.
- The settled seed results are a `seq<Option<seq<Pod>>>`. `None` stands for a rejected seed or an answer without `pods`.
- The route's `Map` is `MergeState(order, byPubkey)`: the keys in insertion order, and the records.
  - `Route.Merge` is the outer loop over the seeds, `Route.MergeSeed` the inner loop over one seed's pods, and `Route.Observe` the `get`/`set` of one pod.
  - It is proved equal to a fold, `Route.Fold`, and the properties are proved about the fold.
- JavaScript's `sort` is stable. With a fixed comparator it has exactly one result, which `Sorting.SortDesc` computes by insertion.
  - Stability is stated as follows: for every key value, the elements with that key appear in the same order before and after the sort.
  - The radar's in-place sort (`MapPage.SortSectors`) is an insertion sort on an `array` proved equal to `SortDesc`.
- A missing number is 0 and a missing string is `None`, as `|| 0` and `?.` make them.
- The online `riskScore` is random in the source. It is `None` in the model; an offline node's 85 is modelled.
- The store is a class.
  - `Succeed`, `Decline` and `Fail` are the three outcomes of `fetchPNodes`, and `FetchPNodes` dispatches on how the request ends.
  - `Consistent()` states that `stats` describe `pnodes`, or that nothing has been fetched yet. Every outcome preserves it.
- The registry page's state is a `View` value: search, status, region and page. `NodesPage.Apply` is what each control does to it.

- The route has two fallback region labels: an empty IP gives "Global Relay" and an IP no rule matches gives "Global Node". The model keeps both.
- Normalising a timestamp twice equals normalising it once when `ts > 10^7`, and also when `ts == 0`, since `0 * 1000 == 0`. `Prpc.ToMillisTwice` states the exact condition.

## Model

| member | source | states |
|---|---|---|
| Prpc.ToMillisMaybe | app/lib/prpc.ts:26-28 | a non-negative timestamp never decreases when normalised |
| Prpc.ToMillisKeepsMillis | app/lib/prpc.ts:27 | a timestamp above 10^10 is kept unchanged |
| Prpc.ToMillisScalesSeconds | app/lib/prpc.ts:27 | a timestamp up to and including 10^10 is multiplied by 1000, e.g. 1700000000 becomes 1700000000000 |
| Prpc.ToMillisTwice | app/lib/prpc.ts:26-28 | normalising twice equals normalising once exactly when ts > 10^7 or ts == 0 |
| Prpc.ToMillisNotMonotone | app/lib/prpc.ts:27 | the normalisation is not monotone: 10^10 maps above 10^10 + 1 |
| Prpc.DefaultSeedsDistinct | app/lib/prpc.ts:15-24 | there are exactly eight seed addresses, pairwise distinct |
| Seqs.SliceFacts | app/dashboard/page.tsx:34 | `slice` with non-negative indices takes the part between them cut to the length; `slice(0, n)` is the first n elements; `slice(-k, len)` with k > 0 is the last k elements, or all of a shorter sequence |
| Seqs.DedupFacts | app/dashboard/nodes/page.tsx:89 | de-duplication in first-seen order yields distinct elements, exactly those of the input |
| Strings.ContainsIff | app/dashboard/nodes/page.tsx:95 | `includes` holds exactly when the query is a prefix of some suffix of the text |
| Strings.ContainsEmpty | app/dashboard/nodes/page.tsx:95 | every text includes the empty query |
| Strings.CaseFolding | app/dashboard/nodes/page.tsx:95-96 | lower- and upper-casing are idempotent and forget the case they start from, and a lower-cased text holds no upper-case letter (and the other way round) |
| Strings.HostPart | app/api/pnodes/route.ts:40 | the host part is a prefix without ':' and ends at the first ':' of the address |
| Strings.HostPartOfHostPort | app/api/pnodes/route.ts:40 | the host part of "host:port" is host |
| Sorting.SortDescCorrect | app/api/pnodes/route.ts:67-69 | the sort gives non-increasing keys, a permutation of the input, and equal keys in input order |
| Sorting.SortDesc | app/api/pnodes/route.ts:67-69 | the sort keeps the number of elements; its order, permutation and stability are stated by Sorting.SortDescCorrect |
| Sorting.RankStabilityExample | app/api/pnodes/route.ts:67-74 | credits 50, 100, 100, 10 sort to 100, 100, 50, 10 with the tied pair in input order |
| Route.RegionFromIp | app/api/pnodes/route.ts:9-25 | the region is one of five labels, and "Global Relay" exactly for the empty IP |
| Route.RegionFromIpIsFirstMatch | app/api/pnodes/route.ts:11-24 | for a non-empty IP the if-chain is a first-match lookup over the ordered rules Germany, USA, London, with "Global Node" when none matches |
| Route.DefaultSeedsHaveRegions | app/api/pnodes/route.ts:11-22 | every default seed falls under the Germany or the USA rule |
| Route.StatusBoundary | app/api/pnodes/route.ts:58 | a node seen exactly 300000 ms ago is online, one ms older is offline, and a fresher timestamp never turns online into offline |
| Route.MakeRecord | app/api/pnodes/route.ts:39-59 | numbers and a non-empty version the pod reports are copied, missing numbers become 0, a missing or empty version "0.8.0"; the address is copied as is; the region is looked up from the address up to its first ':', and a missing address gives "Global Relay"; the record carries its key and normalised timestamp and is online exactly when within the window |
| Route.RegionFromHost | app/api/pnodes/route.ts:40-57 | the region is computed from the address up to its first ':' |
| Route.RegionFromWholeAddress | app/api/pnodes/route.ts:40-57 | an address without ':' is looked up whole, and the empty address gives "Global Relay" |
| Route.KeysIff | app/api/pnodes/route.ts:36-38 | a key is observed exactly when some pod with a non-empty pubkey carries it |
| Route.Step | app/api/pnodes/route.ts:38-59 | a keyless pod changes nothing; otherwise only the pod's own key is added, at the end of the order, or has its record replaced, and no record becomes older |
| Route.Observe | app/api/pnodes/route.ts:38-59 | the `get`/`set` of one pod leaves the `Map` as one merge step does |
| Route.MergeSeed | app/api/pnodes/route.ts:37-60 | the loop over one seed's pods leaves the `Map` as the merge steps over those pods do |
| Route.Merge | app/api/pnodes/route.ts:33-63 | the nested loops over seeds and pods leave the `Map` equal to the fold over all observations |
| Route.FoldShape | app/api/pnodes/route.ts:42-45 | the `Map` holds exactly the observed keys, in first-observed order, each record under its own pubkey |
| Route.FoldWinners | app/api/pnodes/route.ts:39-45 | each record is built from the observation with the greatest normalised timestamp for its key, the first one on a tie |
| Route.MergeIdempotent | app/api/pnodes/route.ts:35-63 | merging the same seed results twice gives the same `Map` as merging them once |
| Route.KeylessIgnored | app/api/pnodes/route.ts:38 | a pod without a pubkey changes nothing wherever it stands |
| Route.AllSeedsFailed | app/api/pnodes/route.ts:35-77 | when every seed fails, answers without pods or answers an empty pod list, there are no observations, no records, and the route answers an empty list |
| Route.MergedValues | app/api/pnodes/route.ts:67 | the merged records follow the first-seen order of their pubkeys |
| Route.MergedRecord | app/api/pnodes/route.ts:42-59 | every merged record has an observed key and is built from that key's winning observation |
| Route.SortedMergeDistinct | app/api/pnodes/route.ts:67-69 | the sorted records have pairwise distinct pubkeys |
| Route.SortedMergeCovers | app/api/pnodes/route.ts:67-69 | a pubkey is among the sorted records exactly when some pod carries it |
| Route.RankedOrder | app/api/pnodes/route.ts:67-76 | ranks are 1..n, credits are non-increasing, the records are a permutation of the merge, and equal-credit records keep first-seen order |
| Route.RankedKeys | app/api/pnodes/route.ts:33-76 | the answer holds exactly one entry per observed pubkey |
| Route.RankedWinners | app/api/pnodes/route.ts:42-76 | each entry is built from its pubkey's freshest observation, and every offline entry has risk score 85 |
| Route.Get | app/api/pnodes/route.ts:27-78 | the route body answers with the ranked merge of all observations in seed order |
| Store.OnlineCount | app/store/useXandStore.tsx:23 | the online count never exceeds the number of nodes |
| Store.TotalStorage | app/store/useXandStore.tsx:16 | with no negative capacity the total is non-negative and at least each node's capacity |
| Store.TotalUsed | app/store/useXandStore.tsx:17 | with no negative used figure the total is non-negative and at least each node's figure |
| Store.StatsOf | app/store/useXandStore.tsx:16-25 | the statistics count all nodes, no more online nodes than nodes, and carry a used total |
| Store.OnlineCountAll | app/store/useXandStore.tsx:23 | the online count equals the node count exactly when every node is online |
| Store.TotalsAppend | app/store/useXandStore.tsx:16-17 | the storage sums add up over any split of the list |
| Store.XandStore.constructor | app/store/useXandStore.tsx:5-7 | the store starts empty, loading, with zero statistics |
| Store.XandStore.Succeed | app/store/useXandStore.tsx:14-28 | success replaces the list and its statistics and ends loading |
| Store.XandStore.Decline | app/store/useXandStore.tsx:14 | a response without success changes no field |
| Store.XandStore.Fail | app/store/useXandStore.tsx:30-32 | an error only ends loading; the last list and statistics stay |
| Store.XandStore.FetchPNodes | app/store/useXandStore.tsx:9-34 | each of the three outcomes sets exactly its fields, and consistent statistics stay consistent |
| Store.OnlineWithinTotal | app/store/useXandStore.tsx:22-23 | in a consistent store the online count never exceeds the node count |
| NodesPage.Regions | app/dashboard/nodes/page.tsx:88-91 | "All Regions" comes first, and no later region appears twice |
| NodesPage.RegionsFacts | app/dashboard/nodes/page.tsx:88-91 | the choices after the first are exactly the non-empty node regions |
| NodesPage.RegionsDistinct | app/dashboard/nodes/page.tsx:88-91 | with no node in a region called "All Regions", no choice appears twice |
| NodesPage.RegionsGrow | app/dashboard/nodes/page.tsx:88-91 | more nodes only add region choices at the end |
| NodesPage.SearchIgnoresCase | app/dashboard/nodes/page.tsx:95 | lower- or upper-casing the query does not change which nodes match |
| NodesPage.EmptySearchAcceptsAll | app/dashboard/nodes/page.tsx:95 | the empty query accepts every node |
| NodesPage.StatusFilterMeaning | app/dashboard/nodes/page.tsx:96 | "ALL" accepts all, "ONLINE" and "OFFLINE" exactly their nodes, "SYNCING" none |
| NodesPage.Filtered | app/dashboard/nodes/page.tsx:93-100 | a node is shown exactly when it passes the search, status and region filters |
| NodesPage.FilteredFacts | app/dashboard/nodes/page.tsx:93-100 | the shown nodes are no more than the nodes and an order-preserving subsequence of them |
| NodesPage.InitialViewShowsAll | app/dashboard/nodes/page.tsx:79-100 | with the initial filters every node is shown |
| NodesPage.TotalPages | app/dashboard/nodes/page.tsx:103 | the page count is the fewest pages of eight that hold the nodes |
| NodesPage.CurrentNodes | app/dashboard/nodes/page.tsx:102 | whatever the page number, a page shows at most eight nodes |
| NodesPage.PageBounds | app/dashboard/nodes/page.tsx:102 | a page shows the nodes from position (page-1)*8 to page*8, and none past the last page |
| NodesPage.PagesCoverFiltered | app/dashboard/nodes/page.tsx:102-103 | pages 1 to the page count, concatenated, are the filtered list |
| NodesPage.Apply | app/dashboard/nodes/page.tsx:117-222 | editing the search stores the text and goes to page 1; picking a status or region stores it; Reset restores both to their "all" choices; Prev on page 1 and Next on or past the last page do nothing, and otherwise Prev goes back one page and Next forward one, even from a page past the last; no control takes the page below 1, and only Prev and Next move the page |
| NodesPage.PagingInverse | app/dashboard/nodes/page.tsx:166-168 | Next stays within the page count, and Prev and Next undo each other within range |
| NodesPage.FilterChangeMayEmptyPage | app/dashboard/nodes/page.tsx:206-222 | a status change keeps the page, which then shows nothing if past the last page |
| NodesPage.ResetLeavesSearch | app/dashboard/nodes/page.tsx:188 | after Reset only the search decides what is shown |
| MapPage.AbsentSector | app/dashboard/map/page.tsx:33 | a region no node belongs to has zero tallies |
| MapPage.TallySnoc | app/dashboard/map/page.tsx:33-36 | counting one more node bumps its own sector's tallies only |
| MapPage.CountNode | app/dashboard/map/page.tsx:32-37 | the callback adds a first-seen sector's name and bumps that sector's entry, from zero when new, leaving the other entries alone |
| MapPage.TalliedSnoc | app/dashboard/map/page.tsx:31-38 | one reduce step keeps the dictionary equal to the tallies of the nodes so far |
| MapPage.Aggregate | app/dashboard/map/page.tsx:31-38 | the reduce yields one key per sector in first-seen order, each with its count, online count and storage sum |
| MapPage.CountsSumToTotal | app/dashboard/map/page.tsx:31-38 | the sector counts add up to the number of nodes |
| MapPage.SectorTallyBounds | app/dashboard/map/page.tsx:33-35 | a listed sector holds at least one node, and no more online nodes than nodes |
| MapPage.ProjectNames | app/dashboard/map/page.tsx:40 | the projection keeps the sector names, in order |
| MapPage.ProjectFacts | app/dashboard/map/page.tsx:40-44 | each projected sector carries its tallies, and the counts sum as the tallies do |
| MapPage.NothingFiltered | app/dashboard/map/page.tsx:46 | the final filter removes nothing |
| MapPage.NodesHaveSectors | app/dashboard/map/page.tsx:31-40 | every node's sector is listed |
| MapPage.SectorsFromNodes | app/dashboard/map/page.tsx:31-40 | every listed sector is some node's, and none is listed twice |
| MapPage.RegionalTallies | app/dashboard/map/page.tsx:30-47 | the sectors follow the first-seen names with their tallies, each holds a node, and the counts sum to the node count |
| MapPage.RegionalCoverage | app/dashboard/map/page.tsx:30-47 | the sectors are exactly the nodes' sectors, each once |
| MapPage.ComputeRegionalData | app/dashboard/map/page.tsx:30-47 | `regionalData` has one sector per occurring region with its tallies, names distinct, coverage both ways, counts summing to the node count |
| MapPage.Place | app/dashboard/map/page.tsx:40-44 | a sector keeps its name and tallies; a name in the table gets the table's position and colour, and a name missing from it gets the fallback position and colour |
| MapPage.PlaceFallback | app/dashboard/map/page.tsx:43-44 | "Global Relay", which the table lacks, is drawn at (0, 0) in "#00f2ff"; "Global Node" and the USA sectors take their table entries |
| MapPage.InsertAt | app/dashboard/map/page.tsx:172 | one insertion step places a sector behind all sectors with at least as many nodes, leaving the rest of the array alone |
| Sorting.InsertLastShape | app/dashboard/map/page.tsx:172 | shifting the passed elements right and dropping the new one behind the first with at least its key gives the same sequence as stable insertion |
| MapPage.SortSectors | app/dashboard/map/page.tsx:172 | the in-place sort leaves the array equal to the stable descending sort by count |
| MapPage.SortSectorsCorrect | app/dashboard/map/page.tsx:172 | that sort gives non-increasing counts, the same sectors, and ties in their earlier order |
| LeaderboardPage.Sorted | app/dashboard/leaderboard/page.tsx:25 | the ranking keeps the number of nodes |
| LeaderboardPage.SortedFacts | app/dashboard/leaderboard/page.tsx:25 | the ranking is a permutation in non-increasing credits, stable on ties |
| LeaderboardPage.TopThree | app/dashboard/leaderboard/page.tsx:27-35 | the podium has min(3, n) places |
| LeaderboardPage.TopThreeFacts | app/dashboard/leaderboard/page.tsx:27-30 | podium places are ranked i + 1 with the pubkey and credits of ranked node i, in non-increasing score, and first place has the most credits of all |
| LeaderboardPage.PodiumLabels | app/dashboard/leaderboard/page.tsx:31-33 | uptime reads "99.9%" exactly for an online node; every place takes its colour from its position, yellow, cyan, fuchsia, however many places there are |
| LeaderboardPage.HallOfFame | app/dashboard/leaderboard/page.tsx:37 | the hall has at most twelve rows |
| LeaderboardPage.HallOfFameFacts | app/dashboard/leaderboard/page.tsx:37-111 | the hall holds ranked nodes 4 to 15, row i being ranked node i + 3, and a non-empty hall numbers its first row one past the podium |
| LeaderboardPage.PodiumAndHall | app/dashboard/leaderboard/page.tsx:27-37 | podium and hall together are the first min(n, 15) ranked nodes, the hall scores no higher, and with distinct nodes they are disjoint |
| OverviewPage.ByStorage | app/dashboard/page.tsx:30-31 | the storage ranking keeps the number of nodes |
| OverviewPage.RangeOf | app/dashboard/page.tsx:40-44 | every capacity falls into one of the five ranges |
| OverviewPage.EmptyAnalytics | app/dashboard/page.tsx:27 | no nodes give an empty chart and an empty distribution |
| OverviewPage.TopStorage | app/dashboard/page.tsx:30-36 | the chart has min(10, n) bars |
| OverviewPage.TopStorageBars | app/dashboard/page.tsx:30-36 | bar i shows the label and storage of the i-th node by storage |
| OverviewPage.TopStorageFacts | app/dashboard/page.tsx:30-32 | the chart shows its nodes by non-increasing storage, none left off has more, taken from a permutation of the nodes |
| OverviewPage.Label | app/dashboard/page.tsx:34 | the label is "Unknown" without a pubkey, the first and last four characters of a pubkey of four or more, and a shorter pubkey twice |
| OverviewPage.RangesPartition | app/dashboard/page.tsx:39-45 | each capacity is in exactly one range, and the ranges ascend |
| OverviewPage.RangesCoverAll | app/dashboard/page.tsx:40-44 | the range counts add up to the number of nodes |
| OverviewPage.Distribution | app/dashboard/page.tsx:39-45 | no ranges for no nodes, otherwise the five ranges in ascending order |
| OverviewPage.DistributionFacts | app/dashboard/page.tsx:39-45 | for a non-empty list the five range counts sum to the number of nodes |

## Left out

- Network I/O is not modelled: the JSON-RPC calls to the seeds, their timeouts, `fetch('/api/pnodes')` and the `NextResponse` wrapper. Seed results and store outcomes are inputs.
- The concurrency of `Promise.allSettled` is not modelled. Only the per-seed list of settled results matters, in seed order.
- Randomness is not modelled.
  - The random `latency` is not part of the record.
  - Route.RankedWinners: states the risk score only for offline nodes, because an online node's score is random.
  - The gossip page's generated log is not part of this model.
- Floating point is not modelled: `formatBytes`, `formatStorage`, the gigabyte `capacity` of a chart bar, percentage strings and glow styles.
  - OverviewPage.TopStorageFacts: states each bar's storage in bytes, because the chart's value is a rounded float in gigabytes.
  - MapPage.ComputeRegionalData: does not model the `percentage` string, which is a float computation.
  - The radar's coordinates are kept as exact reals.
  - Store.TotalStorage, Store.TotalUsed and MapPage.Aggregate sum exact integers. The source adds JavaScript doubles, which lose integer precision once a running sum exceeds 2^53 bytes.
- Timers and clocks are not modelled: the 15-second refresh and `Date.now()`, which is a parameter.
- JavaScript coercion is not modelled (`Number(undefined)`, `NaN` in comparisons, strings in numeric fields). Every field is an integer or a string with its default.
- Case mapping covers ASCII letters only, not full Unicode.
- Object key order is not modelled for integer-like region names, which `Object.keys` would list first. Inherited keys such as "constructor" are also not modelled, since `acc[r]` would find them on the prototype. The model assumes region names are ordinary strings.
- The `pubkey` detail route, the gossip page, the sidebar, the layouts and all rendering, animation and styling are not part of this model.
- The filter dialog's open/closed state is left out, since it does not change what is shown.
