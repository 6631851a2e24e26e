/**
 * The `/api/pnodes` route: merges the pod lists of all seeds into one record per
 * pubkey (the freshest observation wins), derives region and liveness, sorts by
 * credits and assigns ranks.
 *
 * The JavaScript `Map` keyed by pubkey is modelled as `MergeState`: the keys in
 * insertion order plus a map from key to record. `set` on a key that is already
 * present replaces its record and keeps its position, as a `Map` does.
 */
module Route {

  import opened Wrappers
  import opened Prpc
  import Strings
  import Seqs
  import Sorting

  // ---------------------------------------------------------------------------
  // Region from IP prefix

  const GlobalRelay: string := "Global Relay"
  const Germany: string := "Germany, EU"
  const Usa: string := "USA, North America"
  const London: string := "London, UK"
  const GlobalNode: string := "Global Node"

  /** The prefix rules, in the order they are tried, each with its region. */
  const RegionRules: seq<(seq<string>, string)> := [
    (["173.212", "161.97", "5.189"], Germany),
    (["192.190", "207.244", "31.220"], Usa),
    (["45.151", "147.93"], London)
  ]

  /** Reference definition: the region of the first rule with a prefix of `ip`, or
      the generic label when no rule matches. */
  ghost function FirstMatch(rules: seq<(seq<string>, string)>, ip: string): string {
    if rules == [] then GlobalNode
    else if StartsWithAny(ip, rules[0].0) then rules[0].1
    else FirstMatch(rules[1..], ip)
  }

  ghost predicate StartsWithAny(ip: string, prefixes: seq<string>) {
    prefixes != [] && (Strings.StartsWith(ip, prefixes[0]) || StartsWithAny(ip, prefixes[1..]))
  }

  /** `getRegionFromIP`. */
  function RegionFromIp(ip: string): (r: string)
    ensures r in [GlobalRelay, Germany, Usa, London, GlobalNode]
    ensures r == GlobalRelay <==> ip == []
  {
    if ip == [] then GlobalRelay
    else if Strings.StartsWith(ip, "173.212")
         || Strings.StartsWith(ip, "161.97")
         || Strings.StartsWith(ip, "5.189") then Germany
    else if Strings.StartsWith(ip, "192.190")
         || Strings.StartsWith(ip, "207.244")
         || Strings.StartsWith(ip, "31.220") then Usa
    else if Strings.StartsWith(ip, "45.151") || Strings.StartsWith(ip, "147.93") then London
    else GlobalNode
  }

  /** The if-chain of `getRegionFromIP` is a first-match lookup in `RegionRules`:
      the rules are tried in order and the first matching prefix decides. */
  lemma RegionFromIpIsFirstMatch(ip: string)
    requires ip != []
    ensures RegionFromIp(ip) == FirstMatch(RegionRules, ip)
  {
    var rules := RegionRules;
    assert rules[1..] == [rules[1], rules[2]] && rules[1..][1..] == [rules[2]] && rules[1..][1..][1..] == [];
    assert FirstMatch(rules, ip) == if StartsWithAny(ip, rules[0].0) then Germany else FirstMatch(rules[1..], ip);
    assert FirstMatch(rules[1..], ip) == if StartsWithAny(ip, rules[1].0) then Usa else FirstMatch(rules[1..][1..], ip);
    assert FirstMatch(rules[1..][1..], ip) == if StartsWithAny(ip, rules[2].0) then London else FirstMatch(rules[1..][1..][1..], ip);
    StartsWithAny3(ip, "173.212", "161.97", "5.189");
    StartsWithAny3(ip, "192.190", "207.244", "31.220");
    StartsWithAny2(ip, "45.151", "147.93");
  }

  lemma StartsWithAny2(ip: string, a: string, b: string)
    ensures StartsWithAny(ip, [a, b]) <==> Strings.StartsWith(ip, a) || Strings.StartsWith(ip, b)
  {
    assert [a, b][1..] == [b] && [b][1..] == [];
    assert StartsWithAny(ip, [b]) <==> Strings.StartsWith(ip, b) || StartsWithAny(ip, []);
  }

  lemma StartsWithAny3(ip: string, a: string, b: string, c: string)
    ensures StartsWithAny(ip, [a, b, c]) <==>
      Strings.StartsWith(ip, a) || Strings.StartsWith(ip, b) || Strings.StartsWith(ip, c)
  {
    assert [a, b, c][1..] == [b, c];
    StartsWithAny2(ip, b, c);
  }

  /** Every default seed lies in a Germany or a USA prefix. */
  lemma DefaultSeedsHaveRegions()
    ensures forall i :: 0 <= i < |DefaultSeedIps| ==>
      RegionFromIp(DefaultSeedIps[i]) == Germany || RegionFromIp(DefaultSeedIps[i]) == Usa
  {
  }

  // ---------------------------------------------------------------------------
  // Liveness

  datatype Status = Online | Offline

  /** A node seen within this many milliseconds before `now` is online. */
  const LivenessWindowMs: int := 300_000

  function StatusAt(now: int, lastSeen: int): Status {
    if now - lastSeen <= LivenessWindowMs then Online else Offline
  }

  /** The window includes its boundary; one millisecond older is offline, and a
      fresher timestamp never turns an online node offline. */
  lemma StatusBoundary(now: int, lastSeen: int, fresher: int)
    requires lastSeen <= fresher
    ensures StatusAt(now, now - LivenessWindowMs) == Online
    ensures StatusAt(now, now - LivenessWindowMs - 1) == Offline
    ensures StatusAt(now, lastSeen) == Online ==> StatusAt(now, fresher) == Online
  {
  }

  // ---------------------------------------------------------------------------
  // One record per pubkey

  const DefaultVersion: string := "0.8.0"

  /** The merged record for one node (the random `latency` is left out). */
  datatype Record = Record(
    pubkey: string,
    address: Option<string>,
    version: string,
    storageCapacity: int,
    storageUsed: int,
    credits: int,
    uptime: int,
    packetsIn: int,
    packetsOut: int,
    lastSeen: int,
    region: string,
    status: Status)

  /** The merge key of a pod; a missing or empty pubkey has none. */
  function Key(pod: Pod): Option<string> {
    if pod.pubkey.Some? && pod.pubkey.value != [] then pod.pubkey else None
  }

  /** The pod's timestamp in milliseconds. */
  function Millis(pod: Pod): int {
    ToMillisMaybe(pod.lastSeenTimestamp)
  }

  /** `Number(x || 0)`. */
  function OrZero(x: Option<int>): int {
    x.GetOr(0)
  }

  /** The IP part of the address, or "" when the address is missing. */
  function IpOf(pod: Pod): string {
    if pod.address.Some? then Strings.HostPart(pod.address.value) else []
  }

  /** The record the route builds from a pod with merge key `key`: missing numbers
      become 0, a missing or empty version the default, a missing address the region
      "Global Relay", and liveness is judged on the normalised timestamp. */
  function MakeRecord(pod: Pod, key: string, now: int): (r: Record)
    ensures pod.storageCommitted == None ==> r.storageCapacity == 0
    ensures pod.storageUsed == None ==> r.storageUsed == 0
    ensures pod.credits == None ==> r.credits == 0
    ensures pod.uptime == None ==> r.uptime == 0
    ensures pod.packetsReceived == None ==> r.packetsIn == 0
    ensures pod.packetsSent == None ==> r.packetsOut == 0
    ensures pod.version == None || pod.version == Some([]) ==> r.version == DefaultVersion
    // a value the pod does report is copied as is
    ensures pod.storageCommitted.Some? ==> r.storageCapacity == pod.storageCommitted.value
    ensures pod.storageUsed.Some? ==> r.storageUsed == pod.storageUsed.value
    ensures pod.credits.Some? ==> r.credits == pod.credits.value
    ensures pod.uptime.Some? ==> r.uptime == pod.uptime.value
    ensures pod.packetsReceived.Some? ==> r.packetsIn == pod.packetsReceived.value
    ensures pod.packetsSent.Some? ==> r.packetsOut == pod.packetsSent.value
    ensures pod.version.Some? && pod.version.value != [] ==> r.version == pod.version.value
    ensures r.address == pod.address
    ensures pod.address == None ==> r.region == GlobalRelay
    ensures pod.address.Some? ==> r.region == RegionFromIp(Strings.HostPart(pod.address.value))
    ensures r.status == Online <==> now - Millis(pod) <= LivenessWindowMs
    ensures r.pubkey == key && r.lastSeen == Millis(pod)
  {
    Record(
      key,
      pod.address,
      if pod.version.Some? && pod.version.value != [] then pod.version.value else DefaultVersion,
      OrZero(pod.storageCommitted),
      OrZero(pod.storageUsed),
      OrZero(pod.credits),
      OrZero(pod.uptime),
      OrZero(pod.packetsReceived),
      OrZero(pod.packetsSent),
      Millis(pod),
      RegionFromIp(IpOf(pod)),
      StatusAt(now, Millis(pod)))
  }

  /** The region is taken from the text before the first ':' of the address. */
  lemma RegionFromHost(pod: Pod, key: string, now: int, host: string, port: string)
    requires pod.address == Some(host + ":" + port) && ':' !in host
    ensures MakeRecord(pod, key, now).region == RegionFromIp(host)
  {
    Strings.HostPartOfHostPort(host, port);
  }

  /** An address without a ':' is looked up whole, the empty address included. */
  lemma RegionFromWholeAddress(pod: Pod, key: string, now: int)
    requires pod.address.Some? && ':' !in pod.address.value
    ensures MakeRecord(pod, key, now).region == RegionFromIp(pod.address.value)
    ensures pod.address == Some([]) ==> MakeRecord(pod, key, now).region == GlobalRelay
  {
    var a := pod.address.value;
    assert Strings.HostPart(a) == a;
  }

  /** The keys of the observations that have one, in observation order. */
  function Keys(obs: seq<Pod>): seq<string> {
    if obs == [] then []
    else Keys(obs[..|obs| - 1]) + (if Key(obs[|obs| - 1]).Some? then [Key(obs[|obs| - 1]).value] else [])
  }

  lemma {:induction false} KeysIff(obs: seq<Pod>)
    ensures forall k :: k in Keys(obs) <==> exists j :: 0 <= j < |obs| && Key(obs[j]) == Some(k)
  {
    if obs != [] {
      KeysIff(obs[..|obs| - 1]);
    }
  }

  // ---------------------------------------------------------------------------
  // The merge

  /** The route's `Map` from pubkey to record: keys in insertion order, and records. */
  datatype MergeState = MergeState(order: seq<string>, byPubkey: map<string, Record>)

  /** What the route does with one pod: a keyless pod changes nothing; otherwise only
      the pod's own key may be added, at the end of the order, or have its record
      replaced, and no record ever becomes older. */
  function Step(st: MergeState, pod: Pod, now: int): (r: MergeState)
    ensures Key(pod).None? ==> r == st
    ensures r.order == st.order
         || (Key(pod).Some? && Key(pod).value !in st.byPubkey && r.order == st.order + [Key(pod).value])
    ensures forall k :: k in r.byPubkey <==> k in st.byPubkey || Key(pod) == Some(k)
    ensures forall k :: k in st.byPubkey && Key(pod) != Some(k) ==> r.byPubkey[k] == st.byPubkey[k]
    ensures forall k :: k in st.byPubkey ==> r.byPubkey[k].lastSeen >= st.byPubkey[k].lastSeen
  {
    match Key(pod)
    case None => st
    case Some(k) =>
      var rec := MakeRecord(pod, k, now);
      if k !in st.byPubkey then MergeState(st.order + [k], st.byPubkey[k := rec])
      else if st.byPubkey[k].lastSeen < rec.lastSeen then MergeState(st.order, st.byPubkey[k := rec])
      else st
  }

  function FoldFrom(st: MergeState, obs: seq<Pod>, now: int): MergeState {
    if obs == [] then st else Step(FoldFrom(st, obs[..|obs| - 1], now), obs[|obs| - 1], now)
  }

  /** The state after all observations, starting from an empty `Map`. */
  function Fold(obs: seq<Pod>, now: int): MergeState {
    FoldFrom(MergeState([], map[]), obs, now)
  }

  /** The pods of a seed result; a rejected seed or one without `pods` has none. */
  function PodsOf(result: Option<seq<Pod>>): seq<Pod> {
    result.GetOr([])
  }

  /** All observations, seed by seed in polling order, pod by pod. */
  function Observations(results: seq<Option<seq<Pod>>>): seq<Pod> {
    if results == [] then []
    else Observations(results[..|results| - 1]) + PodsOf(results[|results| - 1])
  }

  /** The body of the inner loop: `get` the pod's key and `set` its record when the
      key is new or the pod is fresher. */
  method Observe(order: seq<string>, byPubkey: map<string, Record>, pod: Pod, now: int)
    returns (order': seq<string>, byPubkey': map<string, Record>)
    ensures MergeState(order', byPubkey') == Step(MergeState(order, byPubkey), pod, now)
  {
    order', byPubkey' := order, byPubkey;
    var key := Key(pod);
    if key.Some? {
      var k := key.value;
      var lastSeenMs := ToMillisMaybe(pod.lastSeenTimestamp);
      if k !in byPubkey || byPubkey[k].lastSeen < lastSeenMs {
        if k !in byPubkey {
          order' := order + [k];
        }
        byPubkey' := byPubkey[k := MakeRecord(pod, k, now)];
      }
    }
  }

  /** The inner loop: every pod of one seed, in order. */
  method MergeSeed(order: seq<string>, byPubkey: map<string, Record>, pods: seq<Pod>, now: int)
    returns (order': seq<string>, byPubkey': map<string, Record>)
    ensures MergeState(order', byPubkey') == FoldFrom(MergeState(order, byPubkey), pods, now)
  {
    order', byPubkey' := order, byPubkey;
    var p := 0;
    while p < |pods|
      invariant 0 <= p <= |pods|
      invariant MergeState(order', byPubkey') == FoldFrom(MergeState(order, byPubkey), pods[..p], now)
    {
      assert pods[..p + 1][..p] == pods[..p];
      order', byPubkey' := Observe(order', byPubkey', pods[p], now);
      p := p + 1;
    }
    assert pods[..p] == pods;
  }

  /** The merge body of `GET`: two nested loops doing `get`/`set` on the `Map`. */
  method Merge(results: seq<Option<seq<Pod>>>, now: int) returns (order: seq<string>, byPubkey: map<string, Record>)
    ensures MergeState(order, byPubkey) == Fold(Observations(results), now)
  {
    order, byPubkey := [], map[];
    var s := 0;
    while s < |results|
      invariant 0 <= s <= |results|
      invariant MergeState(order, byPubkey) == Fold(Observations(results[..s]), now)
    {
      ghost var before := Observations(results[..s]);
      assert results[..s + 1][..s] == results[..s];
      assert Observations(results[..s + 1]) == before + PodsOf(results[s]);
      if results[s].Some? {
        order, byPubkey := MergeSeed(order, byPubkey, results[s].value, now);
        FoldFromAppend(MergeState([], map[]), before, results[s].value, now);
      } else {
        assert before + PodsOf(results[s]) == before;
      }
      s := s + 1;
    }
    assert results[..s] == results;
  }

  /** A step files every record under its own pubkey if the `Map` did before. */
  lemma StepOwnKeys(st: MergeState, pod: Pod, now: int)
    requires forall k :: k in st.byPubkey ==> st.byPubkey[k].pubkey == k
    ensures forall k :: k in Step(st, pod, now).byPubkey ==> Step(st, pod, now).byPubkey[k].pubkey == k
  {
    if Key(pod).Some? {
      assert MakeRecord(pod, Key(pod).value, now).pubkey == Key(pod).value;
    }
  }

  /** The `Map` holds one entry per distinct key, in the order each key was first
      observed, and each record carries its own key. */
  lemma {:induction false} FoldShape(obs: seq<Pod>, now: int)
    ensures Fold(obs, now).order == Seqs.Dedup(Keys(obs))
    ensures forall k :: k in Fold(obs, now).byPubkey <==> k in Keys(obs)
    ensures forall k :: k in Fold(obs, now).byPubkey ==> Fold(obs, now).byPubkey[k].pubkey == k
  {
    if obs != [] {
      var pre, p := obs[..|obs| - 1], obs[|obs| - 1];
      FoldShape(pre, now);
      Seqs.DedupFacts(Keys(pre));
      var st := Fold(pre, now);
      assert Fold(obs, now) == Step(st, p, now);
      StepOwnKeys(st, p, now);
      match Key(p)
      case None =>
        assert Keys(obs) == Keys(pre);
      case Some(k) =>
        assert Keys(obs) == Keys(pre) + [k];
        assert Keys(obs)[..|Keys(obs)| - 1] == Keys(pre);
    }
  }

  /** Observation `i` is the one the merge keeps for key `k`: it has the greatest
      normalised timestamp among the observations of `k`, and is the first of them
      to have it. */
  ghost predicate Winner(obs: seq<Pod>, k: string, i: int) {
    && 0 <= i < |obs| && Key(obs[i]) == Some(k)
    && (forall j :: 0 <= j < |obs| && Key(obs[j]) == Some(k) ==> Millis(obs[j]) <= Millis(obs[i]))
    && (forall j :: 0 <= j < i && Key(obs[j]) == Some(k) ==> Millis(obs[j]) < Millis(obs[i]))
  }

  /** A later observation that does not beat the current winner leaves it winning. */
  lemma WinnerKept(pre: seq<Pod>, p: Pod, k: string, i: int)
    requires Winner(pre, k, i)
    requires Key(p) != Some(k) || Millis(p) <= Millis(pre[i])
    ensures Winner(pre + [p], k, i)
  {
    var obs := pre + [p];
    assert forall j :: 0 <= j < |pre| ==> obs[j] == pre[j];
  }

  /** A later observation strictly fresher than every earlier one of its key wins. */
  lemma WinnerNew(pre: seq<Pod>, p: Pod, k: string)
    requires Key(p) == Some(k)
    requires forall j :: 0 <= j < |pre| && Key(pre[j]) == Some(k) ==> Millis(pre[j]) < Millis(p)
    ensures Winner(pre + [p], k, |pre|)
  {
    var obs := pre + [p];
    assert forall j :: 0 <= j < |pre| ==> obs[j] == pre[j];
  }

  /** Freshest wins, first on a tie: every record is built from the winning
      observation of its key. */
  lemma {:induction false} FoldWinners(obs: seq<Pod>, now: int)
    ensures forall k :: k in Fold(obs, now).byPubkey ==>
      exists i :: Winner(obs, k, i) && Fold(obs, now).byPubkey[k] == MakeRecord(obs[i], k, now)
  {
    if obs != [] {
      var pre, p := obs[..|obs| - 1], obs[|obs| - 1];
      assert obs == pre + [p];
      FoldWinners(pre, now);
      FoldShape(pre, now);
      KeysIff(pre);
      var m, m' := Fold(pre, now).byPubkey, Fold(obs, now).byPubkey;
      assert Fold(obs, now) == Step(Fold(pre, now), p, now);
      forall k | k in m'
        ensures exists i :: Winner(obs, k, i) && m'[k] == MakeRecord(obs[i], k, now)
      {
        if Key(p) == Some(k) {
          if k !in m {
            WinnerNew(pre, p, k);
            assert m'[k] == MakeRecord(obs[|obs| - 1], k, now);
          } else {
            var i :| Winner(pre, k, i) && m[k] == MakeRecord(pre[i], k, now);
            if m[k].lastSeen < Millis(p) {
              WinnerNew(pre, p, k);
              assert m'[k] == MakeRecord(obs[|obs| - 1], k, now);
            } else {
              WinnerKept(pre, p, k, i);
              assert m'[k] == MakeRecord(obs[i], k, now);
            }
          }
        } else {
          assert k in m && m'[k] == m[k];
          var i :| Winner(pre, k, i) && m[k] == MakeRecord(pre[i], k, now);
          WinnerKept(pre, p, k, i);
          assert m'[k] == MakeRecord(obs[i], k, now);
        }
      }
    }
  }

  lemma {:induction false} FoldFromAppend(st: MergeState, a: seq<Pod>, b: seq<Pod>, now: int)
    ensures FoldFrom(st, a + b, now) == FoldFrom(FoldFrom(st, a, now), b, now)
  {
    if b == [] {
      assert a + b == a;
    } else {
      assert (a + b)[..|a + b| - 1] == a + b[..|b| - 1];
      FoldFromAppend(st, a, b[..|b| - 1], now);
    }
  }

  /** Observations that are no fresher than what the `Map` already holds for their
      key change nothing. */
  lemma {:induction false} FoldFromDominated(st: MergeState, extra: seq<Pod>, now: int)
    requires forall j :: 0 <= j < |extra| && Key(extra[j]).Some? ==>
      Key(extra[j]).value in st.byPubkey && Millis(extra[j]) <= st.byPubkey[Key(extra[j]).value].lastSeen
    ensures FoldFrom(st, extra, now) == st
  {
    if extra != [] {
      FoldFromDominated(st, extra[..|extra| - 1], now);
    }
  }

  lemma {:induction false} ObservationsAppend(a: seq<Option<seq<Pod>>>, b: seq<Option<seq<Pod>>>)
    ensures Observations(a + b) == Observations(a) + Observations(b)
  {
    if b == [] {
      assert a + b == a;
    } else {
      assert (a + b)[..|a + b| - 1] == a + b[..|b| - 1];
      ObservationsAppend(a, b[..|b| - 1]);
    }
  }

  /** After the merge, every keyed observation is no fresher than the record filed
      under its key. */
  lemma FoldDominates(obs: seq<Pod>, now: int)
    ensures forall j :: 0 <= j < |obs| && Key(obs[j]).Some? ==>
      Key(obs[j]).value in Fold(obs, now).byPubkey
      && Millis(obs[j]) <= Fold(obs, now).byPubkey[Key(obs[j]).value].lastSeen
  {
    FoldShape(obs, now);
    FoldWinners(obs, now);
    KeysIff(obs);
    var st := Fold(obs, now);
    forall j | 0 <= j < |obs| && Key(obs[j]).Some?
      ensures Key(obs[j]).value in st.byPubkey && Millis(obs[j]) <= st.byPubkey[Key(obs[j]).value].lastSeen
    {
      var k := Key(obs[j]).value;
      assert k in st.byPubkey;
      var i :| Winner(obs, k, i) && st.byPubkey[k] == MakeRecord(obs[i], k, now);
      assert st.byPubkey[k].lastSeen == Millis(obs[i]);
    }
  }

  /** Merging the same seed results twice gives the same records in the same order
      as merging them once: nothing accumulates. */
  lemma MergeIdempotent(results: seq<Option<seq<Pod>>>, now: int)
    ensures Fold(Observations(results + results), now) == Fold(Observations(results), now)
  {
    var obs := Observations(results);
    ObservationsAppend(results, results);
    FoldFromAppend(MergeState([], map[]), obs, obs, now);
    FoldDominates(obs, now);
    FoldFromDominated(Fold(obs, now), obs, now);
  }

  // ---------------------------------------------------------------------------
  // Sort and rank

  /** A ranked node as the route returns it. `riskScore` is 85 for an offline node;
      for an online node the route draws a random value, which is not modelled
      (`None`). */
  datatype PNode = PNode(record: Record, rank: int, riskScore: Option<int>)

  const OfflineRisk: int := 85

  function Credits(r: Record): int {
    r.credits
  }

  /** `Array.from(byPubkey.values())`: the records in insertion order. */
  function Values(st: MergeState): (vs: seq<Record>)
    requires forall k :: k in st.order ==> k in st.byPubkey
    ensures |vs| == |st.order|
    ensures forall i :: 0 <= i < |vs| ==> vs[i] == st.byPubkey[st.order[i]]
  {
    seq(|st.order|, i requires 0 <= i < |st.order| => st.byPubkey[st.order[i]])
  }

  /** The records of the merge, in the order their keys were first observed. */
  function MergedValues(obs: seq<Pod>, now: int): (vs: seq<Record>)
    ensures |vs| == |Seqs.Dedup(Keys(obs))|
    ensures forall i :: 0 <= i < |vs| ==> vs[i].pubkey == Seqs.Dedup(Keys(obs))[i]
  {
    FoldShape(obs, now);
    Seqs.DedupFacts(Keys(obs));
    Values(Fold(obs, now))
  }

  /** `sortedNodes.map((node, index) => ({...node, rank: index + 1, riskScore}))`. */
  function Rank(sorted: seq<Record>): (r: seq<PNode>)
    ensures |r| == |sorted|
    ensures forall i :: 0 <= i < |r| ==> r[i].record == sorted[i] && r[i].rank == i + 1
    ensures forall i :: 0 <= i < |r| ==> (r[i].riskScore == Some(OfflineRisk) <== sorted[i].status == Offline)
  {
    seq(|sorted|, i requires 0 <= i < |sorted| =>
      PNode(sorted[i], i + 1, if sorted[i].status == Online then None else Some(OfflineRisk)))
  }

  function Records(pnodes: seq<PNode>): (rs: seq<Record>)
    ensures |rs| == |pnodes| && forall i :: 0 <= i < |pnodes| ==> rs[i] == pnodes[i].record
  {
    seq(|pnodes|, i requires 0 <= i < |pnodes| => pnodes[i].record)
  }

  /** Each merged record carries a key some observation has, and is built from the
      winning observation of that key. */
  lemma MergedRecord(obs: seq<Pod>, now: int, r: Record)
    requires r in MergedValues(obs, now)
    ensures r.pubkey in Keys(obs)
    ensures exists w :: Winner(obs, r.pubkey, w) && r == MakeRecord(obs[w], r.pubkey, now)
  {
    FoldShape(obs, now);
    FoldWinners(obs, now);
    Seqs.DedupFacts(Keys(obs));
    var vs := MergedValues(obs, now);
    var i :| 0 <= i < |vs| && vs[i] == r;
    var k := Seqs.Dedup(Keys(obs))[i];
    assert vs[i] == Fold(obs, now).byPubkey[k];
  }

  /** The credit order holds one record per distinct key. */
  lemma SortedMergeDistinct(obs: seq<Pod>, now: int)
    ensures var sorted := Sorting.SortDesc(Credits, MergedValues(obs, now));
      forall i, j :: 0 <= i < j < |sorted| ==> sorted[i].pubkey != sorted[j].pubkey
  {
    var vs := MergedValues(obs, now);
    var sorted := Sorting.SortDesc(Credits, vs);
    Sorting.SortDescCorrect(Credits, vs);
    Seqs.DedupFacts(Keys(obs));
    assert Seqs.Distinct(vs) by {
      forall i, j | 0 <= i < j < |vs| ensures vs[i] != vs[j] {
        assert vs[i].pubkey != vs[j].pubkey;
      }
    }
    Seqs.DistinctPermutation(vs, sorted);
    forall i, j | 0 <= i < j < |sorted|
      ensures sorted[i].pubkey != sorted[j].pubkey
    {
      assert sorted[i] in multiset(vs) && sorted[j] in multiset(vs);
      var a :| 0 <= a < |vs| && vs[a] == sorted[i];
      var b :| 0 <= b < |vs| && vs[b] == sorted[j];
      assert a != b;
    }
  }

  /** Every key that some observation carries has its record in the credit order. */
  lemma SortedMergeCovers(obs: seq<Pod>, now: int)
    ensures var sorted := Sorting.SortDesc(Credits, MergedValues(obs, now));
      forall k :: k in Keys(obs) <==> exists i :: 0 <= i < |sorted| && sorted[i].pubkey == k
  {
    var vs := MergedValues(obs, now);
    var sorted := Sorting.SortDesc(Credits, vs);
    Sorting.SortDescCorrect(Credits, vs);
    Seqs.DedupFacts(Keys(obs));
    forall k
      ensures k in Keys(obs) <==> exists i :: 0 <= i < |sorted| && sorted[i].pubkey == k
    {
      if k in Keys(obs) {
        var a :| 0 <= a < |vs| && Seqs.Dedup(Keys(obs))[a] == k;
        assert vs[a] in multiset(sorted);
        var i :| 0 <= i < |sorted| && sorted[i] == vs[a];
      }
      if exists i :: 0 <= i < |sorted| && sorted[i].pubkey == k {
        var i :| 0 <= i < |sorted| && sorted[i].pubkey == k;
        assert sorted[i] in multiset(vs);
        MergedRecord(obs, now, sorted[i]);
      }
    }
  }

  /** The ranked list the route answers with, for the observations in seed order. */
  function Ranked(obs: seq<Pod>, now: int): seq<PNode> {
    Rank(Sorting.SortDesc(Credits, MergedValues(obs, now)))
  }

  /** Ranks are exactly 1..n in order of non-increasing credits; the records are those
      of the merge, and records with equal credits keep first-seen order. */
  lemma RankedOrder(obs: seq<Pod>, now: int)
    ensures var pnodes := Ranked(obs, now);
      && (forall i :: 0 <= i < |pnodes| ==> pnodes[i].rank == i + 1)
      && (forall i, j :: 0 <= i < j < |pnodes| ==> pnodes[i].record.credits >= pnodes[j].record.credits)
      && multiset(Records(pnodes)) == multiset(MergedValues(obs, now))
      && (forall c :: Sorting.WithKey(Credits, Records(pnodes), c)
                   == Sorting.WithKey(Credits, MergedValues(obs, now), c))
  {
    var sorted := Sorting.SortDesc(Credits, MergedValues(obs, now));
    Sorting.SortDescCorrect(Credits, MergedValues(obs, now));
    var pnodes := Ranked(obs, now);
    assert Records(pnodes) == sorted;
    forall i, j | 0 <= i < j < |pnodes|
      ensures pnodes[i].record.credits >= pnodes[j].record.credits
    {
      assert Credits(sorted[i]) >= Credits(sorted[j]);
    }
  }

  /** One entry per distinct pubkey that some observation carries. */
  lemma RankedKeys(obs: seq<Pod>, now: int)
    ensures var pnodes := Ranked(obs, now);
      && (forall i, j :: 0 <= i < j < |pnodes| ==> pnodes[i].record.pubkey != pnodes[j].record.pubkey)
      && (forall k :: k in Keys(obs) <==> exists i :: 0 <= i < |pnodes| && pnodes[i].record.pubkey == k)
  {
    var sorted := Sorting.SortDesc(Credits, MergedValues(obs, now));
    SortedMergeDistinct(obs, now);
    SortedMergeCovers(obs, now);
    var pnodes := Ranked(obs, now);
    forall i, j | 0 <= i < j < |pnodes| ensures pnodes[i].record.pubkey != pnodes[j].record.pubkey {
      assert pnodes[i].record == sorted[i] && pnodes[j].record == sorted[j];
    }
    forall k
      ensures k in Keys(obs) <==> exists i :: 0 <= i < |pnodes| && pnodes[i].record.pubkey == k
    {
      if k in Keys(obs) {
        var i :| 0 <= i < |sorted| && sorted[i].pubkey == k;
        assert pnodes[i].record == sorted[i];
      }
      if exists i :: 0 <= i < |pnodes| && pnodes[i].record.pubkey == k {
        var i :| 0 <= i < |pnodes| && pnodes[i].record.pubkey == k;
        assert sorted[i].pubkey == k;
      }
    }
  }

  /** Each entry is built from the freshest observation of its pubkey, the first one
      on a tie, and an offline entry carries the fixed risk score. */
  lemma RankedWinners(obs: seq<Pod>, now: int)
    ensures var pnodes := Ranked(obs, now);
      && (forall i :: 0 <= i < |pnodes| ==>
            exists w :: Winner(obs, pnodes[i].record.pubkey, w)
                     && pnodes[i].record == MakeRecord(obs[w], pnodes[i].record.pubkey, now))
      && (forall i :: 0 <= i < |pnodes| && pnodes[i].record.status == Offline ==>
            pnodes[i].riskScore == Some(OfflineRisk))
  {
    var values := MergedValues(obs, now);
    var sorted := Sorting.SortDesc(Credits, values);
    Sorting.SortDescCorrect(Credits, values);
    var pnodes := Ranked(obs, now);
    forall i | 0 <= i < |pnodes|
      ensures exists w :: Winner(obs, pnodes[i].record.pubkey, w)
                        && pnodes[i].record == MakeRecord(obs[w], pnodes[i].record.pubkey, now)
    {
      assert pnodes[i].record == sorted[i];
      assert sorted[i] in multiset(values);
      MergedRecord(obs, now, sorted[i]);
    }
  }

  /** The whole route body between the seed responses and the HTTP response. */
  method Get(results: seq<Option<seq<Pod>>>, now: int) returns (pnodes: seq<PNode>)
    ensures pnodes == Ranked(Observations(results), now)
  {
    var order, byPubkey := Merge(results, now);
    ghost var obs := Observations(results);
    FoldShape(obs, now);
    Seqs.DedupFacts(Keys(obs));
    var values := seq(|order|, i requires 0 <= i < |order| => byPubkey[order[i]]);
    assert values == MergedValues(obs, now);
    var sorted := Sorting.SortDesc(Credits, values);
    pnodes := Rank(sorted);
  }

  /** When every seed fails, answers without pods or answers with an empty pod list,
      the route still succeeds, with no nodes. */
  lemma {:induction false} AllSeedsFailed(results: seq<Option<seq<Pod>>>, now: int)
    requires forall i :: 0 <= i < |results| ==> PodsOf(results[i]) == []
    ensures Observations(results) == []
    ensures MergedValues(Observations(results), now) == []
    ensures Ranked(Observations(results), now) == []
  {
    if results != [] {
      AllSeedsFailed(results[..|results| - 1], now);
    }
  }

  /** Pods without a pubkey contribute nothing, wherever they stand. */
  lemma {:induction false} KeylessIgnored(a: seq<Pod>, pod: Pod, b: seq<Pod>, now: int)
    requires Key(pod) == None
    ensures Fold(a + [pod] + b, now) == Fold(a + b, now)
  {
    FoldFromAppend(MergeState([], map[]), a + [pod], b, now);
    FoldFromAppend(MergeState([], map[]), a, b, now);
    assert (a + [pod])[..|a|] == a;
  }
}
