/**
 * The seed-node client: the shape of a pod as a seed reports it, the fixed list of
 * seed addresses, and the timestamp normalisation `toMillisMaybe`.
 */
module Prpc {

  import opened Wrappers

  /** One pod as a seed reports it. Every property but the timestamp may be missing.
      `credits` and the packet counters are not declared on the TypeScript interface
      but the route reads them from the untyped response. */
  datatype Pod = Pod(
    address: Option<string>,
    lastSeenTimestamp: int,
    pubkey: Option<string>,
    storageCommitted: Option<int>,
    storageUsed: Option<int>,
    uptime: Option<int>,
    version: Option<string>,
    credits: Option<int>,
    packetsReceived: Option<int>,
    packetsSent: Option<int>)

  /** The seed nodes that are polled, in polling order. */
  const DefaultSeedIps: seq<string> := [
    "173.212.220.65",
    "161.97.97.41",
    "192.190.136.36",
    "192.190.136.38",
    "207.244.255.1",
    "192.190.136.28",
    "192.190.136.29",
    "173.212.203.145"
  ]

  /** Timestamps above this are taken to be milliseconds already. */
  const MillisThreshold: int := 10_000_000_000

  /** Normalises a timestamp that may be in seconds or in milliseconds. */
  function ToMillisMaybe(ts: int): (r: int)
    ensures ts >= 0 ==> r >= ts
  {
    if ts > MillisThreshold then ts else ts * 1000
  }

  /** There are eight seeds, no two alike. */
  lemma DefaultSeedsDistinct()
    ensures |DefaultSeedIps| == 8
    ensures forall i, j :: 0 <= i < j < |DefaultSeedIps| ==> DefaultSeedIps[i] != DefaultSeedIps[j]
  {
  }

  /** A timestamp above the threshold is already in milliseconds and is kept. */
  lemma ToMillisKeepsMillis(ts: int)
    requires ts > MillisThreshold
    ensures ToMillisMaybe(ts) == ts
  {
  }

  /** A timestamp up to and including the threshold is read as seconds. */
  lemma ToMillisScalesSeconds(ts: int)
    requires ts <= MillisThreshold
    ensures ToMillisMaybe(ts) == ts * 1000
    ensures ToMillisMaybe(1_700_000_000) == 1_700_000_000_000
    ensures ToMillisMaybe(1_700_000_000_000) == 1_700_000_000_000
    ensures ToMillisMaybe(MillisThreshold) == MillisThreshold * 1000
  {
  }

  /** Normalising twice gives the same as normalising once exactly when the first
      result is above the threshold, which is when `ts` exceeds 10^7, or when `ts` is
      zero. A smaller positive seconds value is multiplied by 1000 a second time. */
  lemma ToMillisTwice(ts: int)
    ensures ToMillisMaybe(ToMillisMaybe(ts)) == ToMillisMaybe(ts) <==> ts > 10_000_000 || ts == 0
  {
  }

  /** The normalisation is not monotone: the threshold itself maps far above its
      successor. */
  lemma ToMillisNotMonotone()
    ensures ToMillisMaybe(MillisThreshold) > ToMillisMaybe(MillisThreshold + 1)
  {
  }
}
