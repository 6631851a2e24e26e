/**
 * The string operations the dashboard relies on, over `seq<char>`: `startsWith`,
 * `includes`, ASCII case mapping and the host part of an `ip:port` address.
 */
module Strings {

  /** `s.startsWith(p)`. */
  predicate StartsWith(s: string, p: string) {
    p <= s
  }

  /** `s.includes(q)`. */
  predicate Contains(s: string, q: string) {
    q <= s || (s != [] && Contains(s[1..], q))
  }

  /** `includes` holds exactly when `q` starts at some position of `s`. */
  lemma {:induction false} ContainsIff(s: string, q: string)
    ensures Contains(s, q) <==> exists i :: 0 <= i <= |s| && q <= s[i..]
  {
    if q <= s {
      assert s[0..] == s;
    } else if s != [] {
      ContainsIff(s[1..], q);
      if Contains(s[1..], q) {
        var i :| 0 <= i <= |s[1..]| && q <= s[1..][i..];
        assert s[1..][i..] == s[i + 1..];
      }
      if exists i :: 0 <= i <= |s| && q <= s[i..] {
        var i :| 0 <= i <= |s| && q <= s[i..];
        assert i != 0;
        assert s[1..][i - 1..] == s[i..];
      }
    }
  }

  /** Every string includes the empty string. */
  lemma ContainsEmpty(s: string)
    ensures Contains(s, [])
  {
  }

  function LowerChar(c: char): char {
    if 'A' <= c <= 'Z' then (c as int + 32) as char else c
  }

  function UpperChar(c: char): char {
    if 'a' <= c <= 'z' then (c as int - 32) as char else c
  }

  /** `s.toLowerCase()`, restricted to ASCII letters. */
  function Lower(s: string): (r: string)
    ensures |r| == |s| && forall i :: 0 <= i < |s| ==> r[i] == LowerChar(s[i])
  {
    seq(|s|, i requires 0 <= i < |s| => LowerChar(s[i]))
  }

  /** `s.toUpperCase()`, restricted to ASCII letters. */
  function Upper(s: string): (r: string)
    ensures |r| == |s| && forall i :: 0 <= i < |s| ==> r[i] == UpperChar(s[i])
  {
    seq(|s|, i requires 0 <= i < |s| => UpperChar(s[i]))
  }

  /** Lower-casing a character twice is lower-casing it once, and so is lower-casing
      its upper-case form; the same holds the other way round. */
  lemma CaseCharFolding(c: char)
    ensures LowerChar(LowerChar(c)) == LowerChar(c) && LowerChar(UpperChar(c)) == LowerChar(c)
    ensures UpperChar(UpperChar(c)) == UpperChar(c) && UpperChar(LowerChar(c)) == UpperChar(c)
  {
  }

  /** Case mapping is idempotent and forgets the case it started from: a lower-cased
      text has no upper-case letter, and lower-casing an upper-cased text gives the
      lower-cased original (and the other way round). */
  lemma CaseFolding(s: string)
    ensures Lower(Lower(s)) == Lower(s) && Lower(Upper(s)) == Lower(s)
    ensures Upper(Upper(s)) == Upper(s) && Upper(Lower(s)) == Upper(s)
    ensures forall i :: 0 <= i < |s| ==> !('A' <= Lower(s)[i] <= 'Z') && !('a' <= Upper(s)[i] <= 'z')
  {
    forall i | 0 <= i < |s|
      ensures LowerChar(LowerChar(s[i])) == LowerChar(s[i]) && LowerChar(UpperChar(s[i])) == LowerChar(s[i])
      ensures UpperChar(UpperChar(s[i])) == UpperChar(s[i]) && UpperChar(LowerChar(s[i])) == UpperChar(s[i])
    {
      CaseCharFolding(s[i]);
    }
    assert Lower(Lower(s)) == Lower(s);
    assert Lower(Upper(s)) == Lower(s);
    assert Upper(Upper(s)) == Upper(s);
    assert Upper(Lower(s)) == Upper(s);
  }

  /** `address.split(":")[0]`: the text before the first ':', or all of `address`
      when it has none. */
  function HostPart(address: string): (r: string)
    ensures r <= address
    ensures ':' !in r
    ensures |r| < |address| ==> address[|r|] == ':'
  {
    if address == [] || address[0] == ':' then []
    else [address[0]] + HostPart(address[1..])
  }

  /** The host part of `host:port` is `host`. */
  lemma {:induction false} HostPartOfHostPort(host: string, port: string)
    requires ':' !in host
    ensures HostPart(host + ":" + port) == host
  {
    if host != [] {
      assert (host + ":" + port)[1..] == host[1..] + ":" + port;
      HostPartOfHostPort(host[1..], port);
    }
  }
}
