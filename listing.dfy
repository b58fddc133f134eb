/** The fetched collections of src/components/app.js: assets and rates arrive in
    a JSON envelope `{data: [...], timestamp}`, replace the held value only on
    HTTP status 200, and the asset array is reversed in place by `sortRank`. */
module Listing {
  import opened Wrappers
  import opened JsSemantics

  /** One entry of the CoinCap `assets` list; numeric fields are JSON strings. */
  datatype Asset = Asset(
    rank: string, id: string, symbol: string, name: string, explorer: Value,
    priceUsd: Value, marketCapUsd: Value, supply: Value, maxSupply: Value,
    volumeUsd24Hr: Value, changePercent24Hr: Value)

  /** A response body: the `data` array (absent in a malformed body) and the
      envelope's other field. The array is shared, not copied, as in JavaScript. */
  datatype Envelope<T> = Envelope(data: Option<array<T>>, timestamp: Option<int>)

  /** How a `getAssets`/`getRates` promise settles: resolved with an HTTP status
      and a body (`result.data`, possibly missing), or rejected. */
  datatype Delivery<T> = Resolved(status: int, body: Option<Envelope<T>>) | Rejected

  /** The value held after a delivery: the body when the status is 200, the
      prior value after any other status or a rejection. */
  function Accept<T>(prior: Option<Envelope<T>>, d: Delivery<T>): (r: Option<Envelope<T>>)
    ensures d.Resolved? && d.status == 200 ==> r == d.body
    ensures !(d.Resolved? && d.status == 200) ==> r == prior
  {
    match d
    case Resolved(status, body) => if status == 200 then body else prior
    case Rejected => prior
  }

  /** A failed load after a successful one leaves the successful body in place. */
  lemma FailedLoadKeepsSnapshot<T>(prior: Option<Envelope<T>>, ok: Delivery<T>, failed: Delivery<T>)
    requires ok.Resolved? && ok.status == 200
    requires failed.Rejected? || failed.status != 200
    ensures Accept(Accept(prior, ok), failed) == ok.body
  {
  }

  /** `s` in the opposite order. */
  function Reversed<T>(s: seq<T>): (r: seq<T>)
    ensures |r| == |s|
    ensures forall i :: 0 <= i < |s| ==> r[i] == s[|s| - 1 - i]
  {
    if |s| == 0 then [] else [s[|s| - 1]] + Reversed(s[..|s| - 1])
  }

  /** Reversing twice gives the original order back. */
  lemma ReversedTwice<T>(s: seq<T>)
    ensures Reversed(Reversed(s)) == s
  {
  }

  /** Reversal is a permutation: every element keeps its multiplicity. */
  lemma {:induction false} ReversedPermutes<T>(s: seq<T>)
    ensures multiset(Reversed(s)) == multiset(s)
  {
    if |s| > 0 {
      var n := |s| - 1;
      ReversedPermutes(s[..n]);
      assert s == s[..n] + [s[n]];
      assert Reversed(s) == [s[n]] + Reversed(s[..n]);
    }
  }

  /** `Array.prototype.reverse`: swaps mirrored elements from both ends towards the middle. */
  method ReverseInPlace<T>(a: array<T>)
    modifies a
    ensures a[..] == Reversed(old(a[..]))
  {
    var lo, hi := 0, a.Length;
    while lo + 1 < hi
      invariant 0 <= lo <= hi <= a.Length && lo + hi == a.Length
      invariant forall k :: 0 <= k < lo ==> a[k] == old(a[a.Length - 1 - k]) && a[a.Length - 1 - k] == old(a[k])
      invariant forall k :: lo <= k < hi ==> a[k] == old(a[k])
      decreases hi - lo
    {
      a[lo], a[hi - 1] := a[hi - 1], a[lo];
      lo, hi := lo + 1, hi - 1;
    }
    assert forall k :: 0 <= k < a.Length ==> a[..][k] == Reversed(old(a[..]))[k];
  }
}
