/**
 * The first-match semantics of the two regular-expression shapes the app
 * uses with Regex.find and groupValues[1]:
 *   key([^S]+)     (open:   drmScheme=([^&|]+), drmLicense=([^&|]+))
 *   key([^S]+)C    (closed: tvg-logo="([^"]+)", group-title="([^"]+)", where C is the one stop character)
 * The leftmost position at which the pattern matches wins; the capture is
 * the longest run of non-stop characters after the key (the class is
 * greedy, and for the closed shape a shorter run cannot end in a stop
 * character either).
 */
module FirstMatch {
  import opened Wrappers
  import Text

  /** Length of the run of characters of s from position i on that are not in stops. */
  function RunLength(s: string, i: nat, stops: set<char>): (n: nat)
    requires i <= |s|
    ensures i + n <= |s|
    ensures forall k :: i <= k < i + n ==> s[k] !in stops
    ensures i + n == |s| || s[i + n] in stops
    decreases |s| - i
  {
    if i == |s| || s[i] in stops then 0 else 1 + RunLength(s, i + 1, stops)
  }

  /** Does the pattern match at position p? */
  predicate MatchesAt(s: string, key: string, stops: set<char>, closed: bool, p: nat) {
    p + |key| <= |s| && s[p..p + |key|] == key
    && var n := RunLength(s, p + |key|, stops);
       n > 0 && (!closed || p + |key| + n < |s|)
  }

  /** The leftmost match position at or after from, if any. */
  function FindFrom(s: string, key: string, stops: set<char>, closed: bool, from: nat): (r: Option<nat>)
    requires from <= |s|
    ensures r.Some? ==> from <= r.value <= |s| && MatchesAt(s, key, stops, closed, r.value)
    ensures r.Some? ==> forall q :: from <= q < r.value ==> !MatchesAt(s, key, stops, closed, q)
    ensures r.None? ==> forall q :: from <= q <= |s| ==> !MatchesAt(s, key, stops, closed, q)
    decreases |s| - from
  {
    if MatchesAt(s, key, stops, closed, from) then Some(from)
    else if from == |s| then None
    else FindFrom(s, key, stops, closed, from + 1)
  }

  /** The text captured at a match position. */
  function CaptureAt(s: string, key: string, stops: set<char>, p: nat): string
    requires p + |key| <= |s|
  {
    s[p + |key|..p + |key| + RunLength(s, p + |key|, stops)]
  }

  /** regex.find(s)?.groupValues?.get(1): the group of the leftmost match, or None. */
  function Capture(s: string, key: string, stops: set<char>, closed: bool): Option<string> {
    match FindFrom(s, key, stops, closed, 0)
    case None => None
    case Some(p) => Some(CaptureAt(s, key, stops, p))
  }

  /**
   * Capture finds nothing exactly when the pattern matches nowhere; what it
   * finds is the non-empty, stop-free group of the leftmost match.
   */
  lemma CaptureIsLeftmostMatch(s: string, key: string, stops: set<char>, closed: bool)
    ensures var r := Capture(s, key, stops, closed);
            && (r.None? <==> forall q :: 0 <= q <= |s| ==> !MatchesAt(s, key, stops, closed, q))
            && (r.Some? ==> |r.value| > 0 && forall c :: c in r.value ==> c !in stops)
            && (r.Some? ==> exists p :: 0 <= p <= |s| && MatchesAt(s, key, stops, closed, p)
                                        && (forall q :: 0 <= q < p ==> !MatchesAt(s, key, stops, closed, q))
                                        && r.value == CaptureAt(s, key, stops, p))
  {
    var f := FindFrom(s, key, stops, closed, 0);
    if f.Some? {
      var p := f.value;
      var v := CaptureAt(s, key, stops, p);
      var n := RunLength(s, p + |key|, stops);
      assert |v| == n > 0;
      forall c | c in v ensures c !in stops {
        var k :| 0 <= k < |v| && v[k] == c;
        assert v[k] == s[p + |key| + k];
      }
    }
  }

  /** A match is in particular an occurrence of the key. */
  lemma {:induction false} MatchImpliesKeyOccurs(s: string, key: string, stops: set<char>, closed: bool)
    requires Capture(s, key, stops, closed).Some?
    ensures Text.Contains(s, key)
  {
    CaptureIsLeftmostMatch(s, key, stops, closed);
    var p :| 0 <= p <= |s| && MatchesAt(s, key, stops, closed, p);
    KeyAtPosition(s, key, p);
  }

  lemma {:induction false} KeyAtPosition(s: string, key: string, p: nat)
    requires p + |key| <= |s| && s[p..p + |key|] == key
    ensures Text.Contains(s, key)
    decreases p
  {
    if p == 0 {
      assert Text.StartsWith(s, key);
    } else {
      assert s[1..][p - 1..p - 1 + |key|] == key;
      KeyAtPosition(s[1..], key, p - 1);
    }
  }
}
