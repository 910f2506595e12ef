/** The one regular expression of the player-page extractor, `(https?://[^"]+\.m3u8)`,
    with the leftmost-first semantics of Rust's `Regex::find`: the earliest start offset
    at which the pattern matches, and at that start the longest match the greedy
    `[^"]+` allows. */
module M3u8 {
  import opened Wrappers
  import opened Text

  /** The character `[^"]` excludes. */
  const Quote: char := '"'

  /** No double quote in `s[i..j]`. */
  predicate QuoteFree(s: string, i: nat, j: nat)
    requires i <= j <= |s|
  {
    forall k :: i <= k < j ==> s[k] != Quote
  }

  /** Where `https?://` ends when it matches at `p`: `s?` is greedy, so `https://` is
      taken when present, and `http://` can only match when it is not. */
  function SchemeEnd(s: string, p: nat): Option<nat> {
    if OccursAt(s, "https://", p) then Some(p + 8)
    else if OccursAt(s, "http://", p) then Some(p + 7)
    else None
  }

  /** `.m3u8` ends exactly at offset `e`. */
  predicate SuffixAt(s: string, e: nat) {
    5 <= e && OccursAt(s, ".m3u8", e - 5)
  }

  /** `s[q..e - 5]`, the stretch `[^"]+` must cover, holds no quote. */
  predicate ClearBefore(s: string, q: nat, e: nat) {
    q + 5 <= e <= |s| && QuoteFree(s, q, e - 5)
  }

  /** `s[p..e]` is a match of the pattern: a scheme, at least one non-quote character,
      and `.m3u8` at the very end. */
  predicate IsMatch(s: string, p: nat, e: nat) {
    && SchemeEnd(s, p).Some?
    && SchemeEnd(s, p).value + 6 <= e <= |s|
    && SuffixAt(s, e)
    && ClearBefore(s, SchemeEnd(s, p).value, e)
  }

  /** The first offset at or after `i` holding a quote, or `|s|`. */
  function QuoteFreeEnd(s: string, i: nat): (z: nat)
    requires i <= |s|
    ensures i <= z <= |s| && QuoteFree(s, i, z)
    ensures z < |s| ==> s[z] == Quote
    decreases |s| - i
  {
    if i == |s| || s[i] == Quote then i else QuoteFreeEnd(s, i + 1)
  }

  /** The largest `e` in `[q + 6, hi]` at which `.m3u8` ends. */
  function LastSuffixEnd(s: string, q: nat, hi: nat): (r: Option<nat>)
    requires hi <= |s|
    ensures r.Some? ==> q + 6 <= r.value <= hi && SuffixAt(s, r.value)
    ensures r.Some? ==> forall e: nat :: r.value < e <= hi ==> !SuffixAt(s, e)
    ensures r.None? ==> forall e: nat :: q + 6 <= e <= hi ==> !SuffixAt(s, e)
    decreases hi
  {
    if hi < q + 6 then None
    else if SuffixAt(s, hi) then Some(hi)
    else LastSuffixEnd(s, q, hi - 1)
  }

  /** Past the first quote after the scheme, no end offset can be a match. */
  lemma QuoteFreeUpTo(s: string, q: nat, e: nat)
    requires q + 5 <= e <= |s|
    ensures ClearBefore(s, q, e) <==> e <= QuoteFreeEnd(s, q) + 5
  {
    var z := QuoteFreeEnd(s, q);
    if z < e - 5 {
      assert s[z] == Quote;
    }
  }

  /** The longest match starting at `p`, if one starts there. */
  function LongestAt(s: string, p: nat): (r: Option<nat>)
    ensures r.Some? ==> IsMatch(s, p, r.value)
    ensures r.Some? ==> forall e: nat :: IsMatch(s, p, e) ==> e <= r.value
    ensures r.None? ==> forall e: nat :: !IsMatch(s, p, e)
  {
    var q := SchemeEnd(s, p);
    if q.None? || q.value > |s| then None
    else
      var z := QuoteFreeEnd(s, q.value);
      var hi := if z + 5 <= |s| then z + 5 else |s|;
      var r := LastSuffixEnd(s, q.value, hi);
      assert forall e: nat :: q.value + 6 <= e <= |s| ==>
        (ClearBefore(s, q.value, e) <==> e <= hi) by {
        forall e: nat | q.value + 6 <= e <= |s| ensures ClearBefore(s, q.value, e) <==> e <= hi {
          QuoteFreeUpTo(s, q.value, e);
        }
      }
      r
  }

  /** The leftmost match whose start is at or after `from`, as (start, end). */
  function FindFrom(s: string, from: nat): (r: Option<(nat, nat)>)
    ensures r.Some? ==> from <= r.value.0 && IsMatch(s, r.value.0, r.value.1)
    ensures r.Some? ==> forall p: nat, e: nat :: from <= p < r.value.0 ==> !IsMatch(s, p, e)
    ensures r.Some? ==> forall e: nat :: IsMatch(s, r.value.0, e) ==> e <= r.value.1
    ensures r.None? ==> forall p: nat, e: nat :: from <= p ==> !IsMatch(s, p, e)
    decreases |s| - from
  {
    if from >= |s| then None
    else
      match LongestAt(s, from)
      case Some(e) => Some((from, e))
      case None => FindFrom(s, from + 1)
  }

  /** `s[p..e]` is the match `Regex::find` reports: no match starts earlier, and none
      starting at `p` is longer. */
  ghost predicate LeftmostLongest(s: string, p: nat, e: nat) {
    && IsMatch(s, p, e)
    && (forall p': nat, e': nat :: p' < p ==> !IsMatch(s, p', e'))
    && (forall e': nat :: IsMatch(s, p, e') ==> e' <= e)
  }

  /** `Regex::find(..).as_str()`: the text of the leftmost-first match. */
  function Find(s: string): (r: Option<string>)
    ensures r.Some? ==> exists p: nat, e: nat ::
      LeftmostLongest(s, p, e) && p <= e && r.value == s[p..e]
    ensures r.None? <==> forall p: nat, e: nat :: !IsMatch(s, p, e)
  {
    match FindFrom(s, 0)
    case Some((p, e)) => Some(s[p..e])
    case None => None
  }

  /** Every match begins with `http`, holds no double quote, and ends with `.m3u8`. */
  lemma MatchShape(s: string, p: nat, e: nat)
    requires IsMatch(s, p, e)
    ensures p <= e && StartsWith(s[p..e], "http")
    ensures forall k :: 0 <= k < e - p ==> s[p..e][k] != Quote
    ensures s[p..e][e - p - 5..] == ".m3u8"
  {
    MatchStartsWithHttp(s, p, e);
    MatchHasNoQuote(s, p, e);
    assert s[p..e][e - p - 5..] == s[e - 5..e];
  }

  lemma MatchStartsWithHttp(s: string, p: nat, e: nat)
    requires IsMatch(s, p, e)
    ensures p + 4 <= e && s[p..e][..4] == "http"
  {
    assert s[p..p + 4] == "http" by {
      if OccursAt(s, "https://", p) {
        assert s[p..p + 8][..4] == s[p..p + 4];
      } else {
        assert s[p..p + 7][..4] == s[p..p + 4];
      }
    }
    assert s[p..e][..4] == s[p..p + 4];
  }

  lemma MatchHasNoQuote(s: string, p: nat, e: nat)
    requires IsMatch(s, p, e)
    ensures forall k :: p <= k < e ==> s[k] != Quote
  {
    var q := SchemeEnd(s, p).value;
    forall k | p <= k < e ensures s[k] != Quote {
      if k < q {
        if OccursAt(s, "https://", p) {
          assert s[k] == "https://"[k - p];
        } else {
          assert s[k] == "http://"[k - p];
        }
      } else if k >= e - 5 {
        assert s[k] == ".m3u8"[k - (e - 5)];
      }
    }
  }

  /** The text `Find` returns has the shape of `MatchShape`. */
  lemma FindShape(s: string)
    requires Find(s).Some?
    ensures StartsWith(Find(s).value, "http")
    ensures forall k :: 0 <= k < |Find(s).value| ==> Find(s).value[k] != Quote
    ensures |Find(s).value| >= 5 && Find(s).value[|Find(s).value| - 5..] == ".m3u8"
  {
    var r := FindFrom(s, 0);
    MatchShape(s, r.value.0, r.value.1);
  }
}
