/**
 * extract_community_id of main.py: the custom-URL segment of a Steam profile address. Input
 * without `id/` is taken to be the segment itself; otherwise the segment is what the regular
 * expression `id/([^/]+)` captures at its leftmost match.
 */
module CommunityId {
  import opened Wrappers
  import opened Seqs

  const IdMarker: string := "id/"

  /** The pattern `id/[^/]` matches at position `p`: the marker, then a character that is not `/`. */
  predicate MatchesAt(s: string, p: nat) {
    OccursAt(s, IdMarker, p) && p + |IdMarker| < |s| && s[p + |IdMarker|] != '/'
  }

  /** The leftmost match of the pattern at or after position `i` (the scan of `re.search`). */
  function SearchFrom(s: string, i: nat): (r: Option<nat>)
    ensures r.Some? ==> i <= r.value && MatchesAt(s, r.value)
    ensures r.Some? ==> forall q :: i <= q < r.value ==> !MatchesAt(s, q)
    ensures r.None? <==> forall q :: i <= q ==> !MatchesAt(s, q)
    decreases |s| - i
  {
    if i + |IdMarker| >= |s| then None
    else if MatchesAt(s, i) then Some(i)
    else SearchFrom(s, i + 1)
  }

  /** The end of the run of non-`/` characters that starts at `i` (the greedy `[^/]+`). */
  function SegmentEnd(s: string, i: nat): (r: nat)
    requires i <= |s|
    ensures i <= r <= |s| && (r == |s| || s[r] == '/')
    ensures forall j :: i <= j < r ==> s[j] != '/'
    decreases |s| - i
  {
    if i == |s| || s[i] == '/' then i else SegmentEnd(s, i + 1)
  }

  /** extract_community_id: the input itself when it holds no `id/`; the captured group when the
      pattern matches; `None` (the function falls off its end) when `id/` occurs but every
      occurrence is followed by `/` or by the end of the input. */
  function ExtractCommunityId(s: string): Option<string> {
    if !Contains(s, IdMarker) then Some(s)
    else
      match SearchFrom(s, 0)
      case None => None
      case Some(p) => Some(s[p + |IdMarker|..SegmentEnd(s, p + |IdMarker|)])
  }

  /** Without `id/` the input comes back unchanged. */
  lemma PlainInputUnchanged(s: string)
    requires !Contains(s, IdMarker)
    ensures ExtractCommunityId(s) == Some(s)
  {
  }

  /** With `id/`, the result is the maximal non-empty run of non-`/` characters right after the
      leftmost `id/` that the pattern matches. */
  lemma {:induction false} ExtractedSegment(s: string)
    requires Contains(s, IdMarker) && ExtractCommunityId(s).Some?
    ensures var x := ExtractCommunityId(s).value;
      && x != [] && '/' !in x
      && exists p: nat ::
           && MatchesAt(s, p) && (forall q: nat :: q < p ==> !MatchesAt(s, q))
           && p + |IdMarker| + |x| <= |s| && s[p + |IdMarker|..p + |IdMarker| + |x|] == x
           && (p + |IdMarker| + |x| == |s| || s[p + |IdMarker| + |x|] == '/')
  {
    var p := SearchFrom(s, 0).value;
    var start := p + |IdMarker|;
    var end := SegmentEnd(s, start);
    var x := s[start..end];
    assert x[0] == s[start];
    forall k | 0 <= k < |x| ensures x[k] != '/' {
      assert x[k] == s[start + k];
    }
    assert start + |x| == end;
  }

  /** The input holds `id/` yet the result is `None` exactly when no `id/` is followed by a
      character other than `/`. */
  lemma NoneWhenNoSegment(s: string)
    ensures ExtractCommunityId(s).None? <==> Contains(s, IdMarker) && forall q: nat :: !MatchesAt(s, q)
  {
  }

  /** A result holds no `/`, so it holds no `id/` and extracting again changes nothing. */
  lemma {:induction false} ExtractIdempotent(s: string)
    requires ExtractCommunityId(s).Some?
    ensures ExtractCommunityId(ExtractCommunityId(s).value) == ExtractCommunityId(s)
  {
    var x := ExtractCommunityId(s).value;
    if Contains(s, IdMarker) {
      ExtractedSegment(s);
      NoSlashNoMarker(x);
    }
  }

  lemma NoSlashNoMarker(x: string)
    requires '/' !in x
    ensures !Contains(x, IdMarker)
  {
    forall i | 0 <= i <= |x| ensures !OccursAt(x, IdMarker, i) {
      if i + |IdMarker| <= |x| {
        assert x[i..i + |IdMarker|][2] == x[i + 2];
      }
    }
  }
}
