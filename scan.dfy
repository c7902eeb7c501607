/**
 * The part of JavaScript's regular-expression machinery the core uses:
 * `str.match(re)` without the `g` flag finds the leftmost position where the
 * pattern matches and returns that match with its capture groups; with the `g`
 * flag it returns every full match, scanning on from the end of the previous
 * one, or `null` when there is none.
 *
 * Each pattern of the core is written as a hand-made matcher
 * `(s, p) -> Option<Match>` that tries the pattern at exactly position `p`, in
 * the order the regular-expression engine tries its alternatives; this module
 * turns such a matcher into the search that `match` performs.
 */
module Scan {
  import opened Wrappers
  import opened Text

  /** One match: the whole matched text (`m[0]`) and the capture groups (`m[1]`, `m[2]`, ...). */
  datatype Match = Match(full: string, groups: seq<string>)

  /** Capture group `i` (`m[i]`, counted from 1); each pattern of the core has the groups it is asked for. */
  function Group(m: Match, i: nat): string {
    if 1 <= i <= |m.groups| then m.groups[i - 1] else ""
  }

  /** A match together with the position where it starts. */
  datatype Hit = Hit(pos: nat, m: Match)

  /** The leftmost position at or after `p` where `at` matches, and that match. */
  function Search(s: string, p: nat, at: (string, nat) -> Option<Match>): (r: Option<Hit>)
    ensures r.Some? ==> p <= r.value.pos <= |s| && at(s, r.value.pos) == Some(r.value.m)
    ensures r.Some? ==> forall q :: p <= q < r.value.pos ==> at(s, q).None?
    ensures r.None? ==> forall q :: p <= q <= |s| ==> at(s, q).None?
    decreases |s| + 1 - p
  {
    if p > |s| then None
    else
      match at(s, p)
      case Some(m) => Some(Hit(p, m))
      case None => Search(s, p + 1, at)
  }

  /** `s.match(re)` for a pattern without the `g` flag: the leftmost match. */
  function Exec(s: string, at: (string, nat) -> Option<Match>): (r: Option<Match>)
    ensures r.Some? ==> exists q :: 0 <= q <= |s| && at(s, q) == r && forall q' :: 0 <= q' < q ==> at(s, q').None?
    ensures r.None? <==> forall q :: 0 <= q <= |s| ==> at(s, q).None?
  {
    match Search(s, 0, at)
    case None => None
    case Some(h) =>
      assert at(s, h.pos) == Some(h.m);
      Some(h.m)
  }

  /** A match at `p` with none before it is the one `match` returns. */
  lemma ExecAt(s: string, at: (string, nat) -> Option<Match>, p: nat)
    requires p <= |s| && at(s, p).Some?
    requires forall q :: 0 <= q < p ==> at(s, q).None?
    ensures Exec(s, at) == at(s, p)
  {
    var h := Search(s, 0, at).value;
    assert h.pos == p;
  }

  /** Where a `g` scan resumes after the match `h`: at its end, or one position further when it was empty. */
  function Resume(h: Hit): nat {
    h.pos + (if |h.m.full| == 0 then 1 else |h.m.full|)
  }

  /** The matches a `g` pattern finds from position `p` on, each with the position where it starts. */
  function ScanHits(s: string, p: nat, at: (string, nat) -> Option<Match>): seq<Hit>
    decreases |s| + 1 - p
  {
    match Search(s, p, at)
    case None => []
    case Some(h) => if Resume(h) > |s| then [h] else [h] + ScanHits(s, Resume(h), at)
  }

  /** The full matches of a `g` pattern from position `p` on. */
  function MatchAll(s: string, p: nat, at: (string, nat) -> Option<Match>): seq<string> {
    var hits := ScanHits(s, p, at);
    seq(|hits|, k requires 0 <= k < |hits| => hits[k].m.full)
  }

  /** `s.match(re)` for a pattern with the `g` flag: `null` when nothing matches. */
  function GlobalMatch(s: string, at: (string, nat) -> Option<Match>): Option<seq<string>> {
    var all := MatchAll(s, 0, at);
    if all == [] then None else Some(all)
  }

  /** A `g` match is `null` exactly when the pattern matches nowhere, as without the flag. */
  lemma GlobalMatchNoneIff(s: string, at: (string, nat) -> Option<Match>)
    ensures GlobalMatch(s, at).None? <==> Exec(s, at).None?
    ensures GlobalMatch(s, at).Some? ==> GlobalMatch(s, at).value[0] == Exec(s, at).value.full
  {
  }

  /** The first hit of a `g` scan is the leftmost match from `p` on, and there is none exactly when nothing matches. */
  lemma ScanHitsFirst(s: string, p: nat, at: (string, nat) -> Option<Match>)
    ensures var hits := ScanHits(s, p, at);
      hits == [] <==> forall q :: p <= q <= |s| ==> at(s, q).None?
    ensures var hits := ScanHits(s, p, at);
      hits != [] ==> hits[0] == Search(s, p, at).value && forall q :: p <= q < hits[0].pos ==> at(s, q).None?
  {
  }

  /** A scan that resumes inside the text is its first hit followed by the scan from where it resumes. */
  lemma ScanHitsUnfold(s: string, p: nat, at: (string, nat) -> Option<Match>)
    requires Search(s, p, at).Some? && Resume(Search(s, p, at).value) <= |s|
    ensures var h := Search(s, p, at).value;
      ScanHits(s, p, at) == [h] + ScanHits(s, Resume(h), at)
  {
  }

  /** Every hit of a `g` scan is a match of the pattern at its position, at or after `p`. */
  lemma {:induction false} ScanHitsMatch(s: string, p: nat, at: (string, nat) -> Option<Match>)
    ensures var hits := ScanHits(s, p, at);
      forall k :: 0 <= k < |hits| ==> p <= hits[k].pos <= |s| && at(s, hits[k].pos) == Some(hits[k].m)
    decreases |s| + 1 - p
  {
    var hits := ScanHits(s, p, at);
    match Search(s, p, at)
    case None =>
    case Some(h) =>
      if Resume(h) <= |s| {
        var rest := ScanHits(s, Resume(h), at);
        ScanHitsMatch(s, Resume(h), at);
        ScanHitsUnfold(s, p, at);
        forall k | 1 <= k < |hits| ensures hits[k] == rest[k - 1] {}
      }
  }

  /** Each later hit of a `g` scan is the leftmost match from where the previous one resumes. */
  lemma {:induction false} ScanHitsNext(s: string, p: nat, at: (string, nat) -> Option<Match>)
    ensures var hits := ScanHits(s, p, at);
      forall k :: 0 <= k < |hits| - 1 ==>
        Resume(hits[k]) <= hits[k + 1].pos && forall q :: Resume(hits[k]) <= q < hits[k + 1].pos ==> at(s, q).None?
    decreases |s| + 1 - p
  {
    var hits := ScanHits(s, p, at);
    match Search(s, p, at)
    case None =>
    case Some(h) =>
      if Resume(h) <= |s| {
        var rest := ScanHits(s, Resume(h), at);
        ScanHitsNext(s, Resume(h), at);
        ScanHitsFirst(s, Resume(h), at);
        ScanHitsUnfold(s, p, at);
        forall k | 1 <= k < |hits| ensures hits[k] == rest[k - 1] {}
      }
  }

  /** Nothing matches after the point where the last hit of a `g` scan resumes. */
  lemma {:induction false} ScanHitsLast(s: string, p: nat, at: (string, nat) -> Option<Match>)
    ensures var hits := ScanHits(s, p, at);
      hits != [] ==> forall q :: Resume(hits[|hits| - 1]) <= q <= |s| ==> at(s, q).None?
    decreases |s| + 1 - p
  {
    var hits := ScanHits(s, p, at);
    match Search(s, p, at)
    case None =>
    case Some(h) =>
      if Resume(h) <= |s| {
        var rest := ScanHits(s, Resume(h), at);
        ScanHitsLast(s, Resume(h), at);
        ScanHitsFirst(s, Resume(h), at);
        ScanHitsUnfold(s, p, at);
        if rest != [] {
          assert hits[|hits| - 1] == rest[|rest| - 1];
        }
      }
  }

  /**
   * A `g` scan is the leftmost non-overlapping one: it finds nothing exactly
   * when the pattern matches nowhere from `p` on; its first match is the
   * leftmost at or after `p`; each later match is the leftmost at or after the
   * point where the previous one resumes; and nothing matches after the last.
   */
  lemma ScanHitsLeftmost(s: string, p: nat, at: (string, nat) -> Option<Match>)
    ensures var hits := ScanHits(s, p, at);
      hits == [] <==> forall q :: p <= q <= |s| ==> at(s, q).None?
    ensures var hits := ScanHits(s, p, at);
      forall k :: 0 <= k < |hits| ==> p <= hits[k].pos <= |s| && at(s, hits[k].pos) == Some(hits[k].m)
    ensures var hits := ScanHits(s, p, at);
      hits != [] ==> forall q :: p <= q < hits[0].pos ==> at(s, q).None?
    ensures var hits := ScanHits(s, p, at);
      forall k :: 0 <= k < |hits| - 1 ==>
        Resume(hits[k]) <= hits[k + 1].pos && forall q :: Resume(hits[k]) <= q < hits[k + 1].pos ==> at(s, q).None?
    ensures var hits := ScanHits(s, p, at);
      hits != [] ==> forall q :: Resume(hits[|hits| - 1]) <= q <= |s| ==> at(s, q).None?
  {
    ScanHitsFirst(s, p, at);
    ScanHitsMatch(s, p, at);
    ScanHitsNext(s, p, at);
    ScanHitsLast(s, p, at);
  }

  /** Every element of a `g` match list is the full match of the pattern at some position. */
  lemma MatchAllElements(s: string, p: nat, at: (string, nat) -> Option<Match>)
    ensures forall i :: 0 <= i < |MatchAll(s, p, at)| ==>
      exists q :: p <= q <= |s| && at(s, q).Some? && at(s, q).value.full == MatchAll(s, p, at)[i]
  {
    var hits, all := ScanHits(s, p, at), MatchAll(s, p, at);
    ScanHitsLeftmost(s, p, at);
    forall i | 0 <= i < |all|
      ensures exists q :: p <= q <= |s| && at(s, q).Some? && at(s, q).value.full == all[i]
    {
      var q := hits[i].pos;
      assert at(s, q) == Some(hits[i].m) && all[i] == hits[i].m.full;
    }
  }

  // ---------------------------------------------------------------- pattern pieces

  /** `\b` at position `q`: a word character on exactly one side. */
  predicate Boundary(s: string, q: nat) {
    var before := 0 < q <= |s| && IsWordChar(s[q - 1]);
    var after := q < |s| && IsWordChar(s[q]);
    before != after
  }

  /**
   * How a greedy quantifier backtracks: the largest count in `[lo, k]` that the
   * rest of the pattern (`rest`) accepts, trying `k` first and then fewer.
   */
  function Greedy(lo: nat, k: nat, rest: nat -> bool): (r: Option<nat>)
    ensures r.Some? ==> lo <= r.value <= k && rest(r.value)
    ensures r.Some? ==> forall j :: r.value < j <= k ==> !rest(j)
    ensures r.None? ==> forall j :: lo <= j <= k ==> !rest(j)
    decreases k
  {
    if k < lo then None
    else if rest(k) then Some(k)
    else if k == 0 then None
    else Greedy(lo, k - 1, rest)
  }

  /**
   * The first of the alternatives `alts` that occurs at `q` with a word
   * boundary after it: `(a|b|c)\b` tries its alternatives left to right.
   */
  function FirstWordAt(s: string, q: nat, alts: seq<string>): (r: Option<string>)
    ensures r.Some? ==> r.value in alts && LitAt(s, q, r.value) && Boundary(s, q + |r.value|)
    ensures r.None? ==> forall a :: a in alts ==> !(LitAt(s, q, a) && Boundary(s, q + |a|))
  {
    if alts == [] then None
    else if LitAt(s, q, alts[0]) && Boundary(s, q + |alts[0]|) then Some(alts[0])
    else FirstWordAt(s, q, alts[1..])
  }

  /** The first of the alternatives `alts` that occurs at `q`: `(a|b|c)`. */
  function FirstLitAt(s: string, q: nat, alts: seq<string>): (r: Option<string>)
    ensures r.Some? ==> r.value in alts && LitAt(s, q, r.value)
    ensures r.None? ==> forall a :: a in alts ==> !LitAt(s, q, a)
  {
    if alts == [] then None
    else if LitAt(s, q, alts[0]) then Some(alts[0])
    else FirstLitAt(s, q, alts[1..])
  }

  /** The alternative at index `k` is chosen when it occurs at `q` and no earlier one does. */
  lemma {:induction false} FirstLitAtIndex(s: string, q: nat, alts: seq<string>, k: nat)
    requires k < |alts| && LitAt(s, q, alts[k])
    requires forall j :: 0 <= j < k ==> !LitAt(s, q, alts[j])
    ensures FirstLitAt(s, q, alts) == Some(alts[k])
  {
    if k > 0 {
      assert !LitAt(s, q, alts[0]);
      FirstLitAtIndex(s, q, alts[1..], k - 1);
    }
  }
}
