/** `extractExperienceYears`: the number in the first match of the
    case-insensitive pattern `(\d+)[\s-]*years? of experience`, or 0. */
module YearsPattern {
  import opened Wrappers
  import opened Text

  /** A character of the class `[\s-]`. */
  predicate IsSep(c: char) {
    IsSpace(c) || c == '-'
  }

  predicate AllSep(s: string) {
    forall i :: 0 <= i < |s| ==> IsSep(s[i])
  }

  /** The end of the run of digits that starts at `i`. */
  function DigitRunEnd(s: string, i: nat): (j: nat)
    requires i <= |s|
    ensures i <= j <= |s| && AllDigits(s[i..j])
    ensures j == |s| || !IsDigit(s[j])
    decreases |s| - i
  {
    if i < |s| && IsDigit(s[i]) then
      var j := DigitRunEnd(s, i + 1);
      assert s[i..j] == [s[i]] + s[i + 1..j];
      j
    else i
  }

  /** The end of the run of `[\s-]` characters that starts at `i`. */
  function SepRunEnd(s: string, i: nat): (j: nat)
    requires i <= |s|
    ensures i <= j <= |s| && AllSep(s[i..j])
    ensures j == |s| || !IsSep(s[j])
    decreases |s| - i
  {
    if i < |s| && IsSep(s[i]) then
      var j := SepRunEnd(s, i + 1);
      assert s[i..j] == [s[i]] + s[i + 1..j];
      j
    else i
  }

  /** `years? of experience`, ignoring ASCII case, starts at `k`. */
  predicate TailAt(s: string, k: nat)
    requires k <= |s|
  {
    var rest := Lower(s[k..]);
    "years of experience" <= rest || "year of experience" <= rest
  }

  /** The pattern as the regular-expression engine tries it at `p`: both runs
      are taken greedily, since giving back a digit or a separator can never
      let `year` match. */
  predicate MatchAt(s: string, p: nat) {
    p < |s| && IsDigit(s[p]) && TailAt(s, SepRunEnd(s, DigitRunEnd(s, p)))
  }

  /** The pattern read declaratively: some non-empty digits, then some
      separators, then the tail. */
  ghost predicate PatternAt(s: string, p: nat) {
    exists j, k :: p < j <= k <= |s| && AllDigits(s[p..j]) && AllSep(s[j..k]) && TailAt(s, k)
  }

  /** The first letter of the tail is a `y`, which is neither a digit nor a separator. */
  lemma TailStartsWithY(s: string, k: nat)
    requires k <= |s| && TailAt(s, k)
    ensures k < |s| && !IsDigit(s[k]) && !IsSep(s[k])
  {
    var rest := Lower(s[k..]);
    assert rest[0] == 'y';
    assert s[k] == s[k..][0];
  }

  /** The greedy reading and the declarative reading agree, and every way to
      match the declarative reading captures the same digits. */
  lemma MatchAtIffPattern(s: string, p: nat)
    ensures MatchAt(s, p) <==> PatternAt(s, p)
    ensures forall j, k :: p < j <= k <= |s| && AllDigits(s[p..j]) && AllSep(s[j..k]) && TailAt(s, k)
                           ==> j == DigitRunEnd(s, p) && k == SepRunEnd(s, j)
  {
    forall j, k | p < j <= k <= |s| && AllDigits(s[p..j]) && AllSep(s[j..k]) && TailAt(s, k)
      ensures j == DigitRunEnd(s, p) && k == SepRunEnd(s, j)
    {
      OnlySplit(s, p, j, k);
    }
    if MatchAt(s, p) {
      var j := DigitRunEnd(s, p);
      var k := SepRunEnd(s, j);
      assert s[p] == s[p..j][0];
      assert p < j;
      assert AllDigits(s[p..j]) && AllSep(s[j..k]) && TailAt(s, k);
    }
    if PatternAt(s, p) {
      var j, k :| p < j <= k <= |s| && AllDigits(s[p..j]) && AllSep(s[j..k]) && TailAt(s, k);
      OnlySplit(s, p, j, k);
      assert IsDigit(s[p..j][0]);
    }
  }

  /** The one split the declarative reading admits is the greedy one. */
  lemma OnlySplit(s: string, p: nat, j: nat, k: nat)
    requires p < j <= k <= |s| && AllDigits(s[p..j]) && AllSep(s[j..k]) && TailAt(s, k)
    ensures j == DigitRunEnd(s, p) && k == SepRunEnd(s, j)
  {
    TailStartsWithY(s, k);
    if j < k {
      assert IsSep(s[j..k][0]);
      assert !IsDigit(s[j]);
    }
    DigitRunEndIs(s, p, j);
    SepRunEndIs(s, j, k);
  }

  /** A digit run that stops before a non-digit (or the end) is the run `DigitRunEnd` finds. */
  lemma {:induction false} DigitRunEndIs(s: string, i: nat, j: nat)
    requires i <= j <= |s| && AllDigits(s[i..j])
    requires j == |s| || !IsDigit(s[j])
    ensures DigitRunEnd(s, i) == j
    decreases j - i
  {
    if i < j {
      assert IsDigit(s[i..j][0]);
      assert s[i + 1..j] == s[i..j][1..];
      DigitRunEndIs(s, i + 1, j);
    }
  }

  /** A separator run that stops before a non-separator (or the end) is the run `SepRunEnd` finds. */
  lemma {:induction false} SepRunEndIs(s: string, i: nat, j: nat)
    requires i <= j <= |s| && AllSep(s[i..j])
    requires j == |s| || !IsSep(s[j])
    ensures SepRunEnd(s, i) == j
    decreases j - i
  {
    if i < j {
      assert IsSep(s[i..j][0]);
      assert s[i + 1..j] == s[i..j][1..];
      SepRunEndIs(s, i + 1, j);
    }
  }

  /** The leftmost match at or after `from`, as `String.prototype.match` searches. */
  function FirstMatch(s: string, from: nat): (r: Option<nat>)
    ensures r.Some? ==> from <= r.value < |s| && MatchAt(s, r.value)
    ensures r.Some? ==> forall q :: from <= q < r.value ==> !MatchAt(s, q)
    ensures r.None? ==> forall q :: from <= q ==> !MatchAt(s, q)
    decreases |s| - from
  {
    if from >= |s| then None
    else if MatchAt(s, from) then Some(from)
    else FirstMatch(s, from + 1)
  }

  /** `p` is where the search stops: a match with none before it. */
  ghost predicate IsFirstMatch(s: string, p: nat) {
    MatchAt(s, p) && forall q: nat :: q < p ==> !MatchAt(s, q)
  }

  /** The digits captured at a match. */
  function Captured(s: string, p: nat): (d: string)
    requires p <= |s|
    ensures AllDigits(d)
  {
    s[p..DigitRunEnd(s, p)]
  }

  /** `extractExperienceYears`: the value of the digits captured by the first
      match, or 0 when nothing matches. */
  function ExtractExperienceYears(text: string): (r: nat)
    ensures (forall p: nat :: !MatchAt(text, p)) ==> r == 0
    ensures forall p: nat :: IsFirstMatch(text, p) ==> r == DecimalValue(Captured(text, p))
    ensures r > 0 ==> exists p: nat :: IsFirstMatch(text, p)
  {
    match FirstMatch(text, 0)
    case None => 0
    case Some(p0) =>
      assert IsFirstMatch(text, p0);
      assert forall p: nat :: IsFirstMatch(text, p) ==> p == p0 by {
        forall p: nat | IsFirstMatch(text, p) ensures p == p0 {
          assert !(p < p0);
          assert !(p > p0);
        }
      }
      DecimalValue(Captured(text, p0))
  }
}
