/** String helpers shared by every form and by the summariser: JavaScript's
    whitespace class and `trim`, ASCII lower-casing, `includes`, digit
    strings with `parseInt`, number formatting and `join`. */
module Text {

  /** JavaScript's whitespace: the characters matched by `\s` and removed by `trim`. */
  predicate IsSpace(c: char) {
    || c == ' ' || c == '\t' || c == '\n' || c == '\r'
    || c == '\U{0B}' || c == '\U{0C}' || c == '\U{A0}' || c == '\U{1680}'
    || ('\U{2000}' <= c <= '\U{200A}')
    || c == '\U{2028}' || c == '\U{2029}' || c == '\U{202F}' || c == '\U{205F}'
    || c == '\U{3000}' || c == '\U{FEFF}'
  }

  predicate AllSpace(s: string) {
    forall i :: 0 <= i < |s| ==> IsSpace(s[i])
  }

  /** `s.trimStart()`: drops the leading whitespace and nothing else. */
  function TrimStart(s: string): (r: string)
    ensures |r| <= |s| && r == s[|s| - |r|..]
    ensures AllSpace(s[..|s| - |r|])
    ensures r == [] || !IsSpace(r[0])
    decreases |s|
  {
    if |s| > 0 && IsSpace(s[0]) then TrimStart(s[1..]) else s
  }

  /** `s.trimEnd()`: drops the trailing whitespace and nothing else. */
  function TrimEnd(s: string): (r: string)
    ensures |r| <= |s| && r == s[..|r|]
    ensures AllSpace(s[|r|..])
    ensures r == [] || !IsSpace(r[|r| - 1])
    decreases |s|
  {
    if |s| > 0 && IsSpace(s[|s| - 1]) then TrimEnd(s[..|s| - 1]) else s
  }

  /** `s.trim()`: the longest factor of `s` that neither starts nor ends with whitespace. */
  function Trim(s: string): (r: string)
    ensures r == [] <==> AllSpace(s)
    ensures r != [] ==> !IsSpace(r[0]) && !IsSpace(r[|r| - 1])
    ensures Contains(s, r)
    ensures EdgeTrimmed(s, |s| - |TrimStart(s)|, r)
  {
    TrimBlank(s);
    TrimOccurs(s);
    TrimPosition(s, TrimStart(s), TrimEnd(TrimStart(s)));
    TrimEnd(TrimStart(s))
  }

  /** Trimming leaves nothing exactly when the text is all whitespace. */
  lemma TrimBlank(s: string)
    ensures TrimEnd(TrimStart(s)) == [] <==> AllSpace(s)
  {
    var a := TrimStart(s);
    var r := TrimEnd(a);
    if r != [] {
      assert !IsSpace(s[|s| - |a|]);
    } else {
      assert a == [];
      assert s[..|s|] == s;
    }
  }

  /** The trimmed text is a factor of the text. */
  lemma TrimOccurs(s: string)
    ensures Contains(s, TrimEnd(TrimStart(s)))
  {
    var a := TrimStart(s);
    assert OccursAt(s, TrimEnd(a), |s| - |a|);
  }

  /** `r` is the factor of `s` starting at `a` with only whitespace on
      either side of it. */
  predicate EdgeTrimmed(s: string, a: nat, r: string) {
    && a + |r| <= |s| && r == s[a..a + |r|]
    && AllSpace(s[..a]) && AllSpace(s[a + |r|..])
  }

  /** Dropping leading whitespace (leaving `t`) and then trailing whitespace
      (leaving `r`) drops nothing but edge whitespace. */
  lemma TrimPosition(s: string, t: string, r: string)
    requires |t| <= |s| && t == s[|s| - |t|..] && AllSpace(s[..|s| - |t|])
    requires |r| <= |t| && r == t[..|r|] && AllSpace(t[|r|..])
    ensures EdgeTrimmed(s, |s| - |t|, r)
  {
    assert t[|r|..] == s[|s| - |t| + |r|..];
  }

  /** JavaScript truthiness of `s.trim()`: the text has no visible content. */
  predicate IsBlank(s: string) {
    Trim(s) == []
  }

  /** ASCII lower-casing of one character, as `toLowerCase` does for ASCII. */
  function LowerChar(c: char): char {
    if 'A' <= c <= 'Z' then (c as int + 32) as char else c
  }

  /** ASCII lower-casing of a string; its length and every non-letter stay as they are. */
  function Lower(s: string): (r: string)
    ensures |r| == |s|
    ensures forall i :: 0 <= i < |s| ==> r[i] == LowerChar(s[i])
  {
    seq(|s|, i requires 0 <= i < |s| => LowerChar(s[i]))
  }

  lemma LowerAppend(a: string, b: string)
    ensures Lower(a + b) == Lower(a) + Lower(b)
  {
  }

  /** `p` occurs in `s` starting at index `i`. */
  predicate OccursAt(s: string, p: string, i: int) {
    0 <= i && i + |p| <= |s| && s[i..i + |p|] == p
  }

  /** Substring containment, the meaning of JavaScript's `s.includes(p)`. */
  ghost predicate Contains(s: string, p: string) {
    exists i :: OccursAt(s, p, i)
  }

  /** The search `s.includes(p)` performs, left to right; it decides `Contains`. */
  function Includes(s: string, p: string): (b: bool)
    ensures b <==> Contains(s, p)
    decreases |s|
  {
    if p <= s then
      assert OccursAt(s, p, 0);
      true
    else if |p| > |s| then
      false
    else
      IncludesStep(s, p);
      Includes(s[1..], p)
  }

  /** When `p` is not a prefix of `s`, it occurs in `s` exactly when it
      occurs in the rest of `s`. */
  lemma IncludesStep(s: string, p: string)
    requires s != [] && !(p <= s)
    ensures Contains(s, p) <==> Contains(s[1..], p)
  {
    if i :| OccursAt(s[1..], p, i) {
      assert s[i + 1..i + 1 + |p|] == s[1..][i..i + |p|];
      assert OccursAt(s, p, i + 1);
    }
    if i :| OccursAt(s, p, i) {
      if i > 0 {
        assert s[1..][i - 1..i - 1 + |p|] == s[i..i + |p|];
        assert OccursAt(s[1..], p, i - 1);
      }
    }
  }

  /** Appending text on either side never removes an occurrence. */
  lemma ContainsExtend(s: string, p: string, before: string, after: string)
    requires Contains(s, p)
    ensures Contains(before + s + after, p)
  {
    var i :| OccursAt(s, p, i);
    var t := before + s + after;
    assert t[|before| + i..|before| + i + |p|] == s[i..i + |p|];
    assert OccursAt(t, p, |before| + i);
  }

  /** Text put in front never removes an occurrence. */
  lemma ContainsPrepend(s: string, p: string, before: string)
    requires Contains(s, p)
    ensures Contains(before + s, p)
  {
    var i :| OccursAt(s, p, i);
    assert (before + s)[|before| + i..|before| + i + |p|] == s[i..i + |p|];
    assert OccursAt(before + s, p, |before| + i);
  }

  /** Text put after never removes an occurrence. */
  lemma ContainsAppend(s: string, p: string, after: string)
    requires Contains(s, p)
    ensures Contains(s + after, p)
  {
    var i :| OccursAt(s, p, i);
    assert (s + after)[i..i + |p|] == s[i..i + |p|];
    assert OccursAt(s + after, p, i);
  }

  /** Containment is transitive: a text containing `p` contains every factor of `p`. */
  lemma ContainsTransitive(s: string, p: string, q: string)
    requires Contains(s, p) && Contains(p, q)
    ensures Contains(s, q)
  {
    var i :| OccursAt(s, p, i);
    var j :| OccursAt(p, q, j);
    forall k | 0 <= k < |q| ensures q[k] == s[i + j + k] {
      assert q[k] == p[j + k];
    }
    assert OccursAt(s, q, i + j);
  }

  /** `a` sorts strictly before `b`, comparing character codes from the left;
      a proper prefix sorts first. */
  predicate Before(a: string, b: string)
    decreases |a|
  {
    b != [] && (a == [] || a[0] < b[0] || (a[0] == b[0] && Before(a[1..], b[1..])))
  }

  /** Two strings that agree up to position `k` and differ there are ordered
      by their characters at `k`. */
  lemma {:induction false} BeforeAt(a: string, b: string, k: nat)
    requires k < |a| && k < |b| && a[..k] == b[..k] && a[k] < b[k]
    ensures Before(a, b)
    decreases k
  {
    if k > 0 {
      assert a[1..][..k - 1] == b[1..][..k - 1];
      BeforeAt(a[1..], b[1..], k - 1);
    }
  }

  lemma {:induction false} BeforeIrreflexive(a: string)
    ensures !Before(a, a)
    decreases |a|
  {
    if a != [] {
      BeforeIrreflexive(a[1..]);
    }
  }

  lemma {:induction false} BeforeTransitive(a: string, b: string, c: string)
    requires Before(a, b) && Before(b, c)
    ensures Before(a, c)
    decreases |a|
  {
    if a != [] && a[0] == b[0] && b[0] == c[0] {
      BeforeTransitive(a[1..], b[1..], c[1..]);
    }
  }

  predicate EndsWith(s: string, suffix: string) {
    |suffix| <= |s| && s[|s| - |suffix|..] == suffix
  }

  /** Text put in front keeps every ending. */
  lemma EndsWithPrepend(s: string, suffix: string, before: string)
    requires EndsWith(s, suffix)
    ensures EndsWith(before + s, suffix)
  {
    assert (before + s)[|before + s| - |suffix|..] == s[|s| - |suffix|..];
  }

  predicate IsDigit(c: char) {
    '0' <= c <= '9'
  }

  /** The text matches `^\d*$`. */
  predicate AllDigits(s: string) {
    forall i :: 0 <= i < |s| ==> IsDigit(s[i])
  }

  function DigitValue(c: char): (d: nat)
    requires IsDigit(c)
    ensures d < 10
  {
    c as int - '0' as int
  }

  function DigitChar(d: nat): (c: char)
    requires d < 10
    ensures IsDigit(c) && DigitValue(c) == d
  {
    ('0' as int + d) as char
  }

  /** `parseInt(s, 10)` of a digit string, leading zeros included. */
  function DecimalValue(s: string): nat
    requires AllDigits(s)
  {
    if s == [] then 0 else DecimalValue(s[..|s| - 1]) * 10 + DigitValue(s[|s| - 1])
  }

  /** The decimal rendering of a natural number, as a template literal prints it. */
  function NatToString(n: nat): (r: string)
    ensures |r| > 0 && AllDigits(r)
  {
    if n < 10 then [DigitChar(n)] else NatToString(n / 10) + [DigitChar(n % 10)]
  }

  /** Printing a number and parsing it back gives the number. */
  lemma {:induction false} DecimalRoundTrip(n: nat)
    ensures DecimalValue(NatToString(n)) == n
  {
    var r := NatToString(n);
    if n >= 10 {
      DecimalRoundTrip(n / 10);
      assert r[..|r| - 1] == NatToString(n / 10);
    }
  }

  /** Distinct numbers print differently. */
  lemma NatToStringInjective(m: nat, n: nat)
    requires NatToString(m) == NatToString(n)
    ensures m == n
  {
    DecimalRoundTrip(m);
    DecimalRoundTrip(n);
  }

  /** `parts.join(sep)`. */
  function Join(parts: seq<string>, sep: string): string
  {
    if |parts| == 0 then ""
    else if |parts| == 1 then parts[0]
    else parts[0] + sep + Join(parts[1..], sep)
  }

  /** Every joined part occurs in the joined text. */
  lemma {:induction false} JoinContainsEach(parts: seq<string>, sep: string, i: nat)
    requires i < |parts|
    ensures Contains(Join(parts, sep), parts[i])
  {
    if |parts| == 1 || i == 0 {
      assert OccursAt(Join(parts, sep), parts[0], 0);
    } else {
      JoinContainsEach(parts[1..], sep, i - 1);
      ContainsExtend(Join(parts[1..], sep), parts[i], parts[0] + sep, "");
      assert parts[0] + sep + Join(parts[1..], sep) + "" == Join(parts, sep);
    }
  }

  /** Joining ends with the last part, preceded by the separator when there are several. */
  lemma {:induction false} JoinLast(parts: seq<string>, sep: string)
    requires |parts| >= 2
    ensures Join(parts, sep) == Join(parts[..|parts| - 1], sep) + sep + parts[|parts| - 1]
  {
    if |parts| > 2 {
      JoinLast(parts[1..], sep);
      assert parts[1..][..|parts| - 2] == parts[..|parts| - 1][1..];
    }
  }
}

/** Order-preserving sub-sequences, used for "in catalog order" and "in sentence order". */
module Sequences {

  /** `a` is obtained from `b` by deleting elements, keeping the order of the rest. */
  predicate IsSubseq<T(==)>(a: seq<T>, b: seq<T>)
    decreases |b|
  {
    if a == [] then true
    else if b == [] then false
    else if a[0] == b[0] then IsSubseq(a[1..], b[1..])
    else IsSubseq(a, b[1..])
  }

  lemma {:induction false} SubseqLength<T>(a: seq<T>, b: seq<T>)
    requires IsSubseq(a, b)
    ensures |a| <= |b|
    decreases |b|
  {
    if a != [] {
      if a[0] == b[0] {
        SubseqLength(a[1..], b[1..]);
      } else {
        SubseqLength(a, b[1..]);
      }
    }
  }
}
