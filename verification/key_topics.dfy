/** `extractKeyTopics`: per sentence, the clause after the first action verb
    of the case-insensitive pattern
    `(developed|built|created|designed|implemented|architected|managed|led) ([^.]*)`,
    trimmed and kept when 6 to 49 characters long; at most three topics. */
module KeyTopics {
  import opened Wrappers
  import opened Text

  /** The alternatives of the pattern, in the order the engine tries them. */
  const ActionVerbs: seq<string> :=
    ["developed", "built", "created", "designed", "implemented", "architected", "managed", "led"]

  const MaxTopics: nat := 3

  /** The first alternative in `verbs` that, followed by a space, starts the
      lower-cased text at `p`; the result is where the captured clause begins. */
  function VerbMatchEnd(lower: string, p: nat, verbs: seq<string>): (r: Option<nat>)
    requires p <= |lower|
    ensures r.Some? ==> exists v :: v in verbs && v + " " <= lower[p..] && r.value == p + |v| + 1
    ensures r.None? ==> forall v :: v in verbs ==> !(v + " " <= lower[p..])
    ensures r.Some? ==> p < r.value <= |lower|
  {
    if verbs == [] then None
    else if verbs[0] + " " <= lower[p..] then Some(p + |verbs[0]| + 1)
    else VerbMatchEnd(lower, p, verbs[1..])
  }

  /** An action verb and a space start at `p`. */
  predicate VerbAt(lower: string, p: nat)
    requires p <= |lower|
  {
    VerbMatchEnd(lower, p, ActionVerbs).Some?
  }

  /** The leftmost position at or after `from` where the pattern matches, and
      where its clause begins there. */
  function FirstVerb(lower: string, from: nat): (r: Option<(nat, nat)>)
    requires from <= |lower|
    ensures r.Some? ==> from <= r.value.0 < |lower| && VerbAt(lower, r.value.0)
    ensures r.Some? ==> r.value.1 == VerbMatchEnd(lower, r.value.0, ActionVerbs).value
    ensures r.Some? ==> forall q :: from <= q < r.value.0 ==> !VerbAt(lower, q)
    ensures r.None? ==> forall q :: from <= q <= |lower| ==> !VerbAt(lower, q)
    decreases |lower| - from
  {
    match VerbMatchEnd(lower, from, ActionVerbs)
    case Some(e) => Some((from, e))
    case None => if from == |lower| then None else FirstVerb(lower, from + 1)
  }

  /** `[^.]*` taken greedily: the text up to the first period, or all of it. */
  function UntilPeriod(s: string): (r: string)
    ensures r <= s
    ensures forall i :: 0 <= i < |r| ==> r[i] != '.'
    ensures |r| == |s| || s[|r|] == '.'
  {
    if s == [] || s[0] == '.' then [] else [s[0]] + UntilPeriod(s[1..])
  }

  /** The topic one sentence contributes, if any. The verb is found in the
      lower-cased sentence; the clause is cut from the sentence itself, which
      has the same length. */
  function TopicOf(sentence: string): Option<string>
  {
    match FirstVerb(Lower(sentence), 0)
    case None => None
    case Some((_, e)) => ClauseTopic(UntilPeriod(sentence[e..]))
  }

  /** The topic a captured clause gives: the trimmed clause, when it is 6 to
      49 characters long. */
  function ClauseTopic(clause: string): Option<string>
  {
    if clause == [] then None
    else
      var topic := Trim(clause);
      if 5 < |topic| < 50 then Some(topic) else None
  }

  /** `t` can be the topic of `sentence`: a trimmed piece of it, 6 to 49
      characters long, with no period in it. */
  ghost predicate IsTopicShaped(sentence: string, t: string) {
    && 5 < |t| < 50
    && !IsSpace(t[0]) && !IsSpace(t[|t| - 1])
    && (forall i :: 0 <= i < |t| ==> t[i] != '.')
    && Contains(sentence, t)
  }

  /** A topic is a trimmed piece of its sentence, 6 to 49 characters long, with
      no period in it; a sentence without an action verb has none. */
  lemma TopicOfShape(sentence: string)
    ensures TopicOf(sentence).Some? ==> IsTopicShaped(sentence, TopicOf(sentence).value)
    ensures (forall q :: 0 <= q <= |sentence| ==> !VerbAt(Lower(sentence), q)) ==> TopicOf(sentence).None?
  {
    TopicFromClause(sentence);
    NoVerbNoTopic(sentence);
  }

  lemma TopicFromClause(sentence: string)
    ensures TopicOf(sentence).Some? ==> IsTopicShaped(sentence, TopicOf(sentence).value)
  {
    var lower := Lower(sentence);
    var first := FirstVerb(lower, 0);
    if first.Some? {
      ClauseTopicShape(sentence, first.value.1);
    }
  }

  lemma NoVerbNoTopic(sentence: string)
    ensures (forall q :: 0 <= q <= |sentence| ==> !VerbAt(Lower(sentence), q)) ==> TopicOf(sentence).None?
  {
    var lower := Lower(sentence);
    var first := FirstVerb(lower, 0);
    if first.Some? {
      assert VerbAt(lower, first.value.0);
    }
  }

  /** The topic of the clause captured at `e` is a piece of the sentence, with
      no period, of the accepted length. */
  lemma ClauseTopicShape(sentence: string, e: nat)
    requires e <= |sentence|
    ensures var c := ClauseTopic(UntilPeriod(sentence[e..]));
            c.Some? ==> IsTopicShaped(sentence, c.value)
  {
    var clause := UntilPeriod(sentence[e..]);
    assert OccursAt(sentence, clause, e);
    ContainsTransitive(sentence, clause, Trim(clause));
    NoPeriodInFactor(clause, Trim(clause));
  }

  /** A factor of a text without periods has none. */
  lemma NoPeriodInFactor(s: string, t: string)
    requires forall i :: 0 <= i < |s| ==> s[i] != '.'
    requires Contains(s, t)
    ensures forall i :: 0 <= i < |t| ==> t[i] != '.'
  {
    var k :| OccursAt(s, t, k);
    forall i | 0 <= i < |t| ensures t[i] != '.' {
      assert t[i] == s[k + i];
    }
  }


  /** The values `f` yields over `xs`, in order, skipping the absent ones. */
  function Collect<X, Y>(f: X -> Option<Y>, xs: seq<X>): seq<Y>
  {
    if xs == [] then []
    else
      match f(xs[0])
      case Some(y) => [y] + Collect(f, xs[1..])
      case None => Collect(f, xs[1..])
  }

  /** Every topic the sentences yield, in sentence order, before the cut to three. */
  function AllTopics(sentences: seq<string>): seq<string>
  {
    Collect(TopicOf, sentences)
  }

  /** `extractKeyTopics`: the first three topics the sentences yield. */
  function ExtractKeyTopics(sentences: seq<string>): (r: seq<string>)
    ensures |r| <= MaxTopics
    ensures r <= AllTopics(sentences)
    ensures |r| == if |AllTopics(sentences)| < MaxTopics then |AllTopics(sentences)| else MaxTopics
    ensures forall i :: 0 <= i < |r| ==> 5 < |r[i]| < 50
  {
    var all := AllTopics(sentences);
    TopicsWellFormed(sentences);
    if |all| <= MaxTopics then all else all[..MaxTopics]
  }

  lemma TopicsWellFormed(sentences: seq<string>)
    ensures forall t :: t in AllTopics(sentences) ==> 5 < |t| < 50
  {
    forall s | s in sentences { TopicOfShape(s); }
    CollectFrom(TopicOf, sentences);
  }

  /** Everything collected is the value of some element. */
  lemma {:induction false} CollectFrom<X, Y>(f: X -> Option<Y>, xs: seq<X>)
    ensures forall y :: y in Collect(f, xs) ==> exists x :: x in xs && f(x) == Some(y)
  {
    if xs != [] {
      CollectFrom(f, xs[1..]);
      forall y | y in Collect(f, xs) ensures exists x :: x in xs && f(x) == Some(y) {
        if f(xs[0]) == Some(y) {
        } else {
          assert y in Collect(f, xs[1..]);
          var x :| x in xs[1..] && f(x) == Some(y);
          assert x in xs;
        }
      }
    }
  }

  /** Collecting over two runs is collecting over each, in order. */
  lemma {:induction false} CollectAppend<X, Y>(f: X -> Option<Y>, a: seq<X>, b: seq<X>)
    ensures Collect(f, a + b) == Collect(f, a) + Collect(f, b)
  {
    if a != [] {
      CollectAppend(f, a[1..], b);
      assert (a + b)[1..] == a[1..] + b;
    } else {
      assert a + b == b;
    }
  }

  /** Collecting never yields more values than there are elements. */
  lemma {:induction false} CollectLength<X, Y>(f: X -> Option<Y>, xs: seq<X>)
    ensures |Collect(f, xs)| <= |xs|
  {
    if xs != [] {
      CollectLength(f, xs[1..]);
    }
  }

  /** Topics follow sentence order: the topics of two runs of sentences are
      the topics of the first run followed by those of the second. */
  lemma TopicsOfAppend(a: seq<string>, b: seq<string>)
    ensures AllTopics(a + b) == AllTopics(a) + AllTopics(b)
  {
    CollectAppend(TopicOf, a, b);
  }

  /** A sentence contributes at most one topic: its own, if it has one. */
  lemma OneTopicPerSentence(sentence: string)
    ensures AllTopics([sentence]) == if TopicOf(sentence).Some? then [TopicOf(sentence).value] else []
  {
    assert [sentence][1..] == [];
    assert Collect(TopicOf, [sentence][1..]) == [];
  }

  /** There are never more topics than sentences. */
  lemma TopicsAtMostSentences(sentences: seq<string>)
    ensures |AllTopics(sentences)| <= |sentences|
  {
    CollectLength(TopicOf, sentences);
  }

  /** Once three topics are found, later sentences change nothing. */
  lemma LaterSentencesIgnored(a: seq<string>, b: seq<string>)
    requires |AllTopics(a)| >= MaxTopics
    ensures ExtractKeyTopics(a + b) == ExtractKeyTopics(a)
  {
    TopicsOfAppend(a, b);
    var all := AllTopics(a + b);
    assert all[..MaxTopics] == AllTopics(a)[..MaxTopics];
  }
}
