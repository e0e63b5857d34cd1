/**
 * Conversation memory: a bounded first-in-first-out history of
 * question/response/topic records, the current topic, keyword-scored topic
 * identification, the rewriting of vague or anaphoric follow-up questions,
 * and the context window over the last three records.
 */
module Memory {
  import opened Wrappers
  import opened Text
  import opened Rules

  /** The capacity a memory gets when none is given. */
  const DefaultMaxHistory: nat := 10

  /** One question and the response it received, with the topic of the question. */
  datatype Interaction<R> = Interaction(question: string, response: R, topic: Topic)

  /** The scored topics, in declaration order; `max` keeps the first of equal scores. */
  const TopicOrder: seq<Topic> := [Budget, Debt, Infrastructure, Taxation, Superannuation, Risk]

  /** The keywords each topic is scored by. */
  function TopicKeywords(t: Topic): seq<string> {
    match t
    case Budget => ["budget", "surplus", "deficit", "revenue", "expenses"]
    case Debt => ["debt", "borrowing", "interest", "cost", "borrowings"]
    case Infrastructure => ["infrastructure", "capital", "construction", "works", "projects"]
    case Taxation => ["taxation", "tax", "gsp", "burden", "revenue"]
    case Superannuation => ["superannuation", "pension", "funding", "liabilities"]
    case Risk => ["risk", "assessment", "mitigation", "management", "prudent"]
    case General => []
  }

  /** The number of `t`'s keywords that occur in the lower-cased text `low`. */
  function Score(t: Topic, low: string): (n: nat)
    ensures n <= |TopicKeywords(t)|
  {
    CountContained(TopicKeywords(t), low)
  }

  /** A topic scores zero exactly when none of its keywords occurs. */
  lemma {:induction false} ScoreZero(t: Topic, low: string)
    ensures Score(t, low) == 0 <==> forall i :: 0 <= i < |TopicKeywords(t)| ==> !Contains(low, TopicKeywords(t)[i])
  {
  }

  /**
   * The scan behind `max(topic_scores, key=topic_scores.get)`: walk `order`,
   * replacing the running best only on a strictly greater score.
   */
  function PickBest(order: seq<Topic>, score: Topic -> nat, best: Topic, bestScore: nat): (r: (Topic, nat))
    ensures r.1 >= bestScore
    ensures forall j :: 0 <= j < |order| ==> score(order[j]) <= r.1
    ensures r.1 == bestScore ==> r.0 == best
    ensures r.1 > bestScore ==>
      exists i :: 0 <= i < |order| && order[i] == r.0 && score(order[i]) == r.1 &&
        forall j :: 0 <= j < i ==> score(order[j]) < r.1
    decreases |order|
  {
    if |order| == 0 then (best, bestScore)
    else
      var s := score(order[0]);
      var r := if s > bestScore then PickBest(order[1..], score, order[0], s)
               else PickBest(order[1..], score, best, bestScore);
      assert forall j :: 1 <= j < |order| ==> order[1..][j - 1] == order[j];
      assert r.1 > bestScore ==>
        exists i :: 0 <= i < |order| && order[i] == r.0 && score(order[i]) == r.1 &&
          forall j :: 0 <= j < i ==> score(order[j]) < r.1 by {
        if r.1 > bestScore {
          if s > bestScore && r.1 == s {
            assert order[0] == r.0 && score(order[0]) == r.1;
          } else {
            var i :| 0 <= i < |order[1..]| && order[1..][i] == r.0 && score(order[1..][i]) == r.1 &&
              forall j :: 0 <= j < i ==> score(order[1..][j]) < r.1;
            assert order[i + 1] == r.0;
            assert forall j :: 0 <= j < i + 1 ==> score(order[j]) < r.1 by {
              forall j | 0 <= j < i + 1 ensures score(order[j]) < r.1 {
                if j > 0 {
                  assert order[j] == order[1..][j - 1];
                }
              }
            }
          }
        }
      }
      r
  }

  /** `_identify_topic`: the topic of the lower-cased text. */
  function IdentifyTopic(text: string): (t: Topic)
    ensures t == General || Score(t, Lower(text)) > 0
  {
    TopicOfSpec(Lower(text));
    TopicOf(Lower(text))
  }

  /** The best-scoring topic of the lower-cased text `low`, `General` when nothing scores. */
  function TopicOf(low: string): Topic {
    PickBest(TopicOrder, ScoresIn(low), General, 0).0
  }

  /**
   * `General` exactly when no topic scores above zero; otherwise a topic
   * with the highest score, the earliest declared one among equal highest
   * scores.
   */
  lemma {:induction false} TopicOfSpec(low: string)
    ensures TopicOf(low) == General <==> forall j :: 0 <= j < |TopicOrder| ==> Score(TopicOrder[j], low) == 0
    ensures TopicOf(low) != General ==>
      exists i :: 0 <= i < |TopicOrder| && TopicOrder[i] == TopicOf(low) && Score(TopicOf(low), low) > 0 &&
        (forall j :: 0 <= j < i ==> Score(TopicOrder[j], low) < Score(TopicOf(low), low)) &&
        (forall j :: 0 <= j < |TopicOrder| ==> Score(TopicOrder[j], low) <= Score(TopicOf(low), low))
  {
    var f := ScoresIn(low);
    assert forall t :: f(t) == Score(t, low);
    PickBestSpec(TopicOrder, f, General);
  }

  /**
   * Scanning from the fallback with score zero, the fallback stays exactly
   * when nothing scores above zero; otherwise the winner is a position with
   * the highest score that every earlier position stays strictly below.
   */
  lemma {:induction false} PickBestSpec(order: seq<Topic>, score: Topic -> nat, fallback: Topic)
    requires forall j :: 0 <= j < |order| ==> order[j] != fallback
    ensures PickBest(order, score, fallback, 0).0 == fallback <==> forall j :: 0 <= j < |order| ==> score(order[j]) == 0
    ensures var t := PickBest(order, score, fallback, 0).0;
      t != fallback ==>
        exists i :: 0 <= i < |order| && order[i] == t && score(t) > 0 &&
          (forall j :: 0 <= j < i ==> score(order[j]) < score(t)) &&
          (forall j :: 0 <= j < |order| ==> score(order[j]) <= score(t))
  {
    var r := PickBest(order, score, fallback, 0);
    if r.1 > 0 {
      var i :| 0 <= i < |order| && order[i] == r.0 && score(order[i]) == r.1 &&
        forall j :: 0 <= j < i ==> score(order[j]) < r.1;
    }
  }

  /** Each topic's score on the lower-cased text `low`. */
  function ScoresIn(low: string): Topic -> nat {
    t => Score(t, low)
  }

  /** The phrases that mark a question as a vague continuation. */
  const VaguePhrases: seq<string> := ["tell me more", "what about it", "explain more", "more details"]

  /** The words that mark a question as referring back (matched as substrings, not as words). */
  const Pronouns: seq<string> := ["that", "this", "it"]

  /** The vague-continuation rule: a vague phrase and a current topic other than `General`. */
  predicate VagueRuleFires(question: string, topic: Option<Topic>) {
    AnyContained(VaguePhrases, Lower(question)) && topic.Some? && topic.value != General
  }

  /** The reference rule: a pronoun substring and any current topic. */
  predicate PronounRuleFires(question: string, topic: Option<Topic>) {
    AnyContained(Pronouns, Lower(question)) && topic.Some?
  }

  /**
   * `enhance_question` on a memory whose current topic is `topic`. The
   * question is always kept as a prefix, and it is extended exactly when
   * one of the two rules fires: by ` about <topic>` when the vague rule
   * fires, which wins over the reference rule, and otherwise by
   * ` (referring to <topic>)`; with no current topic it is never changed.
   */
  function Enhance(question: string, topic: Option<Topic>): (r: string)
    ensures question <= r
    ensures |r| > |question| <==> VagueRuleFires(question, topic) || PronounRuleFires(question, topic)
    ensures topic.None? ==> r == question
    ensures VagueRuleFires(question, topic) ==> r == question + " about " + TopicName(topic.value)
    ensures !VagueRuleFires(question, topic) && PronounRuleFires(question, topic) ==>
      r == question + " (referring to " + TopicName(topic.value) + ")"
  {
    if VagueRuleFires(question, topic) then
      question + " about " + TopicName(topic.value)
    else if PronounRuleFires(question, topic) then
      question + " (referring to " + TopicName(topic.value) + ")"
    else
      question
  }

  /** An enhanced question names the current topic. */
  lemma {:induction false} EnhanceNamesTopic(question: string, topic: Option<Topic>)
    requires VagueRuleFires(question, topic) || PronounRuleFires(question, topic)
    ensures Contains(Enhance(question, topic), TopicName(topic.value))
  {
    var r := Enhance(question, topic);
    var name := TopicName(topic.value);
    if VagueRuleFires(question, topic) {
      assert r[|question| + 7..|question| + 7 + |name|] == name;
      assert OccursAt(r, name, |question| + 7);
    } else {
      assert r[|question| + 15..|question| + 15 + |name|] == name;
      assert OccursAt(r, name, |question| + 15);
    }
  }

  /**
   * The reference rule is a substring test, so a question mentioning
   * "capital" or "with" counts as referring back ("it" occurs inside both),
   * and it is rewritten with the current topic unless the vague rule fired first.
   */
  lemma {:induction false} HiddenPronounRewrites(question: string, t: Topic)
    requires Contains(Lower(question), "capital") || Contains(Lower(question), "with")
    requires t == General || !AnyContained(VaguePhrases, Lower(question))
    ensures Enhance(question, Some(t)) == question + " (referring to " + TopicName(t) + ")"
  {
    var low := Lower(question);
    if Contains(low, "capital") {
      assert OccursAt("capital", "it", 3);
      ContainsTransitive(low, "capital", "it");
    } else {
      assert OccursAt("with", "it", 1);
      ContainsTransitive(low, "with", "it");
    }
    assert Contains(low, Pronouns[2]);
  }

  /**
   * A vague phrase while the current topic is `general` falls through to the
   * reference rule: "what about it" contains "it", so the question is
   * rewritten as referring to `general`.
   */
  lemma {:induction false} VagueGeneralFallsThrough(question: string)
    requires Contains(Lower(question), "what about it")
    ensures Enhance(question, Some(General)) == question + " (referring to general)"
  {
    var low := Lower(question);
    assert OccursAt("what about it", "it", 11);
    ContainsTransitive(low, "what about it", "it");
    assert Contains(low, Pronouns[2]);
    assert PronounRuleFires(question, Some(General)) && !VagueRuleFires(question, Some(General));
    assert " (referring to " + TopicName(General) + ")" == " (referring to general)";
  }

  /**
   * The converse of `TopicOfSpec`: a topic scoring above zero,
   * at least as high as every topic and strictly higher than every earlier
   * one, is the topic identified.
   */
  lemma {:induction false} EarliestMaximumIdentified(text: string, i: nat)
    requires i < |TopicOrder|
    requires Score(TopicOrder[i], Lower(text)) > 0
    requires forall j :: 0 <= j < |TopicOrder| ==> Score(TopicOrder[j], Lower(text)) <= Score(TopicOrder[i], Lower(text))
    requires forall j :: 0 <= j < i ==> Score(TopicOrder[j], Lower(text)) < Score(TopicOrder[i], Lower(text))
    ensures IdentifyTopic(text) == TopicOrder[i]
  {
    PickBestEarliest(TopicOrder, ScoresIn(Lower(text)), i);
  }

  /** The scan picks the position holding a positive maximum that every earlier position stays strictly below. */
  lemma {:induction false} PickBestEarliest(order: seq<Topic>, score: Topic -> nat, i: nat)
    requires i < |order| && score(order[i]) > 0
    requires forall j :: 0 <= j < |order| ==> score(order[j]) <= score(order[i])
    requires forall j :: 0 <= j < i ==> score(order[j]) < score(order[i])
    ensures PickBest(order, score, General, 0).0 == order[i]
  {
    var r := PickBest(order, score, General, 0);
    var k :| 0 <= k < |order| && order[k] == r.0 && score(order[k]) == r.1 &&
      forall j :: 0 <= j < k ==> score(order[j]) < r.1;
    assert score(order[i]) <= r.1;
    if k < i {
      assert score(order[k]) < score(order[i]);
    }
  }

  /** What `get_context` reports. */
  datatype Context = Context(currentTopic: Topic, recentTopics: seq<Topic>, historyLength: nat)


  /**
   * `get_context` on a history and a current topic: the number of records,
   * the topics of the last three records in order (duplicates kept), and
   * the current topic with `General` standing in for an unset one.
   */
  function ContextOf<R>(history: seq<Interaction<R>>, topic: Option<Topic>): (c: Context)
    ensures c.historyLength == |history|
    ensures |c.recentTopics| == Min(3, |history|)
    ensures forall i :: 0 <= i < |c.recentTopics| ==>
      c.recentTopics[i] == history[|history| - |c.recentTopics| + i].topic
    ensures topic.Some? ==> c.currentTopic == topic.value
    ensures topic.None? ==> c.currentTopic == General
  {
    var window := if |history| <= 3 then history else history[|history| - 3..];
    Context(topic.GetOr(General), seq(|window|, i requires 0 <= i < |window| => window[i].topic), |history|)
  }

  /** The history after `add_interaction` appends `x` and pops the oldest record when over capacity. */
  function Appended<R>(history: seq<Interaction<R>>, cap: nat, x: Interaction<R>): (h: seq<Interaction<R>>)
    ensures |history| <= cap ==> |h| == Min(|history| + 1, cap)
    ensures |history| <= cap && cap > 0 ==> h[|h| - 1] == x
    ensures |history| < cap ==> h == history + [x]
    ensures |history| == cap > 0 ==> h == history[1..] + [x]
  {
    var grown := history + [x];
    if |grown| > cap then grown[1..] else grown
  }

  /** The history after recording each of `xs` in turn. */
  function AppendedAll<R>(history: seq<Interaction<R>>, cap: nat, xs: seq<Interaction<R>>): seq<Interaction<R>>
    decreases |xs|
  {
    if |xs| == 0 then history else AppendedAll(Appended(history, cap, xs[0]), cap, xs[1..])
  }

  /** The last `n` elements of `s` (all of them when there are fewer). */
  function LastN<X>(s: seq<X>, n: nat): seq<X> {
    if |s| <= n then s else s[|s| - n..]
  }

  lemma LastNAppend<X>(a: seq<X>, b: seq<X>, n: nat)
    ensures LastN(LastN(a, n) + b, n) == LastN(a + b, n)
  {
    if |a| > n {
      var a' := a[|a| - n..];
      assert (a' + b)[|a' + b| - Min(n, |a' + b|)..] == (a + b)[|a + b| - Min(n, |a + b|)..];
    }
  }

  /** Within capacity, one append keeps the last `cap` records of the history followed by the new one. */
  lemma AppendedIsLastN<R>(history: seq<Interaction<R>>, cap: nat, x: Interaction<R>)
    requires |history| <= cap
    ensures Appended(history, cap, x) == LastN(history + [x], cap)
  {
  }

  /**
   * The history is a sliding window: from a history within capacity,
   * recording `xs` one by one leaves exactly the last `cap` records of the
   * old history followed by `xs`, in order.
   */
  lemma {:induction false} SlidingWindow<R>(history: seq<Interaction<R>>, cap: nat, xs: seq<Interaction<R>>)
    requires |history| <= cap
    ensures AppendedAll(history, cap, xs) == LastN(history + xs, cap)
    decreases |xs|
  {
    if |xs| == 0 {
      assert history + xs == history;
    } else {
      var grown := history + [xs[0]];
      var next := Appended(history, cap, xs[0]);
      calc {
        AppendedAll(history, cap, xs);
        AppendedAll(next, cap, xs[1..]);
        { SlidingWindow(next, cap, xs[1..]); }
        LastN(next + xs[1..], cap);
        { AppendedIsLastN(history, cap, xs[0]); }
        LastN(LastN(grown, cap) + xs[1..], cap);
        { LastNAppend(grown, xs[1..], cap); }
        LastN(grown + xs[1..], cap);
        { assert grown + xs[1..] == history + xs; }
        LastN(history + xs, cap);
      }
    }
  }

  /**
   * Recording one more interaction than the capacity into an empty history
   * keeps `cap` records and drops the first one recorded.
   */
  lemma {:induction false} OverflowDropsOldest<R>(cap: nat, xs: seq<Interaction<R>>)
    requires |xs| == cap + 1
    ensures |AppendedAll([], cap, xs)| == cap
    ensures AppendedAll([], cap, xs) == xs[1..]
  {
    SlidingWindow([], cap, xs);
    assert [] + xs == xs;
  }

  /** `ConversationMemory`: the history (oldest first), the current topic and the capacity. */
  class ConversationMemory<R> {
    const maxHistory: nat
    var history: seq<Interaction<R>>
    var currentTopic: Option<Topic>

    /** The history never holds more than `maxHistory` records. */
    ghost predicate Valid()
      reads this
    {
      |history| <= maxHistory
    }

    constructor(maxHistory: nat)
      ensures Valid()
      ensures this.maxHistory == maxHistory && history == [] && currentTopic == None
    {
      this.maxHistory := maxHistory;
      history := [];
      currentTopic := None;
    }

    /**
     * `add_interaction`: the record is appended last with the topic of the
     * question, that topic becomes current, and the oldest record is
     * dropped when the history grows past capacity.
     */
    method AddInteraction(question: string, response: R)
      requires Valid()
      modifies this
      ensures Valid()
      ensures history == Appended(old(history), maxHistory, Interaction(question, response, IdentifyTopic(question)))
      ensures |history| == Min(|old(history)| + 1, maxHistory)
      ensures currentTopic == Some(IdentifyTopic(question))
      ensures maxHistory > 0 ==> history[|history| - 1] == Interaction(question, response, IdentifyTopic(question))
      ensures |old(history)| == maxHistory > 0 ==> history[..|history| - 1] == old(history)[1..]
    {
      var interaction := Interaction(question, response, IdentifyTopic(question));
      var grown := history + [interaction];
      if |grown| > maxHistory {
        history := grown[1..];
      } else {
        history := grown;
      }
      currentTopic := Some(interaction.topic);
    }

    /** `enhance_question` against this memory's current topic: the question, possibly extended, never changed without a topic. */
    function EnhanceQuestion(question: string): (r: string)
      reads this
      ensures question <= r
      ensures currentTopic.None? ==> r == question
    {
      Enhance(question, currentTopic)
    }

    /** `get_context` for this memory: its record count, its last topics and its current topic. */
    function GetContext(): (c: Context)
      reads this
      ensures c.historyLength == |history| && |c.recentTopics| == Min(3, |history|)
      ensures c.currentTopic == currentTopic.GetOr(General)
    {
      ContextOf(history, currentTopic)
    }

    /** `clear_history`: no records and no current topic. */
    method ClearHistory()
      modifies this
      ensures history == [] && currentTopic == None
      ensures GetContext() == Context(General, [], 0)
    {
      history := [];
      currentTopic := None;
    }
  }
}
