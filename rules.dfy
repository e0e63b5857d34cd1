/**
 * Topics and the first-match-wins keyword rule lists that the chatbot uses
 * to classify a document section and to pick a response template.
 */
module Rules {
  import opened Text

  /**
   * The subject categories, declared in the order the conversation memory
   * and the section classifier scan them; `General` is the fallback.
   */
  datatype Topic = Budget | Debt | Infrastructure | Taxation | Superannuation | Risk | General

  /** The topic's name as the program spells it. */
  function TopicName(t: Topic): (name: string)
    ensures |name| > 0
    ensures forall i :: 0 <= i < |name| ==> 'a' <= name[i] <= 'z'
  {
    match t
    case Budget => "budget"
    case Debt => "debt"
    case Infrastructure => "infrastructure"
    case Taxation => "taxation"
    case Superannuation => "superannuation"
    case Risk => "risk"
    case General => "general"
  }

  /** Distinct topics have distinct names. */
  lemma {:induction false} TopicNameInjective(t: Topic, u: Topic)
    requires TopicName(t) == TopicName(u)
    ensures t == u
  {
    var n := TopicName(t);
    assert n[0] == TopicName(u)[0];
    if |n| >= 2 {
      assert n[1] == TopicName(u)[1];
    }
  }

  /** One entry of a ranked rule list: `tag` applies when any of `words` occurs in the text. */
  datatype Rule<T> = Rule(tag: T, words: seq<string>)

  /** Rule `rule` fires on the lower-cased text `low`. */
  predicate Fires<T>(rule: Rule<T>, low: string) {
    AnyContained(rule.words, low)
  }

  /**
   * The position of the first rule that fires on `low`, or `|rules|` when
   * none does: an `if/elif` chain of `any(word in low for word in [...])`.
   */
  function FirstMatch<T>(rules: seq<Rule<T>>, low: string): (k: nat)
    ensures k <= |rules|
  {
    if |rules| == 0 then 0
    else if Fires(rules[0], low) then 0
    else 1 + FirstMatch(rules[1..], low)
  }

  /** The chosen rule fires, and no earlier one does. */
  lemma {:induction false} FirstMatchFirst<T>(rules: seq<Rule<T>>, low: string)
    ensures FirstMatch(rules, low) < |rules| ==> Fires(rules[FirstMatch(rules, low)], low)
    ensures forall j :: 0 <= j < FirstMatch(rules, low) ==> !Fires(rules[j], low)
  {
    if |rules| > 0 && !Fires(rules[0], low) {
      FirstMatchFirst(rules[1..], low);
      var k := FirstMatch(rules[1..], low);
      assert forall j :: 0 <= j < k ==> rules[1..][j] == rules[j + 1];
    }
  }

  /** The tag of the first rule that fires on the lower-cased `text`, else `fallback`. */
  function Classify<T>(rules: seq<Rule<T>>, fallback: T, text: string): (r: T)
    ensures r == fallback || exists k :: 0 <= k < |rules| && rules[k].tag == r && Fires(rules[k], Lower(text))
  {
    FirstMatchFirst(rules, Lower(text));
    var k := FirstMatch(rules, Lower(text));
    if k < |rules| then rules[k].tag else fallback
  }

  /** No rule fires, so the fallback is chosen. */
  lemma ClassifyFallback<T>(rules: seq<Rule<T>>, fallback: T, text: string)
    requires forall j :: 0 <= j < |rules| ==> !Fires(rules[j], Lower(text))
    ensures Classify(rules, fallback, text) == fallback
  {
    FirstMatchFirst(rules, Lower(text));
  }

  /** Rule `k` fires and no earlier rule does, so its tag is chosen. */
  lemma ClassifyFirst<T>(rules: seq<Rule<T>>, fallback: T, text: string, k: nat)
    requires k < |rules| && Fires(rules[k], Lower(text))
    requires forall j :: 0 <= j < k ==> !Fires(rules[j], Lower(text))
    ensures Classify(rules, fallback, text) == rules[k].tag
  {
    FirstMatchFirst(rules, Lower(text));
  }
}
