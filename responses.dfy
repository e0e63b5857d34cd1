/**
 * Response synthesis: the empty-results guard, the first-match template
 * dispatch on the (enhanced) question, the combination of the top two
 * retrieved passages, and the sentence bullets of the general template.
 * The topical templates render static tables and prose, so a reply records
 * which template fired and what it was given, not its text.
 */
module Responses {
  import opened Wrappers
  import opened Text
  import Rules
  import Documents

  /** The response templates. */
  datatype Template = Budget | Debt | Infrastructure | Taxation | Risk | Superannuation | General

  /** Template triggers, tested in this order; risk comes before superannuation here. */
  const TemplateRules: seq<Rules.Rule<Template>> := [
    Rules.Rule(Budget, ["budget", "surplus", "deficit"]),
    Rules.Rule(Debt, ["debt", "borrowing", "interest"]),
    Rules.Rule(Infrastructure, ["infrastructure", "capital", "construction"]),
    Rules.Rule(Taxation, ["tax", "taxation", "revenue"]),
    Rules.Rule(Risk, ["risk", "assessment", "mitigation", "management"]),
    Rules.Rule(Superannuation, ["superannuation", "pension", "funding"])
  ]

  /**
   * The template `_create_contextual_response` picks: the first whose
   * trigger word occurs in the lower-cased question, `General` when none does.
   */
  function ChooseTemplate(question: string): (t: Template)
    ensures t == General <==> forall j :: 0 <= j < |TemplateRules| ==> !Rules.Fires(TemplateRules[j], Lower(question))
    ensures t != General ==>
      exists k :: 0 <= k < |TemplateRules| && TemplateRules[k].tag == t && Rules.Fires(TemplateRules[k], Lower(question)) &&
        forall j :: 0 <= j < k ==> !Rules.Fires(TemplateRules[j], Lower(question))
  {
    Rules.FirstMatchFirst(TemplateRules, Lower(question));
    assert forall j :: 0 <= j < |TemplateRules| ==> TemplateRules[j].tag != General;
    Rules.Classify(TemplateRules, General, question)
  }

  /**
   * The two rule lists rank risk and superannuation differently: a text that
   * mentions risk and pensions and none of the earlier categories is filed
   * as a superannuation section, but as a question it gets the risk template.
   */
  lemma {:induction false} RiskAndPensionDisagree(text: string)
    requires Contains(Lower(text), "risk") && Contains(Lower(text), "pension")
    requires forall j :: 0 <= j < 4 ==> !Rules.Fires(Documents.SectionRules[j], Lower(text))
    requires forall j :: 0 <= j < 4 ==> !Rules.Fires(TemplateRules[j], Lower(text))
    ensures Documents.SectionType(text) == Rules.Superannuation
    ensures ChooseTemplate(text) == Risk
  {
    var low := Lower(text);
    assert Contains(low, Documents.SectionRules[4].words[1]);
    Rules.ClassifyFirst(Documents.SectionRules, Rules.General, text, 4);
    assert Contains(low, TemplateRules[4].words[0]);
    Rules.ClassifyFirst(TemplateRules, General, text, 4);
  }

  /** One search hit: the stored passage and the section type recorded in its metadata, if any. */
  datatype SearchResult = SearchResult(content: string, sectionType: Option<string>)

  /** The provenance label of a hit, `Section: <type>`, with `Unknown` for a missing type. */
  function SourceLabel(r: SearchResult): (l: string)
    ensures |l| >= 9 && l[..9] == "Section: "
    ensures l[9..] == r.sectionType.GetOr("Unknown")
  {
    "Section: " + r.sectionType.GetOr("Unknown")
  }

  /** Two hits get the same label exactly when they name the same section type, `Unknown` for a missing one. */
  lemma {:induction false} SourceLabelInjective(a: SearchResult, b: SearchResult)
    ensures SourceLabel(a) == SourceLabel(b) <==> a.sectionType.GetOr("Unknown") == b.sectionType.GetOr("Unknown")
  {
    if SourceLabel(a) == SourceLabel(b) {
      assert SourceLabel(a)[9..] == SourceLabel(b)[9..];
    }
  }

  /** What a response is built from: which template fired, the combined passages, the general bullets and the distinct sources. */
  datatype Reply =
    | NotFound
    | Formatted(template: Template, combined: string, bullets: seq<string>, sources: set<string>)

  /** A sentence longer than 30 characters once stripped, the length a bullet needs. */
  predicate IsLong(sentence: string) {
    |Strip(sentence)| > 30
  }

  /** `[s for s in sentences if len(s.strip()) > 30]`: long sentences only, in order. */
  function LongSentences(sentences: seq<string>): (r: seq<string>)
    ensures |r| <= |sentences|
    ensures forall i :: 0 <= i < |r| ==> IsLong(r[i]) && r[i] in sentences
  {
    Filter(sentences, IsLong, 0)
  }

  /** The filter keeps every long sentence. */
  lemma {:induction false} LongSentencesComplete(sentences: seq<string>, j: nat)
    requires j < |sentences| && IsLong(sentences[j])
    ensures sentences[j] in LongSentences(sentences)
  {
    FilterComplete(sentences, IsLong, 0, j);
  }

  /**
   * The long sentences keep the input order, duplicates included: one more
   * sentence adds itself at the end exactly when it is long.
   */
  lemma {:induction false} LongSentencesSnoc(sentences: seq<string>, s: string)
    ensures LongSentences(sentences + [s]) == LongSentences(sentences) + (if IsLong(s) then [s] else [])
  {
    FilterSnoc(sentences, s, IsLong, 0);
  }

  /** `[x for x in xs[k:] if keep(x)]`. */
  function Filter<X>(xs: seq<X>, keep: X -> bool, k: nat): (r: seq<X>)
    requires k <= |xs|
    ensures |r| <= |xs| - k
    ensures forall i :: 0 <= i < |r| ==> keep(r[i]) && r[i] in xs
    decreases |xs| - k
  {
    if k == |xs| then []
    else
      var rest := Filter(xs, keep, k + 1);
      if keep(xs[k]) then [xs[k]] + rest else rest
  }

  /** The filter drops nothing it should keep. */
  lemma {:induction false} FilterComplete<X>(xs: seq<X>, keep: X -> bool, k: nat, j: nat)
    requires k <= j < |xs| && keep(xs[j])
    ensures xs[j] in Filter(xs, keep, k)
    decreases |xs| - k
  {
    if k < j {
      FilterComplete(xs, keep, k + 1, j);
    }
  }

  /**
   * The filter keeps the input order: filtering a sequence extended by one
   * element extends the result by that element exactly when it is kept.
   */
  lemma {:induction false} FilterSnoc<X>(xs: seq<X>, x: X, keep: X -> bool, k: nat)
    requires k <= |xs|
    ensures Filter(xs + [x], keep, k) == Filter(xs, keep, k) + (if keep(x) then [x] else [])
    decreases |xs| - k
  {
    if k == |xs| {
      assert Filter(xs + [x], keep, k + 1) == [];
    } else {
      FilterSnoc(xs, x, keep, k + 1);
      assert (xs + [x])[k] == xs[k];
    }
  }

  /** The sentences the general template turns into bullets: the first three long ones. */
  function RelevantSentences(content: string): (r: seq<string>)
    ensures r <= LongSentences(Split(content, ". "))
    ensures |r| == Min(3, |LongSentences(Split(content, ". "))|)
    ensures forall i :: 0 <= i < |r| ==> IsLong(r[i]) && r[i] in Split(content, ". ")
  {
    var long := LongSentences(Split(content, ". "));
    if |long| <= 3 then long else long[..3]
  }

  /**
   * The bullets of the general template: the first three `". "`-separated
   * sentences of the content longer than 30 characters once stripped (all
   * of them when there are fewer), stripped and in order.
   */
  function GeneralBullets(content: string): (bullets: seq<string>)
    ensures |bullets| == Min(3, |LongSentences(Split(content, ". "))|)
    ensures forall i :: 0 <= i < |bullets| ==> |bullets[i]| > 30
    ensures forall i :: 0 <= i < |bullets| ==> exists s :: s in Split(content, ". ") && bullets[i] == Strip(s)
    ensures forall i :: 0 <= i < |bullets| ==> bullets[i] == Strip(LongSentences(Split(content, ". "))[i])
  {
    var pieces := Split(content, ". ");
    var long := LongSentences(pieces);
    var relevant := RelevantSentences(content);
    assert forall i :: 0 <= i < |relevant| ==> relevant[i] == long[i];
    var bullets := StripAll(relevant);
    forall i | 0 <= i < |bullets|
      ensures |bullets[i]| > 30 && bullets[i] == Strip(long[i])
      ensures exists s :: s in pieces && bullets[i] == Strip(s)
    {
      assert bullets[i] == Strip(relevant[i]) && relevant[i] == long[i];
      assert IsLong(long[i]) && long[i] in pieces;
    }
    bullets
  }

  /** Each sentence with its surrounding whitespace removed. */
  function StripAll(sentences: seq<string>): (r: seq<string>)
    ensures |r| == |sentences|
    ensures forall i :: 0 <= i < |r| ==> r[i] == Strip(sentences[i])
  {
    seq(|sentences|, i requires 0 <= i < |sentences| => Strip(sentences[i]))
  }

  /** The passages of the hits, in rank order. */
  function Contents(results: seq<SearchResult>): (cs: seq<string>)
    ensures |cs| == |results| && forall i :: 0 <= i < |cs| ==> cs[i] == results[i].content
  {
    seq(|results|, i requires 0 <= i < |results| => results[i].content)
  }

  /** The provenance labels of the hits, in rank order. */
  function Sources(results: seq<SearchResult>): (ss: seq<string>)
    ensures |ss| == |results| && forall i :: 0 <= i < |ss| ==> ss[i] == SourceLabel(results[i])
  {
    seq(|results|, i requires 0 <= i < |results| => SourceLabel(results[i]))
  }

  /** `" ".join(content_pieces[:2])`: only the two best passages are combined. */
  function CombineTopTwo(contents: seq<string>): (r: string)
    ensures |contents| == 0 ==> r == ""
    ensures |contents| == 1 ==> r == contents[0]
    ensures |contents| >= 2 ==> r == contents[0] + " " + contents[1]
  {
    var top := contents[..Min(2, |contents|)];
    if |top| == 2 then
      assert top[1..] == [contents[1]];
      assert Join(top[1..], " ") == contents[1];
      Join(top, " ")
    else
      Join(top, " ")
  }

  /** What `_create_contextual_response` builds from the question, the passages and the labels. */
  function ContextualReply(question: string, contents: seq<string>, sources: seq<string>): (r: Reply)
    ensures r.Formatted? && r.template == ChooseTemplate(question)
    ensures r.combined == CombineTopTwo(contents)
    ensures r.template == General ==> r.bullets == GeneralBullets(r.combined)
    ensures r.template != General ==> r.bullets == []
    ensures forall s :: s in r.sources <==> s in sources
  {
    var combined := CombineTopTwo(contents);
    var t := ChooseTemplate(question);
    Formatted(t, combined, if t == General then GeneralBullets(combined) else [], set s | s in sources)
  }

  /**
   * What `_generate_response` returns: the fixed not-found reply exactly
   * when there are no hits, whatever the question; otherwise the one
   * template chosen from the question, fed the top two passages and the
   * labels of all hits.
   */
  function ResponseFor(question: string, results: seq<SearchResult>): (r: Reply)
    ensures r.NotFound? <==> |results| == 0
    ensures r.Formatted? ==>
      && r.template == ChooseTemplate(question)
      && r.combined == Join(Contents(results)[..Min(2, |results|)], " ")
      && forall s :: s in r.sources <==> exists i :: 0 <= i < |results| && s == SourceLabel(results[i])
  {
    if |results| == 0 then NotFound else ContextualReply(question, Contents(results), Sources(results))
  }

  /** Hits that agree on the top two passages and on their labels give the same reply. */
  lemma {:induction false} OnlyTopTwoPassagesMatter(question: string, a: seq<SearchResult>, b: seq<SearchResult>)
    requires |a| > 0 && |b| > 0
    requires Contents(a)[..Min(2, |a|)] == Contents(b)[..Min(2, |b|)]
    requires (set s | s in Sources(a)) == (set s | s in Sources(b))
    ensures ResponseFor(question, a) == ResponseFor(question, b)
  {
    var ra := ContextualReply(question, Contents(a), Sources(a));
    var rb := ContextualReply(question, Contents(b), Sources(b));
    assert ra.combined == rb.combined;
    assert ra.sources == rb.sources;
  }

  /**
   * `_format_general_response`: bullets from the first three long
   * sentences of the combined content, and the distinct sources.
   */
  method FormatGeneralResponse(content: string, sources: seq<string>) returns (reply: Reply)
    ensures reply == Formatted(General, content, GeneralBullets(content), set s | s in sources)
  {
    var relevant := RelevantSentences(content);
    var bullets := BulletLines(relevant);
    assert bullets == StripAll(relevant);
    reply := Formatted(General, content, bullets, set s | s in sources);
  }

  /**
   * The bullet loop of `_format_general_response`: each sentence is stripped
   * and kept if longer than 20 characters, which every long sentence is.
   */
  method BulletLines(relevant: seq<string>) returns (bullets: seq<string>)
    requires forall k :: 0 <= k < |relevant| ==> IsLong(relevant[k])
    ensures |bullets| == |relevant|
    ensures forall k :: 0 <= k < |bullets| ==> bullets[k] == Strip(relevant[k])
  {
    bullets := [];
    var i := 0;
    while i < |relevant|
      invariant 0 <= i <= |relevant|
      invariant |bullets| == i
      invariant forall k :: 0 <= k < i ==> bullets[k] == Strip(relevant[k])
    {
      var sentence := Strip(relevant[i]);
      assert IsLong(relevant[i]);
      if |sentence| > 20 {
        bullets := bullets + [sentence];
      }
      i := i + 1;
    }
  }

  /** `_create_contextual_response`. */
  method CreateContextualResponse(question: string, contents: seq<string>, sources: seq<string>) returns (reply: Reply)
    ensures reply == ContextualReply(question, contents, sources)
  {
    var combined := CombineTopTwo(contents);
    var template := ChooseTemplate(question);
    if template == General {
      reply := FormatGeneralResponse(combined, sources);
    } else {
      reply := Formatted(template, combined, [], set s | s in sources);
    }
  }

  /** `_generate_response`: the guard, then the passages and labels gathered hit by hit. */
  method GenerateResponse(question: string, results: seq<SearchResult>) returns (reply: Reply)
    ensures reply == ResponseFor(question, results)
  {
    if |results| == 0 {
      return NotFound;
    }
    var contents: seq<string> := [];
    var sources: seq<string> := [];
    var i := 0;
    while i < |results|
      invariant 0 <= i <= |results|
      invariant contents == Contents(results[..i])
      invariant sources == Sources(results[..i])
    {
      contents := contents + [results[i].content];
      sources := sources + [SourceLabel(results[i])];
      i := i + 1;
    }
    assert results[..i] == results;
    reply := CreateContextualResponse(question, contents, sources);
  }
}
