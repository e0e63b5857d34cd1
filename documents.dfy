/**
 * The document processor: section classification, the shape of the
 * extracted financial data, and the numbered chunk records built from the
 * pieces the text splitter returns.
 */
module Documents {
  import opened Wrappers
  import opened Text
  import opened Rules

  /** Section indicators, scanned in this order; the first category with a word in the text wins. */
  const SectionRules: seq<Rule<Topic>> := [
    Rule(Budget, ["budget", "surplus", "deficit", "operating result"]),
    Rule(Debt, ["debt", "borrowing", "interest cost"]),
    Rule(Infrastructure, ["infrastructure", "capital", "construction"]),
    Rule(Taxation, ["taxation", "tax burden", "gsp"]),
    Rule(Superannuation, ["superannuation", "pension", "funding"]),
    Rule(Risk, ["risk", "assessment", "mitigation"])
  ]

  /**
   * `_identify_section_type`: the first category, in the order budget, debt,
   * infrastructure, taxation, superannuation, risk, one of whose indicator
   * words occurs in the lower-cased text; `General` when none does.
   */
  function SectionType(text: string): (t: Topic)
    ensures t == General <==> forall j :: 0 <= j < |SectionRules| ==> !Fires(SectionRules[j], Lower(text))
    ensures t != General ==>
      exists k :: 0 <= k < |SectionRules| && SectionRules[k].tag == t && Fires(SectionRules[k], Lower(text)) &&
        forall j :: 0 <= j < k ==> !Fires(SectionRules[j], Lower(text))
  {
    FirstMatchFirst(SectionRules, Lower(text));
    assert forall j :: 0 <= j < |SectionRules| ==> SectionRules[j].tag != General;
    Classify(SectionRules, General, text)
  }

  /** What `extract_financial_data` returns for one chunk. */
  datatype FinancialData = FinancialData(
    dollarAmounts: seq<string>,
    percentages: seq<string>,
    years: seq<string>,
    keywords: set<string>)

  /**
   * The regular-expression scans of `extract_financial_data`, each giving
   * its matches in text order; `keywordPatterns` holds the five keyword
   * families.
   */
  datatype Extractors = Extractors(
    dollars: string -> seq<string>,
    percents: string -> seq<string>,
    years: string -> seq<string>,
    keywordPatterns: seq<string -> seq<string>>)

  /** The keyword matches of every family, with duplicates merged. */
  function KeywordSet(patterns: seq<string -> seq<string>>, text: string): (ks: set<string>)
    ensures forall k :: k in ks <==> exists i :: 0 <= i < |patterns| && k in patterns[i](text)
  {
    if |patterns| == 0 then {}
    else
      var rest := KeywordSet(patterns[1..], text);
      assert forall i :: 1 <= i < |patterns| ==> patterns[i] == patterns[1..][i - 1];
      (set k | k in patterns[0](text)) + rest
  }

  /** `extract_financial_data`: the three scans as they are, the keyword matches as a set. */
  function ExtractFinancialData(text: string, ex: Extractors): (d: FinancialData)
    ensures d.dollarAmounts == ex.dollars(text) && d.percentages == ex.percents(text) && d.years == ex.years(text)
    ensures forall k :: k in d.keywords <==> exists i :: 0 <= i < |ex.keywordPatterns| && k in ex.keywordPatterns[i](text)
  {
    FinancialData(ex.dollars(text), ex.percents(text), ex.years(text), KeywordSet(ex.keywordPatterns, text))
  }

  datatype ChunkMetadata = ChunkMetadata(chunkIndex: nat, wordCount: nat, hasFinancialData: bool)

  /** One processed chunk of the document. */
  datatype Chunk = Chunk(
    id: string,
    content: string,
    sectionType: Topic,
    financialData: FinancialData,
    metadata: ChunkMetadata)

  /** The identifier of chunk `i`, `chunk_<i>`: the prefix `chunk_` followed by a decimal numeral. */
  function ChunkId(i: nat): (id: string)
    ensures |id| > 6 && id[..6] == "chunk_"
    ensures forall k :: 6 <= k < |id| ==> '0' <= id[k] <= '9'
  {
    var id := "chunk_" + NatToString(i);
    assert forall k :: 6 <= k < |id| ==> id[k] == NatToString(i)[k - 6];
    id
  }

  /** Distinct positions get distinct identifiers. */
  lemma {:induction false} ChunkIdInjective(i: nat, j: nat)
    requires ChunkId(i) == ChunkId(j)
    ensures i == j
  {
    assert ChunkId(i)[6..] == NatToString(i);
    assert ChunkId(j)[6..] == NatToString(j);
    ParseNatToString(i);
    ParseNatToString(j);
  }

  /**
   * The record `process_document` builds for piece `piece` at position `i`:
   * `chunk_<i>` at index `i` with the piece as content; it has financial
   * data exactly when a dollar amount or a percentage was found.
   */
  function MakeChunk(i: nat, piece: string, ex: Extractors): (c: Chunk)
    ensures c.id == ChunkId(i) && c.metadata.chunkIndex == i && c.content == piece
    ensures c.metadata.hasFinancialData <==> |ex.dollars(piece)| + |ex.percents(piece)| > 0
  {
    var data := ExtractFinancialData(piece, ex);
    Chunk(ChunkId(i), piece, SectionType(piece), data,
          ChunkMetadata(i, WordCount(piece), |data.dollarAmounts| > 0 || |data.percentages| > 0))
  }

  /** The rest of chunk `i`'s record: the section type and word count of the piece, and its scans. */
  lemma {:induction false} MakeChunkFields(i: nat, piece: string, ex: Extractors)
    ensures var c := MakeChunk(i, piece, ex);
      && c.sectionType == SectionType(piece)
      && c.metadata.wordCount == WordCount(piece)
      && c.financialData == ExtractFinancialData(piece, ex)
  {
  }

  /** `[build(i, x) for i, x in enumerate(xs)]`. */
  function Numbered<X, Y>(xs: seq<X>, build: (nat, X) -> Y): (ys: seq<Y>)
    ensures |ys| == |xs|
  {
    if |xs| == 0 then []
    else
      var n := |xs| - 1;
      Numbered(xs[..n], build) + [build(n, xs[n])]
  }

  /** Element `k` is built from position `k` and element `k`. */
  lemma {:induction false} NumberedAt<X, Y>(xs: seq<X>, build: (nat, X) -> Y, k: nat)
    requires k < |xs|
    ensures Numbered(xs, build)[k] == build(k, xs[k])
    decreases |xs|
  {
    var n := |xs| - 1;
    if k < n {
      NumberedAt(xs[..n], build, k);
      assert xs[..n][k] == xs[k];
    }
  }

  /** The record builder of `process_document`'s loop. */
  function ChunkBuilder(ex: Extractors): (nat, string) -> Chunk {
    (i: nat, piece: string) => MakeChunk(i, piece, ex)
  }

  /** The records for all pieces, numbered from 0 in order. */
  function ChunkRecords(pieces: seq<string>, ex: Extractors): (cs: seq<Chunk>)
    ensures |cs| == |pieces|
  {
    Numbered(pieces, ChunkBuilder(ex))
  }

  /** Record `k` is the one built for piece `k` at position `k`. */
  lemma {:induction false} ChunkRecordsAt(pieces: seq<string>, ex: Extractors, k: nat)
    requires k < |pieces|
    ensures ChunkRecords(pieces, ex)[k] == MakeChunk(k, pieces[k], ex)
  {
    NumberedAt(pieces, ChunkBuilder(ex), k);
  }

  /** Record `i` is numbered `i`, holds piece `i`, and no two records share an identifier. */
  lemma {:induction false} ChunkRecordsDistinct(pieces: seq<string>, ex: Extractors)
    ensures forall i :: 0 <= i < |pieces| ==>
      ChunkRecords(pieces, ex)[i].metadata.chunkIndex == i && ChunkRecords(pieces, ex)[i].content == pieces[i]
    ensures forall i, j :: 0 <= i < |pieces| && 0 <= j < |pieces| && i != j ==>
      ChunkRecords(pieces, ex)[i].id != ChunkRecords(pieces, ex)[j].id
  {
    var cs := ChunkRecords(pieces, ex);
    forall i | 0 <= i < |cs| ensures cs[i].metadata.chunkIndex == i && cs[i].content == pieces[i] {
      ChunkRecordsAt(pieces, ex, i);
    }
    forall i, j | 0 <= i < |cs| && 0 <= j < |cs| && cs[i].id == cs[j].id ensures i == j {
      ChunkRecordsAt(pieces, ex, i);
      ChunkRecordsAt(pieces, ex, j);
      ChunkIdInjective(i, j);
    }
  }

  /** The failure `process_document` raises when the document cannot be opened. */
  datatype ProcessError = DocumentNotFound(path: string)

  /** The record-building loop of `process_document`. */
  method ProcessChunks(pieces: seq<string>, ex: Extractors) returns (chunks: seq<Chunk>)
    ensures chunks == ChunkRecords(pieces, ex)
  {
    chunks := [];
    var i := 0;
    while i < |pieces|
      invariant 0 <= i <= |pieces|
      invariant chunks == ChunkRecords(pieces[..i], ex)
    {
      assert pieces[..i + 1][..i] == pieces[..i];
      chunks := chunks + [MakeChunk(i, pieces[i], ex)];
      i := i + 1;
    }
    assert pieces[..i] == pieces;
  }

  /**
   * `process_document`: `document` is the file's content, `None` when it
   * cannot be opened; `split` is the text splitter.
   */
  method ProcessDocument(path: string, document: Option<string>, split: string -> seq<string>, ex: Extractors)
    returns (r: Result<seq<Chunk>, ProcessError>)
    ensures document.None? <==> r.Failure?
    ensures document.None? ==> r.error == DocumentNotFound(path)
    ensures document.Some? ==> r.value == ChunkRecords(split(document.value), ex)
  {
    if document.None? {
      return Failure(DocumentNotFound(path));
    }
    var pieces := split(document.value);
    var chunks := ProcessChunks(pieces, ex);
    r := Success(chunks);
  }
}
