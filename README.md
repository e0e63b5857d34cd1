# Financial policy chatbot — a verified model of its deterministic core

`chatbot_fixed.py` answers questions about a financial policy document. It
splits the document into numbered chunks, files each chunk under a section
type, and stores the chunks in a vector database. Each question goes through
four steps: it is rewritten using the topic of the conversation so far, the
store is searched for it, a response template is picked from the question's
keywords, and the exchange is recorded in a bounded conversation memory.

This project models the parts of that program that need no library. It
proves that the model does what the program promises.

- **Conversation memory** (`memory.dfy`, class `ConversationMemory`). A
  first-in-first-out history with a capacity, plus a current topic that may
  be unset.
  - Topic identification scores keywords by substring count. The maximum
    wins, a tie goes to the earliest declared topic, and a text with no
    keyword is `General`.
  - Questions are rewritten by two ordered rules: the vague-phrase rule, then
    the pronoun rule.
  - The context window covers the last three topics.
- **Keyword-priority classifiers** (`rules.dfy`, `documents.dfy`,
  `responses.dfy`). A generic first-match-wins rule list. It is used for the
  section type of a chunk and for the response template of a question. The
  two lists rank risk and superannuation in opposite orders.
- **Responses** (`responses.dfy`):
  - the empty-results guard;
  - combining the two best passages;
  - the distinct source labels;
  - the bullets of the general template (`". "`-separated sentences longer
    than 30 characters once stripped, at most three).
- **Chunk records** (`documents.dfy`). Chunk `i` is `chunk_<i>`, and
  distinct chunks get distinct identifiers. `has_financial_data` is derived
  from the dollar and percentage matches.
- **Orchestrator** (`chatbot.dfy`, class `FinancialChatbot`):
  - the store is populated only when it is empty;
  - `ask` has an initialisation guard and records the original question,
    not the enhanced one;
  - the conversation summary.
- **String primitives with Python's meaning** (`text.dfy`):
  - `lower` (ASCII letters only);
  - the `in` substring test;
  - `split` on a separator and on whitespace;
  - `strip`, `join`, and `str` of a natural number.

Some collaborators are passed in as function-typed parameters: the text
splitter, the regular-expression scans, and the similarity ranking of the
vector store. The content of the document file is passed as an `Option`,
where `None` means the file is missing.

## Model

| member | source | states |
|---|---|---|
| Text.Lower | chatbot_fixed.py:98 | the modelled `lower()` (ASCII letters) keeps the length and lower-cases ASCII letters position by position, leaving no upper-case ASCII letter |
| Text.Contains | chatbot_fixed.py:100 | Python's `p in s` holds exactly when `p` occurs at some position of `s` |
| Text.ContainsTransitive | chatbot_fixed.py:272 | a substring of a substring is a substring (why "it" matches inside longer words) |
| Text.AnyContained | chatbot_fixed.py:100 | `any(w in s for w in words)` holds exactly when some listed word is a substring |
| Text.CountContained | chatbot_fixed.py:251 | the keyword count is at most the number of keywords, and zero exactly when no keyword occurs |
| Text.Split | chatbot_fixed.py:683 | `split(sep)` always gives at least one piece, and the first piece is a prefix of the text |
| Text.JoinSplit | chatbot_fixed.py:683 | `split(sep)` loses nothing: joining the pieces with `sep` gives back the text |
| Text.SplitPiecesFree | chatbot_fixed.py:683 | no piece of `split(sep)` contains the separator: every occurrence is a cut |
| Text.Strip | chatbot_fixed.py:684 | `strip()` returns a text no longer than its input with no whitespace at either end (that only whitespace is removed is stated by `StripIsSlice`) |
| Text.StripIsSlice | chatbot_fixed.py:684 | what `strip()` returns is a contiguous part of the text, and everything cut off before and after it is whitespace |
| Text.WordCount | chatbot_fixed.py:82 | `len(s.split())` is at most the length, and zero exactly when the text is all whitespace |
| Text.NatToString | chatbot_fixed.py:76 | `str(i)` is a non-empty string of decimal digits |
| Text.ParseNatToString | chatbot_fixed.py:76 | decimal rendering is undone by parsing, so it is injective |
| Rules.TopicName | chatbot_fixed.py:268 | topic names are non-empty lower-case letters, so `.replace('_', ' ')` leaves them unchanged |
| Rules.TopicNameInjective | chatbot_fixed.py:221-228 | distinct topics have distinct names |
| Rules.FirstMatch | chatbot_fixed.py:100-113 | the `if/elif` chain stops at a rule position, or one past the last when no rule fires |
| Rules.FirstMatchFirst | chatbot_fixed.py:100-113 | an `if/elif` chain selects the first rule whose word occurs, and no earlier rule's words occur |
| Rules.Classify | chatbot_fixed.py:100-113 | the chosen tag is the fallback or the tag of a rule that fires on the lower-cased text |
| Rules.ClassifyFallback | chatbot_fixed.py:112-113 | when no rule fires, the fallback is returned |
| Rules.ClassifyFirst | chatbot_fixed.py:100-111 | when rule `k` fires and no earlier rule does, rule `k`'s tag is returned |
| Documents.SectionType | chatbot_fixed.py:96-113 | `General` exactly when no indicator word occurs; otherwise the first category in the order budget, debt, infrastructure, taxation, superannuation, risk whose word occurs |
| Documents.KeywordSet | chatbot_fixed.py:47-55 | the merged keyword set holds exactly the matches of any keyword family |
| Documents.ExtractFinancialData | chatbot_fixed.py:25-56 | dollar, percentage and year scans are kept as matched; keywords are deduplicated into the set of all family matches |
| Documents.ChunkId | chatbot_fixed.py:76 | `chunk_<i>` is the prefix `chunk_` followed by a decimal numeral |
| Documents.ChunkIdInjective | chatbot_fixed.py:76 | `chunk_<i>` identifiers of distinct positions differ |
| Documents.MakeChunk | chatbot_fixed.py:74-86 | chunk `i` has id `chunk_<i>`, index `i` and the piece as content; `has_financial_data` holds exactly when dollar amounts or percentages were found |
| Documents.MakeChunkFields | chatbot_fixed.py:69-86 | chunk `i` carries the section type, the word count and the scans of its piece |
| Documents.ChunkRecords | chatbot_fixed.py:67-89 | one record per piece |
| Documents.NumberedAt | chatbot_fixed.py:67 | `enumerate`: element `k` is built from position `k` and element `k` |
| Documents.ChunkRecordsAt | chatbot_fixed.py:67-89 | record `k` is the chunk built from piece `k` with index `k` |
| Documents.ChunkRecordsDistinct | chatbot_fixed.py:67-89 | records are numbered from 0 in piece order, carry their piece as content, and have pairwise distinct identifiers |
| Documents.ProcessChunks | chatbot_fixed.py:67-89 | the record-building loop produces exactly those records |
| Documents.ProcessDocument | chatbot_fixed.py:58-92 | a missing document fails with `DocumentNotFound(path)`; otherwise the records of the splitter's pieces are returned |
| Memory.Score | chatbot_fixed.py:250-253 | a topic's score is at most its keyword count |
| Memory.ScoreZero | chatbot_fixed.py:250-253 | a topic scores zero exactly when none of its keywords occurs |
| Memory.PickBest | chatbot_fixed.py:255-256 | the scan reaches the maximum score, and the winner is the earliest topic with that score; with no positive score the fallback is kept |
| Memory.PickBestSpec | chatbot_fixed.py:255-257 | started from the fallback with score 0, the scan keeps the fallback exactly when nothing scores above 0; otherwise it picks a maximal positive score that every earlier position stays strictly below |
| Memory.TopicOfSpec | chatbot_fixed.py:245-257 | the topic of the lower-cased question is `General` exactly when every topic scores 0; otherwise a topic with maximal positive score that every earlier declared topic scores strictly below |
| Memory.IdentifyTopic | chatbot_fixed.py:245-257 | the identified topic is `general` or one that has a keyword in the lower-cased question; `TopicOfSpec` and `EarliestMaximumIdentified` give the full characterisation |
| Memory.PickBestEarliest | chatbot_fixed.py:255-256 | the earliest position holding the positive maximum is the one `max` returns |
| Memory.EarliestMaximumIdentified | chatbot_fixed.py:221-257 | the converse of `TopicOfSpec`: the earliest topic with the maximal positive score is the one identified |
| Memory.Enhance | chatbot_fixed.py:259-276 | the question is always a prefix of the result; it is extended exactly when the vague rule or the pronoun rule fires: by ` about <topic>` when the vague rule fires (it wins over the pronoun rule), otherwise by ` (referring to <topic>)`; with no current topic it is unchanged |
| Memory.EnhanceNamesTopic | chatbot_fixed.py:266-274 | an enhanced question names the current topic |
| Memory.HiddenPronounRewrites | chatbot_fixed.py:271-274 | "capital" or "with" in a question triggers the pronoun rewrite, because "it" is matched as a substring |
| Memory.VagueGeneralFallsThrough | chatbot_fixed.py:264-274 | "what about it" with topic `general` skips the vague rule but is rewritten as "(referring to general)" |
| Memory.ContextOf | chatbot_fixed.py:278-286 | reports the record count, the topics of the last `min(3, n)` records in order with duplicates, and the current topic with `general` for an unset one |
| Memory.Appended | chatbot_fixed.py:238-243 | the history after appending grows by one up to the capacity, ends with the new record, and past capacity drops exactly the oldest record |
| Memory.AppendedIsLastN | chatbot_fixed.py:238-243 | within capacity, one append keeps the last `max_history` of the old records followed by the new one |
| Memory.SlidingWindow | chatbot_fixed.py:230-243 | recording interactions one by one leaves exactly the last `max_history` of all records, in order |
| Memory.OverflowDropsOldest | chatbot_fixed.py:241-243 | recording one more than the capacity keeps all but the first one recorded |
| Memory.ConversationMemory.constructor | chatbot_fixed.py:217-220 | a new memory is empty, with no current topic |
| Memory.ConversationMemory.AddInteraction | chatbot_fixed.py:230-243 | the length becomes `min(old + 1, max_history)`; the new record, tagged with the question's topic, is last; the topic becomes current; at capacity the first record is gone and the rest keep their order |
| Memory.ConversationMemory.EnhanceQuestion | chatbot_fixed.py:259-276 | the question is a prefix of the enhanced one, and is unchanged when no topic is current |
| Memory.ConversationMemory.GetContext | chatbot_fixed.py:278-286 | the record count, `min(3, n)` recent topics, and the current topic with `general` for an unset one |
| Memory.ConversationMemory.ClearHistory | chatbot_fixed.py:288-291 | the history is empty and the topic unset, so the context reports `general`, no recent topics and length 0 |
| Responses.ChooseTemplate | chatbot_fixed.py:381-410 | `General` exactly when no trigger word occurs; otherwise the first template in the order budget, debt, infrastructure, taxation, risk, superannuation whose word occurs |
| Responses.RiskAndPensionDisagree | chatbot_fixed.py:401-406 | text mentioning risk and pension and no earlier category is a superannuation section but gets the risk template |
| Responses.SourceLabel | chatbot_fixed.py:367-368 | a label is `Section: ` followed by the section type, `Unknown` when it is missing |
| Responses.SourceLabelInjective | chatbot_fixed.py:367-368 | two hits get the same label exactly when they name the same section type |
| Responses.LongSentences | chatbot_fixed.py:684 | the filter keeps only sentences longer than 30 characters once stripped, drawn from the input |
| Responses.LongSentencesSnoc | chatbot_fixed.py:684 | the long sentences come in input order with duplicates kept: one more sentence is appended exactly when it is long |
| Responses.LongSentencesComplete | chatbot_fixed.py:684 | the filter keeps every such sentence |
| Responses.Filter | chatbot_fixed.py:684 | a list comprehension with a condition keeps only elements that satisfy it, drawn from the input, never more than the input |
| Responses.FilterComplete | chatbot_fixed.py:684 | the comprehension drops no element that satisfies the condition |
| Responses.FilterSnoc | chatbot_fixed.py:684 | the comprehension keeps input order: extending the input by one element extends the result by it exactly when it is kept |
| Responses.RelevantSentences | chatbot_fixed.py:683-684 | `[:3]` of the long sentences of the `". "`-split content: a prefix of them of length `min(3, n)`, each long and a split sentence |
| Responses.GeneralBullets | chatbot_fixed.py:683-690 | bullet `i` is the `i`-th long sentence of the split content, stripped, for the first `min(3, n)` of them; each is longer than 30 characters |
| Responses.Contents | chatbot_fixed.py:365-366 | the passages of the hits in rank order |
| Responses.Sources | chatbot_fixed.py:365-368 | `Section: <type>` labels of the hits in rank order |
| Responses.CombineTopTwo | chatbot_fixed.py:379 | the best passage and the second best joined by one space, the best alone, or empty, by the number of hits |
| Responses.ContextualReply | chatbot_fixed.py:375-412 | exactly one template, chosen from the question, over the two best passages joined by a space; bullets only for the general template; the source set is exactly the labels |
| Responses.ResponseFor | chatbot_fixed.py:355-373 | not-found exactly when there are no hits, whatever the question; otherwise the template of the question fed the two best passages joined by a space and the label of every hit |
| Responses.OnlyTopTwoPassagesMatter | chatbot_fixed.py:379 | hits that agree on their two best passages and on their labels give the same reply |
| Responses.FormatGeneralResponse | chatbot_fixed.py:680-694 | builds the general reply with the general bullets and the distinct sources |
| Responses.BulletLines | chatbot_fixed.py:688-690 | the loop's `> 20` test never rejects a long sentence: it emits every relevant sentence, stripped, in order |
| Responses.CreateContextualResponse | chatbot_fixed.py:375-412 | computes exactly the contextual reply |
| Responses.GenerateResponse | chatbot_fixed.py:355-373 | the guard and the gathering loop compute exactly the specified reply |
| Chatbot.ChunkIds | chatbot_fixed.py:149-163 | the identifiers gathered for storage, one per chunk, in order |
| Chatbot.VectorStore.constructor | chatbot_fixed.py:121-138 | the store opens over the chunk identifiers already persisted in the collection |
| Chatbot.VectorStore.Count | chatbot_fixed.py:202-209 | the document count is the number of stored chunks |
| Chatbot.VectorStore.AddDocuments | chatbot_fixed.py:140-175 | the new chunks' identifiers are stored after the existing ones, in order |
| Chatbot.VectorStore.Search | chatbot_fixed.py:177-200 | a prefix of the ranking with at most `n` hits and no more hits than stored chunks, short only when the store or the ranking runs out; a failing ranking is passed on |
| Chatbot.Populated | chatbot_fixed.py:317-319 | stored identifiers are never lost; a non-empty store is left as it is; an empty one receives the chunk identifiers in order |
| Chatbot.PopulatedOnce | chatbot_fixed.py:317-319 | once a run has stored anything, a second run leaves the store unchanged |
| Chatbot.PopulatedDistinct | chatbot_fixed.py:317-319 | populating an empty store gives one identifier per chunk, pairwise distinct |
| Chatbot.SummaryOf | chatbot_fixed.py:696-711 | no history exactly when nothing is recorded; otherwise the record count, the current topic and the recent topics without duplicates |
| Chatbot.SummaryOfHistory | chatbot_fixed.py:698-709 | for a non-empty history the summary is a recap giving the record count and exactly the distinct topics of the last three records |
| Chatbot.SummaryAfter | chatbot_fixed.py:698-709 | after `n` recorded questions, "total questions asked" is `min(n, max_history)` and the recent topics are those of the last three questions |
| Chatbot.FinancialChatbot.constructor | chatbot_fixed.py:299-304 | a new chatbot has an empty memory of capacity 10 and is not initialised |
| Chatbot.FinancialChatbot.Initialize | chatbot_fixed.py:309-322 | a missing document is reported and changes nothing; otherwise the store gets the chunks only when it was empty, and the chatbot becomes initialised |
| Chatbot.FinancialChatbot.Ask | chatbot_fixed.py:324-353 | the fixed refusal before initialisation; an apology for a failed search, with memory unchanged; otherwise the response to the enhanced question from three hits, recorded under the original question, whose topic becomes current |
| Chatbot.FinancialChatbot.ConversationSummary | chatbot_fixed.py:696-711 | no history exactly when the memory is empty; otherwise the number of retained records and the current topic, `general` when none is set |

## Left out

- The vector database internals: the ChromaDB persistent client, the sentence-transformer embeddings, the stored metadata and the floating-point similarity scores. The store keeps only chunk identifiers. Search is a ranking function passed in as a parameter.
- The recursive character text splitter. It is a function parameter returning the pieces.
- The regular expressions of `extract_financial_data` (dollar amounts, percentages, years and the five keyword families). They are function parameters. Only the derived flag and the deduplication into a set are modelled.
- File reading. Reading is an `Option` input. The re-raising of other processing errors as a generic exception is not modelled.
- The literal tables and prose of the six topical templates. A reply records only which template fired and what it was given. The `"• …."` bullet text and the fixed messages are left out too.
- `.title()` on the summary's current topic, and lower-casing beyond ASCII letters.
- The order of `set(...)` output for sources and recent topics. Both are modelled as sets.
- FinancialChatbot.constructor: the program's constructor also runs `_initialize` and raises when it fails. The model keeps `Initialize` as a separate step. As a result, the not-initialised refusal in `Ask` is reachable in the model. In the program it is reachable only if initialisation is bypassed.
- FinancialChatbot.Ask: of the exceptions that `ask` turns into an apology, only a failure of the search is modelled.
- ConversationMemory.constructor: the capacity is a natural number. A negative `max_history` is not modelled.
- JoinSplit: with `SplitPiecesFree` it determines the pieces only for a separator that cannot overlap itself, such as `". "`. For a self-overlapping separator, the leftmost-cut rule of `split` is in the definition of `Split` but is not stated as a lemma.
- Strip: its own contract gives the length bound and the clean ends. That only surrounding whitespace is removed is stated by `StripIsSlice`, to keep the contract cheap where `Strip` is used.
- Filter: its own contract gives membership and length. The order and the duplicates are stated by `FilterSnoc`.
- IdentifyTopic: its own contract gives only that the topic is `general` or has a keyword in the question. The full characterisation is stated by `TopicOfSpec` and `EarliestMaximumIdentified`, to keep the contract cheap where `IdentifyTopic` is used.
- The command-line `main` loop and the two Streamlit front ends.
