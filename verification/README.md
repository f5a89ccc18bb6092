# A verified model of the knows-me core

The Rust core under `src-tauri/src` is a local knowledge base: it ingests material from
connectors, masks identifiers before anything is sent to a model, stores confirmed facts with
a search index and a history, asks the owner questions, assembles context for prompts, and
serves a filtered view of the facts to other agents. This project models the logic of these
parts in Dafny and proves what they are for.

| part | modules |
|---|---|
| Ingestion: single flight, at-most-once delivery, draining | `IngestionProtocol`, `IngestionGuarantees` (all interleavings, all failures), `IngestionLedger`, `IngestionService` (the loops in place), `IngestionDraining`, `LoneTriggers` (the protocol's calls on their own) |
| Masking and unmasking | `PatternLanguages`, `MaskTokens`, `Masker`, `MaskingGuarantees` |
| Index, topic pages, topic graph, knowledge service | `Tokenizer`, `SearchIndex`, `TopicGroups`, `TopicPages`, `TopicGraph`, `KnowledgeProtocol`, `KnowledgeGuarantees`, `KnowledgeHistory` (all interleavings, all failures), `KnowledgeService` (the methods in place), `LoneCalls` (the protocol's calls on their own), `SearchGuarantees` |
| Sharing: access, tools, tokens, framing | `KnowledgeSharing`, `SharingTools`, `SharingGuarantees`, `Categories`, `Envelope`, `ServingGuarantees`, `Tokens` |
| Interview queue | `Similarity`, `InterviewQueue`, `InterviewService`, `InterviewGuarantees` |
| Persona context | `ContextSelection`, `ContextOrder`, `PersonaService`, `ContextScores` |
| Shared vocabulary | `Wrappers`, `Steps`, `Sources`, `KnowledgeTypes`, `Texts`, `TextGuarantees`, `Ordering` |

`dafny verify dfyconfig.toml` checks the project.

The modules named `..Guarantees` of masking, search, sharing, serving and the interview, and
`ContextScores`, say once more what comes out, in literal characters, numbers and fields and
without the functions the code is written with.

## Conventions

- Ids are naturals under their order, times naturals (seconds for the queue), text `seq<char>`
  (positions are characters, not UTF-8 bytes).
- Unicode tables (alphanumeric, lowercase, the digits of `\d`) and the regex engine are
  parameters with the properties that are needed. Most masking results hold of every engine
  that reports words, and none only if there is none; `Masker.Standard` is the engine for the
  four patterns, which reports the leftmost and longest ones (`Masker.StandardEngineExists`). SHA-256 is an
  injective `digest`; the hash behind hub ids is a parameter with the property `HubIdsApart`. LLM answers are arbitrary strings.
- The order in which a hash map or a store listing is met is arbitrary: loops pick any element.
- The encrypted store is a map whose calls may fail. The step systems let every call fail with
  or without having taken effect; the classes take a schedule that says which calls fail and,
  for those that write, whether they took effect all the same.
- `similarity(a, b) >= 0.45` is `20*|intersection| >= 9*|union|`, which is the quotient of reals
  (`InterviewGuarantees.NearMeans`); rounding to `f32` is not modelled.
- A tool call and a context are answered from one state of the store. The clock does not run
  backwards.

## What the code does not do

Where a comment promises more than the code keeps, the model follows the code:

- `llm/masker.rs:4-10` and `124-126` claim `unmask(mask(x)) == x` for all inputs and that a
  placeholder can never match again. The first holds exactly when x spells none of the
  placeholders handed out (`RoundTripIff`, counterexample `QuotedInputFails`). Before the call:
  x comes back if it spells no `«LABEL_n»` with n up to its length
  (`RoundTripWithoutPlaceholders`), and does not if it spells one with n up to the number of
  different words of that label found in the first pass (`SpelledPlaceholderDamages`). The
  second holds exactly below 10^8 placeholders of a label (`RematchesIffNineDigits`).
- An item is marked seen before the sink accepts it, so a refused batch is lost for good
  (`SinkRefusalLosesItem`, `LostForGood`). Nothing is lost exactly in the runs without one of
  three kinds of failure (`NothingLostIff`, `ExactlyOnceIffNeverLoses`).
- `interview/service.rs:67-69` promises never to drop both of two duplicates. An item that has
  already expired on arrival still displaces a live duplicate of lower priority and is swept
  next (`BothAreDropped`), and only then are both gone (`BothGoneIff`, `SurvivesSweepIff`).
- Near-duplicates can survive a sweep (`TwinsCanSurvive`). Whether they can depends on whether
  an item bridges two others and outranks one of them (`AlwaysSweptApartIff`). It does not
  happen in a queue that grew through `enqueue` (`ReachableExpireIsExact`).
- `sharing/tokens.rs:139-147` argues that a record that cannot be read cannot be live. If only
  the read during the scan breaks, `revoke` reports success and the token stays live
  (`RevokedSecretStillWorks`); that is the only way (`SurvivesRevocationIff`, `RevokesAllIff`).
- `persona/context.rs:41-45` claims that shuffling cannot change the context, also for a fact
  that appears twice. It can (`ShufflingChangesContext`): exactly when some id has two most
  relevant versions that read or rank differently, and for one of them there is room among the
  first `max_facts` in some order (`ContextIsFixedIff`).
- `knowledge/service.rs:151-152` says that a write that fails and is retried neither orphans nor
  duplicates a history entry. It can lose one: if the body is stored and its entry is not, the
  retry finds nothing changed and writes none, nor does anything later (`TornForGood`). This
  happens exactly at three kinds of failure (`NothingTornIff`).
- A search or a page reads facts the token cannot see to find that out, so a failing read of
  such a fact shows (`OutsideFailureShows`). Where all other calls end the same, nothing else
  about them does (`OnlyFailuresOutsideShowInSearch`, `OnlyFailuresOutsideShowInPages`, `ListingsFailAlike`).

## Model

| member | source | states |
|---|---|---|
| `IngestionGuarantees.DeliveredAtMostOnce` | src-tauri/src/ingestion/service.rs:75-143 | over every interleaving of `trigger`/`trigger_all` calls, with any store, connector or sink call failing (also after having taken effect), the sink never gets a (source, external id) twice, nor one an earlier run had seen |
| `IngestionGuarantees.SingleFlight` | src-tauri/src/ingestion/service.rs:65-71 | at most one call per source is between lock and unlock, and a source is marked running exactly while such a call exists |
| `IngestionGuarantees.SeenIsAccountedFor` | src-tauri/src/ingestion/service.rs:100-143 | every key marked in a run is delivered, lost to a failed step, or still in the hands of exactly the call running its source: nothing else happens to it |
| `IngestionGuarantees.LostForGood` | src-tauri/src/ingestion/service.rs:108-136 | a key lost by a failure after marking is never delivered by any continuation of the run |
| `IngestionGuarantees.SinkRefusalLosesItem` | src-tauri/src/ingestion/service.rs:118-136 | the loss is real: from any initial state in which the item is unseen, a run of seven actions with one refused hand-over loses it |
| `IngestionGuarantees.NothingLostIff` | src-tauri/src/ingestion/service.rs:100-143 | when nothing is lost: exactly in the runs without a failing check that has marked items in hand, a failing mark that has items in hand or took effect, or a hand-over of which the sink took only part; every other failure is harmless |
| `IngestionGuarantees.CollectedCountsOnce` | src-tauri/src/ingestion/service.rs:108-132 | `collected` is the number of distinct keys the call marked, all new in this run, and no key is counted by two calls |
| `IngestionGuarantees.ErrorsAreCounted` | src-tauri/src/ingestion/service.rs:75-98 | a call reports exactly as many errors as it has left a pass by its `Err` exit |
| `IngestionGuarantees.FailureFreeLosesNothing` | src-tauri/src/ingestion/service.rs:100-143 | a run without failing steps is one of these |
| `IngestionGuarantees.ExactlyOnceIffNeverLoses` | src-tauri/src/ingestion/service.rs:206-248 | from a fresh start nothing is lost exactly without such a failure; then, for a source nobody is running, the keys marked in the run are the keys delivered, each once; with one, some key is marked that no continuation ever delivers |
| `IngestionService.Service.TryLock` | src-tauri/src/ingestion/service.rs:65-67 | the lock is granted exactly when the source was not running |
| `IngestionService.Service.PickNew` | src-tauri/src/ingestion/service.rs:108-132 | the gate over one batch picks exactly the unseen items, first occurrences only, in order; a failure, also of a mark that took effect, leaves a prefix of the batch marked |
| `IngestionService.Service.RunOneInner` | src-tauri/src/ingestion/service.rs:100-143 | a pass that comes back `Ok` is the specified ledger step; one that fails, also after a write or delivery took effect, leaves a prefix marked, a first part of the new items delivered only if all are marked, and the cursor saved only if nothing is missing |
| `IngestionService.Service.RunOne` | src-tauri/src/ingestion/service.rs:75-98 | a busy source counts as skipped and changes nothing, a failing pass as one error, and the lock is free afterwards |
| `IngestionService.Service.RunUntilDone` | src-tauri/src/ingestion/service.rs:155-174 | the loop is the specified drain, or some passes that moved the cursor and one that failed, reported as exactly one error; `collected` is the growth of the delivered list and `skipped` the rest of the items handed out |
| `IngestionService.Service.SourceRemaining` | src-tauri/src/ingestion/service.rs:182-188 | what the connector reports for the saved cursor, for no cursor when that cannot be read, and 0 when it does not answer |
| `IngestionService.Service.Trigger` | src-tauri/src/ingestion/service.rs:206-222 | for one source or all: each registered idle one gets a pass or a counted failed pass, however the others fare; all other parts of the ledger stay; `collected` is what was delivered, `skipped` the other items and the busy sources; also with failures `collected` is the number of newly marked items up to one per failed source; `remaining` sums the answers of the connectors, each for the new cursor, for none, or nothing |
| `IngestionService.Service.TriggerAll` | src-tauri/src/ingestion/service.rs:224-251 | the same with drains; busy sources are skipped untouched and not asked, `remaining` is asked once from the final cursor, and the locks are free again whatever failed |
| `IngestionLedger.UnseenIsNew` | src-tauri/src/ingestion/cursor_store.rs:81-121 | the picked items are the batch's unseen items, each once |
| `IngestionLedger.PassIsSafe` | src-tauri/src/ingestion/service.rs:108-143 | a pass delivers only unseen keys, each once, and everything delivered is marked |
| `IngestionLedger.FailedPassIsSafe` | src-tauri/src/ingestion/service.rs:100-143 | so does a pass that fails anywhere |
| `IngestionLedger.BecameIsLocal` | src-tauri/src/ingestion/service.rs:73-98 | a pass or a drain, done or failed, reads and changes its own source's part of the ledger only, so one failing source does not affect another |
| `IngestionDraining.DrainDeliversPrefix` | src-tauri/src/ingestion/service.rs:155-174 | from scratch with bound p, a backlog handed out `batch` at a time is delivered in order, each item once, up to exactly min(total, p*batch), and `remaining` is exactly the rest |
| `IngestionDraining.StopsAtStandstill` | src-tauri/src/ingestion/service.rs:155-174 | once the cursor stands still a larger bound changes nothing |
| `LoneTriggers.PassRuns` | src-tauri/src/ingestion/service.rs:100-143 | in the protocol too: a pass that runs alone and does not fail is the ledger's pass, what it delivers is counted as collected, and every item is counted once |
| `LoneTriggers.DrainRuns` | src-tauri/src/ingestion/service.rs:155-174 | its drain is the ledger's drain |
| `LoneTriggers.LoneTrigger` | src-tauri/src/ingestion/service.rs:206-251 | a trigger of either kind that runs alone and does not fail serves all its targets in this way one after the other, leaves busy ones alone, gives all locks back, and reports what was delivered, what was skipped and what is left |
| `PatternLanguages.RematchesIffNineDigits` | src-tauri/src/llm/masker.rs:37-47 | a placeholder holds no word of any of the four patterns exactly while its counter is below 10^8; from there its own digits are a phone number |
| `PatternLanguages.PlaceholderInjective` | src-tauri/src/llm/masker.rs:95-112 | different (label, number) pairs spell different placeholders |
| `PatternLanguages.MemberForeign` | src-tauri/src/llm/masker.rs:37-47 | every word of the four languages is guillemet-free and cannot sit inside a small placeholder |
| `MaskTokens.ReplaceRestores` | src-tauri/src/llm/masker.rs:138-144 | textual replacement of one placeholder undoes exactly the holes carrying it, wherever the other placeholders are |
| `Masker.StandardIsSound` | src-tauri/src/llm/masker.rs:37-47 | an engine for the four patterns meets what the masker needs of it |
| `Masker.StandardEngineExists` | src-tauri/src/llm/masker.rs:37-47 | there is an engine for exactly these patterns, scanning leftmost and longest, whatever the digit table |
| `Masker.FindIterMeans` | src-tauri/src/llm/masker.rs:58-65 | what a scan reports are longest words at their place, and no word starts outside of them |
| `Masker.MatchesOfText` | src-tauri/src/llm/masker.rs:58-78 | the chosen ranges hold words of their languages, do not overlap, come in order, are none only if the text holds no word at all, and every dropped match gives way to a kept one that starts no later and at the same start is no shorter |
| `Masker.Assign` | src-tauri/src/llm/masker.rs:95-112 | an original seen before keeps its placeholder; a new one gets the next number of its label |
| `Masker.MaskPass` | src-tauri/src/llm/masker.rs:84-115 | one pass swaps exactly the chosen ranges, each for the placeholder of its word, keeps the text between them, and changes the text exactly when there was a match |
| `Masker.Mask` | src-tauri/src/llm/masker.rs:119-136 | the loop ends for every text below 10^8 characters, after the passes that still find a word and no more; the output holds no word of any pattern, a text without words is untouched, and unmasking gives the input back exactly when the input spells none of the placeholders handed out |
| `Masker.UnmaskText` | src-tauri/src/llm/masker.rs:138-144 | replacement in insertion order, whose meaning the round-trip lemmas state |
| `Masker.UnmaskExpands` | src-tauri/src/llm/masker.rs:138-144 | sequential replacement equals simultaneous expansion of all placeholders when the text spells none by itself |
| `Masker.RoundTripIff` | src-tauri/src/llm/masker.rs:119-144 | `unmask(mask(x)) == x` if and only if x contains no placeholder of the map |
| `Masker.RoundTripWithoutPlaceholders` | src-tauri/src/llm/masker.rs:119-144 | before the call: every input comes back that spells no `«LABEL_n»` of the four labels with n up to its own length |
| `Masker.RoundTripWithoutGuillemets` | src-tauri/src/llm/masker.rs:119-144 | in particular every input without an opening guillemet comes back |
| `Masker.SpelledPlaceholderDamages` | src-tauri/src/llm/masker.rs:84-144 | before the call: every input is damaged that spells a `«LABEL_n»` with n up to the number of different words of that label the first pass finds in it |
| `Masker.QuotedInputFails` | src-tauri/src/llm/masker.rs:4-10 | the header's claim for all inputs fails on a concrete text that quotes placeholders, with any engine for the four patterns |
| `Masker.FirstPlaceholderSpelled` | src-tauri/src/llm/masker.rs:119-144 | in particular every input that spells number one of the label of the first word found |
| `Masker.OriginalsAreHidden` | src-tauri/src/llm/masker.rs:119-136 | no captured original occurs in the masked text |
| `Masker.ReplyIsRestored` | src-tauri/src/llm/masker.rs:138-144 | unmasking a reply that mentions placeholders of the map, anywhere and as often as it likes, and otherwise spells no opening guillemet puts exactly their originals in their places |
| `MaskingGuarantees.WordsAreSensitive` | src-tauri/src/llm/masker.rs:37-47 | in literal characters: a text holds a word of a pattern exactly if it holds an API key, an address, a link or a number of this shape |
| `MaskingGuarantees.KeysSpelled` | src-tauri/src/llm/masker.rs:39-42 | the keys in full: `sk-` and sixteen or more letters or digits, `ghp_` and twenty or more, `AKIA` and exactly sixteen capitals or digits, `xox`, one of `baprs`, a dash and ten or more letters, digits or dashes |
| `MaskingGuarantees.MailsSpelled` | src-tauri/src/llm/masker.rs:43 | the addresses in full: a local part, `@`, a domain, a dot and two or more letters |
| `MaskingGuarantees.LinksSpelled` | src-tauri/src/llm/masker.rs:44 | the links in full: a scheme and one or more characters that are neither spacing nor `<>()«»` |
| `MaskingGuarantees.NumbersSpelled` | src-tauri/src/llm/masker.rs:45-46 | the numbers in full: nine or more digits and separators between two digits, perhaps with a plus |
| `MaskingGuarantees.NothingSensitiveIsLeft` | src-tauri/src/llm/masker.rs:119-136 | no such key, address, link or number is left in a masked text |
| `MaskingGuarantees.MaskedIffSensitive` | src-tauri/src/llm/masker.rs:119-136 | a text is changed, and the map has entries, exactly if it holds one |
| `MaskingGuarantees.PlaceholdersNameTheKind` | src-tauri/src/llm/masker.rs:95-112 | what a placeholder stands for is of the kind it names |
| `MaskingGuarantees.PlaceholderReads` | src-tauri/src/llm/masker.rs:95-112 | a placeholder is the label and a decimal number without leading zeros, in guillemets |
| `MaskingGuarantees.MaskingIsDetermined` | src-tauri/src/llm/masker.rs:119-136 | the masked text and its map are determined by the text |
| `MaskingGuarantees.OnlyWordIsSwapped` | src-tauri/src/llm/masker.rs:58-136 | a text whose words all lie within one is sent with just this one swapped, whole, for number one of its label, and the map holds just this |
| `MaskingGuarantees.KeyIsSwapped` | src-tauri/src/llm/masker.rs:39-42 | `key sk-ABCDEFGHIJKLMNOP` is sent as `key «SECRET_1»` |
| `Tokenizer.Tokenize` | src-tauri/src/knowledge/search_index.rs:410-429 | the buffer-flushing scan collects exactly the maximal words (lowercased), the lone CJK characters and the adjacent CJK pairs |
| `Tokenizer.TokensOfJoin` | src-tauri/src/knowledge/search_index.rs:167-187 | tokens of title, gap, body are the union of the tokens of title and body |
| `Tokenizer.PairIsToken` | src-tauri/src/knowledge/search_index.rs:394-407 | every adjacent CJK pair of a text is a token |
| `Tokenizer.CjkTokensArePairs` | src-tauri/src/knowledge/search_index.rs:394-407 | an all-CJK text of two or more characters has exactly its pairs as tokens |
| `Tokenizer.CjkQueryCovered` | src-tauri/src/knowledge/search_index.rs:205-227 | an all-CJK query occurring in a text asks only for tokens the text has |
| `SearchIndex.SearchIndex.Clear` | src-tauri/src/knowledge/search_index.rs:151-155 | the index of no facts |
| `SearchIndex.SearchIndex.Remove` | src-tauri/src/knowledge/search_index.rs:190-202 | exactly the index of the remaining facts; no empty posting is left |
| `SearchIndex.SearchIndex.Upsert` | src-tauri/src/knowledge/search_index.rs:167-187 | exactly the index of the facts with this one replaced |
| `SearchIndex.SearchIndex.Search` | src-tauri/src/knowledge/search_index.rs:205-241 | each once, exactly the in-scope facts a naive scan finds: all for a blank query, none for a query without tokens, else those having every query token |
| `SearchIndex.InvertAt` | src-tauri/src/knowledge/search_index.rs:167-202 | postings and token sets are exact inverses and no posting is empty |
| `SearchIndex.Intersect` | src-tauri/src/knowledge/search_index.rs:215-227 | intersecting the postings smallest first gives the facts listed under every term |
| `SearchIndex.SameFactsSameIndex` | src-tauri/src/knowledge/search_index.rs:151-202 | whatever sequence of updates led there, two indexes over the same facts have the same content |
| `SearchIndex.CjkSubstringIsFound` | src-tauri/src/knowledge/search_index.rs:205-227 | an all-CJK query of two or more characters finds every fact whose title or body contains it |
| `SearchIndex.ResultsArePermutations` | src-tauri/src/knowledge/search_index.rs:205-241 | two results for one query over the same facts differ only in order |
| `SearchIndex.SearchIndex.ConfirmedAtMap` | src-tauri/src/knowledge/search_index.rs:351-356 | the confirmation time of every indexed fact |
| `TopicGroups.CollectGroups` | src-tauri/src/knowledge/search_index.rs:57-70 | the grouping loop collects, for every non-empty key, its spellings with their mention counts and its members |
| `TopicGroups.GroupOfFacts` | src-tauri/src/knowledge/search_index.rs:57-70 | a finished group has the spellings of its key with the mention counts of all facts, and exactly the facts on the subject |
| `TopicGroups.PickName` | src-tauri/src/knowledge/search_index.rs:75-79 | the picked spelling has the highest count, ties going to the smallest |
| `TopicGroups.NameIsUnique` | src-tauri/src/knowledge/search_index.rs:75-79 | a subject has one name |
| `TopicGroups.TopicsPermute` | src-tauri/src/knowledge/search_index.rs:57-70 | mention counts do not depend on the order of the facts |
| `TopicPages.MakeTopicPages` | src-tauri/src/knowledge/search_index.rs:49-123 | one page for every non-empty key and for nothing else, no two pages with one key, each page with exactly the facts on its subject once each in (newest, title, id) order, its counts and first/last dates right, pages in rank order; also when a fact is listed more than once |
| `TopicPages.PagesIgnoreOrder` | src-tauri/src/knowledge/search_index.rs:49-123 | for facts with distinct ids the pages do not depend on the input order |
| `TopicPages.FactOnItsPages` | src-tauri/src/knowledge/search_index.rs:57-83 | a fact is on a page exactly once if the page's key is one of its topics' keys, else not at all |
| `TopicPages.EverySubjectHasItsPage` | src-tauri/src/knowledge/search_index.rs:71-84 | collecting by name loses no group |
| `TopicGraph.Project` | src-tauri/src/knowledge/search_index.rs:259-348 | fact nodes, explicit links within scope, and the hubs of all subjects joining two facts, in key order, with member edges in id order |
| `TopicGraph.MakeGraph` | src-tauri/src/knowledge/search_index.rs:259-348 | the graph of an index is that of the facts a blank search lists |
| `TopicGraph.HubIffTwoMentions` | src-tauri/src/knowledge/search_index.rs:259-348 | a topic page has a hub exactly when it has at least two mentions; the hub has the page's name and its facts |
| `TopicGraph.EveryHubHasItsPage` | src-tauri/src/knowledge/search_index.rs:259-348 | every hub has its page, under the hub's label |
| `TopicGraph.EdgesCountMentions` | src-tauri/src/knowledge/search_index.rs:332-344 | the number of edges to a hub is the page's `mentions`, and zero for a page with fewer than two |
| `TopicGraph.EdgesStayInside` | src-tauri/src/knowledge/search_index.rs:280-344 | both ends of every edge are nodes |
| `TopicGraph.NodesAreDistinct` | src-tauri/src/knowledge/search_index.rs:36-41 | with hub ids apart from each other and from fact ids, no two nodes share an id |
| `SearchGuarantees.TokensMean` | src-tauri/src/knowledge/search_index.rs:394-429 | in literal characters: the tokens of a text are its longest runs of letters and digits in lowercase, its East Asian characters that stand alone, and any two of them that stand together |
| `SearchGuarantees.FoundMeans` | src-tauri/src/knowledge/search_index.rs:205-241 | a query of nothing but spacing finds every fact in scope, any other those in scope whose title or body has each of its tokens, and none if it has no tokens |
| `SearchGuarantees.ResultMeans` | src-tauri/src/knowledge/search_index.rs:205-241 | a result holds a summary of every such fact, field by field, once, and nothing else |
| `SearchGuarantees.EastAsianTextIsFound` | src-tauri/src/knowledge/search_index.rs:394-407 | two or more Hangul, kana or Han characters find every fact that has them in its title or body |
| `SearchGuarantees.KeyIsLetters` | src-tauri/src/knowledge/search_index.rs:26-28 | topics are compared by their letters and digits alone |
| `SearchGuarantees.OnePagePerTopic` | src-tauri/src/knowledge/search_index.rs:57-84 | every topic with a letter or digit has one page, whatever its separators |
| `SearchGuarantees.PageMeans` | src-tauri/src/knowledge/search_index.rs:57-116 | a page holds exactly the facts with such a topic, once, the most recently seen first and then by title |
| `SearchGuarantees.SeenMeans` | src-tauri/src/knowledge/search_index.rs:88-113 | a page was first seen when its earliest fact was and last when its latest was |
| `SearchGuarantees.PagesInOrder` | src-tauri/src/knowledge/search_index.rs:117-123 | pages with more mentions come first, then those seen later, then by name |
| `SearchGuarantees.HubsMean` | src-tauri/src/knowledge/search_index.rs:299-344 | a hub for exactly the topics that two facts share up to separators, with exactly these facts |
| `SearchGuarantees.EdgesMean` | src-tauri/src/knowledge/search_index.rs:280-344 | the edges are exactly the links the facts have to one another, and one from each member of a hub to the hub |
| `SearchGuarantees.NodesMean` | src-tauri/src/knowledge/search_index.rs:259-344 | the nodes are the facts under their titles and the hubs under their names |
| `KnowledgeGuarantees.IndexFollowsStore` | src-tauri/src/knowledge/service.rs:127-207 | whatever interleaves and fails: an initialized index agrees with the store on every fact except those a failed write left stale and, while the lock is held, the one fact its holder is writing |
| `KnowledgeGuarantees.ReadsTellTheStore` | src-tauri/src/knowledge/service.rs:127-221 | under concurrent writers and failures every read answers what the store held at some moment since it was called, up to the facts a failed write had left stale and the one being written then |
| `KnowledgeGuarantees.QuietReadsAreExact` | src-tauri/src/knowledge/service.rs:217-221 | while nobody writes, every read answers exactly what a naive scan of the store finds |
| `KnowledgeGuarantees.FreshServiceAnswersTheSame` | src-tauri/src/knowledge/service.rs:69-90 | from any reachable state in which nobody is writing and no failed write has left the index behind, every read the service answers and every read a fresh service over the same store answers, among other reads and builds, have the same answer to the same query |
| `KnowledgeGuarantees.RebuildRepairs` | src-tauri/src/knowledge/service.rs:59-75 | a completed rebuild makes the index the index of the store again, whatever failed before |
| `KnowledgeGuarantees.HistoryTellsEveryBody` | src-tauri/src/knowledge/service.rs:127-174 | under concurrent writers each history is a chain ending at the stored body, and replaying it gives every body the fact ever had, in order |
| `KnowledgeHistory.HistoryTellsIffNotTorn` | src-tauri/src/knowledge/service.rs:127-174 | in every reachable state the history of a stored fact is a chain that replays every body it has had if and only if no edit of it was torn |
| `KnowledgeHistory.TornForGood` | src-tauri/src/knowledge/service.rs:151-156 | a torn edit is never made up for: in every continuation, with whatever retries, the fact has had more bodies than its history tells |
| `KnowledgeHistory.NothingTornIff` | src-tauri/src/knowledge/service.rs:148-170 | when no edit is torn: exactly in the runs without a failing edit put that took effect, a failing read of the history, or a failing write of its entry that took no effect |
| `KnowledgeHistory.FailedAppendTears` | src-tauri/src/knowledge/service.rs:151-170 | it happens: an edit is stored and then the history cannot be read |
| `KnowledgeGuarantees.NoFailureNoException` | src-tauri/src/knowledge/service.rs:127-207 | facts are excepted from the two results above only because of failed writes |
| `KnowledgeService.RebuiltIsStore` | src-tauri/src/knowledge/service.rs:59-65 | inserting the loaded facts one by one gives back the store |
| `KnowledgeService.Service.LoadAll` | src-tauri/src/knowledge/fact_store.rs:47-56 | every stored fact, or nothing |
| `KnowledgeService.Service.Put` | src-tauri/src/knowledge/fact_store.rs:33-36 | the store with this fact replaced; after a failure, that or the old store |
| `KnowledgeService.Service.Append` | src-tauri/src/knowledge/history.rs:30-43 | the log grows by one entry and loses none |
| `KnowledgeService.Service.BuildIndex` | src-tauri/src/knowledge/service.rs:69-75 | afterwards the index is that of the store; a failure changes nothing; it succeeds whenever no store call fails |
| `KnowledgeService.Service.EnsureIndex` | src-tauri/src/knowledge/service.rs:78-90 | an initialized index is left alone, otherwise it is built |
| `KnowledgeService.Service.Upsert` | src-tauri/src/knowledge/service.rs:127-174 | exactly the unconfirmed, undated or untitled facts are refused, without a trace; a stored fact replaces its predecessor in the store and the index, and a changed body appends one history entry; when no store call fails the answer is Ok exactly for the acceptable facts |
| `KnowledgeService.Service.SetSharing` | src-tauri/src/knowledge/service.rs:183-207 | only visibility and category of an existing fact change, in store and index; no history entry; when no store call fails the answer is Ok for every stored id and not found for every other |
| `KnowledgeService.Service.Search` | src-tauri/src/knowledge/service.rs:217-221 | unless a failed write left the index behind, exactly the stored facts a naive scan finds; an answer whenever no store call fails |
| `KnowledgeService.Service.Topics` | src-tauri/src/knowledge/service.rs:229-237 | the topic pages of the facts a blank search lists, which are the stored ones unless a failed write left the index behind; an answer whenever no store call fails |
| `KnowledgeService.Service.Graph` | src-tauri/src/knowledge/service.rs:223-227 | the topic graph of the facts a blank search lists, in the same way |
| `KnowledgeService.TopicsMatchGraph` | src-tauri/src/knowledge/service.rs:223-237 | topics and graph of the same facts agree: hub exactly from two mentions, same name, as many edges as mentions |
| `SearchGuarantees.AcceptableMeans` | src-tauri/src/knowledge/service.rs:128-143 | stored are exactly the facts that are confirmed, know when, and have a title that is not all spacing |
| `LoneCalls.LoneUpsert` | src-tauri/src/knowledge/service.rs:127-174 | in the protocol too: an acceptable upsert that runs alone over a store that answers ends with the fact stored as it is, a changed body logged, and the fact indexed, first building the index if there is none |
| `LoneCalls.LoneRefusal` | src-tauri/src/knowledge/service.rs:128-143 | any other upsert ends at once and changes nothing |
| `LoneCalls.LoneSetSharing` | src-tauri/src/knowledge/service.rs:183-207 | a change of sharing ends with exactly visibility and category of the stored fact changed, in store and index, or with nothing changed if there is none |
| `LoneCalls.LoneBuild` | src-tauri/src/knowledge/service.rs:69-75 | a forced build ends with the index of the store |
| `LoneCalls.LoneRead` | src-tauri/src/knowledge/service.rs:217-221 | a read ends with the summaries of exactly the indexed facts a naive scan finds |
| `KnowledgeSharing.SearchVisible` | src-tauri/src/sharing/knowledge.rs:48-81 | exactly the first `limit` matches the token can read, by title and then id; inaccessible hits do not shorten the page |
| `KnowledgeSharing.CategoryCounts` | src-tauri/src/sharing/knowledge.rs:91-103 | every category with a readable page, with the number of its readable pages, by name |
| `KnowledgeSharing.ListCategories` | src-tauri/src/sharing/knowledge.rs:167-175 | exactly the categories with a readable page, by name |
| `KnowledgeSharing.ListAgreesWithCounts` | src-tauri/src/sharing/knowledge.rs:167-175 | the listing of names is the listing of counts without the counts |
| `KnowledgeSharing.GuidePages` | src-tauri/src/sharing/knowledge.rs:116-136 | the readable pages of the category by title and id; not found exactly when there is none |
| `KnowledgeSharing.GetGuide` | src-tauri/src/sharing/knowledge.rs:211-245 | the same pages composed into one text |
| `KnowledgeSharing.UngrantedIsEmpty` | src-tauri/src/sharing/mod.rs:82-92 | a token that does not grant a category can read no page of it, so refusing early reveals nothing |
| `KnowledgeSharing.PageIffInView` | src-tauri/src/sharing/knowledge.rs:202-209 | a page is served exactly when the token can read it; out of scope and absent are the same answer |
| `KnowledgeSharing.AccessibleIsView` | src-tauri/src/sharing/knowledge.rs:159-163 | filtering an enumeration by the access rule lists exactly the token's view |
| `KnowledgeSharing.GuideIsUnique` | src-tauri/src/sharing/knowledge.rs:116-136 | the answer for a category is determined by the view |
| `KnowledgeSharing.RankedIsUnique` | src-tauri/src/sharing/knowledge.rs:59-62 | the (title, id) order of a set of facts is unique |
| `SharingTools.HandleListCategories` | src-tauri/src/sharing/mcp.rs:245-260 | the answer is a function of the token's view |
| `SharingTools.HandleSearch` | src-tauri/src/sharing/mcp.rs:262-296 | blank, missing or over-long queries and limits outside 1..50 are refused; else the first `limit` readable matches, and `truncated` exactly when there are more |
| `SharingTools.CollectLinks` | src-tauri/src/sharing/mcp.rs:309-318 | exactly the links to readable pages, in order |
| `SharingTools.HandleGetPage` | src-tauri/src/sharing/mcp.rs:298-338 | the page with its visible links, or the same refusal for absent and out of scope |
| `SharingTools.HandleGetGuide` | src-tauri/src/sharing/mcp.rs:340-369 | the category is normalized first; its readable pages, or not found exactly when there is none |
| `SharingTools.CategoriesAreBlind` | src-tauri/src/sharing/mcp.rs:245-260 | two stores with the same facts readable by a token give it the same categories and counts |
| `SharingTools.SearchIsBlind` | src-tauri/src/sharing/mcp.rs:262-296 | ... the same search page and `truncated` flag |
| `SharingTools.PageIsBlind` | src-tauri/src/sharing/mcp.rs:298-338 | ... the same page and links |
| `SharingTools.GuideIsBlind` | src-tauri/src/sharing/mcp.rs:340-369 | ... the same guide |
| `SharingTools.OnlyFailuresOutsideShowInSearch` | src-tauri/src/sharing/mcp.rs:262-296 | with failing stores: where the calls about the view end the same, two stores with the same view give the same search reply, failures included, unless a read of a fact outside the view fails |
| `SharingTools.OnlyFailuresOutsideShowInPages` | src-tauri/src/sharing/mcp.rs:298-338 | ... the same for a page and its links |
| `SharingTools.ListingsFailAlike` | src-tauri/src/sharing/mcp.rs:245-260 | where reading all facts ends the same, two stores with the same view give the same categories and the same guide, failures included |
| `SharingTools.OutsideFailureShows` | src-tauri/src/sharing/knowledge.rs:66-79 | such a failure does show: an unreadable matching fact whose read fails turns an empty search result and a missing page into refusals |
| `SharingTools.UnreadableEditsDoNotShow` | src-tauri/src/sharing/mod.rs:82-87 | adding, changing or removing a fact the token cannot read leaves its view as it was |
| `SharingTools.HitsAreSafe` | src-tauri/src/sharing/mcp.rs:224-234 | every hit is a readable match whose short fields are clean and whose excerpt is framed by exactly one delimiter pair |
| `SharingTools.PageIsSafe` | src-tauri/src/sharing/mcp.rs:320-337 | the same for a page and its links |
| `SharingGuarantees.ViewInFields` | src-tauri/src/sharing/mod.rs:82-87 | in the fact's own fields: a token sees a stored fact exactly if it is the owner's, or the fact is shared and has a category the token was granted |
| `SharingGuarantees.HitsAreShared` | src-tauri/src/sharing/mcp.rs:262-296 | for a consumer every hit is a stored match that is shared, with a category that was granted |
| `SharingGuarantees.SharedMatchesAreHits` | src-tauri/src/sharing/mcp.rs:262-296 | every such match, and for the owner every match, is a hit, unless the page is full of hits that come before it by title and id |
| `SharingGuarantees.HitShows` | src-tauri/src/sharing/mcp.rs:209-234 | what a hit shows: cleaned title and category, the first 200 characters framed, and the confirmation time or else the collection time |
| `SharingGuarantees.SearchBounds` | src-tauri/src/sharing/mcp.rs:262-296 | a search is refused exactly without a query, with one of nothing but spacing or of more than 500 characters, or with a limit that is not a number from 1 to 50; without a limit there are at most 10 hits |
| `SharingGuarantees.PagesAreShared` | src-tauri/src/sharing/mcp.rs:298-338 | a page is served exactly if it is stored and the owner's, or shared under a granted category; anything else is not found; what it shows, field by field |
| `SharingGuarantees.LinksAreShared` | src-tauri/src/sharing/mcp.rs:309-318 | its links are exactly those to such pages |
| `SharingGuarantees.GuidesAreShared` | src-tauri/src/sharing/mcp.rs:340-369 | a guide lists exactly the stored facts of the category that are shared, if it was granted, or all for the owner |
| `SharingGuarantees.GuidePageShows` | src-tauri/src/sharing/mcp.rs:355-368 | what a guide shows of a page |
| `SharingGuarantees.UngrantedIsNotFound` | src-tauri/src/sharing/knowledge.rs:116-136 | to a consumer without the grant a category is not found, whatever happens to the store |
| `SharingGuarantees.CountsAreShared` | src-tauri/src/sharing/mcp.rs:245-260 | a category is listed exactly if it has such facts, with their number |
| `SharingGuarantees.RefusalsTellApart` | src-tauri/src/sharing/mcp.rs:188-200 | only absence becomes not found, only a locked vault locked, only an invalid argument a bad argument, and the rest unavailable |
| `Categories.Parse` | src-tauri/src/core/types.rs:131-157 | the normal form if it has 1 to 64 characters, else a refusal |
| `Categories.NormalizedIsNormal` | src-tauri/src/core/types.rs:127-130 | only allowed characters and single inner dashes remain, whatever was typed |
| `Categories.NormalizeTwice` | src-tauri/src/core/types.rs:127-157 | normalizing a normalized category changes nothing |
| `ServingGuarantees.CategoryMeans` | src-tauri/src/core/types.rs:131-157 | a category is the words of the trimmed, lowercased text, cut at spacing, underscores and dashes, without anything but ASCII letters and digits, full stops and Hangul, joined by single dashes; it fits with 1 to 64 characters |
| `Envelope.ExactlyOnePair` | src-tauri/src/sharing/envelope.rs:39-47 | for every text the output has one verbatim opening delimiter, at the very start, and one closing delimiter, at the very end; none straddles a border |
| `Envelope.EscapedHasNoDelimiters` | src-tauri/src/sharing/envelope.rs:39-46 | escaping leaves no delimiter and creates none |
| `Envelope.EscapeOfPlain` | src-tauri/src/sharing/envelope.rs:39-46 | text without delimiters is served unchanged |
| `Envelope.SanitizeField` | src-tauri/src/sharing/envelope.rs:55-84 | the loop is the specified cleaning |
| `Envelope.SanitizedIsSafe` | src-tauri/src/sharing/envelope.rs:49-84 | the output is one trimmed line without control characters and without a delimiter, even one re-formed by dropping control characters |
| `Envelope.SafeIsUntouched` | src-tauri/src/sharing/envelope.rs:55-84 | a safe field is served as it is |
| `Envelope.SanitizeTwice` | src-tauri/src/sharing/envelope.rs:55-84 | cleaning is idempotent |
| `ServingGuarantees.EscapeIsOnePass` | src-tauri/src/sharing/envelope.rs:39-46 | replacing one delimiter after the other is one pass from left to right that spells out the brackets of both and keeps every other character |
| `ServingGuarantees.FrameMeans` | src-tauri/src/sharing/envelope.rs:39-47 | a frame is the opening delimiter, this, and the closing delimiter |
| `ServingGuarantees.FieldMeans` | src-tauri/src/sharing/envelope.rs:55-84 | a served field is the words of the text without control characters, with one space between any two, with every delimiter spelled out |
| `Tokens.TokenStore.Issue` | src-tauri/src/sharing/tokens.rs:94-110 | a live record under the secret's digest when the write succeeds, or when it fails after having taken effect; else nothing |
| `Tokens.TokenStore.Resolve` | src-tauri/src/sharing/tokens.rs:116-126 | a consumer with the recorded grants for a live record; unknown and revoked look the same |
| `Tokens.TokenStore.Revoke` | src-tauri/src/sharing/tokens.rs:136-168 | success exactly if the listing works, no read finds the vault locked and no write of a live record of the id fails; then every live record of the id is flipped except exactly those whose read broke, and the answer says whether there was one to flip; a failure leaves some of them flipped |
| `Tokens.TokenStore.List` | src-tauri/src/sharing/tokens.rs:177-203 | success exactly if the listing works and no read finds the vault locked; then exactly the live tokens whose read does not break, each once, newest first and then by id |
| `Tokens.ListedNewestFirst` | src-tauri/src/sharing/tokens.rs:200-203 | of two entries the one issued later comes first, and of those issued together the smaller id by code points |
| `Tokens.SurvivesRevocationIff` | src-tauri/src/sharing/tokens.rs:139-159 | a secret issued before a revocation of its id that reported success works at the end of the run exactly if it worked until then, the read of its record broke during that scan, and no later revocation has reached it |
| `Tokens.RevokesAllIff` | src-tauri/src/sharing/tokens.rs:136-168 | a revocation that reported success has revoked every secret of the id if and only if no read of a working record broke; other ids are untouched |
| `Tokens.RevokedSecretStillWorks` | src-tauri/src/sharing/tokens.rs:139-165 | a concrete run: two secrets of one id, one read breaks, the revocation succeeds and answers that it revoked, and the other secret still resolves |
| `Tokens.ResolvesIffLive` | src-tauri/src/sharing/tokens.rs:94-168 | after any run of issues and revocations with any failures a secret resolves to exactly what it was issued with if and only if every later revocation of its id failed before reaching its record or could not read it, also beside unparseable records |
| `Tokens.ListedIffLive` | src-tauri/src/sharing/tokens.rs:177-203 | the listing after a run has an entry exactly for each secret that still works and whose record can be read |
| `Tokens.ListCountsLive` | src-tauri/src/sharing/tokens.rs:177-203 | there are as many entries as live records that can be read |
| `Tokens.GoodKeysWereIssued` | src-tauri/src/sharing/tokens.rs:219-221 | every usable record belongs to an issued secret |
| `Similarity.NearIsSymmetric` | src-tauri/src/core/text.rs:69-77 | near-duplication is symmetric |
| `Similarity.NearItself` | src-tauri/src/core/text.rs:69-77 | a title duplicates itself exactly when something of it survives folding |
| `Similarity.OnlyFoldedTextCounts` | src-tauri/src/core/text.rs:42-48 | white space, quotes and punctuation inserted anywhere change nothing about what a title resembles |
| `Similarity.NearIsNotTransitive` | src-tauri/src/core/text.rs:69-77 | three concrete titles, the first like the second and the second like the third, but not the first like the third |
| `InterviewGuarantees.NearMeans` | src-tauri/src/core/text.rs:34-82 | two titles are duplicates exactly if their letters, digits and underscores in lowercase are the same and not none, or share at least 0.45, as a quotient of reals, of the pairs of neighbours either has |
| `InterviewGuarantees.CaseDoesNotCount` | src-tauri/src/core/text.rs:42-48 | writing a title in other cases does not make it a new title |
| `InterviewQueue.ConfirmationsShownFirst` | src-tauri/src/interview/queue_manager.rs:64-110 | with default scores the queue by priority shows every confirmation before any open question, and those from sessions first |
| `InterviewGuarantees.NearItemsAskTheSame` | src-tauri/src/interview/queue_manager.rs:84-104 | duplicates are two confirmations of such titles or two such questions, never one of each |
| `InterviewGuarantees.ShownMeans` | src-tauri/src/interview/queue_manager.rs:110-122 | shown is what is not due, the more important first and of equals the newer, or simply the newer first |
| `InterviewQueue.OfferedKeepsNoTwins` | src-tauri/src/interview/service.rs:59-92 | offering an item never creates two unexpired near-duplicates |
| `InterviewQueue.OfferedIsCovered` | src-tauri/src/interview/service.rs:67-91 | an offered idea is never lost: afterwards the item or a duplicate of at least its priority is stored |
| `InterviewQueue.OfferedEvictsLesser` | src-tauri/src/interview/service.rs:81-91 | only duplicates of lower priority give way |
| `InterviewQueue.BothGoneIff` | src-tauri/src/interview/service.rs:67-91 | in any queue: a live duplicate was stored and nothing unexpired of the idea is left if and only if the item had expired on arrival, there is a live duplicate, and none has at least its priority |
| `InterviewQueue.SurvivesSweepIff` | src-tauri/src/interview/service.rs:67-91 | in a queue as `enqueue` keeps it the next sweep leaves nothing of the idea if and only if the item had expired on arrival and no duplicate beats it |
| `InterviewQueue.BothAreDropped` | src-tauri/src/interview/service.rs:67-91 | a concrete queue: a live duplicate of lower priority and an item that had expired on arrival, and the sweep leaves nothing |
| `InterviewQueue.RunsNeverHaveTwins` | src-tauri/src/interview/service.rs:59-232 | over every run of enqueue, answer, expire and waiting from an empty queue, no two unexpired items are near-duplicates |
| `InterviewQueue.ReachableExpireIsExact` | src-tauri/src/interview/service.rs:192-232 | in every reachable state a sweep removes exactly the expired items |
| `InterviewQueue.ExpireIsExact` | src-tauri/src/interview/service.rs:192-232 | the same from any queue without near-duplicates, in any listing order |
| `InterviewQueue.NothingExpiredLeft` | src-tauri/src/interview/service.rs:196-205 | on an arbitrary queue nothing expired is left |
| `InterviewQueue.SweepConserves` | src-tauri/src/interview/service.rs:212-226 | survivors and dropped duplicates together are the unexpired items |
| `InterviewQueue.DropsExplained` | src-tauri/src/interview/service.rs:212-226 | every dropped duplicate was beaten by a near-duplicate of at least its priority, and its slot's final survivor has at least that priority |
| `InterviewQueue.DroppedForAReason` | src-tauri/src/interview/service.rs:192-232 | every unexpired item a sweep removes has such an explanation |
| `InterviewQueue.BridgeLeavesTwins` | src-tauri/src/interview/service.rs:207-226 | an item like two kept ones that outranks the first replaces only that one, so near-duplicates can survive a sweep |
| `InterviewQueue.TwinsCanSurvive` | src-tauri/src/interview/service.rs:207-226 | a concrete queue on which they do |
| `InterviewQueue.AlwaysSweptApartIff` | src-tauri/src/interview/service.rs:207-226 | of a set of items every selection in every order is swept to survivors that are apart if and only if no item of the set resembles two that do not resemble one another and outranks one of them |
| `InterviewQueue.UnbridgedSurvivorsApart` | src-tauri/src/interview/service.rs:212-226 | survivors are apart if no item comes after two others that it bridges while outranking the first |
| `InterviewQueue.DescendingSurvivorsApart` | src-tauri/src/interview/service.rs:212-226 | met in priority order the survivors are never near-duplicates |
| `InterviewQueue.TransitiveSurvivorsApart` | src-tauri/src/interview/service.rs:212-226 | nor are they, in any order, where resemblance is transitive on the items |
| `InterviewGuarantees.OfferMeans` | src-tauri/src/interview/service.rs:59-92 | what offering stores, in numbers: 160 for confirmations from sessions, 130 from files, 145 from the others, 125 for questions, 1_209_600 or 2_592_000 seconds, unless the item says otherwise; nothing if a stored item that is not due asks the same and is as important, else in the place of all that do |
| `InterviewGuarantees.BlankQuestionMeans` | src-tauri/src/interview/service.rs:60-66 | a question is refused exactly if it is nothing but spacing |
| `InterviewGuarantees.NothingIsAskedTwice` | src-tauri/src/interview/service.rs:59-232 | in no reachable queue do two items that are not due ask the same |
| `InterviewGuarantees.SweepRemovesTheDue` | src-tauri/src/interview/service.rs:192-232 | a sweep of a reachable queue removes exactly the items whose time has come |
| `InterviewGuarantees.ConfirmsMeans` | src-tauri/src/interview/answer_intake.rs:22-34 | an answer records a fact exactly if it is not a skip, not nothing but spacing, and not one of nine words of rejection given to a confirmation, trimmed and lowercased |
| `InterviewGuarantees.RefusedMeans` | src-tauri/src/interview/service.rs:108-160 | refused are exactly answers of nothing but spacing, and those that would record a fact whose title is nothing but spacing |
| `InterviewService.InterviewService.Enqueue` | src-tauri/src/interview/service.rs:59-92 | exact new queue and answer, which names the item or the most important duplicate that beats it; exactly blank questions are refused; Ok whenever nothing fails; after a store failure at most some replaced duplicates are gone, or all has taken effect |
| `InterviewService.InterviewService.Answer` | src-tauri/src/interview/service.rs:108-190 | skipping changes nothing; blank answers and confirmations without a title are exactly what is refused as invalid, unknown items exactly what is not found, and nothing else is refused when nothing fails; one fact is recorded exactly when the answer confirms, with every field as answered; after an open answer one question each is offered about the first three labels the classifier gives to the masked answer, in order, scored and dated, and, their ids being new, exactly those stored are reported; the item is gone; after a failure that recorded nothing only a rejected item may be gone |
| `InterviewService.InterviewService.Expire` | src-tauri/src/interview/service.rs:192-232 | the swept queue, and the number returned is the number of items gone; Ok whenever nothing fails |
| `InterviewService.InterviewService.Pending` | src-tauri/src/interview/service.rs:94-106 | every unexpired item once, in the chosen order; an answer whenever nothing fails |
| `InterviewService.InterviewService.DeriveFollowUps` | src-tauri/src/interview/answer_intake.rs:86-115 | at most three questions, about the labels the classifier gives to the masked answer with their placeholders undone; none when it is down |
| `InterviewService.FollowUpNotBlank` | src-tauri/src/interview/answer_intake.rs:97-112 | a generated question is never refused as blank |
| `InterviewService.FinalizeTwice` | src-tauri/src/interview/service.rs:163-171 | finalizing a follow-up before offering it changes nothing about the offer |
| `InterviewService.SweepCounts` | src-tauri/src/interview/service.rs:192-232 | no id is removed twice |
| `InterviewService.DeletedIsExpired` | src-tauri/src/interview/service.rs:196-230 | deleting the expired and then the duplicates leaves exactly the swept queue |
| `ContextSelection.ScoresIffTermOccurs` | src-tauri/src/persona/context.rs:16-24 | a text scores exactly when a query term of two or more characters occurs in it |
| `ContextSelection.SelectContext` | src-tauri/src/persona/context.rs:50-97 | of every eligible id the first of its most relevant versions, the best `max_facts` of them by (relevance, confirmation time, id) |
| `ContextSelection.PipelineChooses` | src-tauri/src/persona/context.rs:76-91 | sort, dedup, sort makes that choice |
| `ContextOrder.ContextIgnoresOrder` | src-tauri/src/persona/context.rs:41-45 | where the condition below holds, the context depends only on the set of facts |
| `ContextSelection.NothingDroppedOutranks` | src-tauri/src/persona/context.rs:85-91 | nothing whose id was dropped outranks anything kept, other than a version that gave way to an equally relevant one |
| `ContextSelection.ChoiceIsUnique` | src-tauri/src/persona/context.rs:76-91 | the candidates in their order determine what is chosen |
| `ContextOrder.ContextIsFixedIff` | src-tauri/src/persona/context.rs:41-83 | shuffling the facts cannot change the context for the given `max_facts` if and only if, wherever there is room for a most relevant version of an id, all its most relevant versions have the same entry and outrank the same versions of other ids |
| `ContextSelection.ShufflingChangesContext` | src-tauri/src/persona/context.rs:41-45 | two concrete facts of one id and a blank query whose two orders give different contexts |
| `ContextSelection.FirstVersionWins` | src-tauri/src/persona/context.rs:76-83 | of two equally relevant versions of one fact the context holds the first met |
| `ContextScores.CutIffPieces` | src-tauri/src/persona/context.rs:16-24 | a query is cut at every character that is not alphanumeric, in the one way there is |
| `ContextScores.GreedyCounts` | src-tauri/src/persona/context.rs:16-24 | counting matches from left to right finds the largest number of places where the term stands without overlap |
| `ContextScores.RelevanceIsWeight` | src-tauri/src/persona/context.rs:26-40 | the relevance of a fact is three times the number of places where terms of two or more characters stand in its lowercased title, plus those in its lowercased body |
| `ContextScores.PositiveIffTermOccurs` | src-tauri/src/persona/context.rs:26-40 | it is positive exactly if such a term occurs in one of the two |
| `ContextScores.ContextQuotes` | src-tauri/src/persona/context.rs:50-97 | the entries of a context quote at most `max_facts` confirmed facts of the scope, field by field and with this relevance, each id once, by relevance, then confirmation time, then id; of every other such fact another version that weighs as much is quoted, or the context is full of entries that weigh as much |
| `ContextScores.TitleMentionsDecide` | src-tauri/src/persona/context.rs:26-97 | with equal bodies, the fact whose title has more of these places comes first |
| `PersonaService.Gather` | src-tauri/src/persona/service.rs:71-90 | the candidates are the confirmed hits, widened by the confirmed population exactly when they are fewer than `max_facts`; the total counts the population |
| `PersonaService.PipelineShortlists` | src-tauri/src/persona/service.rs:95-102 | sort, dedup, sort leaves each candidate once by title relevance and id |
| `PersonaService.BuildContext` | src-tauri/src/persona/service.rs:62-115 | the context of the first `fetch_cap` of that shortlist; at most `fetch_cap` facts are fetched |
| `PersonaService.BuildIgnoresSearchOrder` | src-tauri/src/persona/service.rs:62-115 | the context does not depend on the order in which searches list their results |
| `PersonaService.EntriesAreConfirmed` | src-tauri/src/persona/service.rs:62-115 | every entry is a confirmed in-scope stored fact with its own score, and there are at most `max_facts` |
| `ContextScores.FetchedByTitle` | src-tauri/src/persona/service.rs:95-102 | facts are fetched in the order of these places in their titles, then by id |
| `ContextScores.BuiltQuotes` | src-tauri/src/persona/service.rs:62-115 | all this of a built context: its entries quote stored facts as they are, and when all that is considered may be fetched nothing considered is left out that weighs more than what is quoted |

## Left out

- Masker.Mask: requires fewer than 10^8 characters, because beyond that a nine-digit counter may match again and the loop's end is not guaranteed.
- Masker.FindIterMeans: backtracking is not modelled; a scan reports leftmost and longest words, which is what greedy matching comes to for these four patterns.
- IngestionService.Service.TriggerAll: one call at a time, beside whatever is marked as running; concurrent calls are in `IngestionProtocol`. After a failure `collected` is stated up to one item per failed source, and `skipped` is not.
- TopicPages.MakeTopicPages: a list with two different summaries under one id is left out; `topic_pages` is called with search results, which have one per id.
- InterviewQueue.AlwaysSweptApartIff: exact for all selections from a set of items in all orders; of one queue that is met in full it is only sufficient that there is no such bridge.
- InterviewService.InterviewService.DeriveFollowUps: masker and classifier are parameters; what `Masker` proves of masking and of replies is not restated.
- KnowledgeGuarantees.IndexFollowsStore: the index is represented by the facts it stands for; that its maps are the index of these facts is proved of the class in `SearchIndex`.
- Tokens.TokenStore.Issue: the secret is a parameter; that secrets are fresh is assumed in the run theorems, since the random generator is not modelled.
- PersonaService.BuildContext: one state of the store per call; facts changed between search and fetch are not modelled, failing fetches are.
- KnowledgeSharing.SearchVisible: a fact deleted between search and load is skipped as in the code, but results are stated for one state of the store.
- `configure`, `clear_cursor`, `clear_seen`, `delete_facts_from_source`, `recent`, the dashboard and the connector registry.
- `search_knowledge` as a projection of `search_visible`, `topic_node_id` as a hash, JSON encoding, identity resolution and the JSON-RPC transport.
- The byte form of store keys (source tags, hashed external ids, uuids): keys are compared as values.
- Progress reports, log messages and error texts; a failed ingestion pass counts as one error.
- `render_prompt`, `retrieval_query`, `build_topic_context` and the calls to the language model.
- `u32` and `usize` overflow of counts and scores.
- Concurrent `enqueue` calls: the queue takes no lock; the model runs them one after another.
- Encryption, key derivation, the scheduler, process and tunnel handling, and the user interface.
