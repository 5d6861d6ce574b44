# Leben in Deutschland question scraper — verified model

This project models the bookkeeping core of a batch job that scrapes the
"Leben in Deutschland" citizenship-test question bank, enriches each question
through a translation service and an AI completion service, and saves the
merged corpus as JSON. It also models the small job that watches the
authority's page for the current exam-evaluation date. The model covers:

- **Record extraction** (`Extraction`). A question page is given as its
  already-selected question elements: the question text, an optional image
  `src`, and the answer list items, each with its text and a flag for the
  correct-answer marker. One element becomes one `Question` record. The record
  gets the fixed defaults, the choice letter of each list position, the
  solution letter of the last marked item and a number label from the running
  counter.
- **The scraper's module state** (`Scraping.Scraper`). The module-level question
  counter and the saved corpus are the two fields of a class. `Scrap`,
  `ScrapAll`, `ScrapStates`, `ScrapeAllAndStates` (the two scraping passes of
  `scrapeData`) and `ScrapeData` are its methods. The full corpus
  keeps one counter across its pages, and the state pages reset it before each
  state.
- **Enrichment** (`Enrichment`). The translator's positional response is
  reshaped into one six-field record per target language. The category and
  context calls fall back to the label "General" on failure.
- **Reconciliation** (`Reconcile`). The merge loop runs in place over an array of
  scraped records. Records with empty text are skipped. Each other record gets
  a content id from the hash of question and choices. A record whose id is in
  the saved corpus copies its enrichment from the first such entry. Every other
  record calls the three services, in code order.
- **State tables** (`States`): the two constant maps between state codes and
  state names.
- **Exam-date gate** (`CurrentEvaluation.EvaluationStore`): the stored date is
  replaced only by a non-blank, trimmed date that differs from it.

External effects are parameters. Fetched pages are `Option` values, where
`None` is a failed fetch. SHA-256 is a function `hash: string -> string`. The
three services are functions from their request to an `Option` response. The
services are therefore deterministic in the model. Each reconciliation also
returns the list of service calls it made, so "no call for a known question"
and the call order can be stated.

Two details of the enrichment order and of the translator request:

- The code translates before it generates the context
  (services/scrap-data.ts:284-286), so the translator receives the fresh
  record's empty context (`Scraping.FreshQuestionTranslatesEmptyContext`).
- The code sends six strings to the translator, the context last
  (services/scrap-data.ts:57-64), and reads six positional results. With fewer
  than six results (and at least one target language), the lookup throws
  inside `translate`. The error is caught there, and the translation becomes
  undefined (`None`).

## Model

| member | source | states |
|---|---|---|
| Wrappers.FirstIndex | services/scrap-data.ts:278 | the index found is the first whose element satisfies the predicate; None only when no element does |
| Text.TrimEmptyIff | services/scrap-bamf-current-evaluation.ts:12 | trimming yields the empty string exactly when the text is all white space |
| Text.TrimIsInfix | services/scrap-data.ts:217 | the trimmed text is a contiguous part of the input with only white space before and after it |
| Text.TrimEnds | services/scrap-bamf-current-evaluation.ts:12 | a non-empty trimmed text starts and ends with a non-space character |
| Text.TrimIdempotent | services/scrap-data.ts:217 | trimming a trimmed text changes nothing |
| Text.DecimalDigits | services/scrap-data.ts:199 | the decimal rendering of a counter is non-empty and all digits, longer than one digit exactly from 10 on, and never starts with a 0 then |
| Text.ParseDecimalOfDecimal | services/scrap-data.ts:199 | the decimal rendering of a counter reads back as that counter |
| Text.DecimalInjective | services/scrap-data.ts:199 | distinct counters render differently |
| Text.Upper | services/scrap-data.ts:201 | each letter a..z becomes the capital at the same position of the alphabet, every other character is kept, the length is kept, and no a..z is left |
| Text.UpperIdempotent | services/scrap-data.ts:201 | upper-casing an upper-cased state code changes nothing |
| States.StateMappingSize | types/state-mapping.ts:2-19 | the code-to-name table has exactly 16 entries |
| States.StateReverseMappingSize | types/state-mapping.ts:21-38 | the name-to-code table has exactly 16 entries |
| States.CodeRoundTrip | types/state-mapping.ts:2-38 | every code's name is in the reverse table, which maps it back to the code |
| States.NameRoundTrip | types/state-mapping.ts:2-38 | every name's code is in the forward table, which maps it back to the name |
| States.StateMappingInjective | types/state-mapping.ts:3-18 | distinct codes map to distinct names |
| States.CodesAreTwoLowercaseLetters | types/state-mapping.ts:3-18 | every code has the state-code shape: two lower-case letters |
| Extraction.MapIndexToChoice | services/scrap-data.ts:10-23 | positions 0..3 give the letters a..d in order, every other position (a fifth item included) gives '' |
| Extraction.SetChoiceAt | services/scrap-data.ts:223-227 | writing the text of list position i sets choice i for i < 4, leaves the record unchanged for i >= 4, and changes no other field |
| Extraction.LastMarked | services/scrap-data.ts:221-225 | the position found is marked and no later one is; None only when no item is marked |
| Extraction.BuildQuestion | services/scrap-data.ts:203-229 | the record built field by field over the list items equals the declarative record of the element |
| Extraction.FreshDefaults | services/scrap-data.ts:203-220 | a fresh record has the given number, id '', context '', no category and an empty translation map; image is '-' without an image, base URL + src with one |
| Extraction.SolutionIsLastMarked | services/scrap-data.ts:221-229 | the solution is the letter of the last marked item, and '' when no item is marked |
| Extraction.SolutionIsLetterOrEmpty | services/scrap-data.ts:221-229 | the solution is one of '', 'a', 'b', 'c', 'd' |
| Extraction.LabelCounterOfNumLabel | services/scrap-data.ts:197-202 | a label reads back as the counter it was made from, with or without a state prefix |
| Extraction.NumLabelDistinct | services/scrap-data.ts:197-202 | for one state (or none), distinct counter values give distinct labels |
| Extraction.NumLabelsDisjoint | services/scrap-data.ts:199-201 | an unprefixed label never equals a state-prefixed one |
| Extraction.PageNumsDistinct | services/scrap-data.ts:196-202 | the records of one page have pairwise distinct labels |
| Extraction.PageQuestionsAppend | services/scrap-data.ts:259-262 | scraping two pages with the counter carried over equals scraping their concatenation |
| Extraction.StatePageStartsAtOne | services/scrap-data.ts:237-239 | with the counter reset to 0, a state page's first label is the upper-cased state code followed by "-1" |
| Enrichment.Translate | services/scrap-data.ts:53-82 | the translation built language by language equals the declarative reshaping of the one translator response |
| Enrichment.FindTextIsFirstMatch | services/scrap-data.ts:70-75 | a field is the text of the first item for the language, or '' when there is none |
| Enrichment.TranslationEntries | services/scrap-data.ts:67-77 | a successful translation has an entry for exactly the target languages, field k read from positional result k in the order question, a, b, c, d, context |
| Enrichment.TranslationFailure | services/scrap-data.ts:79-81 | the translation is undefined exactly when the call fails or there is a language to fill and fewer than six results |
| Enrichment.FallbackIsCategoryLabel | services/scrap-data.ts:183-189 | a failed completion call yields "General", a member of the closed category set; a successful one yields the service text unchanged |
| Reconcile.ReconcileOne | services/scrap-data.ts:273-287 | only id, translation, category and context may change; a record with empty text is unchanged; otherwise the id is the hash of its content |
| Reconcile.IdIsContentOnly | services/scrap-data.ts:84-88 | two records with the same concatenation question+a+b+c+d get the same id, however the text is split into fields |
| Reconcile.KnownQuestionCopies | services/scrap-data.ts:277-282 | a record whose id the first non-null saved entry j carries takes j's translation, category and context and makes no service call |
| Reconcile.UnknownQuestionEnriched | services/scrap-data.ts:283-287 | a record whose id no saved entry carries calls translate, then category, then context, and takes their (fallback) results |
| Reconcile.ReconcileIgnoresLabels | services/scrap-data.ts:84-88 | the number, image and solution play no part in matching, enrichment or the calls made |
| Reconcile.NoCallsWhenAllKnown | services/scrap-data.ts:278-282 | when every record with text is known, the loop makes no call |
| Reconcile.RerunMakesNoCalls | services/scrap-data.ts:273-288 | a second run over the same scrape against the saved result calls no service |
| Reconcile.RerunReproduces | services/scrap-data.ts:277-282 | a second run reproduces every record whose id no earlier record shares |
| Reconcile.RerunReproducesKnown | services/scrap-data.ts:277-282 | a second run reproduces every record with text whose id the prior corpus held, duplicates across the two scraping passes included, provided no record without text carries that id |
| Reconcile.EnrichQuestion | services/scrap-data.ts:283-287 | enriching one record yields the declarative enrichment and the three calls in order translate, category, context |
| Reconcile.ReconcileQuestion | services/scrap-data.ts:274-287 | one loop step yields the declarative reconciliation of the record and its call list |
| Reconcile.ReconcileInPlace | services/scrap-data.ts:273-288 | the array afterwards is the element-wise reconciliation of its old contents, and the calls are the concatenated per-record call lists |
| Scraping.StateBlockNumsHaveDash | services/scrap-data.ts:237-241 | every label of the state pages carries the dash after the state code |
| Scraping.FullAndStateNumsDisjoint | services/scrap-data.ts:245-262 | no label of the full corpus equals a label of the state pages |
| Scraping.NumLabelStatesDistinct | services/scrap-data.ts:199-202 | two different two-letter codes give different labels for any counter values |
| Scraping.StateBlockNumsDistinct | services/scrap-data.ts:235-243 | with pairwise distinct two-letter state codes, no two records of the state pages share a label |
| Scraping.RunNumsDistinct | services/scrap-data.ts:269-271 | when the states are pairwise distinct keys of the state table, the records of a whole run (full corpus, then state pages) have pairwise distinct labels |
| Scraping.FreshQuestionTranslatesEmptyContext | services/scrap-data.ts:57-64 | a freshly scraped record sends the empty context as the sixth translator input |
| Scraping.Scraper.constructor | services/scrap-data.ts:9 | the counter starts at 0 and the saved corpus is the one read at start |
| Scraping.Scraper.Scrap | services/scrap-data.ts:192-233 | each element advances the counter by exactly one, and the k-th record is labelled with the counter's start + k + 1 |
| Scraping.Scraper.ScrapAll | services/scrap-data.ts:245-264 | the pages' records in order with the counter never reset; a failed fetch ends the pass with no result |
| Scraping.Scraper.ScrapStates | services/scrap-data.ts:235-243 | each state's records counted from 1 again; afterwards the counter is the last state's record count; a failed fetch ends the pass |
| Scraping.Scraper.ScrapeAllAndStates | services/scrap-data.ts:269-271 | the full-corpus records followed by the state records when every fetch succeeded, None otherwise, and the counter left as the two passes leave it |
| Scraping.Scraper.ScrapeData | services/scrap-data.ts:266-302 | on success the saved corpus is the reconciliation of full-corpus records followed by state records; any failed fetch leaves the saved corpus unchanged and calls nothing; the counter ends as the last pass left it (0 after a failed state fetch) |
| CurrentEvaluation.ScrapedDate | services/scrap-bamf-current-evaluation.ts:7-16 | the scraped date is the page text with only its surrounding white space removed: blank exactly when the text is all white space, and otherwise starting and ending with a non-space |
| CurrentEvaluation.RefreshWritesIffNew | services/scrap-bamf-current-evaluation.ts:22-38 | a write happens exactly when the page was fetched with a non-blank date different from the stored one, and stores that date; otherwise the stored date is kept |
| CurrentEvaluation.RefreshNeverBlanks | services/scrap-bamf-current-evaluation.ts:22-38 | the stored date is never replaced by '', and a written date is already trimmed |
| CurrentEvaluation.RefreshIdempotent | services/scrap-bamf-current-evaluation.ts:25-28 | refreshing again from the same page finds the date current and changes nothing |
| CurrentEvaluation.EvaluationStore.constructor | services/scrap-bamf-current-evaluation.ts:1 | the store holds the date read at start |
| CurrentEvaluation.EvaluationStore.Refresh | services/scrap-bamf-current-evaluation.ts:18-45 | the outcome (fetch failed, no date, already current, written) and the new stored date are those of the gate, every failure caught |

## Left out

- Markup selection: the selectors for question blocks, items, markers, images and the date element are not modelled. Pages are given as already-selected elements. The marker text is taken as already removed from a marked item's text.
- The navigation page of the full corpus: fetching it and collecting its pagination links are not modelled. `ScrapAll` takes the fetched pages of those links. A failed navigation fetch throws and is caught by `scrapeData`, like a failed page fetch.
- An image element without a `src` attribute: the code then writes the base URL followed by "undefined". The model takes a present image to have a `src`.
- The write of a fifth or later item's text to a stray '' key of the record: `JSON.stringify` writes that key into the saved file, but no later step reads it back, and it is not a `Question` field. The model's record and saved corpus leave it out.
- SHA-256: the hash is a parameter, deterministic and otherwise unconstrained. No collision resistance is assumed, so all id facts hold for any hash.
- HTTP transport, headers, keys, the prompt texts and the parsing of the completion response: each service is a function from its request (the six translation inputs, or the five prompt fields) to an `Option` response. Because the services are functions, the model does not capture that a real service may answer the same request differently on two runs.
- The completion response's `choices[0]` lookup: a response without choices is a failure in the model (`None`), which is what the code's catch turns it into.
- File I/O and the JSON imports: the saved corpus and the stored exam date are class fields. The directory creation and the serialisation format are not modelled. A write failure inside the try block is not modelled. The code compares against JSON imported when the module loads (services/scrap-data.ts:7, services/scrap-bamf-current-evaluation.ts:1), which a write in the same process does not refresh; the overwritten fields stand for the files as the next process reads them. The entry script calls each job once per process, so no behaviour is lost, but a second `ScrapeData` on one `Scraper` mixes two things: its counter carries over as within one process, while its saved corpus is the new one, as in a new process.
- Saved entries without an `id` field: every non-null saved entry is a full `Question` in the model.
- Text.Upper: maps only the ASCII letters a..z, because the state codes are lower-case ASCII; the full Unicode upper-casing of `toUpperCase` is not modelled.
- Text.Trim: strips the ECMAScript white-space and line-terminator characters, code point by code point; UTF-16 surrogate pairs are not modelled.
- async/await, console logging, environment variables and the `index.ts` orchestration, which runs the jobs one after the other.
- The test-centre spreadsheet scraper: its source is not part of this model.
- The `STATES` and `TARGET_LANGUAGES` constants: types/constants.ts is not part of this model, so both are parameters (`states`, `langs`). Label uniqueness across a run (`Scraping.RunNumsDistinct`) therefore takes the states to be pairwise distinct keys of the state table.
