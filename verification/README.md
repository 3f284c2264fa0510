# ScamSense backend core in Dafny

ScamSense is a browser extension with a small Python backend. The backend
takes a message (sender and content) and returns a scam-risk verdict.

To answer a request, the backend first retrieves the three stored scam
patterns nearest to the content from a vector store. It renders them as
bullet lines into a fixed prompt together with the sender and the content,
and sends the prompt to a language model. The reply is cut out of its
Markdown code fences and decoded as JSON. A failed model call that looks like
a quota problem is answered with a fixed "Quota Exceeded" verdict. A reply
that cannot be decoded is answered with a fixed "Analysis Error" verdict.
The HTTP layer guards all of this with three checks: no engine gives 503, a
global hard stop of 300 requests gives 429, and a pause of one minute every
third request (one second otherwise).

This project models that glue and proves its properties. It is organised as
follows:

| file | module | models |
|---|---|---|
| `wrappers.dfy` | `Wrappers` | `Option` and `Result` |
| `pystr.dfy` | `PyStr` | the Python `str` operations the backend uses: `strip`, `in`/`find`, `split`, `join`, `lower` |
| `knowledge_base.dfy` | `KnowledgeBase` | the seed catalog, the re-seeding guard, and how `query` flattens the store's answer |
| `prompt.dfy` | `PromptBuilder` | context rendering and the prompt template |
| `response.dfy` | `ResponseParser` | fence extraction, the parse fallback, and the verdict record |
| `rag_engine.dfy` | `RagEngine` | engine construction, quota classification, `analyze_message` |
| `server.dfy` | `Server` | the globals of `main.py`, startup, `/health`, `/analyze`, and runs of requests |

The collaborators that are not part of this model enter as function-valued
parameters:

- **Vector store:** its query is `(seq<string>, nat) -> Result<QueryResults, string>`
  (an answer, or the text of the exception it raised) and its add is
  `(Collection, AddBatch) -> Collection`. Opening the persistent collection
  is a `Result<Collection, string>`, and the query of an open collection is
  `Collection -> StoreQuery`.
- **Model client:** configuring the client and creating the model is a
  `Result<Model, string>`.
- **Language model:** `string -> ModelReply`. A call either raises with an
  error text or returns a response whose `.text` may itself raise.
- **`json.loads`:** `string -> Result<V, string>`, for any value type `V`.

Exceptions become `Result.Failure` carrying the exception's text. Sleeps
become the number of seconds slept.

Behaviours of the code that are easy to misread:

- **The 300th request.** It moves the counter from 299 to 300. Since 300 is
  a multiple of 3, it sleeps 60 seconds, not one second
  (`Server.LastAdmittedWaits`).
- **No truncation to `n_results`.** `query` passes `n_results` to the store
  but does not itself cut the answer down to it
  (`KnowledgeBase.QueryBoundedOnlyByStore`).
- **Re-seeding.** The guard does not keep the seed from being added again to
  a store holding only the seed. Such a store has 4 < 10 entries, so every
  construction adds the batch again (`KnowledgeBase.SeedOnlyStoreIsReseeded`).
  Against a store that appends without de-duplicating ids, the collection
  ends up holding three copies of the seed
  (`KnowledgeBase.AppendingStoreAccumulates`).
- **Fence extraction.** With a "```json" marker, the payload is the text
  after the first "```json" up to the next "```", stripped. This holds
  unless a later "```json" begins strictly inside that next "```", that is,
  the next "```" starts one or two characters before the later "```json"
  (`ResponseParser.PayloadByOccurrence`, `ResponseParser.OverlapIsInsideFence`).
  In that overlapping case Python's `split` can give a different answer: for
  every reply "```json``" + "```json" + q, it gives "``" where the text up to
  the next fence is empty (`ResponseParser.OverlappingSecondJsonFence`).

## Model

| member | source | states |
|---|---|---|
| KnowledgeBase.SeedCatalogWellFormed | backend/knowledge_base.py:13-38 | the seed catalog has exactly four entries, with pairwise-distinct ids, all of risk level "High" |
| KnowledgeBase.BatchOf | backend/knowledge_base.py:42-45 | the batch passed to `add` has three parallel lists whose i-th document, metadata and id all come from the i-th catalog entry |
| KnowledgeBase.BatchRoundTrip | backend/knowledge_base.py:42-45 | splitting entries into parallel lists and zipping them back is lossless in both directions |
| KnowledgeBase.InitializeData | backend/knowledge_base.py:41-46 | the seed batch is added exactly when the collection holds fewer than 10 entries; otherwise the collection is untouched |
| KnowledgeBase.SeedOnlyStoreIsReseeded | backend/knowledge_base.py:13-46 | a collection holding only the four seed entries is seeded again on every construction |
| KnowledgeBase.Open | backend/knowledge_base.py:6-9 | a failure to open the persistent collection propagates; an open collection holding fewer than 10 entries receives the seed batch, and one holding 10 or more is returned as it is |
| KnowledgeBase.AppendOnce | backend/knowledge_base.py:41-46 | one construction against an appending store adds one copy of the seed to fewer than three copies and nothing to three or more |
| KnowledgeBase.AppendingStoreAccumulates | backend/knowledge_base.py:41-46 | against an appending store, n constructions over k ≤ 3 copies of the seed leave exactly min(k+n, 3) copies: duplicates accumulate until the threshold stops them; over k > 3 copies they leave all k copies and add nothing |
| KnowledgeBase.Pair | backend/knowledge_base.py:56-60 | the pairing loop yields one pattern per document, pairing document i with metadata i; it raises IndexError exactly when a needed metadata row or entry is missing |
| KnowledgeBase.Flatten | backend/knowledge_base.py:54-61 | no documents row gives the empty list; otherwise the result has one pattern per document of the first row, in order, and fails only on missing metadata |
| KnowledgeBase.Query | backend/knowledge_base.py:48-61 | one query text and `n_results` reach the store unchanged; an exception of the store propagates, and an answer is flattened |
| KnowledgeBase.FlattenKeepsDocuments | backend/knowledge_base.py:56-60 | when the store's answer has a documents row and flattening it succeeds, the retrieved contents are exactly that first documents row, in order |
| KnowledgeBase.QueryBoundedOnlyByStore | backend/knowledge_base.py:48-61 | a successful query had an answer from the store, and it has at most `n_results` patterns exactly when that answer held at most that many |
| PyStr.Strip | backend/rag_engine.py:98 | `strip` removes exactly the leading and trailing whitespace, with Python's whitespace set, and leaves neither end blank |
| PyStr.StripUnique | backend/rag_engine.py:98 | any split of a text into blank prefix, trimmed middle and blank suffix is the one `strip` picks |
| PyStr.Find | backend/rag_engine.py:99 | `find` reports an occurrence of the pattern with none before it, or no position when the pattern does not occur at all |
| PyStr.ContainsMeansOccurs | backend/rag_engine.py:85 | `pat in s` (`Contains`) holds exactly when the pattern occurs at some index of the text |
| PyStr.Lower | backend/rag_engine.py:85 | `lower` keeps the length and maps each character to its lower-case letter, ASCII letters only |
| PyStr.Join | backend/rag_engine.py:32 | joining no parts gives the empty text; otherwise the joined text starts with the first part |
| PyStr.JoinContainsParts | backend/rag_engine.py:32 | every part occurs in the joined text |
| PyStr.Split | backend/rag_engine.py:100 | `split` gives at least one piece, two or more exactly when the separator occurs, pieces free of the separator that join back to the input, and a first piece that ends at the first occurrence |
| PyStr.SplitCutsLeftmost | backend/rag_engine.py:100 | every cut of `split` is at the leftmost occurrence of the separator in what remains |
| PyStr.SplitDetermined | backend/rag_engine.py:100-102 | pieces that are free of the separator, join back to the text and are cut at the leftmost occurrence every time (`SplitCutsLeftmost`) are exactly `Split`'s pieces, so this description pins down Python's answer, overlapping separators included |
| PyStr.SplitJoin | backend/rag_engine.py:32 | splitting at a one-character separator undoes joining with it when no part contains it |
| PromptBuilder.RenderPattern | backend/rag_engine.py:32 | a bullet line starts with "- ", carries the pattern's content and category verbatim, and has no line break unless one of them does |
| PromptBuilder.RenderAll | backend/rag_engine.py:32 | one bullet line per retrieved pattern, in retrieval order |
| PromptBuilder.ContextText | backend/rag_engine.py:32 | the context is empty without patterns and carries every pattern's bullet line |
| PromptBuilder.ContextLines | backend/rag_engine.py:31-32 | when no pattern field contains a line break, an empty retrieval gives the empty context, and otherwise splitting the context at newlines gives back exactly the bullet lines |
| PromptBuilder.BuildPrompt | backend/rag_engine.py:34-77 | the prompt contains the analyst framing, the sender, the content and the context verbatim, and the tier bounds "85-100", "25-84" and "0-24" |
| ResponseParser.ParseErrorVerdict | backend/rag_engine.py:108-116 | the fallback verdict is 50 / "Medium" / "Analysis Error" / "Unknown" / "Do not click on link", its explanation contains the error text, and it is cautious |
| ResponseParser.ExtractPayload | backend/rag_engine.py:97-102 | the payload is stripped; a reply without a fence is just stripped; from a fenced reply no fence survives into the payload |
| ResponseParser.Unfence | backend/rag_engine.py:100 | what precedes the next fence, once stripped, is trimmed and has no fence |
| ResponseParser.PayloadByOccurrence | backend/rag_engine.py:98-102 | the payload is the stripped text after the first "```json" up to the next fence (or the end), unless a later "```json" begins strictly inside that fence; else the text between the first two fences; else the whole stripped reply |
| ResponseParser.OverlapIsInsideFence | backend/rag_engine.py:99-100 | the only case the occurrence description leaves out is a later "```json" beginning strictly inside the first "```" after the opening marker; that fence never starts after the later "```json" |
| ResponseParser.FencedPayload | backend/rag_engine.py:98-102 | for a single fenced block around backtick-free text, a "json" tag is dropped and any other first line is kept in the payload |
| ResponseParser.TaggedFence | backend/rag_engine.py:101-102 | a non-json language tag such as "python" stays at the head of the payload |
| ResponseParser.JsonFenceTransparent | backend/rag_engine.py:98-102 | for backtick-free p, the reply "```json\n" + p + "\n```" yields the same payload as p alone |
| ResponseParser.OverlappingSecondJsonFence | backend/rag_engine.py:99-100 | for every reply "```json``" + "```json" + q with q trimmed and free of backticks, where the second "```json" overlaps the closing fence, the payload is two backticks although the text up to the next fence is empty |
| ResponseParser.Parse | backend/rag_engine.py:96-116 | a decoded value is returned unchanged and with no schema check; a failure of `.text` or of decoding becomes the fallback verdict carrying that error; parsing never raises, and every fixed verdict is cautious |
| RagEngine.NewEngine | backend/rag_engine.py:14-23 | an absent or empty key fails with "GEMINI_API_KEY missing"; then a failure of the model client, then one of the collection, propagates; construction succeeds exactly when all three succeed, and the engine queries the seeded collection |
| RagEngine.QuotaVerdictReassures | backend/rag_engine.py:86-93 | the quota verdict scores 0, is "Safe" with category "Quota Exceeded", and is not cautious |
| RagEngine.IsQuotaError | backend/rag_engine.py:85 | the quota test holds exactly when the lower-cased error text contains "429" or "quota" |
| RagEngine.PromptFor | backend/rag_engine.py:31-77 | the prompt sent to the model contains the sender, the content and every retrieved pattern's bullet line |
| RagEngine.AnalyzeMessage | backend/rag_engine.py:25-116 | a failing retrieval propagates; a raised model error becomes the quota verdict when it is a quota error and propagates otherwise; a reply is parsed and never raises |
| RagEngine.LowerKeeps429 | backend/rag_engine.py:85 | "429" occurs in an error text exactly when it occurs in its lower-cased form |
| RagEngine.QuotaCaseInsensitive | backend/rag_engine.py:85 | two error texts equal up to letter case are classified alike |
| RagEngine.QuotaMarks | backend/rag_engine.py:85-93 | any text carrying "429", "QUOTA" or "Quota" is a quota error |
| RagEngine.NoQuotaMarks | backend/rag_engine.py:85-94 | an error text with no '4' and no 'q' or 'Q' is never a quota error, so the call re-raises it |
| RagEngine.OnlyQuotaFallbackIsReassuring | backend/rag_engine.py:85-116 | the quota fallback is the only fixed verdict that is not cautious |
| Server.Startup | backend/main.py:30-39 | success installs the engine and clears the error; failure records the error text and leaves the engine slot as it was |
| Server.StartupConsistent | backend/main.py:27-39 | from a state without an engine, startup gives a consistent state with an engine exactly when construction succeeded |
| Server.StartupWithoutKey | backend/main.py:30-39 | without an API key the server comes up without an engine and reports "GEMINI_API_KEY missing" |
| Server.StartupRecordsCollaboratorError | backend/main.py:33-38 | with a key present, a failing model client or collection leaves no engine and records that failure's text |
| Server.HealthOf | backend/main.py:41-48 | the status is "healthy" exactly when the model is loaded, otherwise "error"; the service name and the error are reported as they are |
| Server.HealthyHasNoError | backend/main.py:41-48 | in a consistent state, health reports an error exactly when no model is loaded |
| Server.Pause | backend/main.py:71-77 | the request that brings the counter to a multiple of three sleeps 60 seconds, every other request sleeps 1 |
| Server.Admit | backend/main.py:54-77 | a request is admitted exactly when there is an engine and the counter is below 300; without an engine it is refused with 503 and the init error, at 300 with 429; an admitted request raises the counter by one and sleeps the pause for the new count |
| Server.Analyze | backend/main.py:50-83 | no engine gives 503 with the init error and changes nothing; a counter at 300 gives 429 and changes nothing; otherwise the counter goes up by one, the request sleeps, and it is answered by the engine |
| Server.AnalyzeConsistent | backend/main.py:60-69 | handling a request keeps the state consistent, so the counter never passes 300 |
| Server.AnalyzeReplies | backend/main.py:79-83 | an admitted request returns the engine's answer as is, and an engine exception becomes a 500 whose detail is "Analysis failed: " and the error |
| Server.RunStep | backend/main.py:50-83 | `Run(s, n)`, which replays `n` requests through the gates of `Admit`, moves the globals and the sleep exactly as handling the requests one after another with `analyze` does, whatever the requests say and whatever the engine answers |
| Server.RunCounts | backend/main.py:61-69 | with an engine loaded and the counter at most 300, after any run of requests the counter is min(before + requests, 300), and the engine slot and error are unchanged |
| Server.RunWithoutEngine | backend/main.py:54-58 | without an engine no request is counted and none sleeps |
| Server.RunAtLimit | backend/main.py:61-66 | once the counter reaches 300 every further request is refused without sleeping or changing state |
| Server.RunSleeps | backend/main.py:68-77 | the sleeps of a run of admitted requests add up to the per-count pauses |
| Server.SleptFromZero | backend/main.py:71-77 | from a fresh counter, n admitted requests sleep 60 seconds per complete batch of three and 1 second for each of the rest |
| Server.LastAdmittedWaits | backend/main.py:61-77 | the request taking the counter from 299 to 300 sleeps 60 seconds, and the next one is refused with 429 without sleeping |

## Left out

- The similarity search: embedding, distance ranking and tie-breaking happen inside the vector store, which is a parameter here. The model proves nothing about which patterns are retrieved or in which order.
- The language model: `genai.configure`, `GenerativeModel` and `generate_content` are a network call. It enters as a function parameter.
- `json.loads`: it enters as a decode function parameter. Only the extraction around it and the fallback are modelled.
- `asyncio.sleep` and the event loop: a sleep is recorded as its duration. The counter check and the increment have no suspension point between them, so handling requests one after another is faithful.
- Environment loading, FastAPI routing, CORS, Pydantic validation and uvicorn: these are transport plumbing.
- The log `print` calls: they are output only.
- The browser extension (`extension/`): it is DOM scraping and extension messaging.
- The manual scripts `backend/test_gemini.py`, `backend/list_models.py`, `backend/reproduce_glassdoor.py` and `backend/reproduce_conversational.py`: they call the live API and contain no logic of the core.
- KnowledgeBase.Flatten: a metadata entry without a "category" key (a `KeyError` at rendering time) and `None` documents are not modelled, because the store always returns the metadata it was given and the seed always carries a category.
- KnowledgeBase.Query: the store's exception is carried as its text only; its exception type is not modelled.
- PyStr.Lower: only ASCII letters are lower-cased, because the classification looks for the ASCII word "quota". Python's full Unicode case mapping is not modelled.
- KnowledgeBase.Open: `collection.count()` and `collection.add` are taken not to raise; a failure of `PersistentClient` or `get_or_create_collection` is the `persisted` failure.
- KnowledgeBase.AppendingStoreAccumulates: this is stated for a store that appends every batch; the persistent Chroma collection's own id handling is not part of this model.
- Server.Startup: the engine slot is process-wide and `startup_event` runs once; states reached by repeated startups are not covered by `Server.Consistent`.
