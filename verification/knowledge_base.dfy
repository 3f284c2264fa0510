/** The scam-pattern store of `backend/knowledge_base.py`: the fixed seed
    catalog, the guard that decides whether to add it, and the flattening of
    the vector store's nested query answer into `{content, metadata}` pairs.
    The vector store itself (embedding, ranking, duplicate handling) is opaque:
    its `add` and `query` are parameters. */
module KnowledgeBase {
  import opened Wrappers

  /** The metadata dictionary stored with every pattern. */
  datatype Metadata = Metadata(category: string, riskLevel: string)

  /** One stored pattern: the store's `(id, document, metadata)` triple. */
  datatype Entry = Entry(id: string, text: string, metadata: Metadata)

  /** The collection, as the sequence of everything added to it; its `count()` is the length. */
  type Collection = seq<Entry>

  /** The keyword arguments of one `collection.add(documents=…, metadatas=…, ids=…)` call. */
  datatype AddBatch = AddBatch(documents: seq<string>, metadatas: seq<Metadata>, ids: seq<string>)

  /** What `collection.add` does with a batch is up to the store. */
  type StoreAdd = (Collection, AddBatch) -> Collection

  /** The answer of `collection.query`: one row of documents and one of metadatas per query text. */
  datatype QueryResults = QueryResults(documents: seq<seq<string>>, metadatas: seq<seq<Metadata>>)

  /** `collection.query(query_texts=…, n_results=…)`, opaque: it answers or raises with an error text. */
  type StoreQuery = (seq<string>, nat) -> Result<QueryResults, string>

  /** One retrieved pattern as `query` hands it on: `{"content": …, "metadata": …}`. */
  datatype Pattern = Pattern(content: string, metadata: Metadata)

  /** Re-seeding happens while the collection holds fewer entries than this. */
  const ReseedThreshold: nat := 10

  /** Default `n_results` of `query`. */
  const DefaultResults: nat := 3

  /** The message Python's `IndexError` carries when `metadatas[0][i]` is missing. */
  const IndexErrorText := "list index out of range"

  const SeedCatalog: seq<Entry> := [
    Entry("inheritance_un_imf",
      "Beneficiary, We have concluded to release your outstanding compensation, Inheritance payment of $2,700,000.00 after meeting with United Nations and IMF. Contact Director Jerry Campbell.",
      Metadata("Inheritance Scam", "High")),
    Entry("blackmail_sextortion",
      "If you dont send me $1000 in 24 hours, i will send your pictures to your family and friends.",
      Metadata("Blackmail / Sextortion", "High")),
    Entry("job_scam_social_media",
      "Earn $300-500 daily by liking YouTube videos or completing simple tasks. Urgent contact via Telegram or WhatsApp.",
      Metadata("Job Scams", "High")),
    Entry("account_suspension_urgent",
      "Your Amazon/Netflix/Apple account will be permanently closed in 2 hours due to unauthorized activity. Verify now to prevent data loss.",
      Metadata("Account Security Phishing", "High"))
  ]

  /** The seed catalog has four entries, pairwise-distinct ids, and every entry is High risk. */
  lemma SeedCatalogWellFormed()
    ensures |SeedCatalog| == 4
    ensures forall a, b :: 0 <= a < b < |SeedCatalog| ==> SeedCatalog[a].id != SeedCatalog[b].id
    ensures forall a :: 0 <= a < |SeedCatalog| ==> SeedCatalog[a].metadata.riskLevel == "High"
  {
  }

  /** The three parallel lists of a batch line up. */
  predicate Parallel(b: AddBatch) {
    |b.documents| == |b.metadatas| == |b.ids|
  }

  /** The batch whose i-th document, metadata and id come from the i-th entry of `entries`. */
  function BatchOf(entries: seq<Entry>): (b: AddBatch)
    ensures Parallel(b) && |b.ids| == |entries|
    ensures forall i :: 0 <= i < |entries| ==>
      b.documents[i] == entries[i].text && b.metadatas[i] == entries[i].metadata && b.ids[i] == entries[i].id
  {
    AddBatch(
      seq(|entries|, i requires 0 <= i < |entries| => entries[i].text),
      seq(|entries|, i requires 0 <= i < |entries| => entries[i].metadata),
      seq(|entries|, i requires 0 <= i < |entries| => entries[i].id))
  }

  /** The entries a parallel batch describes, index by index. */
  function EntriesOf(b: AddBatch): (entries: seq<Entry>)
    requires Parallel(b)
  {
    seq(|b.ids|, i requires 0 <= i < |b.ids| => Entry(b.ids[i], b.documents[i], b.metadatas[i]))
  }

  /** Building a batch from entries and reading it back loses nothing, in both directions. */
  lemma BatchRoundTrip(entries: seq<Entry>, b: AddBatch)
    ensures EntriesOf(BatchOf(entries)) == entries
    ensures Parallel(b) ==> BatchOf(EntriesOf(b)) == b
  {
  }

  /** `_initialize_data`: the seed batch goes to `add` only while the collection
      holds fewer than ten entries; otherwise the collection is left untouched. */
  function InitializeData(c: Collection, add: StoreAdd): (c': Collection)
    ensures |c| < ReseedThreshold ==> c' == add(c, BatchOf(SeedCatalog))
    ensures |c| >= ReseedThreshold ==> c' == c
  {
    if |c| < ReseedThreshold then add(c, BatchOf(SeedCatalog)) else c
  }

  /** `KnowledgeBase()`: opening the persistent collection may raise; once it
      is open, `_initialize_data` runs on it. */
  function Open(persisted: Result<Collection, string>, add: StoreAdd): (r: Result<Collection, string>)
    ensures persisted.Failure? ==> r == Failure(persisted.error)
    ensures persisted.Success? && |persisted.value| < ReseedThreshold ==>
      r == Success(add(persisted.value, BatchOf(SeedCatalog)))
    ensures persisted.Success? && |persisted.value| >= ReseedThreshold ==> r == persisted
  {
    match persisted
    case Failure(e) => Failure(e)
    case Success(c) => Success(InitializeData(c, add))
  }

  /** The guard cannot keep the catalog from being added again: a store that
      holds exactly the seed entries has four of them, fewer than ten, so every
      construction calls `add` once more with the same batch. */
  lemma SeedOnlyStoreIsReseeded(add: StoreAdd)
    ensures InitializeData(SeedCatalog, add) == add(SeedCatalog, BatchOf(SeedCatalog))
  {
  }

  /** A store that appends every batch without looking at ids. */
  function AppendingAdd(c: Collection, b: AddBatch): Collection {
    if Parallel(b) then c + EntriesOf(b) else c
  }

  /** The collection after `n` constructions of the knowledge base. */
  function Construct(c: Collection, add: StoreAdd, n: nat): Collection
    decreases n
  {
    if n == 0 then c else Construct(InitializeData(c, add), add, n - 1)
  }

  /** Against a store that does not de-duplicate by id, constructing the
      knowledge base `n` times over a collection holding `k` copies of the seed
      catalog: from at most three copies, the catalog is copied again on every
      construction until the ten-entry guard stops it at three copies,
      `min(k + n, 3)` in all; from more than three copies, nothing is added. */
  lemma {:induction false} AppendingStoreAccumulates(n: nat, k: nat)
    ensures Construct(Repeat(k), AppendingAdd, n) ==
      Repeat(if k >= 3 then k else if k + n <= 3 then k + n else 3)
    decreases n
  {
    if n > 0 {
      AppendOnce(k);
      AppendingStoreAccumulates(n - 1, if k < 3 then k + 1 else k);
    }
  }

  /** One construction against an appending store adds a copy of the seed
      below three copies and nothing from three on. */
  lemma AppendOnce(k: nat)
    ensures InitializeData(Repeat(k), AppendingAdd) == Repeat(if k < 3 then k + 1 else k)
  {
    if k < 3 {
      BatchRoundTrip(SeedCatalog, BatchOf(SeedCatalog));
    }
  }

  /** `k` copies of the seed catalog, one after another. */
  function Repeat(k: nat): (c: Collection)
    ensures |c| == 4 * k
  {
    if k == 0 then [] else Repeat(k - 1) + SeedCatalog
  }

  /** The loop of `query`: for every `i` below `|documents|`, pair `documents[i]`
      with `metadatas[i]`; a missing `metadatas` row or entry is Python's
      `IndexError`, raised at the first index that needs it. */
  function Pair(documents: seq<string>, metadatas: Option<seq<Metadata>>, i: nat): (r: Result<seq<Pattern>, string>)
    requires i <= |documents|
    ensures r.Failure? <==> i < |documents| && (metadatas.None? || |metadatas.value| < |documents|)
    ensures r.Failure? ==> r.error == IndexErrorText
    ensures r.Success? ==> |r.value| == |documents| - i
    ensures r.Success? ==> forall k :: 0 <= k < |r.value| ==>
      r.value[k] == Pattern(documents[i + k], metadatas.value[i + k])
    decreases |documents| - i
  {
    if i == |documents| then Success([])
    else if metadatas.None? || i >= |metadatas.value| then Failure(IndexErrorText)
    else
      match Pair(documents, metadatas, i + 1)
      case Failure(e) => Failure(e)
      case Success(rest) => Success([Pattern(documents[i], metadatas.value[i])] + rest)
  }

  /** `query`'s treatment of the store's answer: no documents row gives the
      empty list; otherwise the first row of documents is paired, in order,
      with the first row of metadatas. */
  function Flatten(r: QueryResults): (out: Result<seq<Pattern>, string>)
    ensures |r.documents| == 0 ==> out == Success([])
    ensures out.Failure? <==>
      && |r.documents| > 0
      && |r.documents[0]| > 0
      && (|r.metadatas| == 0 || |r.metadatas[0]| < |r.documents[0]|)
    ensures out.Success? && |r.documents| > 0 ==>
      && |out.value| == |r.documents[0]|
      && forall i :: 0 <= i < |out.value| ==>
           out.value[i] == Pattern(r.documents[0][i], r.metadatas[0][i])
  {
    if |r.documents| == 0 then Success([])
    else Pair(r.documents[0], if |r.metadatas| == 0 then None else Some(r.metadatas[0]), 0)
  }

  /** `KnowledgeBase.query(text, n_results)`: one query text and `n_results`
      go to the store unchanged; an exception of the store propagates, and an
      answer is flattened. */
  function Query(store: StoreQuery, text: string, nResults: nat): (out: Result<seq<Pattern>, string>)
    ensures store([text], nResults).Failure? ==> out == Failure(store([text], nResults).error)
    ensures store([text], nResults).Success? ==> out == Flatten(store([text], nResults).value)
  {
    match store([text], nResults)
    case Failure(e) => Failure(e)
    case Success(r) => Flatten(r)
  }

  /** The retrieved contents are exactly the store's first documents row, in order. */
  lemma FlattenKeepsDocuments(r: QueryResults)
    requires |r.documents| > 0 && Flatten(r).Success?
    ensures seq(|Flatten(r).value|, i requires 0 <= i < |Flatten(r).value| => Flatten(r).value[i].content)
            == r.documents[0]
  {
  }

  /** `query` never truncates: it returns at most `n_results` patterns exactly
      when the store answered with at most that many documents. */
  lemma QueryBoundedOnlyByStore(store: StoreQuery, text: string, nResults: nat)
    requires Query(store, text, nResults).Success?
    ensures store([text], nResults).Success?
    ensures var answer := store([text], nResults).value;
      |Query(store, text, nResults).value| <= nResults <==>
      (|answer.documents| == 0 || |answer.documents[0]| <= nResults)
  {
  }
}
