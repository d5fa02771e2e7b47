/** The data types of the knowledge-store abstraction (an entry is a stored
    transcription, a fact an extracted relationship, a search result a
    container of both), the defaults their constructors fill in, the
    optional operations every backend inherits, and the resolution of a
    backend name by `create_knowledge_store`. */
module KnowledgeStore {
  import opened Wrappers
  import opened PyStrings

  /** A point in time, as a count of time units since an epoch */
  type Timestamp = int

  /** A value of a metadata dictionary */
  datatype Value = Null | Flag(flag: bool) | Number(number: real) | Text(text: string) | Items(items: seq<Value>)

  type Metadata = map<string, Value>

  /** `KnowledgeFact` */
  datatype Fact = Fact(
    id: string,
    fact: string,
    sourceEntity: string,
    targetEntity: Option<string>,
    episodeIds: seq<string>,
    validAt: Option<Timestamp>,
    confidence: real)

  /** `KnowledgeEntry` */
  datatype Entry = Entry(
    id: string,
    content: string,
    timestamp: Timestamp,
    metadata: Metadata,
    extractedFacts: seq<Fact>)

  /** `SearchResult` */
  datatype SearchResult = SearchResult(
    facts: seq<Fact>,
    entries: seq<Entry>,
    query: string,
    totalResults: int)

  /** The errors the stores and the factory raise */
  datatype StoreError =
    | RuntimeError(message: string)
    | ValueError(value: string)
    | NotImplementedError(message: string)

  /** `KnowledgeEntry(...)`: a metadata of `None` becomes the empty dictionary */
  function NewEntry(id: string, content: string, timestamp: Timestamp,
                    metadata: Option<Metadata> := Some(map[]), extractedFacts: seq<Fact> := []): (e: Entry)
    ensures metadata.None? ==> e.metadata == map[]
    ensures metadata.Some? ==> e.metadata == metadata.value
    ensures e.id == id && e.content == content && e.timestamp == timestamp && e.extractedFacts == extractedFacts
  {
    Entry(id, content, timestamp, if metadata.Some? then metadata.value else map[], extractedFacts)
  }

  /** `KnowledgeFact(...)`: episode ids of `None` become the empty list, and
      the confidence defaults to 1.0 */
  function NewFact(id: string, fact: string, sourceEntity: string,
                   targetEntity: Option<string> := None, episodeIds: Option<seq<string>> := Some([]),
                   validAt: Option<Timestamp> := None, confidence: real := 1.0): (f: Fact)
    ensures episodeIds.None? ==> f.episodeIds == []
    ensures episodeIds.Some? ==> f.episodeIds == episodeIds.value
    ensures f.id == id && f.fact == fact && f.sourceEntity == sourceEntity && f.targetEntity == targetEntity
    ensures f.validAt == validAt && f.confidence == confidence
  {
    Fact(id, fact, sourceEntity, targetEntity, if episodeIds.Some? then episodeIds.value else [], validAt, confidence)
  }

  /** `SearchResult(...)`: a total of 0 is replaced by the number of facts
      and entries carried; any other total is kept as given */
  function NewSearchResult(facts: seq<Fact> := [], entries: seq<Entry> := [], query: string := "",
                           totalResults: int := 0): (r: SearchResult)
    ensures r.facts == facts && r.entries == entries && r.query == query
    ensures totalResults == 0 ==> r.totalResults == |facts| + |entries|
    ensures totalResults != 0 ==> r.totalResults == totalResults
  {
    SearchResult(facts, entries, query, if totalResults == 0 then |facts| + |entries| else totalResults)
  }

  /** A search result built with a total is consistent with what it
      carries whenever the given total was 0 or the true count; a result
      built with the defaults is empty with a total of 0 */
  lemma SearchResultTotal(facts: seq<Fact>, entries: seq<Entry>, query: string, totalResults: int)
    requires totalResults == 0 || totalResults == |facts| + |entries|
    ensures NewSearchResult(facts, entries, query, totalResults).totalResults == |facts| + |entries|
    ensures NewSearchResult().totalResults == 0 && NewSearchResult().facts == [] && NewSearchResult().entries == []
  {
  }

  /** The base `update_entry_metadata`: not supported, always `False` */
  function DefaultUpdateEntryMetadata(entryId: string, metadata: Metadata): (updated: bool)
    ensures !updated
  {
    false
  }

  /** The base `delete_entry`: not supported, always `False` */
  function DefaultDeleteEntry(entryId: string): (deleted: bool)
    ensures !deleted
  {
    false
  }

  /** `KnowledgeBackend` */
  datatype Backend = Graphiti | Mock

  /** The enum member's value */
  function BackendValue(b: Backend): string {
    match b
    case Graphiti => "graphiti"
    case Mock => "mock"
  }

  /** `KnowledgeBackend(value)`: the member with exactly that value */
  function BackendNamed(value: string): (r: Option<Backend>)
    ensures r.Some? <==> exists b :: BackendValue(b) == value
    ensures r.Some? ==> BackendValue(r.value) == value
  {
    if value == "graphiti" then assert BackendValue(Graphiti) == value; Some(Graphiti)
    else if value == "mock" then assert BackendValue(Mock) == value; Some(Mock)
    else
      assert BackendValue(Graphiti) != value && BackendValue(Mock) != value;
      None
  }

  /** The backend used when neither an argument nor `KNOWLEDGE_BACKEND` names one */
  const DefaultBackendName := "graphiti"

  /** The name `create_knowledge_store` looks up: the argument if given, else
      the `KNOWLEDGE_BACKEND` environment variable (`env`), else the default */
  function BackendName(backend: Option<string>, env: Option<string>): string {
    match backend
    case Some(name) => name
    case None => env.GetOr(DefaultBackendName)
  }

  /** `KnowledgeBackend(backend.lower())`, raising `ValueError` for a value
      that names no backend */
  function ResolveBackend(backend: Option<string>, env: Option<string>): Result<Backend, StoreError> {
    var value := Lower(BackendName(backend, env));
    match BackendNamed(value)
    case Some(b) => Ok(b)
    case None => Err(ValueError(value))
  }

  /** What `create_knowledge_store` does, short of constructing the store:
      `graphiti` is not implemented, `mock` gives a mock store */
  function CreateOutcome(backend: Option<string>, env: Option<string>): Result<Backend, StoreError> {
    match ResolveBackend(backend, env)
    case Err(e) => Err(e)
    case Ok(Graphiti) => Err(NotImplementedError("GraphitiKnowledgeStore not yet implemented"))
    case Ok(Mock) => Ok(Mock)
  }

  /** The factory's three outcomes, by the lower-cased name: a mock store
      exactly for `mock`, `NotImplementedError` exactly for `graphiti`, and
      `ValueError` carrying the lower-cased name for anything else, so no
      name reaches a branch for an unsupported member */
  lemma CreateOutcomes(backend: Option<string>, env: Option<string>)
    ensures var value := Lower(BackendName(backend, env));
            && (CreateOutcome(backend, env) == Ok(Mock) <==> value == "mock")
            && (CreateOutcome(backend, env).Err? && CreateOutcome(backend, env).error.NotImplementedError?
                <==> value == "graphiti")
            && (CreateOutcome(backend, env) == Err(ValueError(value)) <==> value != "mock" && value != "graphiti")
  {
  }

  /** Backend names are matched without regard to case */
  lemma ResolveIgnoresCase(name: string, env: Option<string>)
    ensures ResolveBackend(Some(name), env) == ResolveBackend(Some(Lower(name)), env)
  {
    LowerIdempotent(name);
  }

  /** With no argument the environment decides, and with neither the
      default `graphiti` is chosen, which is not implemented */
  lemma DefaultBackendIsGraphiti(env: Option<string>)
    ensures ResolveBackend(None, env) == ResolveBackend(Some(env.GetOr(DefaultBackendName)), None)
    ensures CreateOutcome(None, None).Err? && CreateOutcome(None, None).error.NotImplementedError?
  {
    assert Lower(DefaultBackendName) == "graphiti";
  }

  /** Each backend's value names that backend, and only it */
  lemma BackendValueRoundTrip(b: Backend, value: string)
    ensures BackendNamed(BackendValue(b)) == Some(b)
    ensures BackendNamed(value) == Some(b) ==> BackendValue(b) == value
  {
  }
}
