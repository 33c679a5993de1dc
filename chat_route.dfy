/** `POST /api/chat` (`src/app/api/chat/route.ts`): find the knowledge base, refuse while it
    is not ready, and otherwise answer from the model's text with its cited pages. */
module ChatRoute {
  import opened Wrappers
  import opened Stores
  import opened VectorStore
  import opened Citations
  import StatusRoute

  /** The `output_text` content of the model's message output. */
  datatype TextContent = TextContent(text: string, annotations: Option<seq<Annotation>>)

  /** The JSON the route answers with: a reply with its sources, or an HTTP error. */
  datatype ChatResponse = ChatReply(reply: string, sources: seq<Citation>) | ChatError(code: int, error: string)

  const NotInitialized: string := "Knowledge base not initialized. Please initialize before chatting."
  const StillProcessing: string := "Knowledge base is still being processed. Please wait a moment and try again."
  const NotReadyYet: string := "Knowledge base is not ready yet. Please try again in a moment."
  const CannotVerify: string := "Unable to verify knowledge base status. Please try again."
  const NoReply: string := "Sorry, I couldn't process your request."

  // ----- discovery -----

  /** A listed store the route adopts: the knowledge base by name, with a searchable file. */
  predicate Discoverable(st: Snapshot) {
    st.name == KnowledgeBaseName && CompletedOrZero(st.counts) > 0
  }

  /** The index of the first discoverable store of the listing. */
  function Discover(list: seq<Snapshot>): (i: Option<nat>)
    ensures i.Some? ==> i.value < |list| && Discoverable(list[i.value])
  {
    if |list| == 0 then None
    else if Discoverable(list[0]) then Some(0)
    else match Discover(list[1..])
      case None => None
      case Some(k) => Some(k + 1)
  }

  /** `Discover` finds the first discoverable store, and finds one whenever there is one. */
  lemma {:induction false} DiscoverIsFirst(list: seq<Snapshot>, k: nat)
    requires k < |list| && Discoverable(list[k])
    ensures Discover(list).Some? && Discover(list).value <= k
  {
    if k > 0 && !Discoverable(list[0]) {
      assert list[1..][k - 1] == list[k];
      DiscoverIsFirst(list[1..], k - 1);
    }
  }

  /** The store id the route works with: the cached one if truthy, else a discovered one
      (from a listing that did not throw), else none. */
  function ResolvedId(cached: Option<string>, listing: Result<seq<Snapshot>>): Option<string> {
    if Truthy(cached) then cached
    else if listing.Ok? && Discover(listing.value).Some? then Some(listing.value[Discover(listing.value).value].id)
    else cached
  }

  /** The id the route caches with `setVectorStoreId`, if it discovered one. */
  function Adopted(cached: Option<string>, listing: Result<seq<Snapshot>>): Option<string> {
    if !Truthy(cached) && listing.Ok? && Discover(listing.value).Some? then
      Some(listing.value[Discover(listing.value).value].id)
    else None
  }

  // ----- the readiness gate -----

  /** The refusal for the retrieved store, or `None` when the model may be asked. A store without
      `file_counts` makes `file_counts.completed` throw, which the route reports as unverifiable. */
  function Gate(retrieved: Result<Snapshot>): (refusal: Option<ChatResponse>)
    ensures refusal.None? <==>
      (retrieved.Ok? && retrieved.value.status != InProgress &&
       retrieved.value.counts.Some? && retrieved.value.counts.value.completed != 0)
    ensures refusal.Some? ==> refusal.value.ChatError? && refusal.value.code in {400, 500}
  {
    match retrieved
    case Err(_) => Some(ChatError(500, CannotVerify))
    case Ok(st) =>
      if st.status == InProgress then Some(ChatError(400, StillProcessing))
      else if st.counts.None? then Some(ChatError(500, CannotVerify))
      else if st.counts.value.completed == 0 then Some(ChatError(400, NotReadyYet))
      else None
  }

  /** The gate and the readiness test of the status route agree on every store with a
      non-negative completed count: one admits exactly the stores the other calls ready. */
  lemma GateAgreesWithReadiness(st: Snapshot)
    ensures IsReady(st) ==> Gate(Ok(st)).None?
    ensures Gate(Ok(st)).None? && CompletedOrZero(st.counts) >= 0 ==> IsReady(st)
  {
  }

  /** A store the status route reports as ready is one the chat route answers from. */
  lemma StatusReadyAdmits(id: Option<string>, retrieved: Result<Snapshot>)
    requires StatusRoute.Status(id, true, retrieved).body.ready
    ensures Truthy(id) && Gate(retrieved).None?
  {
    GateAgreesWithReadiness(retrieved.value);
  }

  /** Each refusal names its cause. */
  lemma GateRefusals(retrieved: Result<Snapshot>)
    ensures retrieved.Err? ==> Gate(retrieved) == Some(ChatError(500, CannotVerify))
    ensures retrieved.Ok? && retrieved.value.status == InProgress ==> Gate(retrieved) == Some(ChatError(400, StillProcessing))
    ensures (retrieved.Ok? && retrieved.value.status != InProgress && retrieved.value.counts.Some? &&
             retrieved.value.counts.value.completed == 0) ==> Gate(retrieved) == Some(ChatError(400, NotReadyYet))
    ensures (retrieved.Ok? && retrieved.value.status != InProgress && retrieved.value.counts.None?) ==>
      Gate(retrieved) == Some(ChatError(500, CannotVerify))
  {
  }

  // ----- the answer -----

  /** The response once the model was asked: its error, the default reply when there is no text
      content, or the extracted reply and sources. */
  function Answer(model: Result<Option<TextContent>>, parse: Parser): ChatResponse {
    match model
    case Err(msg) => ChatError(500, msg)
    case Ok(None) => ChatReply(NoReply, [])
    case Ok(Some(tc)) =>
      var x := Extraction(tc.text, tc.annotations, parse);
      ChatReply(x.reply, x.sources)
  }

  /** The whole route as one function of the request body, the cached id and the API's answers.
      `message` is the `message` field of the request body, or the error reading the body throws. */
  function PostResponse(message: Result<string>, cached: Option<string>, apiKeySet: bool, listing: Result<seq<Snapshot>>,
                        retrieve: string -> Result<Snapshot>, model: Result<Option<TextContent>>, parse: Parser): ChatResponse {
    if message.Err? then ChatError(500, message.error)
    else if !apiKeySet then ChatError(500, MissingApiKey)
    else
      var id := ResolvedId(cached, listing);
      if !Truthy(id) then ChatError(400, NotInitialized)
      else match Gate(retrieve(id.value))
        case Some(refusal) => refusal
        case None => Answer(model, parse)
  }

  /** The route. `message` is the request body's `message` field, or the error `request.json()`
      throws; `store` is the id cache; `apiKeySet` says whether `OPENAI_API_KEY` is set;
      `listing` is what `vectorStores.list` returns (`Err` when it throws); `writeOk` says whether
      caching a discovered id reaches the file; `retrieve` is `vectorStores.retrieve`; `model` is
      the text content found in `responses.create`'s output (`Err` when the call throws); `parse` is
      `JSON.parse`. `asked` is the store id the model was asked to search, if it was asked. */
  method Post(message: Result<string>, store: IdStore, apiKeySet: bool, listing: Result<seq<Snapshot>>, writeOk: bool,
              retrieve: string -> Result<Snapshot>, model: Result<Option<TextContent>>, parse: Parser)
    returns (resp: ChatResponse, asked: Option<string>)
    modifies store
    ensures resp == PostResponse(message, old(store.Get()), apiKeySet, listing, retrieve, model, parse)
    ensures asked.Some? ==> message.Ok? && apiKeySet && Truthy(asked) && asked == ResolvedId(old(store.Get()), listing) && Gate(retrieve(asked.value)).None?
    ensures asked.None? ==> resp.ChatError? && resp.code in {400, 500}
    ensures message.Err? || !apiKeySet || Adopted(old(store.Get()), listing).None? ==> store.State() == old(store.State())
    ensures message.Ok? && apiKeySet && Adopted(old(store.Get()), listing).Some? ==>
      store.State() == AfterSet(old(store.State()), Adopted(old(store.Get()), listing).value, writeOk)
  {
    asked := None;
    if message.Err? {
      return ChatError(500, message.error), asked;
    }
    if !apiKeySet {
      return ChatError(500, MissingApiKey), asked;
    }
    var id := store.Get();
    if !Truthy(id) {
      if listing.Ok? {
        var found := Discover(listing.value);
        if found.Some? {
          id := Some(listing.value[found.value].id);
          store.Set(id.value, writeOk);
        }
      }
    }
    if !Truthy(id) {
      return ChatError(400, NotInitialized), asked;
    }
    var refusal := Gate(retrieve(id.value));
    if refusal.Some? {
      return refusal.value, asked;
    }
    asked := id;
    match model {
      case Err(msg) =>
        resp := ChatError(500, msg);
      case Ok(None) =>
        resp := ChatReply(NoReply, []);
      case Ok(Some(tc)) =>
        var reply, sources := ExtractReply(tc.text, tc.annotations, parse);
        resp := ChatReply(reply, sources);
    }
  }

  /** Discovery runs only when no id was cached, and a cached truthy id is used as it is. */
  lemma CachedIdIsUsed(cached: Option<string>, listing: Result<seq<Snapshot>>)
    ensures Truthy(cached) ==> ResolvedId(cached, listing) == cached && Adopted(cached, listing).None?
    ensures Adopted(cached, listing).Some? ==> !Truthy(cached) && ResolvedId(cached, listing) == Adopted(cached, listing)
  {
  }

  /** A discovered id names the first listed store that is the knowledge base and has a searchable file. */
  lemma AdoptedIsFirstKnowledgeBase(cached: Option<string>, listing: Result<seq<Snapshot>>, k: nat)
    requires !Truthy(cached) && listing.Ok? && k < |listing.value| && Discoverable(listing.value[k])
    ensures exists j :: 0 <= j <= k && Discoverable(listing.value[j]) && Adopted(cached, listing) == Some(listing.value[j].id)
  {
    DiscoverIsFirst(listing.value, k);
    var j := Discover(listing.value).value;
    assert Discoverable(listing.value[j]) && Adopted(cached, listing) == Some(listing.value[j].id);
  }

  /** The model is asked only about a known store that is neither being processed nor empty;
      otherwise the response is the refusal for the first check that fails. */
  lemma NeverAskedUnlessReady(message: Result<string>, cached: Option<string>, apiKeySet: bool, listing: Result<seq<Snapshot>>,
                              retrieve: string -> Result<Snapshot>, model: Result<Option<TextContent>>, parse: Parser)
    ensures var r := PostResponse(message, cached, apiKeySet, listing, retrieve, model, parse);
      var id := ResolvedId(cached, listing);
      && (message.Err? ==> r == ChatError(500, message.error))
      && (message.Ok? && !apiKeySet ==> r == ChatError(500, MissingApiKey))
      && (message.Ok? && apiKeySet && !Truthy(id) ==> r == ChatError(400, NotInitialized))
      && (message.Ok? && apiKeySet && Truthy(id) && retrieve(id.value).Err? ==> r == ChatError(500, CannotVerify))
      && (message.Ok? && apiKeySet && Truthy(id) && retrieve(id.value).Ok? && retrieve(id.value).value.status == InProgress ==>
            r == ChatError(400, StillProcessing))
      && (r.ChatReply? ==> message.Ok? && apiKeySet && Truthy(id) && Gate(retrieve(id.value)).None?)
  {
    if message.Ok? && apiKeySet && Truthy(ResolvedId(cached, listing)) {
      GateRefusals(retrieve(ResolvedId(cached, listing).value));
    }
  }
}
