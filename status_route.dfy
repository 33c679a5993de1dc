/** `GET /api/status` (`src/app/api/status/route.ts`): whether the knowledge base can answer. */
module StatusRoute {
  import opened Wrappers
  import opened Stores

  /** The JSON body. `fileCounts`, `storeId` and `error` are the keys the route may leave out. */
  datatype StatusBody = StatusBody(ready: bool, status: string, fileCounts: Option<FileCounts>,
                                   storeId: Option<string>, error: Option<string>)

  /** The HTTP status code and the body. */
  datatype StatusResponse = StatusResponse(code: int, body: StatusBody)

  const NotInitialized: string := "not_initialized"
  const Error: string := "error"

  /** The route, given the id `getVectorStoreId` returns, whether the API key is set, and what
      `vectorStores.retrieve` returns for that id (`Err` when it throws). */
  function Status(id: Option<string>, apiKeySet: bool, retrieved: Result<Snapshot>): (r: StatusResponse)
    ensures r.code == 200
    ensures r.body.ready <==> Truthy(id) && apiKeySet && retrieved.Ok? && IsReady(retrieved.value)
    ensures !Truthy(id) ==> r.body == StatusBody(false, NotInitialized, None, None, None)
    ensures Truthy(id) && !apiKeySet ==> r.body == StatusBody(false, Error, None, None, Some(MissingApiKey))
    ensures Truthy(id) && apiKeySet && retrieved.Err? ==> r.body == StatusBody(false, Error, None, None, Some(retrieved.error))
    ensures Truthy(id) && apiKeySet && retrieved.Ok? ==>
      r.body.status == retrieved.value.status && r.body.fileCounts == retrieved.value.counts &&
      r.body.storeId == id && r.body.error == None
  {
    if !Truthy(id) then
      StatusResponse(200, StatusBody(false, NotInitialized, None, None, None))
    else if !apiKeySet then
      StatusResponse(200, StatusBody(false, Error, None, None, Some(MissingApiKey)))
    else
      match retrieved
      case Err(msg) => StatusResponse(200, StatusBody(false, Error, None, None, Some(msg)))
      case Ok(st) =>
        var inProgress := st.status == InProgress;
        var hasFiles := CompletedOrZero(st.counts) > 0;
        StatusResponse(200, StatusBody(!inProgress && hasFiles, st.status, st.counts, id, None))
  }
}
