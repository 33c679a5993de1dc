/** `GET /api/init` (`src/app/api/init/route.ts`): upload the knowledge base PDFs into a new
    vector store, cache its id and wait for it to become searchable. */
module InitRoute {
  import opened Wrappers
  import opened Stores
  import opened VectorStore
  import opened KnowledgeBase

  /** An uploaded file: its id and `path.basename` of its path. */
  datatype FileDetail = FileDetail(id: string, name: string)

  /** The JSON the route answers with. */
  datatype InitResponse =
    | AlreadyInitialized(storeId: string, status: string, counts: Option<FileCounts>)
    | Initialized(ready: bool, fileCount: nat, files: seq<FileDetail>, storeId: string,
                  status: string, counts: Option<FileCounts>, storedSuccessfully: bool)
    | InitFailed(code: int, error: string)

  /** How many times the route retrieves the new store before giving up. */
  const MaxPolls: nat := 120

  const NoFiles: string := "No knowledge base PDF files found. Please ensure PDF files are in the public/knowledge-base directory or public root."

  // ----- the upload loop -----

  /** The ids of the first `n` uploads, or the error of the first one that throws.
      `upload(i)` is what the `i`-th call of `files.create` returns. */
  function Uploaded(n: nat, upload: nat -> Result<string>): (r: Result<seq<string>>)
    ensures r.Ok? ==> |r.value| == n && forall i :: 0 <= i < n ==> upload(i) == Ok(r.value[i])
  {
    if n == 0 then Ok([])
    else match Uploaded(n - 1, upload)
      case Err(e) => Err(e)
      case Ok(ids) =>
        match upload(n - 1)
        case Err(e) => Err(e)
        case Ok(id) => Ok(ids + [id])
  }

  /** The uploads fail exactly when some call throws, and then with the first such call's error. */
  lemma {:induction false} UploadedFailsAtFirstError(n: nat, upload: nat -> Result<string>)
    ensures Uploaded(n, upload).Err? <==> exists i :: 0 <= i < n && upload(i).Err?
    ensures Uploaded(n, upload).Err? ==>
      exists i :: 0 <= i < n && upload(i).Err? && Uploaded(n, upload).error == upload(i).error &&
        forall j :: 0 <= j < i ==> upload(j).Ok?
  {
    if n > 0 {
      UploadedFailsAtFirstError(n - 1, upload);
    }
  }

  /** The upload loop: one `files.create` per path, in path order, collecting the ids and,
      in step with them, the details. `calls` counts the `files.create` calls made: all of them,
      or up to and including the first that throws. */
  method UploadAll(paths: seq<FilePath>, upload: nat -> Result<string>)
    returns (fileIds: seq<string>, details: seq<FileDetail>, failure: Option<string>, calls: nat)
    ensures failure.None? <==> Uploaded(|paths|, upload).Ok?
    ensures failure.None? ==> calls == |paths|
    ensures failure.Some? ==>
      (&& 1 <= calls <= |paths| && upload(calls - 1) == Err(failure.value)
       && forall j :: 0 <= j < calls - 1 ==> upload(j).Ok?)
    ensures failure.Some? ==> failure.value == Uploaded(|paths|, upload).error
    ensures failure.None? ==> fileIds == Uploaded(|paths|, upload).value
    ensures failure.None? ==>
      (|details| == |paths| && forall i :: 0 <= i < |paths| ==> details[i] == FileDetail(fileIds[i], paths[i].name))
  {
    fileIds, details, failure, calls := [], [], None, 0;
    var i := 0;
    while i < |paths|
      invariant 0 <= i <= |paths|
      invariant Uploaded(i, upload) == Ok(fileIds)
      invariant |details| == i && forall k :: 0 <= k < i ==> details[k] == FileDetail(fileIds[k], paths[k].name)
      invariant calls == i
    {
      var file := upload(i);
      calls := calls + 1;
      if file.Err? {
        failure := Some(file.error);
        UploadFailureStays(i, |paths|, upload);
        return;
      }
      fileIds := fileIds + [file.value];
      details := details + [FileDetail(file.value, paths[i].name)];
      i := i + 1;
    }
  }

  /** Once a call throws, no longer run of uploads succeeds, and they all report that error. */
  lemma {:induction false} UploadFailureStays(i: nat, n: nat, upload: nat -> Result<string>)
    requires i < n && Uploaded(i, upload).Ok? && upload(i).Err?
    ensures Uploaded(n, upload) == Err(upload(i).error)
    decreases n - i
  {
    if n > i + 1 {
      UploadFailureStays(i, n - 1, upload);
    }
  }

  // ----- the polling loop -----

  /** The polling loop: retrieve the new store up to `MaxPolls` times, stopping at the first
      ready snapshot. `created` is the store as `vectorStores.create` returned it, the latest
      snapshot before the first retrieve; `poll(k)` is what the `k`-th retrieve returns;
      `attempts` counts them. */
  method PollUntilReady(created: Snapshot, poll: nat -> Result<Snapshot>)
    returns (latest: Result<Snapshot>, ready: bool, attempts: nat)
    ensures 1 <= attempts <= MaxPolls && latest == poll(attempts - 1)
    ensures forall k :: 0 <= k < attempts - 1 ==> poll(k).Ok? && !IsReady(poll(k).value)
    ensures ready <==> latest.Ok? && IsReady(latest.value)
    ensures latest.Ok? && !ready ==> attempts == MaxPolls
  {
    attempts := 0;
    ready := false;
    latest := Ok(created);
    while attempts < MaxPolls
      invariant 0 <= attempts <= MaxPolls
      invariant attempts > 0 ==> latest == poll(attempts - 1) && latest.Ok? && (ready <==> IsReady(latest.value))
      invariant attempts == 0 ==> latest == Ok(created) && !ready
      invariant forall k :: 0 <= k < attempts - 1 ==> poll(k).Ok? && !IsReady(poll(k).value)
      invariant !ready
    {
      latest := poll(attempts);
      attempts := attempts + 1;
      if latest.Err? {
        return;
      }
      ready := IsReady(latest.value);
      if ready {
        break;
      }
    }
  }

  // ----- the route -----

  /** The early answer for a cached store that is already ready; `None` when the route goes on
      to build a new store (no truthy id, a retrieve that throws, or a store not ready). */
  function Reuse(existingId: Option<string>, retrieve: string -> Result<Snapshot>): (r: Option<InitResponse>)
    ensures r.Some? <==> Truthy(existingId) && retrieve(existingId.value).Ok? && IsReady(retrieve(existingId.value).value)
    ensures r.Some? ==>
      r.value == AlreadyInitialized(existingId.value, retrieve(existingId.value).value.status,
                                    retrieve(existingId.value).value.counts)
  {
    if !Truthy(existingId) then None
    else match retrieve(existingId.value)
      case Err(_) => None
      case Ok(st) =>
        if st.status != InProgress && CompletedOrZero(st.counts) > 0 then
          Some(AlreadyInitialized(existingId.value, st.status, st.counts))
        else None
  }

  /** Upload `paths`, create the store from the uploaded ids, cache its id and poll it. `uploads`
      counts the `files.create` calls, `created` says whether a store was created and `polls` counts
      the retrieves of the new store. */
  method Build(store: IdStore, paths: seq<FilePath>, upload: nat -> Result<string>,
               create: seq<string> -> Result<Snapshot>, writeOk: bool, poll: nat -> Result<Snapshot>)
    returns (r: InitResponse, uploads: nat, created: bool, polls: nat)
    modifies store
    ensures Uploaded(|paths|, upload).Err? ==>
      (&& r == InitFailed(500, Uploaded(|paths|, upload).error) && 1 <= uploads <= |paths|
       && upload(uploads - 1) == Err(r.error) && (forall j :: 0 <= j < uploads - 1 ==> upload(j).Ok?)
       && !created)
    ensures Uploaded(|paths|, upload).Ok? ==> uploads == |paths|
    ensures created <==> Uploaded(|paths|, upload).Ok? && create(Uploaded(|paths|, upload).value).Ok?
    ensures !created ==> store.State() == old(store.State()) && polls == 0 && r.InitFailed? && r.code == 500
    ensures created ==>
      store.State() == AfterSet(old(store.State()), create(Uploaded(|paths|, upload).value).value.id, writeOk)
    ensures created ==>
      (&& 1 <= polls <= MaxPolls
       && (forall k :: 0 <= k < polls - 1 ==> poll(k).Ok? && !IsReady(poll(k).value))
       && (poll(polls - 1).Err? ==> r == InitFailed(500, poll(polls - 1).error))
       && (poll(polls - 1).Ok? ==> r.Initialized?))
    ensures r.Initialized? ==>
      (&& created
       && r.fileCount == |paths| && |r.files| == |paths|
       && (forall i :: 0 <= i < |paths| ==> r.files[i] == FileDetail(Uploaded(|paths|, upload).value[i], paths[i].name))
       && r.storeId == create(Uploaded(|paths|, upload).value).value.id
       && r.status == poll(polls - 1).value.status && r.counts == poll(polls - 1).value.counts
       && (r.ready <==> IsReady(poll(polls - 1).value))
       && (!r.ready ==> polls == MaxPolls)
       && (r.storedSuccessfully <==> store.Get() == Some(r.storeId)))
  {
    created, polls := false, 0;
    var fileIds, details, failure;
    fileIds, details, failure, uploads := UploadAll(paths, upload);
    if failure.Some? {
      return InitFailed(500, failure.value), uploads, created, polls;
    }
    var vectorStore := create(fileIds);
    if vectorStore.Err? {
      return InitFailed(500, vectorStore.error), uploads, created, polls;
    }
    var newId := vectorStore.value.id;
    store.Set(newId, writeOk);
    created := true;
    var latest, ready;
    latest, ready, polls := PollUntilReady(vectorStore.value, poll);
    if latest.Err? {
      return InitFailed(500, latest.error), uploads, created, polls;
    }
    r := Initialized(ready, |paths|, details, newId, latest.value.status, latest.value.counts,
                     store.Get() == Some(newId));
  }

  /** The route. `store` is the id cache; `apiKeySet` says whether `OPENAI_API_KEY` is set;
      `retrieve` is `vectorStores.retrieve` for a cached id; `cwd`, `listing` and `present` describe
      the disk as `getKnowledgeBaseFiles` sees it; `upload` and `create` are `files.create` and
      `vectorStores.create`; `writeOk` says whether caching the new id reaches the file; `poll`
      is the sequence of retrieves of the new store. */
  method Init(store: IdStore, apiKeySet: bool, retrieve: string -> Result<Snapshot>,
              cwd: seq<string>, listing: Option<seq<string>>, present: FilePath -> bool,
              upload: nat -> Result<string>, create: seq<string> -> Result<Snapshot>,
              writeOk: bool, poll: nat -> Result<Snapshot>)
    returns (r: InitResponse, uploads: nat, created: bool, polls: nat)
    modifies store
    ensures !apiKeySet ==> r == InitFailed(500, MissingApiKey)
    ensures apiKeySet && Reuse(old(store.Get()), retrieve).Some? ==> r == Reuse(old(store.Get()), retrieve).value
    ensures r.AlreadyInitialized? ==> apiKeySet && Reuse(old(store.Get()), retrieve) == Some(r)
    ensures (apiKeySet && Reuse(old(store.Get()), retrieve).None? && |KnowledgeBaseFiles(cwd, listing, present)| == 0) <==>
      r == InitFailed(400, NoFiles)
    ensures uploads > 0 || created ==>
      apiKeySet && Reuse(old(store.Get()), retrieve).None? && |KnowledgeBaseFiles(cwd, listing, present)| > 0
    ensures uploads <= |KnowledgeBaseFiles(cwd, listing, present)|
    ensures !created ==> store.State() == old(store.State()) && polls == 0
    ensures created ==>
      (var ids := Uploaded(|KnowledgeBaseFiles(cwd, listing, present)|, upload);
       && ids.Ok? && create(ids.value).Ok?
       && store.State() == AfterSet(old(store.State()), create(ids.value).value.id, writeOk))
    ensures r.Initialized? ==>
      (created && r.fileCount == |KnowledgeBaseFiles(cwd, listing, present)| &&
       (r.storedSuccessfully <==> store.Get() == Some(r.storeId)))
  {
    uploads, created, polls := 0, false, 0;
    if !apiKeySet {
      return InitFailed(500, MissingApiKey), uploads, created, polls;
    }
    var reuse := Reuse(store.Get(), retrieve);
    if reuse.Some? {
      return reuse.value, uploads, created, polls;
    }
    var filePaths := KnowledgeBaseFiles(cwd, listing, present);
    if |filePaths| == 0 {
      return InitFailed(400, NoFiles), uploads, created, polls;
    }
    r, uploads, created, polls := Build(store, filePaths, upload, create, writeOk, poll);
  }
}
