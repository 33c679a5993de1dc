/** What the retrieval API reports about a vector store, and the readiness
    test that the status, init and chat code apply to it. */
module Stores {
  import opened Wrappers

  /** `file_counts` of a vector store. */
  datatype FileCounts = FileCounts(completed: int, total: int)

  /** A vector store as `vectorStores.retrieve`, `list` and `create` return it;
      `counts` is `None` when the API leaves `file_counts` out. */
  datatype Snapshot = Snapshot(id: string, name: string, status: string, counts: Option<FileCounts>)

  const InProgress: string := "in_progress"

  /** The name the init route gives the store it creates, and the name the chat route looks for. */
  const KnowledgeBaseName: string := "Company Knowledge Base (Multi-File)"

  /** The message `getOpenAIClient` throws, in every route, when `OPENAI_API_KEY` is unset. */
  const MissingApiKey: string := "OPENAI_API_KEY environment variable is missing!"

  /** The completed file count, or 0 when the counts are missing. */
  function CompletedOrZero(counts: Option<FileCounts>): int {
    match counts
    case Some(c) => c.completed
    case None => 0
  }

  /** Ingestion has finished and at least one file is searchable. */
  predicate IsReady(st: Snapshot) {
    st.status != InProgress && CompletedOrZero(st.counts) > 0
  }

  /** A store id JavaScript treats as true: present and not the empty string. */
  predicate Truthy(id: Option<string>) {
    id.Some? && id.value != ""
  }
}
