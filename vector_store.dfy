/** The vector-store id cache of `src/lib/vectorStore.ts`: four layers,
    looked up in the order environment, process global, module memory, file. */
module VectorStore {
  import opened Wrappers
  import opened Text
  import opened Stores

  /** The four layers. `env` is `process.env.VECTOR_STORE_ID`, `global` is
      `global.__vectorStoreId`, `memory` is the module variable and `file` the raw
      contents of `.vector-store-id` when that file exists. */
  datatype Layers = Layers(env: Option<string>, global: Option<string>, memory: Option<string>, file: Option<string>)

  /** `getVectorStoreId`: the first truthy in-process layer, else the trimmed file, else null. */
  function Lookup(l: Layers): Option<string> {
    if Truthy(l.env) then l.env
    else if Truthy(l.global) then l.global
    else if Truthy(l.memory) then l.memory
    else if l.file.Some? then Some(Trim(l.file.value))
    else None
  }

  /** `setVectorStoreId`: global and memory take `id`; the file takes it only if the write succeeds. */
  function AfterSet(l: Layers, id: string, writeOk: bool): Layers {
    l.(global := Some(id), memory := Some(id), file := if writeOk then Some(id) else l.file)
  }

  /** `clearVectorStoreId`: global and memory are emptied; the file goes only if it is removed. */
  function AfterClear(l: Layers, removeOk: bool): Layers {
    l.(global := None, memory := None, file := if removeOk then None else l.file)
  }

  /** The in-process layers in lookup order, for `FirstTruthy`. */
  function InProcess(l: Layers): seq<Option<string>> {
    [l.env, l.global, l.memory]
  }

  /** The first truthy entry of `ids`, if any: an independent reading of the lookup order. */
  function FirstTruthy(ids: seq<Option<string>>): (r: Option<string>)
    ensures r.Some? ==> r in ids && Truthy(r)
    ensures r.None? ==> forall k :: 0 <= k < |ids| ==> !Truthy(ids[k])
  {
    if |ids| == 0 then None
    else if Truthy(ids[0]) then ids[0]
    else FirstTruthy(ids[1..])
  }

  /** Lookup returns the first truthy in-process layer, and only when none is truthy
      the trimmed file contents, which may be empty. */
  lemma {:induction false} LookupOrder(l: Layers)
    ensures FirstTruthy(InProcess(l)).Some? ==> Lookup(l) == FirstTruthy(InProcess(l))
    ensures FirstTruthy(InProcess(l)).None? && l.file.Some? ==> Lookup(l) == Some(Trim(l.file.value))
    ensures FirstTruthy(InProcess(l)).None? && l.file.None? ==> Lookup(l) == None
  {
    var ids := InProcess(l);
    assert ids[1..] == [l.global, l.memory] && ids[1..][1..] == [l.memory] && ids[1..][1..][1..] == [];
    assert ids[0] == l.env && ids[1] == l.global && ids[2] == l.memory;
  }

  /** A truthy environment id shadows everything: neither set nor clear changes what lookup returns. */
  lemma EnvWins(l: Layers, id: string, ok: bool)
    requires Truthy(l.env)
    ensures Lookup(l) == l.env
    ensures Lookup(AfterSet(l, id, ok)) == l.env
    ensures Lookup(AfterClear(l, ok)) == l.env
  {
  }

  /** Without an environment id, a non-empty id just set is what lookup returns, whether or not the file write succeeded. */
  lemma SetThenLookup(l: Layers, id: string, writeOk: bool)
    requires !Truthy(l.env) && id != ""
    ensures Lookup(AfterSet(l, id, writeOk)) == Some(id)
  {
  }

  /** Setting a non-empty id is observed by lookup exactly when no other environment id shadows it. */
  lemma SetIsObserved(l: Layers, id: string, writeOk: bool)
    requires id != ""
    ensures Lookup(AfterSet(l, id, writeOk)) == Some(id) <==> (!Truthy(l.env) || l.env == Some(id))
  {
  }

  /** Without an environment id, clearing with a successful file removal leaves nothing to find;
      a file that could not be removed is still found. */
  lemma ClearThenLookup(l: Layers, removeOk: bool)
    requires !Truthy(l.env)
    ensures removeOk ==> Lookup(AfterClear(l, removeOk)) == None
    ensures !removeOk && l.file.Some? ==> Lookup(AfterClear(l, removeOk)) == Some(Trim(l.file.value))
  {
  }

  /** Set and clear never touch the environment and leave global and memory equal. */
  lemma LayersAgree(l: Layers, id: string, ok: bool)
    ensures AfterSet(l, id, ok).env == l.env && AfterClear(l, ok).env == l.env
    ensures AfterSet(l, id, ok).global == AfterSet(l, id, ok).memory
    ensures AfterClear(l, ok).global == AfterClear(l, ok).memory
  {
  }

  /** A successful set followed by a successful clear forgets everything set touched. */
  lemma ClearUndoesSet(l: Layers, id: string)
    ensures AfterClear(AfterSet(l, id, true), true) == AfterClear(l, true)
  {
  }

  /** The module state: one object holding the four layers, updated in place. */
  class IdStore {
    var env: Option<string>
    var global: Option<string>
    var memory: Option<string>
    var file: Option<string>

    /** A fresh process: nothing in global or memory yet. */
    constructor (env: Option<string>, file: Option<string>)
      ensures State() == Layers(env, None, None, file)
    {
      this.env := env;
      this.global := None;
      this.memory := None;
      this.file := file;
    }

    function State(): Layers
      reads this
    {
      Layers(env, global, memory, file)
    }

    /** `getVectorStoreId`. */
    function Get(): Option<string>
      reads this
    {
      Lookup(State())
    }

    /** `setVectorStoreId(id)`; `writeOk` says whether `fs.writeFileSync` succeeded. */
    method Set(id: string, writeOk: bool)
      modifies this
      ensures State() == AfterSet(old(State()), id, writeOk)
      ensures !Truthy(env) && id != "" ==> Get() == Some(id)
    {
      global := Some(id);
      memory := Some(id);
      if writeOk {
        file := Some(id);
      }
    }

    /** `clearVectorStoreId()`; `removeOk` says whether `fs.unlinkSync` succeeded. */
    method Clear(removeOk: bool)
      modifies this
      ensures State() == AfterClear(old(State()), removeOk)
      ensures !Truthy(env) && removeOk ==> Get() == None
    {
      global := None;
      memory := None;
      if removeOk {
        file := None;
      }
    }
  }
}
