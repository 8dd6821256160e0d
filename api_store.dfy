/**
 * The `useApiStore` store of src/store/apiStore.ts: the renderer's list of sources and the state
 * transitions its actions perform. Every answer of the main process over IPC is an input.
 */
module ApiStore {
  import opened Wrappers
  import CredentialStore
  import ModelQuery

  /** `ApiSource`: a source as the renderer holds it. */
  datatype UiSource = UiSource(
    id: Option<int>,
    name: string,
    apiKey: string,
    apiBase: string,
    model: Option<string>,
    isDefault: bool,
    isActive: bool,
    createdAt: Option<string>,
    updatedAt: Option<string>)

  /** `ApiSourceData`: a source as `getApiSources` delivers it, with `is_active` possibly missing. */
  datatype SourceData = SourceData(
    id: Option<int>,
    name: string,
    apiKey: string,
    apiBase: string,
    model: Option<string>,
    isDefault: bool,
    isActive: Option<bool>,
    createdAt: Option<string>,
    updatedAt: Option<string>)

  /**
   * `Partial<ApiSource>`: each field may be absent (`None`); for the optional fields a present key
   * may still hold `undefined` (`Some(None)`), which the spread copies over.
   */
  datatype Patch = Patch(
    id: Option<Option<int>>,
    name: Option<string>,
    apiKey: Option<string>,
    apiBase: Option<string>,
    model: Option<Option<string>>,
    isDefault: Option<bool>,
    isActive: Option<bool>,
    createdAt: Option<Option<string>>,
    updatedAt: Option<Option<string>>)

  /** `{ sources, activeSource, isLoading, error }` */
  datatype State = State(sources: seq<UiSource>, activeSource: Option<UiSource>, isLoading: bool, error: Option<string>)

  /** What an IPC call yielded: no bridge on `window`, a rejected promise, or a resolved value. */
  datatype Ipc<T> = NoBridge | Rejected(message: string) | Resolved(value: T)

  /** Whether an async action resolved or rethrew an error with the given message. */
  datatype Outcome = Done | Thrown(message: string)

  /** `{ success, message }` of `switchApiSource` and `testApiConnection`. */
  datatype Reply = Reply(success: bool, message: string)

  /** What `saveApiSource` resolves to: a new id, or `true` after an update. */
  datatype SaveReply = SavedId(id: int) | SavedTrue

  /**
   * What the form hands to `saveSource`: `{ ...formData, id: source?.id }`. It has the keys `id`,
   * `name`, `apiKey`, `api_base` and `is_default` and no `model`, `is_active` or timestamps.
   */
  datatype SubmittedSource = SubmittedSource(id: Option<int>, name: string, apiKey: string, apiBase: string, isDefault: bool)

  const NoBridgeMessage: string := "Electron API not available"
  const DeleteFailedMessage: string := "Failed to delete source"

  /** The value a key holds after a spread: the patch's when the patch has the key, the source's otherwise. */
  function Spread<T>(patched: Option<T>, kept: T): (r: T)
    ensures patched.Some? ==> r == patched.value
    ensures patched.None? ==> r == kept
  {
    if patched.Some? then patched.value else kept
  }

  /** `{ ...source, ...patch }`: every key the patch has takes the patch's value, every other key keeps the source's. */
  function MergePatch(s: UiSource, p: Patch): (r: UiSource)
    ensures r.id == Spread(p.id, s.id) && r.name == Spread(p.name, s.name)
    ensures r.apiKey == Spread(p.apiKey, s.apiKey) && r.apiBase == Spread(p.apiBase, s.apiBase)
    ensures r.model == Spread(p.model, s.model) && r.isDefault == Spread(p.isDefault, s.isDefault)
    ensures r.isActive == Spread(p.isActive, s.isActive)
    ensures r.createdAt == Spread(p.createdAt, s.createdAt) && r.updatedAt == Spread(p.updatedAt, s.updatedAt)
  {
    UiSource(
      Spread(p.id, s.id), Spread(p.name, s.name), Spread(p.apiKey, s.apiKey), Spread(p.apiBase, s.apiBase),
      Spread(p.model, s.model), Spread(p.isDefault, s.isDefault), Spread(p.isActive, s.isActive),
      Spread(p.createdAt, s.createdAt), Spread(p.updatedAt, s.updatedAt))
  }

  /** A whole source spread as a patch: every key present. */
  function PatchOf(s: UiSource): Patch {
    Patch(Some(s.id), Some(s.name), Some(s.apiKey), Some(s.apiBase), Some(s.model), Some(s.isDefault),
          Some(s.isActive), Some(s.createdAt), Some(s.updatedAt))
  }

  /** Spreading a patch twice is spreading it once, and an empty patch changes nothing. */
  lemma MergePatchLaws(s: UiSource, p: Patch)
    ensures MergePatch(MergePatch(s, p), p) == MergePatch(s, p)
    ensures MergePatch(s, Patch(None, None, None, None, None, None, None, None, None)) == s
    ensures forall t :: MergePatch(t, PatchOf(s)) == s
  {
  }

  /** `addSource(source)` */
  function AddSource(st: State, source: UiSource): (r: State)
    ensures r.sources == st.sources + [source]
    ensures r.activeSource == st.activeSource && r.isLoading == st.isLoading && r.error == st.error
  {
    st.(sources := st.sources + [source])
  }

  /** `updateSource(id, patch)` */
  function UpdateSource(st: State, id: int, patch: Patch): (r: State)
    ensures |r.sources| == |st.sources|
    ensures forall i :: 0 <= i < |st.sources| ==>
      r.sources[i] == if st.sources[i].id == Some(id) then MergePatch(st.sources[i], patch) else st.sources[i]
    ensures r.activeSource == st.activeSource && r.isLoading == st.isLoading && r.error == st.error
  {
    st.(sources := seq(|st.sources|, i requires 0 <= i < |st.sources| =>
      if st.sources[i].id == Some(id) then MergePatch(st.sources[i], patch) else st.sources[i]))
  }

  /** `sources.filter(source => source.id !== id)` */
  function WithoutId(s: seq<UiSource>, id: int): (r: seq<UiSource>)
    ensures |r| <= |s|
    ensures forall i :: 0 <= i < |r| ==> r[i].id != Some(id)
  {
    if s == [] then [] else (if s[0].id != Some(id) then [s[0]] else []) + WithoutId(s[1..], id)
  }

  /** Filtering an id out keeps exactly the entries with another id and drops one entry per occurrence of the id. */
  lemma {:induction false} WithoutIdKeepsOthers(s: seq<UiSource>, id: int)
    ensures forall x :: x in WithoutId(s, id) <==> x in s && x.id != Some(id)
    ensures |WithoutId(s, id)| + Occurrences(s, id) == |s|
    ensures Occurrences(s, id) == 0 ==> WithoutId(s, id) == s
  {
    if s != [] {
      WithoutIdKeepsOthers(s[1..], id);
      assert s == [s[0]] + s[1..];
    }
  }

  /** Filtering works piece by piece, so the kept entries stay in their order. */
  lemma {:induction false} WithoutIdAppend(a: seq<UiSource>, b: seq<UiSource>, id: int)
    ensures WithoutId(a + b, id) == WithoutId(a, id) + WithoutId(b, id)
    decreases |a|
  {
    if a == [] {
      assert a + b == b;
    } else {
      var ab := a + b;
      assert ab != [] && ab[0] == a[0];
      assert ab[1..] == a[1..] + b;
      WithoutIdAppend(a[1..], b, id);
      var head := if a[0].id != Some(id) then [a[0]] else [];
      calc {
        WithoutId(ab, id);
        head + WithoutId(ab[1..], id);
        head + (WithoutId(a[1..], id) + WithoutId(b, id));
        (head + WithoutId(a[1..], id)) + WithoutId(b, id);
      }
    }
  }

  /** How many entries carry the id. */
  function Occurrences(s: seq<UiSource>, id: int): nat {
    if s == [] then 0 else (if s[0].id == Some(id) then 1 else 0) + Occurrences(s[1..], id)
  }

  /** `removeSource(id)`: drops the entries with the id; the active source is cleared exactly when it has the id. */
  function RemoveSource(st: State, id: int): (r: State)
    ensures r.sources == WithoutId(st.sources, id)
    ensures r.activeSource == None <==> st.activeSource == None || st.activeSource.value.id == Some(id)
    ensures r.activeSource != None ==> r.activeSource == st.activeSource
    ensures r.isLoading == st.isLoading && r.error == st.error
  {
    st.(sources := WithoutId(st.sources, id),
        activeSource := if st.activeSource.Some? && st.activeSource.value.id == Some(id) then None else st.activeSource)
  }

  /** `{ ...source, is_active: source.is_active ?? false }`: a missing flag reads as inactive, every other field is kept. */
  function Normalize(d: SourceData): (r: UiSource)
    ensures r.isActive <==> d.isActive == Some(true)
    ensures r.id == d.id && r.name == d.name && r.apiKey == d.apiKey && r.apiBase == d.apiBase && r.model == d.model
    ensures r.isDefault == d.isDefault && r.createdAt == d.createdAt && r.updatedAt == d.updatedAt
  {
    UiSource(d.id, d.name, d.apiKey, d.apiBase, d.model, d.isDefault,
             if d.isActive.Some? then d.isActive.value else false, d.createdAt, d.updatedAt)
  }

  /** `sources.map(Normalize)` */
  function NormalizeAll(data: seq<SourceData>): (r: seq<UiSource>)
    ensures |r| == |data|
    ensures forall i :: 0 <= i < |data| ==> r[i] == Normalize(data[i])
  {
    if data == [] then [] else [Normalize(data[0])] + NormalizeAll(data[1..])
  }

  /** `sources.find(source => source.is_active) || null`, normalised. */
  function FirstActive(data: seq<SourceData>): (r: Option<UiSource>)
    ensures r == None <==> forall i :: 0 <= i < |data| ==> data[i].isActive != Some(true)
    ensures r != None ==> exists k :: (0 <= k < |data| && data[k].isActive == Some(true) && r == Some(Normalize(data[k]))
      && forall j :: 0 <= j < k ==> data[j].isActive != Some(true))
  {
    if data == [] then None
    else if data[0].isActive == Some(true) then Some(Normalize(data[0]))
    else
      var r := FirstActive(data[1..]);
      if r != None then
        var k :| 0 <= k < |data[1..]| && data[1..][k].isActive == Some(true) && r == Some(Normalize(data[1..][k]))
          && forall j :: 0 <= j < k ==> data[1..][j].isActive != Some(true);
        assert data[k + 1] == data[1..][k];
        r
      else r
  }

  /** The `catch` of every async action: record the message and stop loading. */
  function Fail(st: State, message: string): State {
    st.(error := Some(message), isLoading := false)
  }

  /** The message an IPC failure surfaces as. */
  function IpcMessage<T>(ipc: Ipc<T>): string
    requires !ipc.Resolved?
  {
    if ipc.NoBridge? then NoBridgeMessage else ipc.message
  }

  /** `loadSources()`: never rethrows; on success the list is replaced and the active source is its first active entry. */
  function LoadSources(st: State, ipc: Ipc<seq<SourceData>>): (r: State)
    ensures !r.isLoading
    ensures ipc.Resolved? ==>
      && r.sources == NormalizeAll(ipc.value) && r.error == None
      && (r.activeSource == None <==> forall i :: 0 <= i < |r.sources| ==> !r.sources[i].isActive)
      && (r.activeSource != None ==> exists k :: (0 <= k < |r.sources| && r.activeSource == Some(r.sources[k])
            && r.sources[k].isActive && forall j :: 0 <= j < k ==> !r.sources[j].isActive))
    ensures !ipc.Resolved? ==> r == Fail(st, IpcMessage(ipc))
  {
    var started := st.(isLoading := true, error := None);
    match ipc
    case Resolved(data) => started.(sources := NormalizeAll(data), activeSource := FirstActive(data), isLoading := false)
    case _ => Fail(started, IpcMessage(ipc))
  }

  /** The object `saveSource` sends to `saveApiSource`: the six fields the backend reads, `model` undefined. */
  function SaveRequest(source: SubmittedSource): (r: CredentialStore.SourceInput)
    ensures r.id == source.id && r.name == source.name && r.apiKey == source.apiKey
    ensures r.apiBase == source.apiBase && r.isDefault == source.isDefault
    ensures r.model == None
  {
    CredentialStore.SourceInput(source.id, source.name, source.apiKey, source.apiBase, None, source.isDefault)
  }

  /** A save from the form never carries a model, so updating an existing record through it clears that record's model. */
  lemma FormUpdateClearsModel(s: seq<CredentialStore.StoredSource>, source: SubmittedSource, encryptedKey: string, now: string)
    requires CredentialStore.IsTruthyId(source.id)
    requires CredentialStore.IndexOfId(s, source.id.value) >= 0
    ensures var k := CredentialStore.IndexOfId(s, source.id.value);
      var r := CredentialStore.AfterUpdate(s, source.id.value, SaveRequest(source), encryptedKey, now);
      r[k].model == None && r[k].id == s[k].id && r[k].isActive == s[k].isActive
  {
  }

  /** The submitted object spread into a list entry: only the keys it has. */
  function SubmittedPatch(source: SubmittedSource): Patch {
    Patch(Some(source.id), Some(source.name), Some(source.apiKey), Some(source.apiBase), None,
          Some(source.isDefault), None, None, None)
  }

  /**
   * `{ ...source, id: result }` for the submitted object: the new id and the form's fields; the
   * keys it lacks are `undefined`, and an `undefined` `is_active` is the falsy `false`.
   */
  function NewEntry(source: SubmittedSource, id: int): (r: UiSource)
    ensures r.id == Some(id) && r.name == source.name && r.apiKey == source.apiKey
    ensures r.apiBase == source.apiBase && r.isDefault == source.isDefault
    ensures r.model == None && !r.isActive && r.createdAt == None && r.updatedAt == None
  {
    UiSource(Some(id), source.name, source.apiKey, source.apiBase, None, source.isDefault, false, None, None)
  }

  /**
   * The local list right after `saveApiSource` answers and before the reload: a truthy id merges
   * the submitted fields into the matching entries, which keep their `is_active`, `model` and
   * timestamps; a falsy id appends a new entry only when the answer is a number.
   */
  function LocalStep(started: State, source: SubmittedSource, reply: SaveReply): (r: State)
    ensures r.activeSource == started.activeSource && r.isLoading == started.isLoading && r.error == started.error
    ensures CredentialStore.IsTruthyId(source.id) ==> |r.sources| == |started.sources| && forall i :: 0 <= i < |started.sources| ==>
      r.sources[i] == if started.sources[i].id == source.id then
        started.sources[i].(name := source.name, apiKey := source.apiKey, apiBase := source.apiBase, isDefault := source.isDefault)
      else started.sources[i]
    ensures !CredentialStore.IsTruthyId(source.id) && reply.SavedId? ==> r.sources == started.sources + [NewEntry(source, reply.id)]
    ensures !CredentialStore.IsTruthyId(source.id) && reply.SavedTrue? ==> r == started
    ensures |r.sources| > |started.sources| <==> !CredentialStore.IsTruthyId(source.id) && reply.SavedId?
  {
    if CredentialStore.IsTruthyId(source.id) then UpdateSource(started, source.id.value, SubmittedPatch(source))
    else if reply.SavedId? then AddSource(started, NewEntry(source, reply.id))
    else started
  }

  /**
   * `saveSource(source)`: a failing save throws its message and keeps the list; a resolved save
   * applies the local step and then reloads the list.
   */
  function SaveSource(st: State, source: SubmittedSource, saved: Ipc<SaveReply>, reload: Ipc<seq<SourceData>>): (r: (State, Outcome))
    ensures !r.0.isLoading
    ensures !saved.Resolved? ==>
      && r.1 == Thrown(IpcMessage(saved)) && r.0.sources == st.sources && r.0.activeSource == st.activeSource
      && r.0.error == Some(r.1.message)
    ensures saved.Resolved? ==>
      r.1 == Done && r.0 == LoadSources(LocalStep(st.(isLoading := true, error := None), source, saved.value), reload)
  {
    var started := st.(isLoading := true, error := None);
    match saved
    case Resolved(reply) => (LoadSources(LocalStep(started, source, reply), reload), Done)
    case _ => (Fail(started, IpcMessage(saved)), Thrown(IpcMessage(saved)))
  }

  /**
   * After a resolved save the list is the reloaded one; when the reload fails, the local step
   * survives, and it has grown by one entry exactly when the id was falsy and the answer a number.
   */
  lemma SaveSourceAddsOnlyOnNumber(st: State, source: SubmittedSource, reply: SaveReply, reload: Ipc<seq<SourceData>>)
    ensures var r := SaveSource(st, source, Resolved(reply), reload).0;
      && (reload.Resolved? ==> r.sources == NormalizeAll(reload.value))
      && (!reload.Resolved? ==>
            && (|r.sources| == |st.sources| + 1 <==> !CredentialStore.IsTruthyId(source.id) && reply.SavedId?)
            && (|r.sources| == |st.sources| <==> CredentialStore.IsTruthyId(source.id) || reply.SavedTrue?))
  {
  }

  /** `deleteSource(id)`: a `false` answer throws and keeps the list; loading is over either way. */
  function DeleteSource(st: State, id: int, ipc: Ipc<bool>): (r: (State, Outcome))
    ensures !r.0.isLoading
    ensures ipc == Resolved(true) ==> r.1 == Done && r.0 == RemoveSource(st, id).(isLoading := false, error := None)
    ensures ipc == Resolved(false) ==> (r.1 == Thrown(DeleteFailedMessage) && r.0.sources == st.sources
      && r.0.activeSource == st.activeSource && r.0.error == Some(DeleteFailedMessage))
    ensures !ipc.Resolved? ==> r.1 == Thrown(IpcMessage(ipc)) && r.0.sources == st.sources
  {
    var started := st.(isLoading := true, error := None);
    match ipc
    case Resolved(success) =>
      if success then (RemoveSource(started, id).(isLoading := false), Done)
      else (Fail(started, DeleteFailedMessage), Thrown(DeleteFailedMessage))
    case _ => (Fail(started, IpcMessage(ipc)), Thrown(IpcMessage(ipc)))
  }

  /** Index of the first entry with the id, as `find` visits them, or `|s|`. */
  function FindId(s: seq<UiSource>, id: int): (k: nat)
    ensures k <= |s|
    ensures forall j :: 0 <= j < k ==> s[j].id != Some(id)
    ensures k < |s| ==> s[k].id == Some(id)
  {
    if s == [] then 0 else if s[0].id == Some(id) then 0 else 1 + FindId(s[1..], id)
  }

  /** `sources.map(s => ({ ...s, is_active: s.id === id }))` */
  function ActivateId(s: seq<UiSource>, id: int): (r: seq<UiSource>)
    ensures |r| == |s|
    ensures forall i :: 0 <= i < |s| ==> r[i] == s[i].(isActive := s[i].id == Some(id))
  {
    seq(|s|, i requires 0 <= i < |s| => s[i].(isActive := s[i].id == Some(id)))
  }

  /**
   * `switchToSource(id)`: on success a listed id becomes the only active entry and the active
   * source; an unlisted id changes nothing; a failure answer throws its message.
   */
  function SwitchToSource(st: State, id: int, ipc: Ipc<Reply>): (r: (State, Outcome))
    ensures !r.0.isLoading
    ensures ipc.Resolved? && ipc.value.success ==> (r.1 == Done && r.0.error == None &&
      var k := FindId(st.sources, id);
      if k < |st.sources| then
        && r.0.sources == ActivateId(st.sources, id)
        && r.0.activeSource == Some(st.sources[k].(isActive := true))
      else r.0.sources == st.sources && r.0.activeSource == st.activeSource)
    ensures ipc.Resolved? && !ipc.value.success ==> r.1 == Thrown(ipc.value.message) && r.0.sources == st.sources
    ensures !ipc.Resolved? ==> r.1 == Thrown(IpcMessage(ipc)) && r.0.sources == st.sources
  {
    var started := st.(isLoading := true, error := None);
    match ipc
    case Resolved(reply) =>
      if reply.success then
        var k := FindId(started.sources, id);
        if k < |started.sources| then
          (started.(sources := ActivateId(started.sources, id),
                    activeSource := Some(started.sources[k].(isActive := true)), isLoading := false), Done)
        else (started.(isLoading := false), Done)
      else (Fail(started, reply.message), Thrown(reply.message))
    case _ => (Fail(started, IpcMessage(ipc)), Thrown(IpcMessage(ipc)))
  }

  /** After a successful switch to a listed id whose entries are unique, the active source is the only active entry. */
  lemma SwitchLeavesOneActive(st: State, id: int, message: string)
    requires forall i, j :: 0 <= i < j < |st.sources| ==> st.sources[i].id != st.sources[j].id
    requires FindId(st.sources, id) < |st.sources|
    ensures var r := SwitchToSource(st, id, Resolved(Reply(true, message))).0;
      var k := FindId(st.sources, id);
      && (forall i :: 0 <= i < |r.sources| ==> (r.sources[i].isActive <==> i == k))
      && r.activeSource == Some(r.sources[k])
  {
  }

  /** `testConnection(source)`: never throws; the backend's reply is passed on unchanged, and a failing call becomes `success: false` with its message. */
  function TestConnection(ipc: Ipc<Reply>): (r: Reply)
    ensures ipc.Resolved? ==> r == ipc.value
    ensures r.success ==> ipc == Resolved(r)
    ensures !ipc.Resolved? ==> r == Reply(false, IpcMessage(ipc))
  {
    match ipc
    case Resolved(reply) => reply
    case _ => Reply(false, IpcMessage(ipc))
  }

  /** `queryModels(source)`: never throws; the backend's reply is passed on unchanged, and a failing call becomes `success: false` with no models. */
  function QueryModels(ipc: Ipc<ModelQuery.ModelsReply>): (r: ModelQuery.ModelsReply)
    ensures ipc.Resolved? ==> r == ipc.value
    ensures r.success ==> ipc == Resolved(r)
    ensures !ipc.Resolved? ==> r == ModelQuery.ModelsReply(false, IpcMessage(ipc), [])
  {
    match ipc
    case Resolved(reply) => reply
    case _ => ModelQuery.ModelsReply(false, IpcMessage(ipc), [])
  }
}
