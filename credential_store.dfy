/**
 * `DatabaseManager` of public/database.js: the table of API sources with its id counter and the
 * flat table of application settings, kept in memory (the JSON file behind it is not modelled).
 */
module CredentialStore {
  import opened Wrappers
  import Cipher

  /** One persisted source; the JSON names are `api_key_encrypted`, `api_base`, `is_default`, ... */
  datatype StoredSource = StoredSource(
    id: int,
    name: string,
    apiKeyEncrypted: string,
    apiBase: string,
    model: Option<string>,
    isDefault: bool,
    isActive: bool,
    createdAt: string,
    updatedAt: string)

  /** The argument of `saveSource`: `{ id, name, apiKey, api_base, model, is_default }`. */
  datatype SourceInput = SourceInput(
    id: Option<int>,
    name: string,
    apiKey: string,
    apiBase: string,
    model: Option<string>,
    isDefault: bool)

  /** What `saveSource` returns: the new id on create, `true` on update. */
  datatype SaveResult = NewId(id: nat) | SavedTrue

  /** A source handed back with its key in plaintext: `getAllSources` adds `apiKey`, the single-record reads add `decryptedKey`. */
  datatype Revealed =
    | WithApiKey(source: StoredSource, apiKey: string)
    | WithDecryptedKey(source: StoredSource, decryptedKey: string)

  /** `if (id)`: `undefined` and `0` are falsy. */
  predicate IsTruthyId(id: Option<int>) {
    id.Some? && id.value != 0
  }

  /** Ids strictly increase along the table and all lie below the counter, so they are unique and the next one is fresh. */
  predicate WellFormed(s: seq<StoredSource>, nextId: int) {
    && (forall i, j :: 0 <= i < j < |s| ==> s[i].id < s[j].id)
    && (forall i :: 0 <= i < |s| ==> s[i].id < nextId)
  }

  /** `sources.findIndex(s => s.id === id)`. */
  function IndexOfId(s: seq<StoredSource>, id: int): (k: int)
    ensures -1 <= k < |s|
    ensures k == -1 <==> forall i :: 0 <= i < |s| ==> s[i].id != id
    ensures k >= 0 ==> s[k].id == id && forall j :: 0 <= j < k ==> s[j].id != id
  {
    if s == [] then -1
    else if s[0].id == id then 0
    else
      var k := IndexOfId(s[1..], id);
      if k == -1 then -1 else k + 1
  }

  /** `sources.findIndex(s => s.is_active)`, the position `find` stops at. */
  function IndexOfActive(s: seq<StoredSource>): (k: int)
    ensures -1 <= k < |s|
    ensures k == -1 <==> forall i :: 0 <= i < |s| ==> !s[i].isActive
    ensures k >= 0 ==> s[k].isActive && forall j :: 0 <= j < k ==> !s[j].isActive
  {
    if s == [] then -1
    else if s[0].isActive then 0
    else
      var k := IndexOfActive(s[1..]);
      if k == -1 then -1 else k + 1
  }

  /** The table after `sources.forEach(s => s.is_default = false)`. */
  function WithoutDefaults(s: seq<StoredSource>): (r: seq<StoredSource>)
    ensures |r| == |s|
    ensures forall i :: 0 <= i < |s| ==> !r[i].isDefault && r[i].(isDefault := s[i].isDefault) == s[i]
  {
    seq(|s|, i requires 0 <= i < |s| => s[i].(isDefault := false))
  }

  /** The record a create appends: inactive, created and updated at once, holding the key only in encrypted form. */
  function NewRecord(id: nat, input: SourceInput, encryptedKey: string, now: string): (r: StoredSource)
    ensures r.id == id && !r.isActive && r.createdAt == now && r.updatedAt == now
    ensures r.apiKeyEncrypted == encryptedKey
    ensures r.name == input.name && r.apiBase == input.apiBase && r.model == input.model && r.isDefault == input.isDefault
  {
    StoredSource(id, input.name, encryptedKey, input.apiBase, input.model, input.isDefault, false, now, now)
  }

  /** The record an update writes back: `{ ...sources[index], name, api_key_encrypted, api_base, model, is_default, updated_at }`. */
  function Merge(old_: StoredSource, input: SourceInput, encryptedKey: string, now: string): (r: StoredSource)
    ensures r.id == old_.id && r.isActive == old_.isActive && r.createdAt == old_.createdAt
    ensures r.name == input.name && r.apiKeyEncrypted == encryptedKey && r.apiBase == input.apiBase
    ensures r.model == input.model && r.isDefault == input.isDefault && r.updatedAt == now
  {
    old_.(name := input.name, apiKeyEncrypted := encryptedKey, apiBase := input.apiBase,
          model := input.model, isDefault := input.isDefault, updatedAt := now)
  }

  /** The table after the create branch of `saveSource`. */
  function AfterCreate(s: seq<StoredSource>, nextId: nat, input: SourceInput, encryptedKey: string, now: string): (r: seq<StoredSource>)
    ensures |r| == |s| + 1 && r[|s|] == NewRecord(nextId, input, encryptedKey, now)
    ensures forall i :: 0 <= i < |s| ==> r[i] == if input.isDefault then s[i].(isDefault := false) else s[i]
  {
    (if input.isDefault then WithoutDefaults(s) else s) + [NewRecord(nextId, input, encryptedKey, now)]
  }

  /** The table after the update branch of `saveSource`; an unknown id leaves it as it was. */
  function AfterUpdate(s: seq<StoredSource>, id: int, input: SourceInput, encryptedKey: string, now: string): (r: seq<StoredSource>)
    ensures |r| == |s|
    ensures forall i :: 0 <= i < |s| ==> r[i] == if i == IndexOfId(s, id) then Merge(s[i], input, encryptedKey, now) else s[i]
  {
    var k := IndexOfId(s, id);
    if k == -1 then s else s[k := Merge(s[k], input, encryptedKey, now)]
  }

  /** `sources.filter(s => s.id !== id)`. */
  function RemoveId(s: seq<StoredSource>, id: int): (r: seq<StoredSource>)
    ensures |r| <= |s|
    ensures forall i :: 0 <= i < |r| ==> r[i].id != id
  {
    if s == [] then []
    else (if s[0].id != id then [s[0]] else []) + RemoveId(s[1..], id)
  }

  /** The table after `sources.forEach(s => { s.is_active = s.id === id })`. */
  function MarkActive(s: seq<StoredSource>, id: int): (r: seq<StoredSource>)
    ensures |r| == |s|
    ensures forall i :: 0 <= i < |s| ==> r[i].isActive == (s[i].id == id) && r[i].(isActive := s[i].isActive) == s[i]
  {
    seq(|s|, i requires 0 <= i < |s| => s[i].(isActive := s[i].id == id))
  }

  /** `sources.map(source => ({ ...source, apiKey: decrypt(source.api_key_encrypted) }))`: the first failing decryption aborts the whole list. */
  function RevealAll(em: Cipher.EncryptionManager, s: seq<StoredSource>): (r: Result<seq<Revealed>>)
    ensures r.Success? <==> forall i :: 0 <= i < |s| ==> em.Decrypt(s[i].apiKeyEncrypted).Success?
    ensures r.Failure? ==> r.message == Cipher.DecryptError
    ensures r.Success? ==> |r.value| == |s| && forall i :: 0 <= i < |s| ==>
      r.value[i] == WithApiKey(s[i], em.Decrypt(s[i].apiKeyEncrypted).value)
  {
    if s == [] then Success([])
    else
      match em.Decrypt(s[0].apiKeyEncrypted)
      case Failure(m) => Failure(m)
      case Success(key) =>
        match RevealAll(em, s[1..])
        case Failure(m) => Failure(m)
        case Success(rest) => Success([WithApiKey(s[0], key)] + rest)
  }

  // ---------------------------------------------------------------------------------------------
  // Properties of the table operations

  /** A create gives the new record the counter's value, appends it inactive with equal timestamps, and keeps the table well formed. */
  lemma CreateAppendsFresh(s: seq<StoredSource>, nextId: nat, input: SourceInput, encryptedKey: string, now: string)
    requires WellFormed(s, nextId)
    ensures var r := AfterCreate(s, nextId, input, encryptedKey, now);
      && |r| == |s| + 1
      && r[|s|].id == nextId && !r[|s|].isActive && r[|s|].createdAt == r[|s|].updatedAt
      && (forall i :: 0 <= i < |s| ==> s[i].id < r[|s|].id)
      && WellFormed(r, nextId + 1)
  {
  }

  /** Creating a default leaves the new record the only default; creating a non-default touches no other record. */
  lemma CreateDefaultRule(s: seq<StoredSource>, nextId: nat, input: SourceInput, encryptedKey: string, now: string)
    ensures var r := AfterCreate(s, nextId, input, encryptedKey, now);
      && (input.isDefault ==> forall i :: 0 <= i < |r| ==> (r[i].isDefault <==> i == |s|))
      && (!input.isDefault ==> r[..|s|] == s)
      && (forall i :: 0 <= i < |s| ==> r[i].(isDefault := s[i].isDefault) == s[i])
  {
    var r := AfterCreate(s, nextId, input, encryptedKey, now);
    if !input.isDefault {
      assert r[..|s|] == s;
    }
  }

  /** An update of a present id changes only name, key, base, model, default flag and update time of that record. */
  lemma UpdateFrame(s: seq<StoredSource>, id: int, input: SourceInput, encryptedKey: string, now: string)
    ensures var r := AfterUpdate(s, id, input, encryptedKey, now);
      && |r| == |s|
      && ((forall i :: 0 <= i < |s| ==> s[i].id != id) ==> r == s)
      && (forall i :: 0 <= i < |s| && s[i].id != id ==> r[i] == s[i])
      && var k := IndexOfId(s, id);
         k >= 0 ==>
           && r[k].id == s[k].id && r[k].isActive == s[k].isActive && r[k].createdAt == s[k].createdAt
           && r[k].name == input.name && r[k].apiKeyEncrypted == encryptedKey && r[k].apiBase == input.apiBase
           && r[k].model == input.model && r[k].isDefault == input.isDefault && r[k].updatedAt == now
           && (forall j :: 0 <= j < |s| && j != k ==> r[j] == s[j])
  {
  }

  /** An update never clears the default flag of another record, so two defaults can coexist. */
  lemma UpdateCanLeaveTwoDefaults()
    ensures var a := StoredSource(1, "a", "", "", None, true, false, "t", "t");
      var b := StoredSource(2, "b", "", "", None, false, false, "t", "t");
      var r := AfterUpdate([a, b], 2, SourceInput(Some(2), "b", "k", "", None, true), "", "u");
      r[0].isDefault && r[1].isDefault
  {
  }

  /** Updates keep ids, so the table stays well formed. */
  lemma UpdateKeepsWellFormed(s: seq<StoredSource>, nextId: int, id: int, input: SourceInput, encryptedKey: string, now: string)
    requires WellFormed(s, nextId)
    ensures WellFormed(AfterUpdate(s, id, input, encryptedKey, now), nextId)
  {
  }

  /** `deleteSource` reports a removal exactly when some record had the id. */
  lemma {:induction false} RemoveIdReports(s: seq<StoredSource>, id: int)
    ensures |RemoveId(s, id)| < |s| <==> exists i :: 0 <= i < |s| && s[i].id == id
    ensures |RemoveId(s, id)| == |s| ==> RemoveId(s, id) == s
  {
    if s != [] {
      RemoveIdReports(s[1..], id);
      if s[0].id == id {
        assert |RemoveId(s, id)| < |s|;
      } else {
        assert forall i :: 1 <= i < |s| ==> s[i] == s[1..][i - 1];
      }
    }
  }

  /** Deleting an id that only the record at `k` has removes exactly that record. */
  lemma {:induction false} RemoveIdSingle(s: seq<StoredSource>, id: int, k: nat)
    requires k < |s| && s[k].id == id
    requires forall i :: 0 <= i < |s| && i != k ==> s[i].id != id
    ensures RemoveId(s, id) == s[..k] + s[k + 1..]
  {
    var t := s[1..];
    if k == 0 {
      assert forall i :: 0 <= i < |t| ==> t[i].id != id by {
        forall i | 0 <= i < |t|
          ensures t[i].id != id
        {
          assert t[i] == s[i + 1];
        }
      }
      RemoveIdAbsent(t, id);
      assert RemoveId(s, id) == RemoveId(t, id);
    } else {
      assert forall i :: 0 <= i < |t| && i != k - 1 ==> t[i].id != id by {
        forall i | 0 <= i < |t| && i != k - 1
          ensures t[i].id != id
        {
          assert t[i] == s[i + 1];
        }
      }
      RemoveIdSingle(t, id, k - 1);
      assert RemoveId(s, id) == [s[0]] + RemoveId(t, id);
      assert t[..k - 1] == s[1..k] && t[k..] == s[k + 1..];
      assert [s[0]] + (s[1..k] + s[k + 1..]) == s[..k] + s[k + 1..];
    }
  }

  /** With unique ids, deleting a present id removes exactly that record and keeps the others in order. */
  lemma RemoveIdExact(s: seq<StoredSource>, nextId: int, id: int)
    requires WellFormed(s, nextId)
    ensures var k := IndexOfId(s, id);
      RemoveId(s, id) == if k == -1 then s else s[..k] + s[k + 1..]
  {
    var k := IndexOfId(s, id);
    if k == -1 {
      RemoveIdAbsent(s, id);
    } else {
      assert forall i :: 0 <= i < |s| && i != k ==> s[i].id != id by {
        forall i | 0 <= i < |s| && i != k
          ensures s[i].id != id
        {
          if i > k {
            assert s[k].id < s[i].id;
          }
        }
      }
      RemoveIdSingle(s, id, k);
    }
  }

  /** Filtering out an id no record has keeps the table. */
  lemma {:induction false} RemoveIdAbsent(s: seq<StoredSource>, id: int)
    requires forall i :: 0 <= i < |s| ==> s[i].id != id
    ensures RemoveId(s, id) == s
  {
    if s != [] {
      RemoveIdAbsent(s[1..], id);
    }
  }

  /** Filtering keeps every id inside an interval that held all ids before. */
  lemma {:induction false} RemoveIdWithin(s: seq<StoredSource>, id: int, lo: int, hi: int)
    requires forall i :: 0 <= i < |s| ==> lo < s[i].id < hi
    ensures forall i :: 0 <= i < |RemoveId(s, id)| ==> lo < RemoveId(s, id)[i].id < hi
  {
    if s != [] {
      RemoveIdWithin(s[1..], id, lo, hi);
    }
  }

  /** Filtering keeps the strictly increasing ids. */
  lemma {:induction false} RemoveIdKeepsWellFormed(s: seq<StoredSource>, nextId: int, id: int)
    requires WellFormed(s, nextId)
    ensures WellFormed(RemoveId(s, id), nextId)
  {
    if s != [] {
      RemoveIdKeepsWellFormed(s[1..], nextId, id);
      RemoveIdWithin(s[1..], id, s[0].id, nextId);
      var rest := RemoveId(s[1..], id);
      assert RemoveId(s, id) == (if s[0].id != id then [s[0]] else []) + rest;
    }
  }

  /** After activation each record is active exactly when it has the chosen id, and nothing else changes. */
  lemma MarkActiveExact(s: seq<StoredSource>, id: int)
    ensures var r := MarkActive(s, id);
      forall i :: 0 <= i < |s| ==> r[i].isActive == (s[i].id == id) && r[i].(isActive := s[i].isActive) == s[i]
  {
  }

  /** With unique ids at most one record is active after activation, and an unknown id leaves none active. */
  lemma MarkActiveAtMostOne(s: seq<StoredSource>, nextId: int, id: int)
    requires WellFormed(s, nextId)
    ensures var r := MarkActive(s, id);
      && (forall i, j :: 0 <= i < |r| && 0 <= j < |r| && r[i].isActive && r[j].isActive ==> i == j)
      && (IndexOfId(s, id) == -1 ==> IndexOfActive(r) == -1)
      && WellFormed(r, nextId)
  {
  }

  /** At most one record is active. */
  predicate AtMostOneActive(s: seq<StoredSource>) {
    forall i, j :: 0 <= i < |s| && 0 <= j < |s| && s[i].isActive && s[j].isActive ==> i == j
  }

  /** Neither branch of `saveSource` changes an active flag, so saves keep at most one record active. */
  lemma SaveKeepsAtMostOneActive(s: seq<StoredSource>, nextId: nat, id: int, input: SourceInput, encryptedKey: string, now: string)
    requires AtMostOneActive(s)
    ensures AtMostOneActive(AfterCreate(s, nextId, input, encryptedKey, now))
    ensures AtMostOneActive(AfterUpdate(s, id, input, encryptedKey, now))
  {
    var c := AfterCreate(s, nextId, input, encryptedKey, now);
    assert forall i :: 0 <= i < |s| ==> c[i].isActive == s[i].isActive;
    var k := IndexOfId(s, id);
    var u := AfterUpdate(s, id, input, encryptedKey, now);
    assert forall i :: 0 <= i < |s| ==> u[i].isActive == s[i].isActive;
  }

  /**
   * Two creates from an empty table get ids 1 and 2; activating 1 and then 2 leaves 2 the active
   * one and 1 inactive; listing gives back both plaintext keys.
   */
  lemma CreateActivateListScenario(em: Cipher.EncryptionManager, salt: Cipher.Bytes, iv: Cipher.Bytes, now: string)
    requires Cipher.Sound(em.prims)
    requires |salt| == Cipher.SaltLength && |iv| == Cipher.IvLength
    ensures var a := SourceInput(None, "Official", "sk-aaa", "https://api.anthropic.com", None, true);
      var b := SourceInput(None, "B", "sk-bbb", "https://api.anthropic.com", None, false);
      var s1 := AfterCreate([], 1, a, em.Encrypt(salt, iv, a.apiKey), now);
      var s2 := AfterCreate(s1, 2, b, em.Encrypt(salt, iv, b.apiKey), now);
      var s3 := MarkActive(MarkActive(s2, 1), 2);
      && s2[0].id == 1 && s2[1].id == 2
      && IndexOfActive(s3) == 1 && !s3[IndexOfId(s3, 1)].isActive
      && RevealAll(em, s3) == Success([WithApiKey(s3[0], "sk-aaa"), WithApiKey(s3[1], "sk-bbb")])
  {
    var a := SourceInput(None, "Official", "sk-aaa", "https://api.anthropic.com", None, true);
    var b := SourceInput(None, "B", "sk-bbb", "https://api.anthropic.com", None, false);
    em.DecryptEncrypt(salt, iv, a.apiKey);
    em.DecryptEncrypt(salt, iv, b.apiKey);
    var s1 := AfterCreate([], 1, a, em.Encrypt(salt, iv, a.apiKey), now);
    var s2 := AfterCreate(s1, 2, b, em.Encrypt(salt, iv, b.apiKey), now);
    var s3 := MarkActive(MarkActive(s2, 1), 2);
    assert |s3| == 2 && s3[0].id == 1 && s3[1].id == 2;
    assert !s3[0].isActive && s3[1].isActive;
    assert IndexOfId(s3, 1) == 0;
    assert em.Decrypt(s3[0].apiKeyEncrypted) == Success("sk-aaa");
    assert em.Decrypt(s3[1].apiKeyEncrypted) == Success("sk-bbb");
    var r := RevealAll(em, s3);
    assert r.Success? && |r.value| == 2;
    assert r.value[0] == WithApiKey(s3[0], "sk-aaa") && r.value[1] == WithApiKey(s3[1], "sk-bbb");
    assert r.value == [WithApiKey(s3[0], "sk-aaa"), WithApiKey(s3[1], "sk-bbb")];
  }

  // ---------------------------------------------------------------------------------------------
  // The store object

  class DatabaseManager {
    /** `apiSources` */
    var sources: seq<StoredSource>
    /** `nextId`, default 1 */
    var nextId: nat
    /** `appSettings` */
    var settings: map<string, string>
    /** `this.encryption` */
    const encryption: Cipher.EncryptionManager

    /** The store is well formed: see `WellFormed`. */
    ghost predicate Valid()
      reads this
    {
      WellFormed(sources, nextId)
    }

    /** A store over an empty file: the schema defaults. */
    constructor (encryption: Cipher.EncryptionManager)
      ensures sources == [] && nextId == 1 && settings == map[]
      ensures this.encryption == encryption
      ensures Valid()
    {
      sources := [];
      nextId := 1;
      settings := map[];
      this.encryption := encryption;
    }

    /** `getAllSources()`: every record, in table order, with its key decrypted into `apiKey`. */
    function GetAllSources(): (r: Result<seq<Revealed>>)
      reads this
      ensures r.Success? ==> |r.value| == |sources| && forall i :: 0 <= i < |sources| ==>
        r.value[i].WithApiKey? && r.value[i].source == sources[i]
          && Success(r.value[i].apiKey) == encryption.Decrypt(sources[i].apiKeyEncrypted)
      ensures r.Failure? <==> exists i :: 0 <= i < |sources| && encryption.Decrypt(sources[i].apiKeyEncrypted).Failure?
      ensures r.Failure? ==> r.message == Cipher.DecryptError
    {
      RevealAll(encryption, sources)
    }

    /** `getSourceById(id)`: the first record with the id and its decrypted key, or `null`. */
    function GetSourceById(id: int): (r: Result<Option<Revealed>>)
      reads this
      ensures r == Success(None) <==> forall i :: 0 <= i < |sources| ==> sources[i].id != id
      ensures r.Success? && r.value.Some? ==>
        var k := IndexOfId(sources, id);
        && 0 <= k && r.value.value.WithDecryptedKey? && r.value.value.source == sources[k]
        && Success(r.value.value.decryptedKey) == encryption.Decrypt(sources[k].apiKeyEncrypted)
      ensures r.Failure? ==> r.message == Cipher.DecryptError
      ensures r.Failure? <==> (IndexOfId(sources, id) >= 0
        && encryption.Decrypt(sources[IndexOfId(sources, id)].apiKeyEncrypted).Failure?)
      ensures r.Success? <==> (IndexOfId(sources, id) == -1
        || encryption.Decrypt(sources[IndexOfId(sources, id)].apiKeyEncrypted).Success?)
    {
      var k := IndexOfId(sources, id);
      if k == -1 then Success(None)
      else
        match encryption.Decrypt(sources[k].apiKeyEncrypted)
        case Failure(m) => Failure(m)
        case Success(key) => Success(Some(WithDecryptedKey(sources[k], key)))
    }

    /** `getActiveSource()`: the first active record and its decrypted key, or `null`. */
    function GetActiveSource(): (r: Result<Option<Revealed>>)
      reads this
      ensures r == Success(None) <==> forall i :: 0 <= i < |sources| ==> !sources[i].isActive
      ensures r.Success? && r.value.Some? ==>
        var k := IndexOfActive(sources);
        && 0 <= k && r.value.value.WithDecryptedKey? && r.value.value.source == sources[k]
        && Success(r.value.value.decryptedKey) == encryption.Decrypt(sources[k].apiKeyEncrypted)
      ensures r.Failure? ==> r.message == Cipher.DecryptError
      ensures r.Failure? <==> (IndexOfActive(sources) >= 0
        && encryption.Decrypt(sources[IndexOfActive(sources)].apiKeyEncrypted).Failure?)
      ensures r.Success? <==> (IndexOfActive(sources) == -1
        || encryption.Decrypt(sources[IndexOfActive(sources)].apiKeyEncrypted).Success?)
    {
      var k := IndexOfActive(sources);
      if k == -1 then Success(None)
      else
        match encryption.Decrypt(sources[k].apiKeyEncrypted)
        case Failure(m) => Failure(m)
        case Success(key) => Success(Some(WithDecryptedKey(sources[k], key)))
    }

    /**
     * `saveSource(sourceData)`, with the timestamp and the random salt and iv passed in. A truthy id
     * updates the record with that id in place (an unknown id changes nothing) and returns `true`;
     * otherwise a record is created under the counter's value, after clearing every other default
     * flag when the new one is a default.
     */
    method SaveSource(input: SourceInput, now: string, salt: Cipher.Bytes, iv: Cipher.Bytes) returns (r: SaveResult)
      requires |salt| == Cipher.SaltLength && |iv| == Cipher.IvLength
      modifies this
      ensures settings == old(settings)
      ensures var enc := encryption.Encrypt(salt, iv, input.apiKey);
        if IsTruthyId(input.id) then
          && r == SavedTrue && nextId == old(nextId)
          && sources == AfterUpdate(old(sources), input.id.value, input, enc, now)
        else
          && r == NewId(old(nextId)) && nextId == old(nextId) + 1
          && sources == AfterCreate(old(sources), old(nextId), input, enc, now)
      ensures old(Valid()) ==> Valid()
    {
      var encryptedKey := encryption.Encrypt(salt, iv, input.apiKey);
      if IsTruthyId(input.id) {
        var index := IndexOfId(sources, input.id.value);
        if index != -1 {
          sources := sources[index := Merge(sources[index], input, encryptedKey, now)];
        }
        if WellFormed(old(sources), nextId) {
          UpdateKeepsWellFormed(old(sources), nextId, input.id.value, input, encryptedKey, now);
        }
        r := SavedTrue;
      } else {
        if input.isDefault {
          ClearDefaults();
        }
        var id := nextId;
        sources := sources + [NewRecord(id, input, encryptedKey, now)];
        nextId := id + 1;
        if WellFormed(old(sources), old(nextId)) {
          CreateAppendsFresh(old(sources), old(nextId), input, encryptedKey, now);
        }
        r := NewId(id);
      }
    }

    /** The `forEach` that clears `is_default` on every record. */
    method ClearDefaults()
      modifies this
      ensures sources == WithoutDefaults(old(sources))
      ensures nextId == old(nextId) && settings == old(settings)
    {
      var i := 0;
      while i < |sources|
        invariant 0 <= i <= |sources| == |old(sources)|
        invariant forall j :: 0 <= j < i ==> sources[j] == old(sources)[j].(isDefault := false)
        invariant forall j :: i <= j < |sources| ==> sources[j] == old(sources)[j]
        invariant nextId == old(nextId) && settings == old(settings)
      {
        sources := sources[i := sources[i].(isDefault := false)];
        i := i + 1;
      }
    }

    /** `deleteSource(id)`: filters the id out and reports whether the table shrank. */
    method DeleteSource(id: int) returns (removed: bool)
      modifies this
      ensures removed <==> exists i :: 0 <= i < |old(sources)| && old(sources)[i].id == id
      ensures sources == RemoveId(old(sources), id)
      ensures nextId == old(nextId) && settings == old(settings)
      ensures old(Valid()) ==> Valid()
    {
      var filtered := RemoveId(sources, id);
      RemoveIdReports(sources, id);
      if WellFormed(sources, nextId) {
        RemoveIdKeepsWellFormed(sources, nextId, id);
      }
      if |filtered| != |sources| {
        sources := filtered;
        removed := true;
      } else {
        removed := false;
      }
    }

    /** `setActiveSource(id)`: every record becomes active exactly when it has the id. */
    method SetActiveSource(id: int)
      modifies this
      ensures sources == MarkActive(old(sources), id)
      ensures nextId == old(nextId) && settings == old(settings)
      ensures old(Valid()) ==> Valid()
    {
      var i := 0;
      while i < |sources|
        invariant 0 <= i <= |sources| == |old(sources)|
        invariant forall j :: 0 <= j < i ==> sources[j] == old(sources)[j].(isActive := old(sources)[j].id == id)
        invariant forall j :: i <= j < |sources| ==> sources[j] == old(sources)[j]
        invariant nextId == old(nextId) && settings == old(settings)
      {
        sources := sources[i := sources[i].(isActive := sources[i].id == id)];
        i := i + 1;
      }
    }

    /** `getSetting(key)`: `settings[key] || null`, so an absent key and an empty value both read as `null`. */
    function GetSetting(key: string): (r: Option<string>)
      reads this
      ensures r.Some? <==> key in settings && settings[key] != ""
      ensures r.Some? ==> r.value == settings[key]
    {
      if key in settings && settings[key] != "" then Some(settings[key]) else None
    }

    /** `setSetting(key, value)`: only that key changes. */
    method SetSetting(key: string, value: string)
      modifies this
      ensures settings == old(settings)[key := value]
      ensures sources == old(sources) && nextId == old(nextId)
    {
      settings := settings[key := value];
    }
  }
}
