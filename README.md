# Claude Key Manager core, modelled in Dafny

Claude Key Manager is an Electron desktop tool. It keeps several Anthropic API "sources". A source is a name, an API key, a base URL, an optional model, a default flag and an active flag. The tool stores the keys encrypted and switches the machine's environment to one chosen source. This project models the parts of it that hold logic:

- **`CredentialStore`** (public/database.js, `DatabaseManager`). A class with the fields `sources`, `nextId` and `settings`. It has the save, delete, activate, lookup and settings operations. Pure table functions specify it (`AfterCreate`, `AfterUpdate`, `RemoveId`, `MarkActive`, `RevealAll`), and lemmas prove properties of those functions.
- **`Cipher`** (public/database.js, `EncryptionManager`). The blob layout `salt(16) || iv(16) || tag(16) || ciphertext` and the slicing that takes it apart. PBKDF2 (RFC 8018 section 5.2), AES-256-GCM (NIST SP 800-38D), UTF-8 and base64 are fields of a `Primitives` value. The round-trip lemmas assume the predicate `Sound`: opening inverts sealing, and each decoding inverts its encoding.
- **`ApiStore`** (src/store/apiStore.ts). The zustand reducers as `State -> State` functions. The asynchronous actions are functions of the IPC answer, which is an input (`Ipc<T>`: no bridge, rejected with a message, or resolved with a value). A thrown error is the `Outcome`.
- **`ModelDisplay`, `ModelQuery`, `ShellEnv`, `SwitchHandler`** (public/main.js). They cover:
  - the display-name formatter;
  - the `query-models` URL join, status messages and response shapes;
  - the start-up file rewrite, where each file's old content is an input;
  - the `config.json` and `claude.env` contents;
  - the `switch-api-source` handler, as a method over a `DatabaseManager` and a `ProcessEnv` object.
- **`AddSourceForm`** (src/components/AddSourceModal.tsx). Validation into an error map, the input-change handler, and the guard in `handleSubmit`. Whether `new URL(s)` accepts a string is a parameter.
- **`Text`** and **`Wrappers`**. String helpers: JavaScript `split`/`join`/`startsWith`/`trim` blankness, the multi-line `^`/`$` terminators, `Option` and `Result`.

Timestamps, the random salt and iv, the master key, file contents, IPC results and the `fetch` outcome are all parameters.

Edge cases of the code that the model keeps as written:

- The comment at public/database.js:118 says that a default source first clears the other defaults. Only the create branch does this. The update branch (public/database.js:101-114) keeps every other record's default flag, and `CredentialStore.UpdateCanLeaveTwoDefaults` exhibits two defaults.
- An update with an unknown truthy id changes nothing and still returns `true` (public/database.js:103,142-143).
- `if (id)` sends id `0` down the create path (public/database.js:101); this is `CredentialStore.IsTruthyId`.
- `getSetting` returns `null` for a stored empty string (public/database.js:187).
- The form submits only `id`, `name`, `apiKey`, `api_base` and `is_default` (src/components/AddSourceModal.tsx:82-85). `saveSource` forwards `model: source.model`, which is then `undefined` (src/store/apiStore.ts:140), and the update branch writes it (public/database.js:110). Editing a source through the form therefore clears its stored model: `ApiStore.FormUpdateClearsModel`.
- public/preload.js exposes no `queryModels`, and public/main.js registers no `test-api-connection` handler. In the running program both renderer calls therefore reject. `ApiStore.TestConnection` and `ApiStore.QueryModels` are stated for any IPC answer, so they cover that case too.

## Model

| member | source | states |
|---|---|---|
| CredentialStore.DatabaseManager.constructor | public/database.js:9-43 | the store starts with no sources, `nextId` 1 and no settings, and is well formed |
| CredentialStore.DatabaseManager.GetAllSources | public/database.js:67-77 | the list keeps length and order and adds each record's decrypted key; it fails exactly when some key does not decrypt, and the failure is `'Failed to decrypt data'` |
| CredentialStore.DatabaseManager.GetSourceById | public/database.js:79-90 | `null` exactly when no record has the id; it fails exactly when the first record with the id has a key that does not decrypt, and the failure is the decryption error; otherwise it is that record plus its decrypted key |
| CredentialStore.DatabaseManager.GetActiveSource | public/database.js:172-183 | `null` exactly when no record is active; it fails exactly when the first active record has a key that does not decrypt, and the failure is the decryption error; otherwise it is that record plus its decrypted key |
| CredentialStore.DatabaseManager.SaveSource | public/database.js:92-148 | a truthy id updates that record in place and returns `true` (an unknown id changes nothing); otherwise it appends a record with id `nextId`, bumps `nextId`, clears other defaults first when the new one is default, and returns the new id; settings are untouched and well-formedness is kept |
| CredentialStore.DatabaseManager.ClearDefaults | public/database.js:117-120 | the in-place `forEach` leaves the table equal to `WithoutDefaults` of the old one |
| CredentialStore.DatabaseManager.DeleteSource | public/database.js:150-159 | the result is true exactly when some record had the id; the table becomes the filtered one; counter and settings are unchanged |
| CredentialStore.DatabaseManager.SetActiveSource | public/database.js:161-170 | the in-place `forEach` leaves the table equal to `MarkActive` of the old one; counter and settings are unchanged |
| CredentialStore.DatabaseManager.GetSetting | public/database.js:185-188 | gives the stored value exactly when the key is present with a non-empty value, `null` otherwise |
| CredentialStore.DatabaseManager.SetSetting | public/database.js:190-194 | only key `k` of the settings changes; sources and counter are unchanged |
| CredentialStore.IndexOfId | public/database.js:103 | `findIndex`: -1 exactly when no record has the id, else the first position with it |
| CredentialStore.IndexOfActive | public/database.js:174 | `find(s => s.is_active)`: -1 exactly when none is active, else the first active position |
| CredentialStore.WithoutDefaults | public/database.js:117-120 | the table keeps its length; every record loses its default flag and keeps every other field |
| CredentialStore.NewRecord | public/database.js:122-132 | the appended record has the given id, is inactive, holds the encrypted key, takes name, base, model and default flag from the input, and has equal creation and update times |
| CredentialStore.Merge | public/database.js:105-113 | the record written back keeps id, active flag and creation time, and takes name, encrypted key, base, model, default flag and the update time |
| CredentialStore.AfterCreate | public/database.js:115-139 | one record, `NewRecord` with the counter as id, is appended; the old records lose their default flags exactly when the new one is default, and are kept otherwise |
| CredentialStore.AfterUpdate | public/database.js:101-114 | the length is kept; only the first record with the id is replaced by its `Merge`; every other record is kept |
| CredentialStore.RemoveId | public/database.js:152 | the filtered table is no longer and holds no record with the id |
| CredentialStore.MarkActive | public/database.js:165-167 | the table keeps its length; a record is active exactly when it has the id, and every other field is kept |
| CredentialStore.RevealAll | public/database.js:71-74 | success exactly when every key decrypts, with each record paired with its plaintext key in order; a failure is the decryption error |
| CredentialStore.CreateAppendsFresh | public/database.js:115-139 | a create appends one inactive record whose id is the counter and whose timestamps agree, with an id above all others; the table stays well formed with the counter bumped |
| CredentialStore.CreateDefaultRule | public/database.js:115-130 | creating a default leaves the new record the only default; creating a non-default leaves the old records as they were; either way only default flags of old records change |
| CredentialStore.UpdateFrame | public/database.js:101-114 | an update keeps the length; an unknown id keeps the table; the record found keeps id, active flag and creation time and takes the new fields; every other record is unchanged |
| CredentialStore.UpdateCanLeaveTwoDefaults | public/database.js:101-114 | an update to default keeps another record's default flag, so two defaults coexist |
| CredentialStore.UpdateKeepsWellFormed | public/database.js:101-114 | an update keeps ids unique, increasing and below the counter |
| CredentialStore.RemoveIdReports | public/database.js:150-159 | the filter shortens the table exactly when some record had the id, and otherwise gives the table back |
| CredentialStore.RemoveIdExact | public/database.js:150-159 | with unique ids, deleting removes exactly the record with the id and keeps the rest in order |
| CredentialStore.RemoveIdSingle | public/database.js:152 | when only one record has the id, the filter removes exactly that record |
| CredentialStore.RemoveIdAbsent | public/database.js:152 | filtering an id no record has keeps the table |
| CredentialStore.RemoveIdWithin | public/database.js:152 | filtering keeps every id inside a bound that held before |
| CredentialStore.RemoveIdKeepsWellFormed | public/database.js:150-159 | deletion keeps ids unique, increasing and below the counter |
| CredentialStore.MarkActiveExact | public/database.js:161-170 | after activation a record is active exactly when it has the chosen id, and no other field changes |
| CredentialStore.MarkActiveAtMostOne | public/database.js:161-170 | with unique ids at most one record is active; an unknown id leaves none active; well-formedness is kept |
| CredentialStore.SaveKeepsAtMostOneActive | public/database.js:101-139 | neither save branch changes an active flag, so saves keep at most one record active |
| CredentialStore.CreateActivateListScenario | public/database.js:67-170 | two creates get ids 1 and 2; activating 1 then 2 leaves 2 active and 1 inactive; listing gives back `sk-aaa` and `sk-bbb` |
| Cipher.Slice | public/database.js:246-249 | `Buffer.slice` with clamped bounds is never longer than the buffer |
| Cipher.Layout | public/database.js:233 | the concatenation has the summed length, starts with the salt and ends with the ciphertext |
| Cipher.Unlayout | public/database.js:246-249 | the four slices together have the buffer's length; a buffer of at least 48 bytes gives a 16-byte salt, iv and tag |
| Cipher.UnlayoutLayout | public/database.js:233-249 | slicing at 16/32/48 recovers salt, iv, tag and ciphertext from their concatenation |
| Cipher.LayoutUnlayout | public/database.js:246-249 | every buffer is the concatenation of its four slices; one shorter than 48 bytes has an empty ciphertext |
| Cipher.EncryptionManager.Decrypt | public/database.js:241-263 | any failure, short blobs and bad tags included, is `'Failed to decrypt data'`; a success is some UTF-8 decoding, never a partial result |
| Cipher.EncryptionManager.Encrypt | public/database.js:220-235 | under sound primitives the base64 blob decodes to `salt, iv, tag, ciphertext` of the sealed text, and the tag has 16 bytes |
| Cipher.EncryptionManager.EncryptLayout | public/database.js:220-239 | the base64-decoded blob has length 48 plus the ciphertext's; bytes 0-16 are the salt, 16-32 the iv, 32-48 the tag, and the rest the ciphertext |
| Cipher.EncryptionManager.EncryptSeparates | public/database.js:222-234 | two encryptions with different salts or different ivs give different blobs, whatever the texts |
| Cipher.EncryptionManager.DecryptEncrypt | public/database.js:203-263 | under sound primitives, decrypting an encrypted text gives the text back |
| ApiStore.Spread | src/store/apiStore.ts:80 | after a spread a key holds the patch's value when the patch has the key, and the source's otherwise |
| ApiStore.MergePatch | src/store/apiStore.ts:80 | each of the nine fields is the patch's when present and the source's otherwise |
| ApiStore.MergePatchLaws | src/store/apiStore.ts:80 | `{ ...source, ...patch }` is idempotent, the empty patch is the identity, and a full patch replaces the entry |
| ApiStore.AddSource | src/store/apiStore.ts:74-76 | the source is appended and nothing else in the state changes |
| ApiStore.UpdateSource | src/store/apiStore.ts:78-82 | the length is kept; entries with the id are merged with the patch, others untouched; the rest of the state is unchanged |
| ApiStore.WithoutId | src/store/apiStore.ts:85 | the filtered list is no longer and has no entry with the id |
| ApiStore.WithoutIdKeepsOthers | src/store/apiStore.ts:85 | an entry is kept exactly when it is in the list and has another id; one entry goes per occurrence of the id; a list without the id is kept as it is |
| ApiStore.WithoutIdAppend | src/store/apiStore.ts:85 | filtering a concatenation filters each part, so the kept entries stay in their order |
| ApiStore.RemoveSource | src/store/apiStore.ts:84-87 | entries with the id go; `activeSource` becomes `null` exactly when it was `null` or had the id, and is kept otherwise |
| ApiStore.Normalize | src/store/apiStore.ts:102-105 | `is_active ?? false` is true exactly when the flag was `true`; every other field is copied |
| ApiStore.NormalizeAll | src/store/apiStore.ts:102-105 | length and order are kept, each entry normalised with `is_active ?? false` |
| ApiStore.FirstActive | src/store/apiStore.ts:99-110 | `null` exactly when no entry has `is_active` true, else the normalised entry at such a position |
| ApiStore.LoadSources | src/store/apiStore.ts:93-127 | loading ends; on an answer the list is the normalised one and `activeSource` its first active entry (or `null`); any failure records its message and keeps the list |
| ApiStore.SaveRequest | src/store/apiStore.ts:135-142 | the object sent has the submitted id, name, key, base and default flag, and an undefined model |
| ApiStore.FormUpdateClearsModel | src/store/apiStore.ts:135-142 | an update submitted from the form leaves the record it finds with no model, and with its id and active flag |
| ApiStore.NewEntry | src/store/apiStore.ts:151 | the added entry has the answered id and the submitted fields; model and timestamps are undefined and it is inactive |
| ApiStore.LocalStep | src/store/apiStore.ts:145-153 | a truthy id merges the submitted fields into the matching entries, which keep `is_active`, `model` and timestamps; a falsy id appends `NewEntry` only on a numeric answer and otherwise changes nothing; the list grows exactly when the id is falsy and the answer a number |
| ApiStore.SaveSource | src/store/apiStore.ts:129-168 | loading ends; a failing save rethrows its message, records it and keeps list and active source; a resolved save is `LoadSources` of the reload's answer applied to the local step |
| ApiStore.SaveSourceAddsOnlyOnNumber | src/store/apiStore.ts:145-156 | after a resolved save the list is the reloaded one; when the reload fails, the list has grown by one exactly when the id was falsy and the answer a number |
| ApiStore.DeleteSource | src/store/apiStore.ts:170-195 | loading ends either way; `true` removes the source; `false` throws `'Failed to delete source'` and keeps the list and active source; other failures rethrow and keep the list |
| ApiStore.FindId | src/store/apiStore.ts:205 | `find(s => s.id === id)`: the first position with the id, or the length |
| ApiStore.ActivateId | src/store/apiStore.ts:208-211 | each entry's active flag becomes whether it has the id, and the length is kept |
| ApiStore.SwitchToSource | src/store/apiStore.ts:197-234 | on success with a listed id the entries are re-flagged and `activeSource` is that entry marked active; an unlisted id keeps list and active source; a failure answer throws its message; loading ends |
| ApiStore.SwitchLeavesOneActive | src/store/apiStore.ts:204-216 | with unique ids, after a successful switch the chosen entry is the only active one and is the active source |
| ApiStore.TestConnection | src/store/apiStore.ts:236-259 | never throws: a resolved call gives the backend's reply unchanged, and a missing bridge or rejection becomes `success: false` with the message |
| ApiStore.QueryModels | src/store/apiStore.ts:261-285 | never throws: a resolved call gives the backend's reply unchanged, and a failure becomes `success: false` with the message and no models |
| ModelDisplay.Capitalize | public/main.js:582 | the word keeps its length; its first character is upper-cased and the others are kept |
| ModelDisplay.CapitalizeAll | public/main.js:582 | each word is mapped to its capitalised form, in order |
| ModelDisplay.GetModelDisplayName | public/main.js:558-575 | a falsy id gives `'Unknown Model'`; an id in the seven-entry table gives the table value |
| ModelDisplay.PrettifyPointwise | public/main.js:577-585 | outside the table the name has the id's length; each hyphen becomes a space, each segment's first letter is upper-cased, and every other character is kept |
| ModelDisplay.CapitalizeFirstWord | public/main.js:582 | capitalising the first word upper-cases its first character and keeps the others |
| ModelDisplay.PrettifyStep | public/main.js:580-584 | past the first hyphen the name is the first word capitalised, a space, then the rest prettified |
| ModelDisplay.PrettyAtAfterFirstWord | public/main.js:580-584 | the first word, a space and the prettified rest agree with the per-character reading at every position |
| ModelDisplay.Prettify | public/main.js:580-584 | the label has the id's length, and each character is a space for a hyphen, upper-cased at the start of a word, and kept otherwise |
| ModelDisplay.DisplayNameOutsideTable | public/main.js:558-585 | for a non-empty id outside the table, the display name is the pointwise prettified id, and the split has hyphens + 1 segments |
| Text.FirstIndexIn | public/main.js:282-284 | the first position holding a separator, or the length |
| Text.SplitOn | public/main.js:581 | `split` gives at least one piece and no piece holds a separator |
| Text.SplitOnCount | public/main.js:581 | `split` on one character gives one more piece than there are separators |
| Text.CountInPrefixFree | public/main.js:581 | dropping a separator-free prefix keeps the separator count |
| Text.JoinSplitOn | public/main.js:581-583 | joining the pieces of a `split` with the same character gives the string back |
| Text.JoinCons | public/main.js:584 | `join` puts one separator between an element and a non-empty rest |
| ModelQuery.ModelsUrl | public/main.js:361 | the URL starts with the base and ends with `/v1/models`, adding one slash only when the base lacks a trailing one |
| ModelQuery.NatToString | public/main.js:384 | the decimal form of a status is a non-empty string of digits |
| ModelQuery.StatusMessage | public/main.js:377-385 | 401, 403 and 404 have their own messages; any other status gives `API调用失败: ` followed by its digits |
| ModelQuery.StatusMessagesDistinct | public/main.js:377-385 | 401, 403, 404 and any other status give four different messages |
| ModelQuery.CatchReply | public/main.js:441-451 | every caught error is a failure with no models |
| ModelQuery.ContainsChars | public/main.js:446 | a string that `includes` another holds each of its characters |
| ModelQuery.CatchTypeError | public/main.js:446-449 | a `TypeError` whose message has no `h` cannot mention `fetch`, so it is reported as `查询模型失败: ` and its message |
| ModelQuery.SelectModels | public/main.js:392-401 | an array under `data` wins, then an array under `models`; a non-empty array chosen comes from `data`, `models` or the body itself |
| ModelQuery.ReplyForBody | public/main.js:388-439 | a `null` body fails as reading `data` of `null`; no non-empty array is a success with no models; a `null` entry anywhere fails as reading `id` of `null` first; then a truthy non-string id fails as `split` does; otherwise one model per entry with its id and the model count |
| ModelQuery.DisplayNameOf | public/main.js:416-420 | a string id gives its display name; a truthy non-string id fails as `modelId.split` does |
| ModelQuery.ToModelInfos | public/main.js:416-420 | one model per item, in order, with `name == id` and the item's id; it fails exactly when an item is `null` or has a truthy non-string id |
| ModelQuery.QueryModels | public/main.js:352-452 | missing key or base fails before any request; a thrown error gives the catch reply; a non-ok status gives its status message; an unparsable body fails with `查询模型失败: ` and the parser's message; a parsed body gives `ReplyForBody`; every failure has no models; every model has `name == id`; a non-empty success reports the model count |
| ModelQuery.ModelsComeFromArrays | public/main.js:392-401 | listed models come from `data.data`, then `data.models`, then a bare array, in that precedence, one per entry of the chosen array and carrying that entry's id; the `object === 'list'` branch adds nothing |
| ModelQuery.NullEntryReportedFirst | public/main.js:415-421 | a `null` entry is reported as reading `id` of `null` even when an earlier entry's id is a number |
| ModelQuery.NoArrayMeansEmptySuccess | public/main.js:392-411 | a body with none of the three arrays is a success with no models |
| ShellEnv.BlankAll | public/main.js:282-284 | each line is blanked or kept on its own, in order |
| ShellEnv.FirstIndexAfterLine | public/main.js:282-284 | the first line ends at its first terminator |
| ShellEnv.SplitOnAfterLine | public/main.js:282-284 | a text that starts with a line and a terminator splits into that line and the rest's lines |
| ShellEnv.BlankAllCons | public/main.js:282-284 | blanking a line in front of others blanks it and then the rest |
| ShellEnv.BlankNoTerminators | public/main.js:282-284 | blanking a line never adds a line terminator |
| ShellEnv.SplitOnOneLine | public/main.js:282-284 | a text without terminators is a single line |
| ShellEnv.StripLinesByLine | public/main.js:282-284 | the three multi-line replacements act line by line: the new lines are the old ones, with those that start with a prefix emptied |
| ShellEnv.BlankTwice | public/main.js:282-284 | blanking with one prefix list and then another equals blanking with both |
| ShellEnv.StripLinesTwice | public/main.js:282-284 | two successive replacements equal one with both prefixes |
| ShellEnv.EnvVars | public/main.js:267-274 | the block is `export ANTHROPIC_AUTH_TOKEN="<key>"` and `export ANTHROPIC_BASE_URL="<base>"`, then `export ANTHROPIC_MODEL="<model>"` exactly when a model is set |
| ShellEnv.EnvVarsModelLine | public/main.js:267-274 | some line of the block exports the model exactly when a model is set |
| ShellEnv.RewriteRc | public/main.js:280-289 | the new content ends with the header and the block's lines joined by newlines, with a final newline |
| ShellEnv.StripThreeAtOnce | public/main.js:283-285 | the three replacements in a row are one replacement with all three prefixes |
| ShellEnv.RewriteRcSpec | public/main.js:280-289 | a rewritten file is the old one with the old export lines of the three variables emptied and the other lines kept in order, followed by the header and the block |
| ShellEnv.RewriteShellFiles | public/main.js:262-294 | every existing file is rewritten as `RewriteRc` says and every missing one is skipped |
| ShellEnv.SetxCommands | public/main.js:197-204 | Windows sets token and base, and the model only when one is set |
| ShellEnv.ConfigFor | public/main.js:324-329 | `config.json` holds key, base, the model or `claude-3-5-sonnet-20241022`, and the time |
| ShellEnv.NonEmpty | public/main.js:342 | `filter(Boolean)` is no longer and keeps exactly the non-empty lines |
| ShellEnv.NonEmptyKeeps | public/main.js:341 | `filter(Boolean)` keeps a list of non-empty lines as it is |
| ShellEnv.EnvLinesJoin | public/main.js:337-342 | the four candidate lines, the model line empty exactly when no model is set, filter and join to the lines with one newline between each |
| ShellEnv.EnvFile | public/main.js:337-342 | the env file is the token line, the base line, the model line exactly when a model is set, then the comment, joined by newlines |
| SwitchHandler.ProcessEnv.constructor | public/main.js:159-169 | the process environment starts from the given variables |
| SwitchHandler.EnvAfterSwitch | public/main.js:159-169 | key and base are set under both names, the model under both names only when set, and every other variable is kept |
| SwitchHandler.ActivationFor | public/main.js:188-350 | Windows gets the `setx` list and leaves the files; elsewhere there is no `setx` and every existing start-up file is rewritten by `RewriteRc`; both write `config.json` with the first clock reading and `claude.env` with the second |
| SwitchHandler.SwitchApiSource | public/main.js:151-185 | an unknown id fails with `'Source not found'` and a key that does not decrypt with the decryption error, both before anything changes; otherwise the environment is updated, every write of `ActivationFor` is produced, the source becomes the active one as `MarkActive` says, and the success message is returned |
| AddSourceForm.Errors | src/components/AddSourceModal.tsx:45-67 | a blank name errs; a blank key errs as missing, and a key not starting with `sk-` as it was typed errs on the prefix; a blank base errs as missing, and one that does not parse errs as invalid; no other key appears |
| AddSourceForm.ValidateForm | src/components/AddSourceModal.tsx:45-70 | the map built field by field is `Errors`, and the form is valid exactly when the map is empty |
| AddSourceForm.NoKeysIsEmpty | src/components/AddSourceModal.tsx:69 | `Object.keys(m).length === 0` holds exactly for the empty map |
| AddSourceForm.ValidIffEveryFieldPasses | src/components/AddSourceModal.tsx:45-70 | the error map is empty exactly when every field passes its own check |
| AddSourceForm.FieldErrorIsLocal | src/components/AddSourceModal.tsx:45-67 | two forms that agree on a field get the same error entry for it |
| AddSourceForm.UntrimmedPrefixTest | src/components/AddSourceModal.tsx:52-56 | a key with leading white space fails the prefix test, although its trimmed text starts with `sk-` |
| AddSourceForm.InitialFormRejected | src/components/AddSourceModal.tsx:21-26 | the form as it opens fails on its empty name and missing key, and its base URL passes when it parses |
| AddSourceForm.HandleInputChange | src/components/AddSourceModal.tsx:117-123 | only the edited field changes; its error becomes `''` only when it held a non-empty one; the test result is cleared |
| AddSourceForm.HandleSubmit | src/components/AddSourceModal.tsx:72-87 | nothing is submitted exactly when validation finds an error; otherwise the submitted object has exactly the form's name, key, base and default flag and the edited source's id |

## Left out

- Persistence: `electron-store`, its encryption key and schema, and the `master.key` file (public/database.js:9-65). The store is modelled as fields in memory.
- `close()` (public/database.js:196-198): it does nothing.
- Cryptography: PBKDF2, AES-256-GCM, UTF-8 and base64 are the fields of the `Primitives` parameter, and the round-trip lemmas assume `Sound`. Axioms are not available, so the hypothesis is stated as a precondition. The master key is the `masterKey` field of `EncryptionManager`; its value, the 32-byte SHA-256 digest of a fixed string (public/database.js:214-218), is not modelled, and no property depends on it.
- Cipher.EncryptionManager.Encrypt: the `'Failed to encrypt data'` path is not modelled; encryption is a total function of the salt, iv and text.
- Randomness: `crypto.randomBytes` for salt and iv is a parameter.
- Time: `new Date().toISOString()` is a parameter.
- I/O: spawning `setx` and `powershell`, `fs.stat`/`readFile`/`writeFile`/`mkdir`, `fetch`, and `JSON.stringify` of `config.json`. File contents go in and out as values. `config.json` is a record, not its JSON text.
- SwitchHandler.ActivationFor: treats every `setx` call as successful. In the source, a failing call aborts the rest of `setSystemEnvironmentVariables`, including the config files, and the switch still succeeds.
- ShellEnv.RewriteShellFiles: a file that exists but cannot be read or written is treated as missing, which matches the per-file `catch`. A path that is not a regular file is likewise an absent entry.
- SwitchHandler.SwitchApiSource: the handler builds a fresh `DatabaseManager` over the same file. Here it gets the store object, and the written files are returned rather than written.
- The `verify-environment-variables` handler, the window lifecycle, menus, navigation guards and the lock/unlock stubs (public/main.js:8-115,455-555,589-614).
- The React components other than the form logic of AddSourceModal: rendering, `handleTestConnection`, the loading flags and the effect that fills the form from the edited source.
- ModelDisplay.GetModelDisplayName: a table lookup on an inherited `Object.prototype` name such as `constructor` is not modelled. `toUpperCase` is modelled on ASCII letters only.
- ModelQuery.QueryModels: response bodies are JSON over integers; floats, `NaN` and an array id whose string form is a table key are not modelled. A body that `response.json()` cannot parse is a `Failure` input and goes to the generic catch with its message.
- Cipher.EncryptionManager.DecryptEncrypt: a Dafny `string` holds Unicode scalar values only. A JavaScript string with a lone surrogate is turned into U+FFFD by the UTF-8 encoding (public/database.js:229), so it would not come back unchanged; such strings are not representable here, and "every text" means every string of scalar values.
- ApiStore.NewEntry: an `is_active` that is `undefined` in the added entry is modelled as `false`, its falsy reading.
- Text.Join and ShellEnv.StripLines carry no `ensures`; their properties are the lemmas `JoinCons`, `JoinSplitOn`, `StripLinesByLine` and `StripLinesTwice`.
- Concurrency between IPC handlers and the ordering of `await`s: every operation is one sequential step.
