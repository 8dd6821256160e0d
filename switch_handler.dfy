/**
 * The `switch-api-source` handler of public/main.js: look the source up, export its key, base URL
 * and model into the process environment, compute what is written for other programs, and only
 * then mark the source active in the store.
 */
module SwitchHandler {
  import opened Wrappers
  import Cipher
  import CredentialStore
  import ShellEnv

  const SourceNotFound: string := "Source not found"
  const Switched: string := "API source switched successfully. 请重启Claude Code以使新配置生效。"

  /** `{ success, message }` */
  datatype SwitchReply = SwitchReply(success: bool, message: string)

  /** The variables of the running process. */
  class ProcessEnv {
    var vars: map<string, string>

    constructor (vars: map<string, string>)
      ensures this.vars == vars
    {
      this.vars := vars;
    }
  }

  /** What `setSystemEnvironmentVariables` hands to the operating system and the file system. */
  datatype Activation = Activation(
    setx: seq<(string, string)>,
    shellFiles: seq<Option<string>>,
    config: ShellEnv.ClaudeConfig,
    envFile: string)

  /** The process variables after the switch: key and base always, the two model variables only when a model is set. */
  function EnvAfterSwitch(vars: map<string, string>, key: string, base: string, model: Option<string>): (r: map<string, string>)
    ensures r.Keys == vars.Keys + {"CLAUDE_API_KEY", "CLAUDE_API_BASE", "ANTHROPIC_AUTH_TOKEN", "ANTHROPIC_BASE_URL"}
      + (if ShellEnv.HasModel(model) then {"CLAUDE_MODEL", "ANTHROPIC_MODEL"} else {})
    ensures r["CLAUDE_API_KEY"] == key && r["ANTHROPIC_AUTH_TOKEN"] == key
    ensures r["CLAUDE_API_BASE"] == base && r["ANTHROPIC_BASE_URL"] == base
    ensures ShellEnv.HasModel(model) ==> r["CLAUDE_MODEL"] == model.value && r["ANTHROPIC_MODEL"] == model.value
    ensures forall v :: (v in vars && v !in {"CLAUDE_API_KEY", "CLAUDE_API_BASE", "ANTHROPIC_AUTH_TOKEN", "ANTHROPIC_BASE_URL"}
      && (ShellEnv.HasModel(model) ==> v !in {"CLAUDE_MODEL", "ANTHROPIC_MODEL"})) ==> r[v] == vars[v]
  {
    var withKey := vars["CLAUDE_API_KEY" := key]["CLAUDE_API_BASE" := base]
      ["ANTHROPIC_AUTH_TOKEN" := key]["ANTHROPIC_BASE_URL" := base];
    if ShellEnv.HasModel(model) then withKey["CLAUDE_MODEL" := model.value]["ANTHROPIC_MODEL" := model.value]
    else withKey
  }

  /**
   * The writes of `setSystemEnvironmentVariables` and `writeClaudeConfigFile`: `setx` on Windows,
   * the start-up files elsewhere. The clock is read once for `config.json` and once more for
   * `claude.env`, so the two timestamps are separate inputs.
   */
  method ActivationFor(key: string, base: string, model: Option<string>, isWindows: bool,
                       shellFiles: seq<Option<string>>, configTime: string, envTime: string) returns (a: Activation)
    ensures isWindows ==> a.setx == ShellEnv.SetxCommands(key, base, model) && a.shellFiles == shellFiles
    ensures !isWindows ==> a.setx == [] && |a.shellFiles| == |shellFiles| && forall i :: 0 <= i < |shellFiles| ==>
      a.shellFiles[i] == if shellFiles[i].Some? then Some(ShellEnv.RewriteRc(shellFiles[i].value, key, base, model)) else None
    ensures a.config == ShellEnv.ConfigFor(key, base, model, configTime)
    ensures a.envFile == ShellEnv.EnvFile(key, base, model, envTime)
  {
    var files := shellFiles;
    var setx := [];
    if isWindows {
      setx := ShellEnv.SetxCommands(key, base, model);
    } else {
      files := ShellEnv.RewriteShellFiles(shellFiles, key, base, model);
    }
    a := Activation(setx, files, ShellEnv.ConfigFor(key, base, model, configTime), ShellEnv.EnvFile(key, base, model, envTime));
  }

  /**
   * `switch-api-source`: an unknown id throws `'Source not found'` and a key that does not decrypt
   * throws the cipher's error, both before anything changes; otherwise the environment is updated
   * and the source becomes the only active one.
   */
  method SwitchApiSource(db: CredentialStore.DatabaseManager, env: ProcessEnv, id: int, isWindows: bool,
                         shellFiles: seq<Option<string>>, configTime: string, envTime: string)
    returns (r: Result<SwitchReply>, sink: Option<Activation>)
    modifies db, env
    ensures db.nextId == old(db.nextId) && db.settings == old(db.settings)
    ensures old(db.GetSourceById(id)) == Success(None) ==>
      r == Failure(SourceNotFound) && sink == None && db.sources == old(db.sources) && env.vars == old(env.vars)
    ensures old(db.GetSourceById(id)).Failure? ==>
      r == Failure(Cipher.DecryptError) && sink == None && db.sources == old(db.sources) && env.vars == old(env.vars)
    ensures old(db.GetSourceById(id)).Success? && old(db.GetSourceById(id)).value.Some? ==>
      var found := old(db.GetSourceById(id)).value.value;
      && r == Success(SwitchReply(true, Switched))
      && env.vars == EnvAfterSwitch(old(env.vars), found.decryptedKey, found.source.apiBase, found.source.model)
      && sink.Some?
      && (isWindows ==> (sink.value.setx == ShellEnv.SetxCommands(found.decryptedKey, found.source.apiBase, found.source.model)
                         && sink.value.shellFiles == shellFiles))
      && (!isWindows ==> sink.value.setx == [] && |sink.value.shellFiles| == |shellFiles| && forall i :: 0 <= i < |shellFiles| ==>
            sink.value.shellFiles[i] == if shellFiles[i].Some? then
              Some(ShellEnv.RewriteRc(shellFiles[i].value, found.decryptedKey, found.source.apiBase, found.source.model)) else None)
      && sink.value.config == ShellEnv.ConfigFor(found.decryptedKey, found.source.apiBase, found.source.model, configTime)
      && sink.value.envFile == ShellEnv.EnvFile(found.decryptedKey, found.source.apiBase, found.source.model, envTime)
      && db.sources == CredentialStore.MarkActive(old(db.sources), id)
  {
    var lookup := db.GetSourceById(id);
    match lookup {
      case Failure(m) =>
        r, sink := Failure(m), None;
      case Success(None) =>
        r, sink := Failure(SourceNotFound), None;
      case Success(Some(source)) =>
        var key := source.decryptedKey;
        var base := source.source.apiBase;
        var model := source.source.model;
        env.vars := env.vars["CLAUDE_API_KEY" := key]["CLAUDE_API_BASE" := base];
        env.vars := env.vars["ANTHROPIC_AUTH_TOKEN" := key]["ANTHROPIC_BASE_URL" := base];
        if ShellEnv.HasModel(model) {
          env.vars := env.vars["CLAUDE_MODEL" := model.value]["ANTHROPIC_MODEL" := model.value];
        }
        var written := ActivationFor(key, base, model, isWindows, shellFiles, configTime, envTime);
        db.SetActiveSource(id);
        r, sink := Success(SwitchReply(true, Switched)), Some(written);
    }
  }
}
