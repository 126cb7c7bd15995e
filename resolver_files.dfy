/** The deployment's configs and secrets, read from the file system and the process
    environment (src/resolver.rs:19-70). Both are inputs here: a file system is a map from
    paths to files and directories, the process environment a map from names to values. */
module ResolverFiles {
  import opened Wrappers
  import opened Strings
  import opened Spec
  import opened ResolvedSpec

  /** A directory lists the full paths of its entries, in the order it reads them. */
  datatype FsEntry = File(content: string) | Dir(children: seq<string>)
  type FileSystem = map<string, FsEntry>
  type ProcessEnv = map<string, string>

  predicate IsFile(fs: FileSystem, path: string) {
    path in fs && fs[path].File?
  }

  function ConfigFile(fs: FileSystem, path: string): ConfigResolvedFile
    requires IsFile(fs, path)
  {
    ConfigResolvedFile(FileName(path), fs[path].content)
  }

  // ----- configs -----

  /** The regular files among a directory's entries; subdirectories are skipped. */
  function DirFiles(fs: FileSystem, children: seq<string>): seq<ConfigResolvedFile> {
    if |children| == 0 then []
    else
      var prev := DirFiles(fs, children[..|children| - 1]);
      var c := children[|children| - 1];
      if IsFile(fs, c) then prev + [ConfigFile(fs, c)] else prev
  }

  /** The files of one config: a file path gives that file, a directory path its regular
      files; the first path that does not exist stops it. */
  function ConfigFiles(fs: FileSystem, paths: seq<string>): Result<seq<ConfigResolvedFile>> {
    if |paths| == 0 then Ok([])
    else
      var prev :- ConfigFiles(fs, paths[..|paths| - 1]);
      var path := paths[|paths| - 1];
      if path !in fs then Err("Config file not found: " + Quoted(path))
      else match fs[path]
        case Dir(children) => Ok(prev + DirFiles(fs, children))
        case File(content) => Ok(prev + [ConfigResolvedFile(FileName(path), content)])
  }

  /** Every config of the deployment, named `{app}-{config}`. */
  function ResolveConfigs(appName: string, configs: seq<ConfigSpec>, fs: FileSystem): Result<seq<ConfigResolvedSpec>> {
    if |configs| == 0 then Ok([])
    else
      var prev :- ResolveConfigs(appName, configs[..|configs| - 1], fs);
      var c := configs[|configs| - 1];
      var files :- ConfigFiles(fs, c.files);
      Ok(prev + [ConfigResolvedSpec(appName + "-" + c.name, files)])
  }

  /** The directory loop. */
  method ReadDirFiles(fs: FileSystem, children: seq<string>) returns (files: seq<ConfigResolvedFile>)
    ensures files == DirFiles(fs, children)
  {
    files := [];
    var i := 0;
    while i < |children|
      invariant 0 <= i <= |children|
      invariant files == DirFiles(fs, children[..i])
    {
      assert children[..i + 1][..i] == children[..i];
      var path := children[i];
      if path in fs && fs[path].File? {
        files := files + [ConfigResolvedFile(FileName(path), fs[path].content)];
      }
      i := i + 1;
    }
    assert children[..i] == children;
  }

  /** The loop over one config's paths. */
  method ReadConfigFiles(fs: FileSystem, paths: seq<string>) returns (r: Result<seq<ConfigResolvedFile>>)
    ensures r == ConfigFiles(fs, paths)
  {
    var files: seq<ConfigResolvedFile> := [];
    var i := 0;
    while i < |paths|
      invariant 0 <= i <= |paths|
      invariant ConfigFiles(fs, paths[..i]) == Ok(files)
    {
      assert paths[..i + 1][..i] == paths[..i];
      var path := paths[i];
      if path !in fs {
        ConfigFilesStops(fs, paths, i + 1);
        return Err("Config file not found: " + Quoted(path));
      }
      match fs[path] {
        case Dir(children) =>
          var found := ReadDirFiles(fs, children);
          files := files + found;
        case File(content) =>
          files := files + [ConfigResolvedFile(FileName(path), content)];
      }
      i := i + 1;
    }
    assert paths[..i] == paths;
    return Ok(files);
  }

  /** The config loop of `resolve`. */
  method ResolveConfigList(appName: string, configs: seq<ConfigSpec>, fs: FileSystem) returns (r: Result<seq<ConfigResolvedSpec>>)
    ensures r == ResolveConfigs(appName, configs, fs)
  {
    var resolved: seq<ConfigResolvedSpec> := [];
    var i := 0;
    while i < |configs|
      invariant 0 <= i <= |configs|
      invariant ResolveConfigs(appName, configs[..i], fs) == Ok(resolved)
    {
      assert configs[..i + 1][..i] == configs[..i];
      var files := ReadConfigFiles(fs, configs[i].files);
      if files.Err? {
        ResolveConfigsStops(appName, configs, fs, i + 1);
        return Err(files.msg);
      }
      resolved := resolved + [ConfigResolvedSpec(appName + "-" + configs[i].name, files.value)];
      i := i + 1;
    }
    assert configs[..i] == configs;
    return Ok(resolved);
  }

  lemma {:induction false} ConfigFilesStops(fs: FileSystem, paths: seq<string>, i: nat)
    requires i <= |paths| && ConfigFiles(fs, paths[..i]).Err?
    ensures ConfigFiles(fs, paths) == ConfigFiles(fs, paths[..i])
  {
    if i < |paths| {
      var init := paths[..|paths| - 1];
      assert init[..i] == paths[..i];
      ConfigFilesStops(fs, init, i);
    } else {
      assert paths[..i] == paths;
    }
  }

  lemma {:induction false} ResolveConfigsStops(appName: string, configs: seq<ConfigSpec>, fs: FileSystem, i: nat)
    requires i <= |configs| && ResolveConfigs(appName, configs[..i], fs).Err?
    ensures ResolveConfigs(appName, configs, fs) == ResolveConfigs(appName, configs[..i], fs)
  {
    if i < |configs| {
      var init := configs[..|configs| - 1];
      assert init[..i] == configs[..i];
      ResolveConfigsStops(appName, init, fs, i);
    } else {
      assert configs[..i] == configs;
    }
  }

  /** A directory contributes exactly its regular files, in its own order. */
  lemma {:induction false} DirFilesExact(fs: FileSystem, children: seq<string>)
    ensures forall f :: f in DirFiles(fs, children) <==> exists c :: c in children && IsFile(fs, c) && f == ConfigFile(fs, c)
  {
    if |children| > 0 {
      var init, c := children[..|children| - 1], children[|children| - 1];
      DirFilesExact(fs, init);
      assert children == init + [c];
    }
  }

  /** The files of a config can be read exactly when each of its paths exists. */
  lemma {:induction false} ConfigFilesOk(fs: FileSystem, paths: seq<string>)
    ensures ConfigFiles(fs, paths).Ok? <==> forall p :: p in paths ==> p in fs
  {
    if |paths| > 0 {
      var init, p := paths[..|paths| - 1], paths[|paths| - 1];
      ConfigFilesOk(fs, init);
      ConfigFilesLastOk(fs, paths);
      assert paths == init + [p];
      assert (forall q :: q in paths ==> q in fs) <==> (forall q :: q in init ==> q in fs) && p in fs;
    }
  }

  /** Reading one more path succeeds exactly when the earlier ones do and the path exists. */
  lemma ConfigFilesLastOk(fs: FileSystem, paths: seq<string>)
    requires |paths| > 0
    ensures ConfigFiles(fs, paths).Ok? <==> ConfigFiles(fs, paths[..|paths| - 1]).Ok? && paths[|paths| - 1] in fs
  {
  }

  /** The first missing path is the error, named in it. */
  lemma ConfigFileMissing(fs: FileSystem, paths: seq<string>, i: nat)
    requires i < |paths| && paths[i] !in fs
    requires forall k :: 0 <= k < i ==> paths[k] in fs
    ensures ConfigFiles(fs, paths) == Err("Config file not found: " + Quoted(paths[i]))
  {
    var pre := paths[..i];
    ConfigFilesOk(fs, pre);
    assert forall p :: p in pre ==> p in fs by {
      forall p | p in pre ensures p in fs {
        var k :| 0 <= k < i && pre[k] == p;
        assert paths[k] == p;
      }
    }
    assert paths[..i + 1][..i] == pre;
    ConfigFilesStops(fs, paths, i + 1);
  }

  /** A single-file config holds that file under its file name. */
  lemma SingleFileConfig(fs: FileSystem, path: string)
    requires IsFile(fs, path)
    ensures ConfigFiles(fs, [path]) == Ok([ConfigFile(fs, path)])
  {
    assert [path][..0] == [];
    assert [] + [ConfigFile(fs, path)] == [ConfigFile(fs, path)];
  }

  /** The resolved configs follow the deployment's, one each, named `{app}-{config}` and
      holding that config's files. */
  lemma {:induction false} ResolveConfigsShape(appName: string, configs: seq<ConfigSpec>, fs: FileSystem)
    requires ResolveConfigs(appName, configs, fs).Ok?
    ensures var r := ResolveConfigs(appName, configs, fs).value;
      |r| == |configs| &&
      forall i :: 0 <= i < |configs| ==>
        r[i].name == appName + "-" + configs[i].name && ConfigFiles(fs, configs[i].files) == Ok(r[i].files)
  {
    if |configs| > 0 {
      var init := configs[..|configs| - 1];
      ResolveConfigsShape(appName, init, fs);
    }
  }

  // ----- secrets -----

  /** The value of one secret: a process variable, a file's text, or the embedded value. */
  function SecretValue(source: DeploymentSecretSource, fs: FileSystem, penv: ProcessEnv): Result<string> {
    match source
    case SourceEnvVariable(v) =>
      if v in penv then Ok(penv[v]) else Err("Secret environment variable " + v + " not set")
    case SourceFilePath(p) =>
      if p !in fs then Err("Secret file not found: " + Quoted(p))
      else if fs[p].Dir? then Err("Failed to read secret file " + Quoted(p))
      else Ok(fs[p].content)
    case Embedded(v) => Ok(v)
  }

  /** Every secret of the deployment, named `{app}-{secret}`. */
  function ResolveSecrets(appName: string, secrets: seq<DeploymentSecretSpec>, fs: FileSystem, penv: ProcessEnv): Result<seq<SecretResolvedSpec>> {
    if |secrets| == 0 then Ok([])
    else
      var prev :- ResolveSecrets(appName, secrets[..|secrets| - 1], fs, penv);
      var s := secrets[|secrets| - 1];
      var value :- SecretValue(s.source, fs, penv);
      Ok(prev + [SecretResolvedSpec(appName + "-" + s.secret_name, value)])
  }

  /** The secret loop of `resolve`. */
  method ResolveSecretList(appName: string, secrets: seq<DeploymentSecretSpec>, fs: FileSystem, penv: ProcessEnv)
    returns (r: Result<seq<SecretResolvedSpec>>)
    ensures r == ResolveSecrets(appName, secrets, fs, penv)
  {
    var resolved: seq<SecretResolvedSpec> := [];
    var i := 0;
    while i < |secrets|
      invariant 0 <= i <= |secrets|
      invariant ResolveSecrets(appName, secrets[..i], fs, penv) == Ok(resolved)
    {
      assert secrets[..i + 1][..i] == secrets[..i];
      var value := SecretValue(secrets[i].source, fs, penv);
      if value.Err? {
        ResolveSecretsStops(appName, secrets, fs, penv, i + 1);
        return Err(value.msg);
      }
      resolved := resolved + [SecretResolvedSpec(appName + "-" + secrets[i].secret_name, value.value)];
      i := i + 1;
    }
    assert secrets[..i] == secrets;
    return Ok(resolved);
  }

  lemma {:induction false} ResolveSecretsStops(appName: string, secrets: seq<DeploymentSecretSpec>, fs: FileSystem, penv: ProcessEnv, i: nat)
    requires i <= |secrets| && ResolveSecrets(appName, secrets[..i], fs, penv).Err?
    ensures ResolveSecrets(appName, secrets, fs, penv) == ResolveSecrets(appName, secrets[..i], fs, penv)
  {
    if i < |secrets| {
      var init := secrets[..|secrets| - 1];
      assert init[..i] == secrets[..i];
      ResolveSecretsStops(appName, init, fs, penv, i);
    } else {
      assert secrets[..i] == secrets;
    }
  }

  /** The secrets resolve exactly when every source yields a value. */
  lemma {:induction false} ResolveSecretsOk(appName: string, secrets: seq<DeploymentSecretSpec>, fs: FileSystem, penv: ProcessEnv)
    ensures ResolveSecrets(appName, secrets, fs, penv).Ok? <==> forall s :: s in secrets ==> SecretValue(s.source, fs, penv).Ok?
  {
    if |secrets| > 0 {
      var init, s := secrets[..|secrets| - 1], secrets[|secrets| - 1];
      ResolveSecretsOk(appName, init, fs, penv);
      assert secrets == init + [s];
    }
  }

  /** The resolved secrets follow the deployment's, one each, named `{app}-{secret}` and
      holding their source's value. */
  lemma {:induction false} ResolveSecretsShape(appName: string, secrets: seq<DeploymentSecretSpec>, fs: FileSystem, penv: ProcessEnv)
    requires ResolveSecrets(appName, secrets, fs, penv).Ok?
    ensures var r := ResolveSecrets(appName, secrets, fs, penv).value;
      |r| == |secrets| &&
      forall i :: 0 <= i < |secrets| ==>
        r[i].name == appName + "-" + secrets[i].secret_name && SecretValue(secrets[i].source, fs, penv) == Ok(r[i].value)
  {
    if |secrets| > 0 {
      var init := secrets[..|secrets| - 1];
      ResolveSecretsShape(appName, init, fs, penv);
    }
  }

  /** The three sources: the process variable's value, the file's text, the value itself. */
  lemma SecretSources(fs: FileSystem, penv: ProcessEnv, v: string, p: string, e: string)
    ensures SecretValue(SourceEnvVariable(v), fs, penv) == if v in penv then Ok(penv[v]) else Err("Secret environment variable " + v + " not set")
    ensures IsFile(fs, p) ==> SecretValue(SourceFilePath(p), fs, penv) == Ok(fs[p].content)
    ensures p !in fs ==> SecretValue(SourceFilePath(p), fs, penv).Err?
    ensures SecretValue(Embedded(e), fs, penv) == Ok(e)
  {
  }
}
