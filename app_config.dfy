/** The application configuration store: structural validation, encryption of
    the sensitive fields at the disk boundary, the temp-file/backup/rename write,
    loading with fallback to the backup and to the built-in default, and
    patch-then-persist through a chained write queue.

    The file system is a map from path to content. The imported helpers
    (encryptString, decryptString, isEncrypted, parseYaml, stringifyYaml,
    deepMerge) are function values in `Helpers`; what the model assumes of them
    is the predicate `Lawful`, required where it is used. A helper that throws
    returns None. */
module AppConfig {
  import opened Json

  /** A configuration object: the keys and values of the parsed mapping. */
  type Config = map<string, Value>

  /** The fields stored encrypted on disk (ENCRYPTED_FIELDS). */
  const SensitiveFields: seq<string> := ["systemCorePath", "serviceAuthKey", "githubToken", "webdavPassword"]

  datatype Helpers = Helpers(
    encryptString: string -> string,
    decryptString: string -> Option<string>,
    isEncrypted: string -> bool,
    parseYaml: string -> Option<Value>,
    stringifyYaml: Value -> string,
    deepMerge: (Option<Config>, Config) -> Config)

  /** What the model assumes of the helpers it cannot see: decryption undoes
      encryption, encrypted text carries the marker and a marked value is never
      empty, YAML text reads back as the value it was written from, and a patch
      value that is not a mapping replaces the old one. */
  ghost predicate Lawful(h: Helpers) {
    && (forall v :: h.decryptString(h.encryptString(v)) == Some(v))
    && (forall v :: h.isEncrypted(h.encryptString(v)))
    && (forall s :: h.isEncrypted(s) ==> s != "")
    && (forall v :: h.parseYaml(h.stringifyYaml(v)) == Some(v))
    && (forall base: Option<Config>, patch: Config, k: string :: k in patch && !patch[k].Obj? ==>
          k in h.deepMerge(base, patch) && h.deepMerge(base, patch)[k] == patch[k])
  }

  // ---------------------------------------------------------------------------
  // Validation (isValidConfig)
  // ---------------------------------------------------------------------------

  /** isValidConfig, written with the JavaScript checks it makes. Its meaning:
      a mapping with a `sysProxy` entry that is a mapping or an array (typeof
      an array is "object"). */
  function IsValidConfig(config: Value): (ok: bool)
    ensures ok <==> && config.Obj?
                    && "sysProxy" in config.fields
                    && (config.fields["sysProxy"].Obj? || config.fields["sysProxy"].List?)
  {
    if !Truthy(config) || TypeOf(config) != "object" then false
    else
      && config.Obj? && "sysProxy" in config.fields
      && TypeOf(config.fields["sysProxy"]) == "object"
      && config.fields["sysProxy"] != Null
  }

  // ---------------------------------------------------------------------------
  // Field encryption (encryptConfig / decryptConfig)
  // ---------------------------------------------------------------------------

  /** A field value the codec works on: a non-empty string. */
  predicate Secret(v: Value) {
    v.Str? && v.s != ""
  }

  lemma SensitiveFieldsDistinct()
    ensures forall i, j :: 0 <= i < j < |SensitiveFields| ==> SensitiveFields[i] != SensitiveFields[j]
  {
    assert SensitiveFields[0][1] != SensitiveFields[1][1];
    assert |SensitiveFields[0]| != |SensitiveFields[2]|;
    assert SensitiveFields[0][0] != SensitiveFields[3][0];
    assert |SensitiveFields[1]| != |SensitiveFields[2]|;
    assert SensitiveFields[1][0] != SensitiveFields[3][0];
    assert |SensitiveFields[2]| != |SensitiveFields[3]|;
  }

  /** `config` with every secret among `fields` encrypted. */
  function EncryptFields(h: Helpers, config: Config, fields: seq<string>): (r: Config) {
    map k | k in config :: if k in fields && Secret(config[k]) then Str(h.encryptString(config[k].s)) else config[k]
  }

  /** What encryptConfig returns. */
  function Encrypted(h: Helpers, config: Config): (r: Config)
    ensures r.Keys == config.Keys
    ensures forall k :: k in config && k !in SensitiveFields ==> r[k] == config[k]
  {
    EncryptFields(h, config, SensitiveFields)
  }

  /** A secret field that is marked as encrypted but does not decrypt. */
  predicate Undecryptable(h: Helpers, config: Config, f: string) {
    f in config && Secret(config[f]) && h.isEncrypted(config[f].s) && h.decryptString(config[f].s).None?
  }

  /** `config` with every marked secret among `fields` that decrypts replaced
      by its plaintext; unmarked (legacy plaintext) values stay as they are. */
  function DecryptFields(h: Helpers, config: Config, fields: seq<string>): (r: Config) {
    map k | k in config ::
      if k in fields && Secret(config[k]) && h.isEncrypted(config[k].s)
      then DecryptedValue(h, config[k]) else config[k]
  }

  function DecryptedValue(h: Helpers, v: Value): Value
    requires v.Str?
  {
    match h.decryptString(v.s)
    case Some(plain) => Str(plain)
    case None => v
  }

  /** What decryptConfig returns; None when it throws. */
  function Decrypted(h: Helpers, config: Config): (r: Option<Config>)
    ensures r.Some? ==> r.value.Keys == config.Keys
    ensures r.Some? ==> forall k :: k in config && k !in SensitiveFields ==> r.value[k] == config[k]
  {
    if exists f :: f in SensitiveFields && Undecryptable(h, config, f) then None
    else Some(DecryptFields(h, config, SensitiveFields))
  }

  lemma EncryptFieldsStep(h: Helpers, config: Config, i: nat)
    requires i < |SensitiveFields|
    ensures var f := SensitiveFields[i];
      var before := EncryptFields(h, config, SensitiveFields[..i]);
      && (f in before <==> f in config)
      && (f in config ==> before[f] == config[f])
      && EncryptFields(h, config, SensitiveFields[..i + 1])
         == if f in config && Secret(config[f]) then before[f := Str(h.encryptString(config[f].s))] else before
  {
    SensitiveFieldsDistinct();
    var f := SensitiveFields[i];
    assert SensitiveFields[..i + 1] == SensitiveFields[..i] + [f];
    assert f !in SensitiveFields[..i];
  }

  /** encryptConfig: copy the configuration, then encrypt each listed field
      that holds a non-empty string. */
  method EncryptConfig(h: Helpers, config: Config) returns (result: Config)
    ensures result == Encrypted(h, config)
  {
    result := config;
    assert SensitiveFields[..0] == [];
    assert result == EncryptFields(h, config, SensitiveFields[..0]);
    for i := 0 to |SensitiveFields|
      invariant result == EncryptFields(h, config, SensitiveFields[..i])
    {
      EncryptFieldsStep(h, config, i);
      var field := SensitiveFields[i];
      if field in result && Secret(result[field]) {
        result := result[field := Str(h.encryptString(result[field].s))];
      }
    }
    assert SensitiveFields[..|SensitiveFields|] == SensitiveFields;
  }

  lemma DecryptFieldsStep(h: Helpers, config: Config, i: nat)
    requires i < |SensitiveFields|
    ensures var f := SensitiveFields[i];
      var before := DecryptFields(h, config, SensitiveFields[..i]);
      && (f in before <==> f in config)
      && (f in config ==> before[f] == config[f])
      && DecryptFields(h, config, SensitiveFields[..i + 1])
         == if f in config && Secret(config[f]) && h.isEncrypted(config[f].s)
            then before[f := DecryptedValue(h, config[f])] else before
  {
    SensitiveFieldsDistinct();
    var f := SensitiveFields[i];
    assert SensitiveFields[..i + 1] == SensitiveFields[..i] + [f];
    assert f !in SensitiveFields[..i];
  }

  /** decryptConfig: copy the configuration, then decrypt each listed field
      that holds a marked non-empty string; unmarked values are kept. A
      decryption that throws aborts the whole call. */
  method DecryptConfig(h: Helpers, config: Config) returns (result: Option<Config>)
    ensures result == Decrypted(h, config)
  {
    var r := config;
    assert SensitiveFields[..0] == [];
    assert r == DecryptFields(h, config, SensitiveFields[..0]);
    for i := 0 to |SensitiveFields|
      invariant forall k :: 0 <= k < i ==> !Undecryptable(h, config, SensitiveFields[k])
      invariant r == DecryptFields(h, config, SensitiveFields[..i])
    {
      var field := SensitiveFields[i];
      DecryptFieldsStep(h, config, i);
      assert field in r <==> field in config;
      assert field in r ==> r[field] == config[field];
      if field in r && Secret(r[field]) {
        var value := r[field].s;
        if !h.isEncrypted(value) {
          // legacy plaintext: kept, and encrypted on the next save
          r := r[field := Str(value)];
        } else {
          var plain := h.decryptString(value);
          if plain.None? {
            assert Undecryptable(h, config, SensitiveFields[i]);
            return None;
          }
          r := r[field := Str(plain.value)];
        }
      }
    }
    assert SensitiveFields[..|SensitiveFields|] == SensitiveFields;
    return Some(r);
  }

  /** Under the helper axioms, decryptConfig undoes encryptConfig. */
  lemma DecryptUndoesEncrypt(h: Helpers, config: Config)
    requires Lawful(h)
    ensures Decrypted(h, Encrypted(h, config)) == Some(config)
  {
    var e := Encrypted(h, config);
    forall f | f in SensitiveFields
      ensures !Undecryptable(h, e, f)
    {
      if f in config && Secret(config[f]) {
        assert e[f] == Str(h.encryptString(config[f].s));
      }
    }
    var d := DecryptFields(h, e, SensitiveFields);
    forall k | k in config
      ensures d[k] == config[k]
    {
      if k in SensitiveFields && Secret(config[k]) {
        var plain := config[k].s;
        assert e[k] == Str(h.encryptString(plain));
        assert h.isEncrypted(h.encryptString(plain));
        assert h.decryptString(h.encryptString(plain)) == Some(plain);
      }
    }
    assert d == config;
  }

  /** What encryptConfig writes: every listed field holding a non-empty string
      is in marked (encrypted) form; every other entry is the one given. */
  lemma EncryptedOnDisk(h: Helpers, config: Config)
    requires Lawful(h)
    ensures var e := Encrypted(h, config);
      && e.Keys == config.Keys
      && (forall f :: f in SensitiveFields && f in config && Secret(config[f]) ==>
            Secret(e[f]) && h.isEncrypted(e[f].s))
      && (forall k :: k in config && (k !in SensitiveFields || !Secret(config[k])) ==> e[k] == config[k])
  {
    var e := Encrypted(h, config);
    forall f | f in SensitiveFields && f in config && Secret(config[f])
      ensures Secret(e[f]) && h.isEncrypted(e[f].s)
    {
      assert h.isEncrypted(h.encryptString(config[f].s));
    }
  }

  /** decryptConfig touches only listed fields holding marked strings: legacy
      plaintext and every other entry come back unchanged. */
  lemma DecryptKeepsUnmarked(h: Helpers, config: Config)
    requires Decrypted(h, config).Some?
    ensures var d := Decrypted(h, config).value;
      && d.Keys == config.Keys
      && forall k :: k in config && (k !in SensitiveFields || !Secret(config[k]) || !h.isEncrypted(config[k].s))
           ==> d[k] == config[k]
  {
  }

  // ---------------------------------------------------------------------------
  // The file system and the safe write (safeWriteConfig)
  // ---------------------------------------------------------------------------

  function TmpPath(path: string): string { path + ".tmp" }
  function BackupPath(path: string): string { path + ".backup" }

  lemma PathsDistinct(path: string)
    ensures path != TmpPath(path) && path != BackupPath(path) && TmpPath(path) != BackupPath(path)
  {
    assert |TmpPath(path)| == |path| + 4;
    assert |BackupPath(path)| == |path| + 7;
  }

  /** The file operations of safeWriteConfig, in order. */
  datatype Step = WriteTmp | CopyBackup | UnlinkPrimary | Rename

  /** Failure injection: the operation that throws, if any, and whether the
      cleanup unlink of the temp file throws too. */
  datatype Faults = Faults(failAt: Option<Step>, cleanupFails: bool)

  /** How a write ends: done, or rethrowing the error of the step that failed. */
  datatype Outcome = Done | Failed(step: Step)

  /** Whether safeWriteConfig performs `step`, given whether the primary file
      exists beforehand and the platform. */
  predicate Performs(step: Step, primaryExists: bool, win32: bool) {
    match step
    case WriteTmp => true
    case CopyBackup => primaryExists
    case UnlinkPrimary => primaryExists && win32
    case Rename => true
  }

  /** The outcome of safeWriteConfig under `faults`. */
  function WriteOutcome(faults: Faults, primaryExists: bool, win32: bool): Outcome {
    if faults.failAt.Some? && Performs(faults.failAt.value, primaryExists, win32)
    then Failed(faults.failAt.value) else Done
  }

  /** Two file systems agree on every path outside `paths`. */
  ghost predicate SameExcept(a: map<string, string>, b: map<string, string>, paths: set<string>) {
    forall p :: p !in paths ==> (p in a <==> p in b) && (p in a ==> a[p] == b[p])
  }

  /** The file system after the `try` block of safeWriteConfig, and the step
      that threw (None when every step succeeded). */
  function AfterSteps(files: map<string, string>, path: string, content: string, faults: Faults, win32: bool)
    : (r: (map<string, string>, Option<Step>))
    ensures r.1.Some? ==> r.1 == faults.failAt
    ensures r.1.None? ==> path in r.0 && r.0[path] == content && TmpPath(path) !in r.0
  {
    var present := path in files;
    var written := files[TmpPath(path) := content];
    var copied := if present then written[BackupPath(path) := files[path]] else written;
    var unlinked := if present && win32 then copied - {path} else copied;
    if faults.failAt == Some(WriteTmp) then (files, Some(WriteTmp))
    else if present && faults.failAt == Some(CopyBackup) then (written, Some(CopyBackup))
    else if present && win32 && faults.failAt == Some(UnlinkPrimary) then (copied, Some(UnlinkPrimary))
    else if faults.failAt == Some(Rename) then (unlinked, Some(Rename))
    else (unlinked[path := content] - {TmpPath(path)}, None)
  }

  /** What the primary path holds after each change the `try` block makes to
      it: nothing after the win32 unlink, the new content after the rename. */
  function TraceAdded(files: map<string, string>, path: string, content: string, faults: Faults, win32: bool)
    : (t: seq<Option<string>>)
    ensures |t| <= 2
    ensures Some(content) in t <==> AfterSteps(files, path, content, faults, win32).1.None?
    ensures None in t ==> path in files && win32
  {
    var present := path in files;
    var unlinks := present && win32 && faults.failAt != Some(WriteTmp) && faults.failAt != Some(CopyBackup)
                   && faults.failAt != Some(UnlinkPrimary);
    var renames := faults.failAt != Some(WriteTmp) && !(present && faults.failAt == Some(CopyBackup))
                   && !(present && win32 && faults.failAt == Some(UnlinkPrimary)) && faults.failAt != Some(Rename);
    (if unlinks then [None] else []) + (if renames then [Some(content)] else [])
  }

  /** The `try` block throws exactly at the first injected step it performs. */
  lemma StepsOutcome(files: map<string, string>, path: string, content: string, faults: Faults, win32: bool)
    ensures var failed := AfterSteps(files, path, content, faults, win32).1;
      && (failed.None? <==> WriteOutcome(faults, path in files, win32) == Done)
      && (failed.Some? ==> WriteOutcome(faults, path in files, win32) == Failed(failed.value))
  {
    if faults.failAt.Some? {
      match faults.failAt.value
      case WriteTmp =>
      case CopyBackup =>
      case UnlinkPrimary =>
      case Rename =>
    }
  }

  /** Only the primary, temp and backup paths are touched. */
  lemma StepsTouchThreePaths(files: map<string, string>, path: string, content: string, faults: Faults, win32: bool)
    ensures SameExcept(AfterSteps(files, path, content, faults, win32).0, files,
                       {path, TmpPath(path), BackupPath(path)})
  {
  }

  /** A throwing step leaves the primary as it was, except a failed rename
      after the win32 unlink, which leaves no primary. */
  lemma StepsKeepPrimaryOnFailure(files: map<string, string>, path: string, content: string, faults: Faults, win32: bool)
    ensures var (after, failed) := AfterSteps(files, path, content, faults, win32);
      && (failed.Some? && !(win32 && failed.value == Rename) ==>
            (path in after <==> path in files) && (path in after ==> after[path] == files[path]))
      && (failed == Some(Rename) && win32 && path in files ==> path !in after)
  {
    PathsDistinct(path);
  }

  /** When every step succeeds, the primary holds the new content, the backup
      the previous primary (if there was one), and the temp file is gone. */
  lemma StepsSuccess(files: map<string, string>, path: string, content: string, faults: Faults, win32: bool)
    requires AfterSteps(files, path, content, faults, win32).1.None?
    ensures AfterSteps(files, path, content, faults, win32).0
         == (if path in files then files[BackupPath(path) := files[path]] else files)[path := content] - {TmpPath(path)}
  {
    PathsDistinct(path);
    var written := files[TmpPath(path) := content];
    var copied := if path in files then written[BackupPath(path) := files[path]] else written;
    var unlinked := if path in files && win32 then copied - {path} else copied;
    var expected := (if path in files then files[BackupPath(path) := files[path]] else files)[path := content] - {TmpPath(path)};
    assert unlinked[path := content] - {TmpPath(path)} == expected;
  }

  /** The content stored at `p`, parsed; None when the file is missing or the
      parser throws. */
  function Parsed(h: Helpers, files: map<string, string>, p: string): Option<Value> {
    if p in files then h.parseYaml(files[p]) else None
  }

  function DecryptedOr(h: Helpers, config: Config, fallback: Config): Config {
    Decrypted(h, config).GetOr(fallback)
  }

  /** What a (re)load in getAppConfig caches: the decrypted primary file when it
      is a valid configuration; when it parses to something else, the decrypted
      backup, which is not validated; the default when a file is missing, a
      parse throws or a decryption throws. */
  function LoadConfig(h: Helpers, defaultConfig: Config, path: string, files: map<string, string>): (c: Config)
    ensures var primary := Parsed(h, files, path);
      primary.Some? && IsValidConfig(primary.value) ==> c == DecryptedOr(h, Spread(primary.value), defaultConfig)
    ensures c != defaultConfig ==>
      var primary := Parsed(h, files, path);
      var backup := Parsed(h, files, BackupPath(path));
      || (primary.Some? && IsValidConfig(primary.value) && Decrypted(h, Spread(primary.value)) == Some(c))
      || (&& primary.Some? && !IsValidConfig(primary.value)
          && backup.Some? && Decrypted(h, Spread(backup.value)) == Some(c))
  {
    if path !in files then defaultConfig
    else match h.parseYaml(files[path])
      case None => defaultConfig
      case Some(parsed) =>
        if !Truthy(parsed) || !IsValidConfig(parsed) then
          if BackupPath(path) !in files then defaultConfig
          else match h.parseYaml(files[BackupPath(path)])
            case None => defaultConfig
            case Some(backup) => DecryptedOr(h, Spread(backup), defaultConfig)
        else DecryptedOr(h, Spread(parsed), defaultConfig)
  }

  /** getAppConfigSync: the decrypted primary file when it parses to a non-null
      object, the default otherwise or when anything throws. */
  function GetAppConfigSync(h: Helpers, defaultConfig: Config, path: string, files: map<string, string>): (c: Config)
    ensures var primary := Parsed(h, files, path);
      primary.Some? && TypeOf(primary.value) == "object" && primary.value != Null
      ==> c == DecryptedOr(h, Spread(primary.value), defaultConfig)
    ensures c != defaultConfig ==>
      var primary := Parsed(h, files, path);
      && primary.Some? && TypeOf(primary.value) == "object" && primary.value != Null
      && Decrypted(h, Spread(primary.value)) == Some(c)
  {
    if path !in files then defaultConfig
    else match h.parseYaml(files[path])
      case None => defaultConfig
      case Some(data) =>
        if TypeOf(data) == "object" && data != Null then DecryptedOr(h, Spread(data), defaultConfig)
        else defaultConfig
  }

  /** The synchronous loader never consults the backup file. */
  lemma SyncLoadIgnoresBackup(h: Helpers, defaultConfig: Config, path: string,
                              files: map<string, string>, backup: Option<string>)
    ensures var files' := if backup.Some? then files[BackupPath(path) := backup.value]
                          else files - {BackupPath(path)};
      GetAppConfigSync(h, defaultConfig, path, files') == GetAppConfigSync(h, defaultConfig, path, files)
  {
    PathsDistinct(path);
  }

  /** A primary file that parses but is not a valid configuration makes the
      asynchronous loader use the backup, while the synchronous one still
      returns the primary when it is an object. */
  lemma LoadFallsBackToBackup(h: Helpers, defaultConfig: Config, path: string,
                              files: map<string, string>, primary: Value, backup: Value)
    requires Parsed(h, files, path) == Some(primary) && !IsValidConfig(primary)
    requires Parsed(h, files, BackupPath(path)) == Some(backup)
    ensures LoadConfig(h, defaultConfig, path, files) == DecryptedOr(h, Spread(backup), defaultConfig)
    ensures primary.Obj? ==>
      GetAppConfigSync(h, defaultConfig, path, files) == DecryptedOr(h, Spread(primary), defaultConfig)
  {
  }

  /** A configuration written the way patchAppConfig writes it loads back as
      itself, on both load paths, whatever the backup holds. */
  lemma SavedConfigLoadsBack(h: Helpers, defaultConfig: Config, path: string,
                             files: map<string, string>, config: Config)
    requires Lawful(h)
    requires path in files && files[path] == h.stringifyYaml(Obj(Encrypted(h, config)))
    ensures GetAppConfigSync(h, defaultConfig, path, files) == config
    ensures IsValidConfig(Obj(config)) ==> LoadConfig(h, defaultConfig, path, files) == config
  {
    var e := Encrypted(h, config);
    assert h.parseYaml(h.stringifyYaml(Obj(e))) == Some(Obj(e));
    DecryptUndoesEncrypt(h, config);
    EncryptedOnDisk(h, config);
    if IsValidConfig(Obj(config)) {
      assert "sysProxy" !in SensitiveFields;
      assert e["sysProxy"] == config["sysProxy"];
      assert IsValidConfig(Obj(e));
    }
  }

  // ---------------------------------------------------------------------------
  // The store
  // ---------------------------------------------------------------------------

  class ConfigStore {
    const h: Helpers
    /** appConfigPath() */
    const path: string
    /** process.platform === 'win32' */
    const win32: bool
    const defaultConfig: Config
    /** The file system: path to content. */
    var files: map<string, string>
    /** The cached configuration (`appConfig`), None before the first load. */
    var cache: Option<Config>
    /** The write queue (`writePromise`): None while it is resolved, the error
        it rejects with once a write has failed. */
    var queueError: Option<Step>
    /** Every content the primary path has held during writes, in order; None
        while it is absent. */
    ghost var primaryTrace: seq<Option<string>>

    constructor (h: Helpers, path: string, win32: bool, defaultConfig: Config, files: map<string, string>)
      ensures this.h == h && this.path == path && this.win32 == win32
      ensures this.defaultConfig == defaultConfig && this.files == files
      ensures cache == None && queueError == None && primaryTrace == []
    {
      this.h := h;
      this.path := path;
      this.win32 := win32;
      this.defaultConfig := defaultConfig;
      this.files := files;
      cache := None;
      queueError := None;
      primaryTrace := [];
    }

    /** safeWriteConfig: write the temp file; if a primary exists, copy it to
        the backup and, on win32, unlink it; rename the temp file onto the
        primary. On a failure, remove the temp file (ignoring a failure of that)
        and rethrow. */
    method SafeWrite(content: string, faults: Faults) returns (r: Outcome)
      modifies this`files, this`primaryTrace
      ensures r == WriteOutcome(faults, path in old(files), win32)
      ensures SameExcept(files, old(files), {path, TmpPath(path), BackupPath(path)})
      // success: new primary, previous primary (if any) in the backup, no temp file
      ensures r.Done? ==>
        files == (if path in old(files) then old(files)[BackupPath(path) := old(files)[path]] else old(files))
                 [path := content] - {TmpPath(path)}
      // failure: the temp file is gone unless its removal failed too
      ensures r.Failed? && !faults.cleanupFails ==> TmpPath(path) !in files
      // a failure leaves the primary as it was, except a failed rename on win32
      ensures r.Failed? && !(win32 && r.step == Rename) ==>
        (path in files <==> path in old(files)) && (path in files ==> files[path] == old(files)[path])
      // on win32 the primary is unlinked before the rename: a failed rename leaves none
      ensures r == Failed(Rename) && win32 && path in old(files) ==> path !in files
      // the primary only ever holds the new content or, on win32, nothing
      ensures primaryTrace == old(primaryTrace) + TraceAdded(old(files), path, content, faults, win32)
      ensures var added := TraceAdded(old(files), path, content, faults, win32);
        || added == []
        || added == [Some(content)]
        || (win32 && (added == [None] || added == [None, Some(content)]))
    {
      ghost var before := files;
      var failed := WriteSteps(content, faults);
      StepsOutcome(before, path, content, faults, win32);
      StepsTouchThreePaths(before, path, content, faults, win32);
      StepsKeepPrimaryOnFailure(before, path, content, faults, win32);
      if failed.Some? {
        PathsDistinct(path);
        if TmpPath(path) in files && !faults.cleanupFails {
          files := files - {TmpPath(path)};
        }
        return Failed(failed.value);
      }
      StepsSuccess(before, path, content, faults, win32);
      return Done;
    }

    /** The `try` block of safeWriteConfig: the file operations in order, up
        to the first one that throws, which is returned. */
    method WriteSteps(content: string, faults: Faults) returns (failed: Option<Step>)
      modifies this`files, this`primaryTrace
      ensures (files, failed) == AfterSteps(old(files), path, content, faults, win32)
      ensures primaryTrace == old(primaryTrace) + TraceAdded(old(files), path, content, faults, win32)
    {
      PathsDistinct(path);
      var tmpPath, backupPath := TmpPath(path), BackupPath(path);
      if faults.failAt == Some(WriteTmp) {
        return Some(WriteTmp);
      }
      files := files[tmpPath := content];
      if path in files {
        if faults.failAt == Some(CopyBackup) {
          return Some(CopyBackup);
        }
        files := files[backupPath := files[path]];
        if win32 {
          if faults.failAt == Some(UnlinkPrimary) {
            return Some(UnlinkPrimary);
          }
          files := files - {path};
          primaryTrace := primaryTrace + [None];
        }
      }
      if tmpPath in files {
        if faults.failAt == Some(Rename) {
          return Some(Rename);
        }
        files := files[path := files[tmpPath]] - {tmpPath};
        primaryTrace := primaryTrace + [Some(content)];
      }
      return None;
    }

    /** getAppConfig: the cache unless `force` is set or nothing is cached;
        otherwise (re)load from disk and cache the result. */
    method GetAppConfig(force: bool) returns (c: Config)
      modifies this`cache
      ensures cache == Some(c)
      ensures old(cache).Some? && !force ==> c == old(cache).value
      ensures force || old(cache).None? ==> c == LoadConfig(h, defaultConfig, path, files)
    {
      if force || cache.None? {
        var loaded := defaultConfig;
        if path in files {
          var parsed := h.parseYaml(files[path]);
          if parsed.Some? {
            if !Truthy(parsed.value) || !IsValidConfig(parsed.value) {
              if BackupPath(path) in files {
                var backup := h.parseYaml(files[BackupPath(path)]);
                if backup.Some? {
                  var decrypted := DecryptConfig(h, Spread(backup.value));
                  loaded := decrypted.GetOr(defaultConfig);
                }
              }
            } else {
              var decrypted := DecryptConfig(h, Spread(parsed.value));
              loaded := decrypted.GetOr(defaultConfig);
            }
          }
        }
        cache := Some(loaded);
      }
      c := cache.value;
    }

    /** patchAppConfig as written: chained on the previous write. Once a write
        has failed, the queue stays rejected, and every later patch rejects with
        that error without merging or writing. */
    method Patch(patch: Config, faults: Faults) returns (r: Outcome)
      modifies this`cache, this`files, this`primaryTrace, this`queueError
      ensures old(queueError).Some? ==>
        && r == Failed(old(queueError).value) && queueError == old(queueError)
        && cache == old(cache) && files == old(files)
      ensures old(queueError).None? ==>
        && cache == Some(h.deepMerge(old(cache), patch))
        && r == WriteOutcome(faults, path in old(files), win32)
        && (r.Done? ==> queueError == None && path in files
                        && files[path] == h.stringifyYaml(Obj(Encrypted(h, cache.value))))
        && (r.Failed? ==> queueError == Some(r.step))
        && (r.Failed? && !(win32 && r.step == Rename) ==>
              (path in files <==> path in old(files)) && (path in files ==> files[path] == old(files)[path]))
    {
      if queueError.Some? {
        return Failed(queueError.value);
      }
      r := MergeAndWrite(patch, faults);
      if r.Failed? {
        queueError := Some(r.step);
      }
    }

    /** The body of a queued patch: merge into the cache first, then persist
        the encrypted configuration. The cache keeps the merge if the write
        fails. */
    method MergeAndWrite(patch: Config, faults: Faults) returns (r: Outcome)
      modifies this`cache, this`files, this`primaryTrace
      ensures cache == Some(h.deepMerge(old(cache), patch))
      ensures r == WriteOutcome(faults, path in old(files), win32)
      ensures r.Done? ==> path in files && files[path] == h.stringifyYaml(Obj(Encrypted(h, cache.value)))
      ensures r.Failed? && !(win32 && r.step == Rename) ==>
        (path in files <==> path in old(files)) && (path in files ==> files[path] == old(files)[path])
    {
      cache := Some(h.deepMerge(cache, patch));
      var encrypted := EncryptConfig(h, cache.value);
      r := SafeWrite(h.stringifyYaml(Obj(encrypted)), faults);
    }

    /** patchAppConfig as evidently intended: each patch waits for the previous
        one to settle, failed or not, then merges and writes. */
    method PatchSettled(patch: Config, faults: Faults) returns (r: Outcome)
      modifies this`cache, this`files, this`primaryTrace
      ensures cache == Some(h.deepMerge(old(cache), patch))
      ensures r == WriteOutcome(faults, path in old(files), win32)
      ensures r.Done? ==> path in files && files[path] == h.stringifyYaml(Obj(Encrypted(h, cache.value)))
    {
      r := MergeAndWrite(patch, faults);
    }

    /** The queue as written: a patch whose write fails blocks every later
        patch, even one whose write would succeed. */
    method FailedWriteBlocksLaterPatches(first: Config, second: Config)
      returns (r1: Outcome, r2: Outcome)
      requires queueError.None?
      modifies this`cache, this`files, this`primaryTrace, this`queueError
      ensures r1 == Failed(WriteTmp) && r2 == Failed(WriteTmp)
      ensures cache == Some(h.deepMerge(old(cache), first))
      ensures path in files <==> path in old(files)
    {
      r1 := Patch(first, Faults(Some(WriteTmp), false));
      r2 := Patch(second, Faults(None, false));
    }

    /** The corrected queue: after a failed patch the next one is still merged
        and written, patches take effect in call order, and the last patch's
        plain values win. */
    method PatchesApplyInCallOrder(first: Config, firstFaults: Faults, second: Config)
      returns (r1: Outcome, r2: Outcome)
      requires Lawful(h)
      modifies this`cache, this`files, this`primaryTrace
      ensures r2 == Done
      ensures cache == Some(h.deepMerge(Some(h.deepMerge(old(cache), first)), second))
      ensures forall k :: k in second && !second[k].Obj? ==> k in cache.value && cache.value[k] == second[k]
      ensures path in files && files[path] == h.stringifyYaml(Obj(Encrypted(h, cache.value)))
      ensures GetAppConfigSync(h, defaultConfig, path, files) == cache.value
    {
      r1 := PatchSettled(first, firstFaults);
      r2 := PatchSettled(second, Faults(None, false));
      SavedConfigLoadsBack(h, defaultConfig, path, files, cache.value);
    }
  }
}
