/** base_config.py: updating cloud storage dependencies and the config file together. */
module BaseConfigs {
  import opened Wrappers
  import opened CloudStorage
  import opened Uploaders

  type Platform = map<string, string>

  /** fields: cloud_storage_bucket, cloud_storage_base_folder. */
  datatype Dependency = Dependency(fields: map<string, string>, fileInfo: map<string, Platform>)

  /** The 'dependencies' part of a config. */
  type Config = map<string, Dependency>

  const BUCKET := "cloud_storage_bucket"
  const FOLDER := "cloud_storage_base_folder"
  const HASH := "cloud_storage_hash"
  const VERSION := "version_in_cs"

  function Get(m: map<string, string>, key: string): Option<string> {
    if key in m then Some(m[key]) else None
  }

  /** Python's truth value of a string or None. */
  predicate Truthy(o: Option<string>) {
    o.Some? && o.value != ""
  }

  function RemotePath(dependency: string, hash: string, folder: Option<string>): string {
    if Truthy(folder) then folder.value + "/" + dependency + "_" + hash else dependency + "_" + hash
  }

  /** A platform with an empty dictionary counts as missing. */
  predicate HasPlatform(cfg: Config, dependency: string, platform: string) {
    dependency in cfg && platform in cfg[dependency].fileInfo && cfg[dependency].fileInfo[platform] != map[]
  }

  predicate IsEmpty(cfg: Config, dependency: string) {
    dependency in cfg ==> cfg[dependency] == Dependency(map[], map[])
  }

  function SetPlatformData(cfg: Config, dependency: string, platform: string, key: string, data: string): Config
    requires HasPlatform(cfg, dependency, platform)
  {
    var d := cfg[dependency];
    cfg[dependency := d.(fileInfo := d.fileInfo[platform := d.fileInfo[platform][key := data]])]
  }

  /** Where the file of a dependency with this hash belongs, if it has a bucket. */
  function Target(dependency: string, d: Dependency, hash: string): Option<Loc> {
    if Truthy(Get(d.fields, BUCKET))
    then Some(Loc(d.fields[BUCKET], RemotePath(dependency, hash, Get(d.fields, FOLDER))))
    else None
  }

  /** A config with its file on disk, its pending uploads and the cloud. */
  datatype Updater = Updater(writable: bool, cloud: Cloud, disk: Config, data: Config, pending: seq<Uploader>)

  /** The try block of ExecuteUpdateJobs: all uploads, then the config file. */
  function Attempted(env: Env, st: Updater, force: bool): (Cloud, seq<Uploader>, Outcome<Error>) {
    var (c1, us1, r1) := UploadAll(env, st.cloud, st.pending, 0, force);
    if r1.Fail? then (c1, us1, r1)
    else (c1.Tick(), us1, if env.fate(c1.calls) then Pass else Fail(IoError))
  }

  function Executed(env: Env, st: Updater, force: bool): (Updater, Result<bool, Error>) {
    if !st.writable then (st, Err(ReadWriteError)) else
    if st.data == st.disk then (st, Ok(false)) else
    if st.pending == [] then (st, Ok(true)) else
    var (c1, us1, r1) := Attempted(env, st, force);
    if r1.Pass? then (st.(cloud := c1, disk := st.data, pending := []), Ok(true)) else
    var (c2, us2, r2) := RollbackAll(env, c1, us1, |us1|);
    (st.(cloud := c2, pending := us2), Err(if r2.Fail? then r2.error else r1.error))
  }

  /** _ValidateIsConfigUpdatable */
  function Updatable(st: Updater, executeJob: bool, dependency: string, platform: string): Outcome<Error> {
    if !st.writable || (st.data != st.disk && executeJob) then Fail(ReadWriteError)
    else if dependency != "" && IsEmpty(st.data, dependency) then Fail(ValueError)
    else if platform != "" && !HasPlatform(st.data, dependency, platform) then Fail(ValueError)
    else Pass
  }

  function WithJob(cfg: Config, dependency: string, platform: string, hash: string, version: Option<string>): Config
    requires HasPlatform(cfg, dependency, platform)
  {
    var cfg1 := if Truthy(version) then SetPlatformData(cfg, dependency, platform, VERSION, version.value) else cfg;
    SetPlatformData(cfg1, dependency, platform, HASH, hash)
  }

  /** AddCloudStorageDependencyUpdateJob up to the execution of the job. The config
      in memory is changed before the uploader refuses a missing bucket. */
  function JobAdded(env: Env, st: Updater, dependency: string, platform: string, path: string,
                    version: Option<string>, executeJob: bool): (Updater, Outcome<Error>) {
    var valid := Updatable(st, executeJob, dependency, platform);
    if valid.Fail? then (st, valid) else
    if path !in env.host then (st, Fail(IoError)) else
    if !HasPlatform(st.data, dependency, platform) then (st, Fail(ValueError)) else
    var hash := env.hash(env.host[path]);
    var data := WithJob(st.data, dependency, platform, hash, version);
    var target := Target(dependency, data[dependency], hash);
    if target.None? || path == "" then (st.(data := data), Fail(ValueError)) else
    (st.(data := data, pending := st.pending + [Fresh(target.value.bucket, target.value.path, path)]), Pass)
  }

  function Added(env: Env, st: Updater, dependency: string, platform: string, path: string,
                 version: Option<string>, executeJob: bool): (Updater, Outcome<Error>) {
    var (st1, r1) := JobAdded(env, st, dependency, platform, path, version, executeJob);
    if r1.Fail? || !executeJob then (st1, r1) else
    var (st2, r2) := Executed(env, st1, false);
    (st2, if r2.Ok? then Pass else Fail(r2.error))
  }

  predicate SameKey(m: Platform, m': Platform, key: string) {
    Get(m, key) == Get(m', key)
  }

  /** cfg' is cfg with this hash recorded for the platform, and this version if
      there is one. Nothing else differs. */
  ghost predicate Recorded(cfg: Config, cfg': Config, dependency: string, platform: string,
                           hash: string, version: Option<string>) {
    dependency in cfg && cfg'.Keys == cfg.Keys && (forall d <- cfg :: d != dependency ==> cfg'[d] == cfg[d]) &&
    var was, now := cfg[dependency], cfg'[dependency];
    platform in was.fileInfo && now.fields == was.fields && now.fileInfo.Keys == was.fileInfo.Keys &&
    (forall p <- was.fileInfo :: p != platform ==> now.fileInfo[p] == was.fileInfo[p]) &&
    var before, after := was.fileInfo[platform], now.fileInfo[platform];
    Get(after, "cloud_storage_hash") == Some(hash) &&
    (if version.Some? && version.value != "" then Get(after, "version_in_cs") == version
     else SameKey(before, after, "version_in_cs")) &&
    forall key :: key != "cloud_storage_hash" && key != "version_in_cs" ==> SameKey(before, after, key)
  }

  lemma JobRecords(cfg: Config, dependency: string, platform: string, hash: string, version: Option<string>)
    requires HasPlatform(cfg, dependency, platform)
    ensures Recorded(cfg, WithJob(cfg, dependency, platform, hash, version), dependency, platform, hash, version)
  {
  }

  /** Where an accepted job will put its file. */
  predicate Aims(u: Uploader, dependency: string, d: Dependency, hash: string, path: string) {
    u.localPath == path && Get(d.fields, "cloud_storage_bucket") == Some(u.bucket) &&
    var name := dependency + "_" + hash;
    var folder := Get(d.fields, "cloud_storage_base_folder");
    u.remotePath == if folder.Some? && folder.value != "" then folder.value + "/" + name else name
  }

  /** Nothing but the bucket, or the name of the file, can be wrong with the job. */
  predicate IsOpen(env: Env, st: Updater, dependency: string, platform: string, path: string, executeJob: bool) {
    st.writable && (executeJob ==> st.data == st.disk) && path in env.host &&
    dependency in st.data && platform in st.data[dependency].fileInfo &&
    st.data[dependency].fileInfo[platform] != map[]
  }

  lemma JobClosed(env: Env, st: Updater, dependency: string, platform: string, path: string,
                  version: Option<string>, executeJob: bool)
    requires !IsOpen(env, st, dependency, platform, path, executeJob)
    ensures var (st', r) := JobAdded(env, st, dependency, platform, path, version, executeJob);
      st' == st && r.Fail?
  {
  }

  lemma JobOpen(env: Env, st: Updater, dependency: string, platform: string, path: string,
                version: Option<string>, executeJob: bool)
    requires IsOpen(env, st, dependency, platform, path, executeJob)
    ensures var hash := env.hash(env.host[path]);
      var data := WithJob(st.data, dependency, platform, hash, version);
      var target := Target(dependency, st.data[dependency], hash);
      JobAdded(env, st, dependency, platform, path, version, executeJob) ==
        if target.None? || path == "" then (st.(data := data), Fail(ValueError))
        else (st.(data := data, pending := st.pending + [Fresh(target.value.bucket, target.value.path, path)]), Pass)
  {
  }

  /** A job is accepted exactly if the config may be updated, the file is there, the
      platform has data and the dependency a bucket; then it records the hash of the
      file and adds its upload at the end. A refused one touches the config in memory
      only, and only when it is the bucket that is missing, or the name of the file. */
  lemma JobMeans(env: Env, st: Updater, dependency: string, platform: string, path: string,
                 version: Option<string>, executeJob: bool)
    ensures var (st', r) := JobAdded(env, st, dependency, platform, path, version, executeJob);
      var bucket := if dependency in st.data then Get(st.data[dependency].fields, "cloud_storage_bucket") else None;
      var open := IsOpen(env, st, dependency, platform, path, executeJob);
      (r.Pass? <==> open && path != "" && bucket.Some? && bucket.value != "") &&
      (open ==> Recorded(st.data, st'.data, dependency, platform, env.hash(env.host[path]), version)) &&
      (!open ==> st' == st) && st'.disk == st.disk && st'.cloud == st.cloud && st'.writable == st.writable &&
      if r.Fail? then st'.pending == st.pending else
      |st'.pending| == |st.pending| + 1 && st'.pending[..|st.pending|] == st.pending &&
      IsFresh(st'.pending[|st.pending|]) &&
      Aims(st'.pending[|st.pending|], dependency, st.data[dependency], env.hash(env.host[path]), path)
  {
    if IsOpen(env, st, dependency, platform, path, executeJob) {
      JobRecords(st.data, dependency, platform, env.hash(env.host[path]), version);
      JobOpen(env, st, dependency, platform, path, version, executeJob);
    } else {
      JobClosed(env, st, dependency, platform, path, version, executeJob);
    }
  }

  /** Which exception a refused job raises: the config comes first, then what the
      config knows, then the file, and the bucket last. */
  lemma JobRefused(env: Env, st: Updater, dependency: string, platform: string, path: string,
                   version: Option<string>, executeJob: bool)
    ensures var r := JobAdded(env, st, dependency, platform, path, version, executeJob).1;
      var unknown := dependency !in st.data || st.data[dependency] == Dependency(map[], map[]);
      var noPlatform := dependency !in st.data || platform !in st.data[dependency].fileInfo ||
        st.data[dependency].fileInfo[platform] == map[];
      r.Fail? ==>
        if !st.writable || (executeJob && st.data != st.disk) then r.error == ReadWriteError
        else if (dependency != "" && unknown) || (platform != "" && noPlatform) then r.error == ValueError
        else r.error == if path in env.host then ValueError else IoError
  {
  }

  class BaseConfig {
    const storage: Storage
    const writable: bool
    var diskData: Config
    var configData: Config
    var pendingUploads: seq<CloudStorageUploader>

    ghost predicate Valid()
      reads this
    {
      Distinct(pendingUploads)
    }

    function State(): Updater
      reads this, storage, pendingUploads
    {
      Updater(writable, storage.state, diskData, configData, States(pendingUploads))
    }

    /** Opens the config whose file on disk holds diskData. */
    constructor (storage: Storage, writable: bool, diskData: Config)
      ensures Valid() && this.storage == storage
      ensures State() == Updater(writable, storage.state, diskData, diskData, [])
    {
      this.storage, this.writable := storage, writable;
      this.diskData, this.configData, this.pendingUploads := diskData, diskData, [];
    }

    method ExecuteUpdateJobs(force: bool) returns (r: Result<bool, Error>)
      requires Valid()
      modifies this, storage, pendingUploads
      ensures Valid() && (pendingUploads == old(pendingUploads) || pendingUploads == [])
      ensures (State(), r) == Executed(storage.env, old(State()), force)
    {
      if !writable {
        return Err(ReadWriteError);
      }
      if configData == diskData {
        return Ok(false);
      }
      if pendingUploads != [] {
        var failure := UploadEach(storage, pendingUploads, force);
        if failure.Pass? {
          var written := storage.WriteGoesThrough();
          if written {
            diskData := configData;
            pendingUploads := [];
            assert States(pendingUploads) == [];
            return Ok(true);
          }
          failure := Fail(IoError);
        }
        var undone := RollbackEach(storage, pendingUploads);
        return Err(if undone.Fail? then undone.error else failure.error);
      }
      return Ok(true);
    }

    /** AddCloudStorageDependencyUpdateJob up to the execution of the job. */
    method AddJob(dependency: string, platform: string, path: string, version: Option<string>, executeJob: bool)
      returns (r: Outcome<Error>)
      requires Valid()
      modifies this
      ensures Valid() && old(pendingUploads) <= pendingUploads
      ensures forall i :: |old(pendingUploads)| <= i < |pendingUploads| ==> fresh(pendingUploads[i])
      ensures (State(), r) == JobAdded(storage.env, old(State()), dependency, platform, path, version, executeJob)
    {
      var valid := Updatable(State(), executeJob, dependency, platform);
      if valid.Fail? {
        return valid;
      }
      if path !in storage.env.host {
        return Fail(IoError);
      }
      if !HasPlatform(configData, dependency, platform) {
        return Fail(ValueError);
      }
      var hash := storage.env.hash(storage.env.host[path]);
      configData := WithJob(configData, dependency, platform, hash, version);
      var target := Target(dependency, configData[dependency], hash);
      if target.None? || path == "" {
        return Fail(ValueError);
      }
      var upload := new CloudStorageUploader(target.value.bucket, target.value.path, path);
      pendingUploads := pendingUploads + [upload];
      assert States(pendingUploads) == old(States(pendingUploads)) + [upload.State()];
      r := Pass;
    }

    method AddCloudStorageDependencyUpdateJob(dependency: string, platform: string, path: string,
                                              version: Option<string>, executeJob: bool)
      returns (r: Outcome<Error>)
      requires Valid()
      modifies this, storage, pendingUploads
      ensures Valid()
      ensures (State(), r) == Added(storage.env, old(State()), dependency, platform, path, version, executeJob)
    {
      r := AddJob(dependency, platform, path, version, executeJob);
      if r.Pass? && executeJob {
        var done := ExecuteUpdateJobs(false);
        if done.Err? {
          r := Fail(done.error);
        }
      }
    }
  }
}
