/** Whole runs of config updates: what the config on disk names is in the cloud. */
module ConfigRuns {
  import opened Wrappers
  import opened CloudStorage
  import opened Uploaders
  import opened BaseConfigs

  datatype Op =
    | AddJob(dependency: string, platform: string, path: string, version: Option<string>, executeJob: bool)
    | Execute

  function Perform(env: Env, st: Updater, op: Op): Updater {
    match op
    case AddJob(dependency, platform, path, version, executeJob) =>
      Added(env, st, dependency, platform, path, version, executeJob).0
    case Execute => Executed(env, st, false).0
  }

  /** Every operation is performed, whether or not earlier ones raised. */
  function Run(env: Env, st: Updater, ops: seq<Op>): Updater
    decreases |ops|
  {
    if ops == [] then st else Run(env, Perform(env, st, ops[0]), ops[1..])
  }

  /** Some entry of cfg has this hash for a file that belongs at target. */
  ghost predicate Names(cfg: Config, target: Option<Loc>, hash: string) {
    exists d, p :: d in cfg && p in cfg[d].fileInfo && Get(cfg[d].fileInfo[p], HASH) == Some(hash) &&
                   Target(d, cfg[d], hash) == target
  }

  predicate IsThere(env: Env, c: Cloud, target: Option<Loc>, hash: string) {
    target.Some? && target.value in c.objects && env.hash(c.objects[target.value]) == hash
  }

  /** Each hash in cfg names an object present at its remote path with that hash. */
  ghost predicate Published(env: Env, c: Cloud, cfg: Config) {
    forall target, hash :: Names(cfg, target, hash) ==> IsThere(env, c, target, hash)
  }

  predicate HasBucket(d: Dependency) {
    Truthy(Get(d.fields, BUCKET))
  }

  /** A job can be added for some platform of d. */
  predicate Editable(d: Dependency) {
    exists p <- d.fileInfo :: d.fileInfo[p] != map[]
  }

  predicate AllHaveBuckets(cfg: Config) {
    forall d <- cfg :: Editable(cfg[d]) ==> HasBucket(cfg[d])
  }

  predicate NoneHasBucket(cfg: Config) {
    forall d <- cfg :: Editable(cfg[d]) ==> !HasBucket(cfg[d])
  }

  /** A config just opened. */
  ghost predicate Start(env: Env, st: Updater) {
    st.data == st.disk && st.pending == [] && "" !in env.host && Published(env, st.cloud, st.disk)
  }

  /** u will put a file with this hash at target. */
  predicate Offers(env: Env, u: Uploader, target: Option<Loc>, hash: string) {
    target == Some(u.Remote()) && u.localPath in env.host && env.hash(env.host[u.localPath]) == hash
  }

  ghost predicate IsOffered(env: Env, us: seq<Uploader>, target: Option<Loc>, hash: string) {
    exists i :: 0 <= i < |us| && Offers(env, us[i], target, hash)
  }

  /** Nothing was backed up, and what was uploaded is not yet named on disk. */
  ghost predicate Uncommitted(disk: Config, u: Uploader) {
    !u.backedUp && (u.updated ==> forall hash :: !Names(disk, Some(u.Remote()), hash))
  }

  ghost predicate Inv(env: Env, st: Updater) {
    "" !in env.host && AllHaveBuckets(st.data) && Published(env, st.cloud, st.disk) &&
    (forall target, hash :: Names(st.data, target, hash) ==>
       Names(st.disk, target, hash) || IsOffered(env, st.pending, target, hash)) &&
    (forall i :: 0 <= i < |st.pending| ==> Uncommitted(st.disk, st.pending[i]))
  }

  // --------------------------------------------------------------- execution

  lemma UploadKeeps(env: Env, c: Cloud, disk: Config, u: Uploader)
    requires Published(env, c, disk) && Uncommitted(disk, u)
    ensures var (c', u', r) := Uploaded(env, c, u, false);
      Published(env, c', disk) && Uncommitted(disk, u') &&
      u' == u.(updated := u'.updated) &&
      Grows(c, c') && (r.Pass? ==> Holds(env, c', u'))
  {
    var (c', u', r) := Uploaded(env, c, u, false);
    forall target, hash | Names(disk, target, hash)
      ensures IsThere(env, c', target, hash)
    {
      assert IsThere(env, c, target, hash);
    }
    if u.Remote() !in c.objects {
      forall hash
        ensures !Names(disk, Some(u.Remote()), hash)
      {
        assert !IsThere(env, c, Some(u.Remote()), hash);
      }
    }
  }

  /** Nothing that was there is gone or changed. */
  ghost predicate Grows(c: Cloud, c': Cloud) {
    forall l :: l in c.objects ==> l in c'.objects && c'.objects[l] == c.objects[l]
  }

  /** How uploads from us on c may end: what is on disk stays published, and on
      success all files are there. */
  ghost predicate EndsKept(env: Env, disk: Config, c: Cloud, us: seq<Uploader>, end: (Cloud, seq<Uploader>, Outcome<Error>)) {
    var (c', us', r) := end;
    Published(env, c', disk) && Grows(c, c') && |us'| == |us| &&
    (forall j :: 0 <= j < |us| ==> Uncommitted(disk, us'[j]) && us'[j] == us[j].(updated := us'[j].updated)) &&
    (r.Pass? ==> forall j :: 0 <= j < |us| ==> Holds(env, c', us'[j]))
  }

  lemma EndsKeptBefore(env: Env, disk: Config, c: Cloud, us: seq<Uploader>, i: nat, c1: Cloud, u1: Uploader,
                       end: (Cloud, seq<Uploader>, Outcome<Error>))
    requires i < |us| && Grows(c, c1) && u1 == us[i].(updated := u1.updated)
    requires EndsKept(env, disk, c1, us[i := u1], end)
    ensures EndsKept(env, disk, c, us, end)
  {
    forall j | 0 <= j < |us|
      ensures Uncommitted(disk, end.1[j]) && end.1[j] == us[j].(updated := end.1[j].updated)
    {
      assert Uncommitted(disk, end.1[j]) && us[i := u1][j] == if j == i then u1 else us[j];
    }
  }

  lemma {:induction false} UploadAllKeeps(env: Env, c: Cloud, disk: Config, us: seq<Uploader>, i: nat)
    requires Published(env, c, disk) && i <= |us|
    requires forall j :: 0 <= j < |us| ==> Uncommitted(disk, us[j])
    requires forall j :: 0 <= j < i ==> Holds(env, c, us[j])
    ensures EndsKept(env, disk, c, us, UploadAll(env, c, us, i, false))
    decreases |us| - i
  {
    if i == |us| {
    } else {
      var (c1, u1, r1) := Uploaded(env, c, us[i], false);
      UploadKeeps(env, c, disk, us[i]);
      if r1.Pass? {
        UploadAllKeeps(env, c1, disk, us[i := u1], i + 1);
        EndsKeptBefore(env, disk, c, us, i, c1, u1, UploadAll(env, c1, us[i := u1], i + 1, false));
      }
    }
  }

  lemma RollbackKeeps(env: Env, c: Cloud, disk: Config, u: Uploader)
    requires Published(env, c, disk) && Uncommitted(disk, u)
    ensures var (c', u', r) := RolledBack(env, c, u);
      Published(env, c', disk) && Uncommitted(disk, u') && u' == u.(updated := u'.updated)
  {
    var (c', u', r) := RolledBack(env, c, u);
    forall target, hash | Names(disk, target, hash)
      ensures IsThere(env, c', target, hash)
    {
      assert IsThere(env, c, target, hash);
    }
  }

  lemma {:induction false} RollbackAllKeeps(env: Env, c: Cloud, disk: Config, us: seq<Uploader>, i: nat)
    requires Published(env, c, disk) && i <= |us|
    requires forall j :: 0 <= j < |us| ==> Uncommitted(disk, us[j])
    ensures var (c', us', r) := RollbackAll(env, c, us, i);
      Published(env, c', disk) &&
      (forall j :: 0 <= j < |us| ==> Uncommitted(disk, us'[j]) && us'[j] == us[j].(updated := us'[j].updated))
    decreases i
  {
    if i == 0 {
    } else {
      RollbackKeeps(env, c, disk, us[i - 1]);
      var (c1, u1, r1) := RolledBack(env, c, us[i - 1]);
      if r1.Ok? {
        RollbackAllKeeps(env, c1, disk, us[i - 1 := u1], i - 1);
      }
    }
  }

  /** The same files for the same places are offered by uploaders that differ in flags only. */
  lemma OffersCarryOver(env: Env, us: seq<Uploader>, us': seq<Uploader>, target: Option<Loc>, hash: string)
    requires |us'| == |us| && forall j :: 0 <= j < |us| ==> us'[j] == us[j].(updated := us'[j].updated)
    requires IsOffered(env, us, target, hash)
    ensures IsOffered(env, us', target, hash)
  {
    var i :| 0 <= i < |us| && Offers(env, us[i], target, hash);
    assert Offers(env, us'[i], target, hash);
  }

  lemma ExecuteKeeps(env: Env, st: Updater)
    requires Inv(env, st)
    ensures Inv(env, Executed(env, st, false).0)
  {
    var st' := Executed(env, st, false).0;
    if st.writable && st.data != st.disk && st.pending != [] {
      var (c0, _, _) := UploadAll(env, st.cloud, st.pending, 0, false);
      UploadAllKeeps(env, st.cloud, st.disk, st.pending, 0);
      var (c1, us1, r1) := Attempted(env, st, false);
      assert forall target, hash :: IsThere(env, c0, target, hash) ==> IsThere(env, c1, target, hash);
      if r1.Pass? {
        CommitKeeps(env, st, c1, us1);
      } else {
        RollbackAllKeeps(env, c1, st.disk, us1, |us1|);
        forall target, hash | Names(st.data, target, hash) && !Names(st.disk, target, hash)
          ensures IsOffered(env, st'.pending, target, hash)
        {
          OffersCarryOver(env, st.pending, st'.pending, target, hash);
        }
      }
    }
  }

  /** Once every upload has gone through, all that the new config names is there. */
  lemma CommitKeeps(env: Env, st: Updater, c: Cloud, us: seq<Uploader>)
    requires Inv(env, st) && Published(env, c, st.disk) && |us| == |st.pending|
    requires forall j :: 0 <= j < |us| ==> us[j] == st.pending[j].(updated := us[j].updated) && Holds(env, c, us[j])
    ensures Inv(env, st.(cloud := c, disk := st.data, pending := []))
  {
    forall target, hash | Names(st.data, target, hash)
      ensures IsThere(env, c, target, hash)
    {
      if Names(st.disk, target, hash) {
        assert IsThere(env, c, target, hash);
      } else {
        var i :| 0 <= i < |st.pending| && Offers(env, st.pending[i], target, hash);
        assert Holds(env, c, us[i]);
      }
    }
  }

  // --------------------------------------------------------------------- runs

  lemma JobNames(cfg: Config, dependency: string, platform: string, newHash: string, version: Option<string>,
                 target: Option<Loc>, hash: string)
    requires HasPlatform(cfg, dependency, platform)
    requires Names(WithJob(cfg, dependency, platform, newHash, version), target, hash)
    ensures Names(cfg, target, hash) ||
            (hash == newHash && target == Target(dependency, cfg[dependency], hash))
  {
    var cfg' := WithJob(cfg, dependency, platform, newHash, version);
    var d, p :| d in cfg' && p in cfg'[d].fileInfo &&
                Get(cfg'[d].fileInfo[p], HASH) == Some(hash) && Target(d, cfg'[d], hash) == target;
    assert d in cfg && p in cfg[d].fileInfo;
  }

  /** A job changes no bucket, and leaves every platform editable that was. */
  lemma JobKeepsShape(cfg: Config, dependency: string, platform: string, hash: string, version: Option<string>)
    requires HasPlatform(cfg, dependency, platform)
    ensures var cfg' := WithJob(cfg, dependency, platform, hash, version);
      Editable(cfg[dependency]) && cfg'.Keys == cfg.Keys &&
      forall d <- cfg :: HasBucket(cfg'[d]) == HasBucket(cfg[d]) && (Editable(cfg'[d]) ==> Editable(cfg[d]))
  {
    assert platform in cfg[dependency].fileInfo;
  }

  lemma OneMoreOffers(env: Env, us: seq<Uploader>, u: Uploader, target: Option<Loc>, hash: string)
    ensures IsOffered(env, us + [u], target, hash) <==> IsOffered(env, us, target, hash) || Offers(env, u, target, hash)
  {
    if IsOffered(env, us, target, hash) {
      var i :| 0 <= i < |us| && Offers(env, us[i], target, hash);
      assert Offers(env, (us + [u])[i], target, hash);
    }
    assert (us + [u])[|us|] == u;
  }

  lemma JobKeeps(env: Env, st: Updater, dependency: string, platform: string, path: string,
                 version: Option<string>, executeJob: bool)
    requires Inv(env, st)
    ensures Inv(env, JobAdded(env, st, dependency, platform, path, version, executeJob).0)
  {
    var (st', r) := JobAdded(env, st, dependency, platform, path, version, executeJob);
    if st' != st {
      var hash0 := env.hash(env.host[path]);
      JobKeepsShape(st.data, dependency, platform, hash0, version);
      forall target, hash | Names(st'.data, target, hash)
        ensures Names(st'.disk, target, hash) || IsOffered(env, st'.pending, target, hash)
      {
        JobNames(st.data, dependency, platform, hash0, version, target, hash);
        if |st'.pending| > |st.pending| {
          OneMoreOffers(env, st.pending, st'.pending[|st.pending|], target, hash);
        }
      }
    }
  }

  lemma {:induction false} RunKeeps(env: Env, st: Updater, ops: seq<Op>)
    requires Inv(env, st)
    ensures Inv(env, Run(env, st, ops))
    decreases |ops|
  {
    if ops == [] {
    } else {
      match ops[0] {
        case AddJob(dependency, platform, path, version, executeJob) =>
          JobKeeps(env, st, dependency, platform, path, version, executeJob);
          ExecuteKeeps(env, JobAdded(env, st, dependency, platform, path, version, executeJob).0);
        case Execute =>
          ExecuteKeeps(env, st);
      }
      RunKeeps(env, Perform(env, st, ops[0]), ops[1..]);
    }
  }

  /** Without any bucket there is never an upload, and so nothing is ever written. */
  lemma {:induction false} NoBucketNoWrite(env: Env, st: Updater, ops: seq<Op>)
    requires NoneHasBucket(st.data) && st.pending == []
    ensures Run(env, st, ops).cloud == st.cloud && Run(env, st, ops).disk == st.disk
    decreases |ops|
  {
    if ops == [] {
    } else {
      var st' := Perform(env, st, ops[0]);
      if ops[0].AddJob? && st'.data != st.data {
        var AddJob(dependency, platform, path, version, _) := ops[0];
        JobKeepsShape(st.data, dependency, platform, env.hash(env.host[path]), version);
      }
      NoBucketNoWrite(env, st', ops[1..]);
    }
  }

  /** Over every run, with failures anywhere and retries included, the config on
      disk names only objects that are present with the named hash, provided that
      all dependencies have a bucket or none has. */
  lemma DiskAlwaysPublished(env: Env, st: Updater, ops: seq<Op>)
    requires Start(env, st) && (AllHaveBuckets(st.disk) || NoneHasBucket(st.disk))
    ensures Published(env, Run(env, st, ops).cloud, Run(env, st, ops).disk)
  {
    if AllHaveBuckets(st.disk) {
      RunKeeps(env, st, ops);
    } else {
      NoBucketNoWrite(env, st, ops);
    }
  }

  lemma RunThree(env: Env, st: Updater, ops: seq<Op>)
    requires |ops| == 3
    ensures Run(env, st, ops) == Perform(env, Perform(env, Perform(env, st, ops[0]), ops[1]), ops[2])
  {
    var st1 := Perform(env, st, ops[0]);
    assert ops[1..][1..] == [ops[2]] && [ops[2]][1..] == [];
    assert Run(env, st, ops) == Run(env, st1, ops[1..]) == Run(env, Perform(env, st1, ops[1]), [ops[2]]);
  }

  lemma OneUpload(env: Env, st: Updater)
    requires st.writable && |st.pending| == 1 && (forall k :: env.fate(k))
    requires st.pending[0].localPath in env.host && st.pending[0].Remote() !in st.cloud.objects
    ensures Executed(env, st, false).0.disk == st.data
  {
    assert UploadAll(env, st.cloud, st.pending, 0, false).2.Pass?;
  }

  /** A job that is not executed at once, on a config that may be updated. */
  lemma JobDone(env: Env, st: Updater, dependency: string, platform: string, path: string)
    requires st.writable && path in env.host && path != "" && HasPlatform(st.data, dependency, platform)
    ensures var hash := env.hash(env.host[path]);
      var data := WithJob(st.data, dependency, platform, hash, None);
      var target := Target(dependency, st.data[dependency], hash);
      Perform(env, st, AddJob(dependency, platform, path, None, false)) ==
        st.(data := data, pending := if target.None? then st.pending
                                     else st.pending + [Fresh(target.value.bucket, target.value.path, path)])
  {
  }

  /** In a mixed config, the update of a dependency without bucket raises after
      the config in memory has been changed, and the next update of one with a
      bucket writes the hash of a file that was never uploaded. */
  lemma MixedBucketsBreak(env: Env, st: Updater, a: string, pa: string, b: string, pb: string, path: string)
    requires Start(env, st) && st.writable && path in env.host && (forall k :: env.fate(k))
    requires HasPlatform(st.disk, a, pa) && !HasBucket(st.disk[a])
    requires HasPlatform(st.disk, b, pb) && HasBucket(st.disk[b])
    requires Target(b, st.disk[b], env.hash(env.host[path])).value !in st.cloud.objects
    ensures exists ops :: !Published(env, Run(env, st, ops).cloud, Run(env, st, ops).disk)
  {
    var hash := env.hash(env.host[path]);
    var ops := [AddJob(a, pa, path, None, false), AddJob(b, pb, path, None, false), Execute];
    RunThree(env, st, ops);
    JobDone(env, st, a, pa, path);
    var st1 := Perform(env, st, ops[0]);
    JobDone(env, st1, b, pb, path);
    var st2 := Perform(env, st1, ops[1]);
    OneUpload(env, st2);
    var st3 := Perform(env, st2, ops[2]);
    assert Get(st3.disk[a].fileInfo[pa], HASH) == Some(hash) && Target(a, st3.disk[a], hash) == None;
    assert Names(st3.disk, None, hash);
    assert !IsThere(env, st3.cloud, None, hash);
  }

  /** On a writable config, with calls that go through and a local file whose
      places in the cloud are free, every run leaves the config on disk published
      exactly when all editable dependencies have a bucket or none has. */
  lemma PublishedExactly(env: Env, st: Updater, path: string)
    requires Start(env, st) && st.writable && path in env.host && (forall k :: env.fate(k))
    requires forall d <- st.disk :: HasBucket(st.disk[d]) ==>
      Target(d, st.disk[d], env.hash(env.host[path])).value !in st.cloud.objects
    ensures (forall ops :: Published(env, Run(env, st, ops).cloud, Run(env, st, ops).disk)) <==>
            AllHaveBuckets(st.disk) || NoneHasBucket(st.disk)
  {
    if AllHaveBuckets(st.disk) || NoneHasBucket(st.disk) {
      forall ops
        ensures Published(env, Run(env, st, ops).cloud, Run(env, st, ops).disk)
      {
        DiskAlwaysPublished(env, st, ops);
      }
    } else {
      var a :| a in st.disk && Editable(st.disk[a]) && !HasBucket(st.disk[a]);
      var pa :| pa in st.disk[a].fileInfo && st.disk[a].fileInfo[pa] != map[];
      var b :| b in st.disk && Editable(st.disk[b]) && HasBucket(st.disk[b]);
      var pb :| pb in st.disk[b].fileInfo && st.disk[b].fileInfo[pb] != map[];
      MixedBucketsBreak(env, st, a, pa, b, pb, path);
    }
  }

  // ----------------------------------------------------------------- atomicity

  /** If the update fails and the rollback goes through, every remote path has
      its earlier content or absence, and only backups that were taken differ.
      Without force, or where nothing had been in the way, the updater is as it was. */
  lemma FailedUpdateIsUndone(env: Env, st: Updater, force: bool)
    requires AllFresh(st.pending) && (force ==> InTurn(st.pending)) && Executed(env, st, force).1.Err?
    requires var (c, us, _) := Attempted(env, st, force); RollbackAll(env, c, us, |us|).2.Pass?
    ensures var (st', _) := Executed(env, st, force);
      st'.disk == st.disk && st'.data == st.data &&
      (forall l :: SameAt(st.cloud, st'.cloud, l) || IsTakenBackup(Attempted(env, st, force).1, l)) &&
      (forall i :: 0 <= i < |st.pending| ==> SameAt(st.cloud, st'.cloud, st.pending[i].Remote())) &&
      (!force || (forall i :: 0 <= i < |st.pending| ==> st.pending[i].Remote() !in st.cloud.objects) ==>
         st' == st.(cloud := st.cloud.(calls := st'.cloud.calls)))
  {
    if st.writable && st.data != st.disk && st.pending != [] {
      var (c, us, _) := Attempted(env, st, force);
      if force {
        AttemptedUndoable(env, st, force);
        RolledBackIsUndone(env, st.cloud, c, st.pending, us, force);
      } else {
        UnforcedIsUndone(env, st);
      }
    }
  }

  ghost predicate IsUpdated(us: seq<Uploader>, i: nat, l: Loc) {
    exists j :: 0 <= j < i <= |us| && us[j].updated && us[j].Remote() == l
  }

  ghost predicate NewAt(c0: Cloud, c: Cloud, us: seq<Uploader>, i: nat, l: Loc) {
    if IsUpdated(us, i, l) then l in c.objects && l !in c0.objects else SameAt(c0, c, l)
  }

  /** Since c0 the first i of us have added objects where nothing was, each at a place
      of its own, and nothing else has happened. */
  ghost predicate OnlyAdded(c0: Cloud, c: Cloud, us: seq<Uploader>, i: nat) {
    i <= |us| && (forall j :: 0 <= j < i ==> !us[j].backedUp) &&
    (forall j, k :: 0 <= j < k < i && us[j].updated && us[k].updated ==> us[j].Remote() != us[k].Remote()) &&
    forall l :: NewAt(c0, c, us, i, l)
  }

  lemma UpdatedAt(us: seq<Uploader>, i: nat, u: Uploader, l: Loc)
    requires i < |us| && u.Remote() == us[i].Remote()
    ensures IsUpdated(us[i := u], |us|, l) ==> IsUpdated(us, |us|, l) || (u.updated && u.Remote() == l)
    ensures IsUpdated(us, |us|, l) && (us[i].updated ==> u.updated) ==> IsUpdated(us[i := u], |us|, l)
    ensures u.updated && u.Remote() == l ==> IsUpdated(us[i := u], |us|, l)
  {
    var us' := us[i := u];
    assert us'[i] == u && forall j :: 0 <= j < |us| && j != i ==> us'[j] == us[j];
    if IsUpdated(us', |us|, l) {
      var j :| 0 <= j < |us| && us'[j].updated && us'[j].Remote() == l;
    }
    if IsUpdated(us, |us|, l) && (us[i].updated ==> u.updated) {
      var j :| 0 <= j < |us| && us[j].updated && us[j].Remote() == l;
      assert us'[j].updated && us'[j].Remote() == l;
    }
  }

  lemma AddedNext(env: Env, c0: Cloud, c: Cloud, us: seq<Uploader>, i: nat)
    requires OnlyAdded(c0, c, us, |us|) && i < |us|
    ensures var (c1, u1, _) := Uploaded(env, c, us[i], false);
      OnlyAdded(c0, c1, us[i := u1], |us|) && u1 == us[i].(updated := u1.updated)
  {
    var (c1, u1, r1) := Uploaded(env, c, us[i], false);
    var us1 := us[i := u1];
    if u1 == us[i] {
      assert us1 == us;
    }
    if us[i].Remote() !in c.objects {
      forall j | 0 <= j < |us| && us[j].updated
        ensures us[j].Remote() != us[i].Remote()
      {
        assert NewAt(c0, c, us, |us|, us[j].Remote()) && IsUpdated(us, |us|, us[j].Remote());
      }
    }
    forall l
      ensures NewAt(c0, c1, us1, |us|, l)
    {
      assert NewAt(c0, c, us, |us|, l);
      UpdatedAt(us, i, u1, l);
    }
  }

  lemma {:induction false} AllAdded(env: Env, c0: Cloud, c: Cloud, us: seq<Uploader>, i: nat)
    requires OnlyAdded(c0, c, us, |us|) && i <= |us|
    ensures EndsAdded(c0, us, UploadAll(env, c, us, i, false))
    decreases |us| - i
  {
    if i == |us| {
    } else {
      AddedNext(env, c0, c, us, i);
      UploadAllStep(env, c, us, i, false);
      var (c1, u1, r1) := Uploaded(env, c, us[i], false);
      FlagsTwice(us, i, u1, us[i := u1]);
      if r1.Pass? {
        AllAdded(env, c0, c1, us[i := u1], i + 1);
        FlagsTwice(us, i, u1, UploadAll(env, c1, us[i := u1], i + 1, false).1);
      }
    }
  }

  ghost predicate EndsAdded(c0: Cloud, us: seq<Uploader>, end: (Cloud, seq<Uploader>, Outcome<Error>)) {
    OnlyAdded(c0, end.0, end.1, |end.1|) && FlagsOnly(us, end.1)
  }

  ghost predicate FlagsOnly(us: seq<Uploader>, us': seq<Uploader>) {
    |us'| == |us| && forall j :: 0 <= j < |us| ==> us'[j] == us[j].(updated := us'[j].updated)
  }

  lemma FlagsTwice(us: seq<Uploader>, i: nat, u: Uploader, us': seq<Uploader>)
    requires i < |us| && u == us[i].(updated := u.updated) && FlagsOnly(us[i := u], us')
    ensures FlagsOnly(us, us')
  {
    assert forall j :: 0 <= j < |us| ==> us[i := u][j] == if j == i then u else us[j];
  }

  lemma RemovedNext(env: Env, c0: Cloud, c: Cloud, us: seq<Uploader>, i: nat)
    requires 0 < i && OnlyAdded(c0, c, us, i)
    ensures var (c1, u1, r1) := RolledBack(env, c, us[i - 1]);
      (r1.Ok? ==> OnlyAdded(c0, c1, us[i - 1 := u1], i - 1) && u1 == us[i - 1].(updated := false)) &&
      (r1.Err? ==> us[i - 1].updated && r1.error == CloudError && !env.fate(c.calls))
  {
    var (c1, u1, r1) := RolledBack(env, c, us[i - 1]);
    var us1 := us[i - 1 := u1];
    var here := us[i - 1].Remote();
    assert NewAt(c0, c, us, i, here);
    assert us[i - 1].updated ==> IsUpdated(us, i, here);
    if r1.Ok? {
      var n: nat := i - 1;
      forall l
        ensures NewAt(c0, c1, us1, n, l)
      {
        assert NewAt(c0, c, us, i, l);
        FewerUpdated(us, i, u1, l);
      }
    }
  }

  lemma FewerUpdated(us: seq<Uploader>, i: nat, u: Uploader, l: Loc)
    requires 0 < i <= |us|
    ensures IsUpdated(us, i, l) <==> IsUpdated(us[i - 1 := u], i - 1, l) || (us[i - 1].updated && us[i - 1].Remote() == l)
  {
    var us' := us[i - 1 := u];
    assert forall j :: 0 <= j < i - 1 ==> us'[j] == us[j];
    if IsUpdated(us, i, l) {
      var j :| 0 <= j < i && us[j].updated && us[j].Remote() == l;
      assert j < i - 1 ==> us'[j].updated && us'[j].Remote() == l;
    }
    if IsUpdated(us', i - 1, l) {
      var j :| 0 <= j < i - 1 && us'[j].updated && us'[j].Remote() == l;
      assert us[j].updated && us[j].Remote() == l;
    }
  }

  /** A rollback of what was only added that goes through leaves nothing of it, and
      only a call that fails can keep it from that. */
  lemma {:induction false} AllRemoved(env: Env, c0: Cloud, c: Cloud, us: seq<Uploader>, i: nat)
    requires OnlyAdded(c0, c, us, i)
    ensures var (c', us', r) := RollbackAll(env, c, us, i);
      (r.Pass? ==> c'.objects == c0.objects) &&
      (r.Pass? ==> forall j :: 0 <= j < |us| ==> us'[j] == if j < i then us[j].(updated := false) else us[j]) &&
      (r.Fail? ==> r.error == CloudError && exists k :: !env.fate(k))
    decreases i
  {
    if i == 0 {
      forall l
        ensures l in c.objects <==> l in c0.objects
        ensures l in c.objects ==> c.objects[l] == c0.objects[l]
      {
        assert NewAt(c0, c, us, 0, l);
      }
    } else {
      RemovedNext(env, c0, c, us, i);
      var (c1, u1, r1) := RolledBack(env, c, us[i - 1]);
      if r1.Ok? {
        AllRemoved(env, c0, c1, us[i - 1 := u1], i - 1);
      }
    }
  }

  /** Without force nothing is overwritten, so that not even two uploads to one
      place get in the way of the rollback. */
  lemma UnforcedIsUndone(env: Env, st: Updater)
    requires AllFresh(st.pending) && st.writable && st.data != st.disk && st.pending != []
    requires Attempted(env, st, false).2.Fail?
    ensures var (c, us, r1) := Attempted(env, st, false);
      var (c', us', r2) := RollbackAll(env, c, us, |us|);
      (r2.Pass? ==> us' == st.pending && c'.objects == st.cloud.objects) &&
      (r2.Fail? ==> r2.error == CloudError && exists k :: !env.fate(k))
  {
    var (c1, us1, _) := UploadAll(env, st.cloud, st.pending, 0, false);
    NothingAdded(st.cloud, st.pending);
    AllAdded(env, st.cloud, st.cloud, st.pending, 0);
    var (c, us, _) := Attempted(env, st, false);
    AddedLater(st.cloud, c1, us1);
    AllRemoved(env, st.cloud, c, us, |us|);
  }

  lemma NothingAdded(c: Cloud, us: seq<Uploader>)
    requires AllFresh(us)
    ensures OnlyAdded(c, c, us, |us|)
  {
    forall l
      ensures NewAt(c, c, us, |us|, l)
    {
    }
  }

  lemma AddedLater(c0: Cloud, c: Cloud, us: seq<Uploader>)
    requires OnlyAdded(c0, c, us, |us|)
    ensures OnlyAdded(c0, c.Tick(), us, |us|)
  {
    forall l
      ensures NewAt(c0, c.Tick(), us, |us|, l)
    {
      assert NewAt(c0, c, us, |us|, l);
    }
  }

  /** Wherever the attempt stops, the config write included, it can be undone. */
  lemma AttemptedUndoable(env: Env, st: Updater, force: bool)
    requires AllFresh(st.pending) && InTurn(st.pending)
    ensures var (c, us, _) := Attempted(env, st, force);
      Recoverable(st.cloud, c, st.pending, us, force)
  {
    NothingUploaded(env, st.cloud, st.pending, force);
    UploadAllUndoable(env, st.cloud, st.cloud, st.pending, st.pending, 0, force);
    var (c1, us1, _) := UploadAll(env, st.cloud, st.pending, 0, force);
    LaterRecoverable(st.cloud, c1, st.pending, us1, force);
  }

  lemma NothingUploaded(env: Env, c: Cloud, us: seq<Uploader>, force: bool)
    requires AllFresh(us)
    ensures Progress(env, c, c, us, us, 0, force)
  {
  }

  /** The count of the calls made does not matter. */
  lemma LaterRecoverable(c0: Cloud, c: Cloud, us0: seq<Uploader>, us: seq<Uploader>, force: bool)
    requires Recoverable(c0, c, us0, us, force)
    ensures Recoverable(c0, c.Tick(), us0, us, force)
  {
    forall i | 0 <= i < |us|
      ensures Undoable(c0, c.Tick(), us0[i], us[i])
    {
      assert Undoable(c0, c, us0[i], us[i]);
    }
    forall l
      ensures UntouchedAt(c0, c.Tick(), us, l)
    {
      assert UntouchedAt(c0, c, us, l);
    }
  }

  lemma RolledBackIsUndone(env: Env, c0: Cloud, c: Cloud, us0: seq<Uploader>, us: seq<Uploader>, force: bool)
    requires AllFresh(us0) && InTurn(us0) && Recoverable(c0, c, us0, us, force)
    requires RollbackAll(env, c, us, |us|).2.Pass?
    ensures var (c', us', _) := RollbackAll(env, c, us, |us|);
      (forall l :: SameAt(c0, c', l) || IsTakenBackup(us, l)) &&
      (forall i :: 0 <= i < |us0| ==> SameAt(c0, c', us0[i].Remote())) &&
      (!force || (forall i :: 0 <= i < |us0| ==> us0[i].Remote() !in c0.objects) ==>
         us' == us0 && c'.objects == c0.objects)
  {
    var (c', us', _) := RollbackAll(env, c, us, |us|);
    RollbackAllRestores(env, c0, c, us0, us, |us|);
    UndoableSame(c0, c, us0, us);
    forall l
      ensures SameAt(c0, c', l) || IsTakenBackup(us, l)
    {
      SameOrBackup(c0, c, c', us0, us, l);
    }
    if !force || forall i :: 0 <= i < |us0| ==> us0[i].Remote() !in c0.objects {
      NoBackupTaken(c0, c', us0, us, us', force);
    }
  }

  lemma SameOrBackup(c0: Cloud, c: Cloud, c': Cloud, us0: seq<Uploader>, us: seq<Uploader>, l: Loc)
    requires |us| == |us0| && (forall i :: 0 <= i < |us| ==> us[i].Remote() == us0[i].Remote())
    requires OnlyTouched(c0, c, us)
    requires forall i :: 0 <= i < |us| ==> SameAt(c0, c', us0[i].Remote())
    requires !IsRemote(us0, l) ==> SameAt(c, c', l)
    ensures SameAt(c0, c', l) || IsTakenBackup(us, l)
  {
    if IsRemote(us0, l) {
      var i :| 0 <= i < |us0| && us0[i].Remote() == l;
      assert SameAt(c0, c', us0[i].Remote());
    } else if !IsTakenBackup(us, l) {
      assert UntouchedAt(c0, c, us, l) && !IsRemote(us, l) by {
        assert forall i :: 0 <= i < |us| ==> us0[i].Remote() == us[i].Remote();
      }
    }
  }

  lemma NoBackupTaken(c0: Cloud, c': Cloud, us0: seq<Uploader>, us: seq<Uploader>, us': seq<Uploader>, force: bool)
    requires |us| == |us0| == |us'| && AllFresh(us0)
    requires forall i :: 0 <= i < |us| ==> us[i] == us0[i].(updated := us[i].updated, backedUp := us[i].backedUp)
    requires forall i :: 0 <= i < |us| && us[i].backedUp ==> us[i].Remote() in c0.objects && force
    requires forall i :: 0 <= i < |us| ==> us'[i] == Cleared(us[i])
    requires forall l :: SameAt(c0, c', l) || IsTakenBackup(us, l)
    requires !force || forall i :: 0 <= i < |us| ==> us0[i].Remote() !in c0.objects
    ensures us' == us0 && c'.objects == c0.objects
  {
    forall i | 0 <= i < |us|
      ensures us'[i] == us0[i] && !us[i].backedUp
    {
      assert us[i].Remote() == us0[i].Remote();
    }
    forall l
      ensures l in c0.objects <==> l in c'.objects
      ensures l in c0.objects ==> c0.objects[l] == c'.objects[l]
    {
      assert SameAt(c0, c', l);
    }
  }

  /** A successful update of a dirty config with uploads pending: all files are
      in place, the file on disk is the config in memory, and what a forced
      upload overwrote is at its backup path. */
  lemma SuccessfulUpdate(env: Env, st: Updater, force: bool)
    requires AllFresh(st.pending) && (force ==> Apart(st.pending)) && st.pending != []
    requires Executed(env, st, force).1 == Ok(true)
    ensures var (st', _) := Executed(env, st, force);
      st'.disk == st.data == st'.data && st'.pending == [] &&
      (forall i :: 0 <= i < |st.pending| ==> Holds(env, st'.cloud, st.pending[i])) &&
      (forall i :: 0 <= i < |st.pending| && st.pending[i].Remote() in st.cloud.objects ==>
         force && st.pending[i].Backup() in st'.cloud.objects &&
         st'.cloud.objects[st.pending[i].Backup()] == st.cloud.objects[st.pending[i].Remote()])
  {
    if force {
      ForcedInPlace(env, st);
    } else {
      UploadedStay(env, st.cloud, st.pending, 0);
      UploadsPassExactly(env, st.cloud, st.pending, 0);
    }
  }

  lemma ForcedInPlace(env: Env, st: Updater)
    requires AllFresh(st.pending) && Apart(st.pending) && Attempted(env, st, true).2.Pass?
    ensures var c := Attempted(env, st, true).0;
      forall i :: 0 <= i < |st.pending| ==>
        Holds(env, c, st.pending[i]) &&
        (st.pending[i].Remote() in st.cloud.objects ==>
           Has(c, st.pending[i].Backup(), st.cloud.objects[st.pending[i].Remote()]))
  {
    NothingUploaded(env, st.cloud, st.pending, true);
    UploadAllUndoable(env, st.cloud, st.cloud, st.pending, st.pending, 0, true);
    AttemptedUndoable(env, st, true);
    var (c, us, _) := Attempted(env, st, true);
    var (c1, us1, _) := UploadAll(env, st.cloud, st.pending, 0, true);
    assert us1 == us && c1.objects == c.objects;
    forall i | 0 <= i < |st.pending|
      ensures Holds(env, c, st.pending[i])
      ensures st.pending[i].Remote() in st.cloud.objects ==>
        Has(c, st.pending[i].Backup(), st.cloud.objects[st.pending[i].Remote()])
    {
      assert Undoable(st.cloud, c, st.pending[i], us[i]) && Holds(env, c1, us[i]);
    }
  }

  // ------------------------------------------------------------ jobs and updates

  /** Uploads without force overwrite nothing, so each file stays where it was put. */
  lemma {:induction false} UploadedStay(env: Env, c: Cloud, us: seq<Uploader>, i: nat)
    requires i <= |us|
    ensures var (c', _, r) := UploadAll(env, c, us, i, false);
      Grows(c, c') && (r.Pass? ==> forall j :: i <= j < |us| ==> Holds(env, c', us[j]))
    decreases |us| - i
  {
    if i == |us| {
    } else {
      var (c1, u1, r1) := Uploaded(env, c, us[i], false);
      if r1.Pass? {
        UploadedStay(env, c1, us[i := u1], i + 1);
        assert Holds(env, c1, us[i]);
        assert forall j :: i < j < |us| ==> us[i := u1][j] == us[j];
      }
    }
  }

  /** An accepted job and the update after it: on success the config on disk records
      the hash of the file, and nothing else that was not in memory before; and if
      that is any change the file is at its place in the cloud. Otherwise nothing is
      written to disk. */
  lemma UpdateRecords(env: Env, st: Updater, dependency: string, platform: string, path: string,
                      version: Option<string>, executeJob: bool)
    requires JobAdded(env, st, dependency, platform, path, version, executeJob).1.Pass?
    ensures var st1 := JobAdded(env, st, dependency, platform, path, version, executeJob).0;
      var (st2, r) := Executed(env, st1, false);
      var hash := env.hash(env.host[path]);
      (r.Ok? ==> Recorded(st.data, st2.disk, dependency, platform, hash, version)) &&
      (r == Ok(true) <==> r.Ok? && st1.data != st1.disk) &&
      (r == Ok(true) ==> exists u ::
         Aims(u, dependency, st.data[dependency], hash, path) &&
         u.Remote() in st2.cloud.objects && st2.cloud.objects[u.Remote()] == env.host[path]) &&
      (r != Ok(true) ==> st2.disk == st.disk)
  {
    JobMeans(env, st, dependency, platform, path, version, executeJob);
    var st1 := JobAdded(env, st, dependency, platform, path, version, executeJob).0;
    UploadedStay(env, st1.cloud, st1.pending, 0);
    var (st2, r) := Executed(env, st1, false);
    if r == Ok(true) {
      assert Holds(env, st2.cloud, st1.pending[|st.pending|]);
    }
  }

  /** The same for a job that is executed at once. */
  lemma JobAtOnce(env: Env, st: Updater, dependency: string, platform: string, path: string, version: Option<string>)
    ensures var (st', r) := Added(env, st, dependency, platform, path, version, true);
      (r.Fail? ==> st'.disk == st.disk) &&
      (r.Pass? ==>
         path in env.host && st.data == st.disk && st'.data == st'.disk &&
         Recorded(st.disk, st'.disk, dependency, platform, env.hash(env.host[path]), version) &&
         (st'.disk != st.disk ==> exists u ::
            Aims(u, dependency, st.disk[dependency], env.hash(env.host[path]), path) &&
            u.Remote() in st'.cloud.objects && st'.cloud.objects[u.Remote()] == env.host[path]))
  {
    JobMeans(env, st, dependency, platform, path, version, true);
    if JobAdded(env, st, dependency, platform, path, version, true).1.Pass? {
      UpdateRecords(env, st, dependency, platform, path, version, true);
      InStep(env, JobAdded(env, st, dependency, platform, path, version, true).0);
    }
  }

  /** After an update with uploads that does not raise, memory and disk agree. */
  lemma InStep(env: Env, st: Updater)
    ensures var (st', r) := Executed(env, st, false);
      st.pending != [] && r.Ok? ==> st'.data == st'.disk
  {
  }

  predicate Deferred(op: Op) {
    op.AddJob? && !op.executeJob
  }

  /** Jobs that are not executed at once write nothing, and what they add is new. */
  lemma {:induction false} JobsPend(env: Env, st: Updater, ops: seq<Op>)
    requires forall i :: 0 <= i < |ops| ==> Deferred(ops[i])
    requires forall i :: 0 <= i < |st.pending| ==> IsFresh(st.pending[i])
    ensures var st' := Run(env, st, ops);
      st'.writable == st.writable && st'.cloud == st.cloud && st'.disk == st.disk &&
      |st'.pending| <= |st.pending| + |ops| &&
      forall i :: 0 <= i < |st'.pending| ==> IsFresh(st'.pending[i])
    decreases |ops|
  {
    if ops == [] {
    } else {
      var st1 := Perform(env, st, ops[0]);
      assert Deferred(ops[0]);
      var AddJob(dependency, platform, path, version, executeJob) := ops[0];
      JobMeans(env, st, dependency, platform, path, version, executeJob);
      forall i | 0 <= i < |st1.pending|
        ensures IsFresh(st1.pending[i])
      {
        if i < |st.pending| {
          assert st1.pending[..|st.pending|] == st.pending ==> st1.pending[i] == st.pending[i];
        }
      }
      JobsPend(env, st1, ops[1..]);
    }
  }

  /** A config just opened, any jobs, and one update of all of them, with or without
      force: if it fails and the rollback goes through, every remote path is as it
      was, and so is the disk; only backups at the paths ending in ".old" remain,
      and those only with force. */
  lemma FailedBatchIsUndone(env: Env, st0: Updater, ops: seq<Op>, force: bool)
    requires st0.pending == [] && forall i :: 0 <= i < |ops| ==> Deferred(ops[i])
    requires var st := Run(env, st0, ops);
      (force ==> InOrder(st.pending)) && Executed(env, st, force).1.Err? &&
      var (c, us, _) := Attempted(env, st, force); RollbackAll(env, c, us, |us|).2.Pass?
    ensures var st := Run(env, st0, ops);
      var st' := Executed(env, st, force).0;
      st'.disk == st0.disk &&
      (forall i :: 0 <= i < |st.pending| ==> SameAt(st0.cloud, st'.cloud, st.pending[i].Remote())) &&
      (forall l :: SameAt(st0.cloud, st'.cloud, l) || (force && IsBackupOf(st.pending, l)))
  {
    JobsPend(env, st0, ops);
    var st := Run(env, st0, ops);
    if force {
      FreshInTurn(st.pending);
      AttemptedUndoable(env, st, force);
    }
    FailedUpdateIsUndone(env, st, force);
    var (c, us, _) := Attempted(env, st, force);
    var st' := Executed(env, st, force).0;
    forall l
      ensures SameAt(st0.cloud, st'.cloud, l) || (force && IsBackupOf(st.pending, l))
    {
      if force && !SameAt(st0.cloud, st'.cloud, l) {
        TakenBackup(st.cloud, c, st.pending, us, force, l);
      }
    }
  }

  /** l is the path of one of us with ".old" after it. */
  ghost predicate IsBackupOf(us: seq<Uploader>, l: Loc) {
    exists i :: 0 <= i < |us| && Loc(us[i].bucket, us[i].remotePath + ".old") == l
  }

  lemma TakenBackup(c0: Cloud, c: Cloud, us0: seq<Uploader>, us: seq<Uploader>, force: bool, l: Loc)
    requires Recoverable(c0, c, us0, us, force) && IsTakenBackup(us, l)
    requires forall i :: 0 <= i < |us0| ==> IsFresh(us0[i])
    ensures force && IsBackupOf(us0, l)
  {
    var i :| 0 <= i < |us| && us[i].backedUp && us[i].Backup() == l;
    assert Undoable(c0, c, us0[i], us[i]) && IsFresh(us0[i]);
  }

  /** The same, if the update succeeds: every file is in place, the disk has the
      config of the jobs, and what was overwritten is at the path ending in ".old". */
  lemma SuccessfulBatch(env: Env, st0: Updater, ops: seq<Op>, force: bool)
    requires st0.pending == [] && forall i :: 0 <= i < |ops| ==> Deferred(ops[i])
    requires var st := Run(env, st0, ops);
      (force ==> ClearPlaces(st.pending)) && st.pending != [] && Executed(env, st, force).1 == Ok(true)
    ensures var st := Run(env, st0, ops);
      var st' := Executed(env, st, force).0;
      st'.disk == st.data && st'.pending == [] &&
      forall i :: 0 <= i < |st.pending| ==>
        Holds(env, st'.cloud, st.pending[i]) &&
        (st.pending[i].Remote() in st0.cloud.objects ==>
           force && Has(st'.cloud, Loc(st.pending[i].bucket, st.pending[i].remotePath + ".old"),
                        st0.cloud.objects[st.pending[i].Remote()]))
  {
    JobsPend(env, st0, ops);
    var st := Run(env, st0, ops);
    if force {
      FreshApart(st.pending);
    }
    SuccessfulUpdate(env, st, force);
    var st' := Executed(env, st, force).0;
    forall i | 0 <= i < |st.pending|
      ensures Holds(env, st'.cloud, st.pending[i])
      ensures st.pending[i].Remote() in st0.cloud.objects ==>
        force && Has(st'.cloud, Loc(st.pending[i].bucket, st.pending[i].remotePath + ".old"),
                     st0.cloud.objects[st.pending[i].Remote()])
    {
      assert IsFresh(st.pending[i]) && Holds(env, st'.cloud, st.pending[i]);
    }
  }

  predicate Has(c: Cloud, l: Loc, content: Content) {
    l in c.objects && c.objects[l] == content
  }

  /** Two forced uploads to one place: the second one's backup replaces the first
      one's, and a rollback that goes through leaves the first file in place of the
      object that was there. */
  lemma SamePlaceTwiceLoses(env: Env, st: Updater, u: Uploader, v: Uploader)
    requires st.writable && st.data != st.disk && st.pending == [u, v]
    requires IsFresh(u) && IsFresh(v) && u.Remote() == v.Remote() && u.Remote() in st.cloud.objects
    requires u.localPath in env.host && v.localPath in env.host
    requires forall k :: env.fate(k) <==> k != st.cloud.calls + 6
    ensures var (st', r) := Executed(env, st, true);
      r == Err(IoError) && Has(st'.cloud, u.Remote(), env.host[u.localPath])
  {
    var (c1, u1, _) := Uploaded(env, st.cloud, u, true);
    var (c2, v1, _) := Uploaded(env, c1, v, true);
    TwoUploads(env, st.cloud, u, v);
    var c3 := c2.Tick();
    var (c4, v2, _) := RolledBack(env, c3, v1);
    var (c5, u2, _) := RolledBack(env, c4, u1);
    TwoRollbacks(env, c3, u1, v1);
  }

  lemma TwoUploads(env: Env, c: Cloud, u: Uploader, v: Uploader)
    ensures var (c1, u1, r1) := Uploaded(env, c, u, true);
      var (c2, v1, r2) := Uploaded(env, c1, v, true);
      r1.Pass? && r2.Pass? ==> UploadAll(env, c, [u, v], 0, true) == (c2, [u1, v1], Pass)
  {
    var (c1, u1, _) := Uploaded(env, c, u, true);
    var (c2, v1, _) := Uploaded(env, c1, v, true);
    assert [u, v][0 := u1] == [u1, v] && [u1, v][1 := v1] == [u1, v1];
    UploadAllStep(env, c, [u, v], 0, true);
    UploadAllStep(env, c1, [u1, v], 1, true);
  }

  lemma TwoRollbacks(env: Env, c: Cloud, u: Uploader, v: Uploader)
    ensures var (c1, v1, r1) := RolledBack(env, c, v);
      var (c2, u1, r2) := RolledBack(env, c1, u);
      r1.Ok? && r2.Ok? ==> RollbackAll(env, c, [u, v], 2) == (c2, [u1, v1], Pass)
  {
    var (c1, v1, _) := RolledBack(env, c, v);
    var (c2, u1, _) := RolledBack(env, c1, u);
    assert [u, v][1 := v1] == [u, v1] && [u, v1][0 := u1] == [u1, v1];
    RollbackAllStep(env, c, [u, v], 1);
    RollbackAllStep(env, c1, [u, v1], 0);
  }

  /** Nothing is at the places of us, and no two of them are the same. */
  ghost predicate PlacesFree(c: Cloud, us: seq<Uploader>, i: nat) {
    (forall j :: i <= j < |us| ==> us[j].Remote() !in c.objects) &&
    (forall j, k :: i <= j < k < |us| ==> us[j].Remote() != us[k].Remote())
  }

  /** When all calls go through, uploads without force pass exactly if their places
      are free; the first that is taken is a conflict. */
  lemma {:induction false} UploadsPassExactly(env: Env, c: Cloud, us: seq<Uploader>, i: nat)
    requires i <= |us|
    ensures var (_, _, r) := UploadAll(env, c, us, i, false);
      (r.Pass? ==> PlacesFree(c, us, i)) &&
      ((forall k :: env.fate(k)) && (forall j :: 0 <= j < |us| ==> us[j].localPath in env.host) ==>
         if PlacesFree(c, us, i) then r.Pass? else r == Fail(ConflictError))
    decreases |us| - i
  {
    if i == |us| {
    } else {
      var (c1, u1, r1) := Uploaded(env, c, us[i], false);
      if r1.Pass? {
        UploadsPassExactly(env, c1, us[i := u1], i + 1);
        OneMoreFree(c, c1, us, i, u1);
      }
    }
  }

  lemma OneMoreFree(c: Cloud, c1: Cloud, us: seq<Uploader>, i: nat, u1: Uploader)
    requires i < |us| && us[i].Remote() !in c.objects && u1.Remote() == us[i].Remote()
    requires forall l :: l in c1.objects <==> l in c.objects || l == us[i].Remote()
    ensures PlacesFree(c1, us[i := u1], i + 1) <==> PlacesFree(c, us, i)
  {
    assert forall j :: i < j < |us| ==> us[i := u1][j] == us[j];
  }

  /** With files that are there, and calls and a write that go through, the update of
      a dirty config without force succeeds exactly if the places of its uploads are
      free and different; otherwise it raises a conflict. */
  lemma UpdateSucceedsExactly(env: Env, st: Updater)
    requires st.writable && st.data != st.disk && (forall k :: env.fate(k))
    requires forall j :: 0 <= j < |st.pending| ==> st.pending[j].localPath in env.host
    ensures var r := Executed(env, st, false).1;
      (r == Ok(true) <==> PlacesFree(st.cloud, st.pending, 0)) &&
      (AllFresh(st.pending) && !PlacesFree(st.cloud, st.pending, 0) ==> r == Err(ConflictError))
  {
    UploadsPassExactly(env, st.cloud, st.pending, 0);
    if AllFresh(st.pending) && !PlacesFree(st.cloud, st.pending, 0) {
      UnforcedIsUndone(env, st);
    }
  }

  /** If the rollback fails too, it is its exception that is raised, and the file
      that could not be removed stays. */
  lemma FailedRollbackLeaves(env: Env, st: Updater, u: Uploader)
    requires st.writable && st.data != st.disk && st.pending == [u] && IsFresh(u)
    requires u.localPath in env.host && u.Remote() !in st.cloud.objects
    requires forall k: nat :: env.fate(k) <==> k < st.cloud.calls + 2
    ensures var (st', r) := Executed(env, st, false);
      r == Err(CloudError) && Has(st'.cloud, u.Remote(), env.host[u.localPath]) && st'.disk == st.disk
  {
    var (c1, u1, _) := Uploaded(env, st.cloud, u, false);
    assert [u][0 := u1] == [u1];
    UploadAllStep(env, st.cloud, [u], 0, false);
    RollbackAllStep(env, c1.Tick(), [u1], 0);
  }

  /** The answers of an update: a config that may not be written raises, a clean one
      answers False, and only a dirty one with uploads writes anything. With no upload
      pending a dirty config answers True although nothing is written. */
  lemma UpdateAnswers(env: Env, st: Updater, force: bool)
    ensures var (st', r) := Executed(env, st, force);
      (!st.writable ==> r == Err(ReadWriteError)) &&
      (r == Ok(false) <==> st.writable && st.data == st.disk) &&
      (!st.writable || st.data == st.disk || st.pending == [] ==> st' == st) &&
      st'.data == st.data && st'.writable == st.writable &&
      (r == Ok(true) && st.pending != [] <==> st'.disk != st.disk) &&
      (st'.disk != st.disk ==> st'.disk == st.data && st'.pending == []) &&
      |st'.pending| == (if st'.disk != st.disk then 0 else |st.pending|)
  {
  }
}
