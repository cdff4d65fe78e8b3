/** uploader.py: one pending upload, with its backup and rollback. */
module Uploaders {
  import opened Wrappers
  import opened CloudStorage

  /** The fields of a CloudStorageUploader. */
  datatype Uploader = Uploader(
    bucket: string, remotePath: string, localPath: string,
    backupPath: Option<string>, updated: bool, backedUp: bool)
  {
    function Remote(): Loc {
      Loc(bucket, remotePath)
    }

    /** A rolled-back uploader has no backup path, and formats it as None. */
    function Backup(): Loc {
      Loc(bucket, if backupPath.Some? then backupPath.value else "None")
    }
  }

  function Fresh(bucket: string, remotePath: string, localPath: string): Uploader {
    Uploader(bucket, remotePath, localPath, Some(remotePath + ".old"), false, false)
  }

  /** What Upload leaves behind: cloud, uploader, and return or exception. */
  function Uploaded(env: Env, c: Cloud, u: Uploader, force: bool): (Cloud, Uploader, Outcome<Error>) {
    var (c1, found) := c.Exists(env, u.Remote());
    if found.Err? then (c1, u, Fail(found.error)) else
    if found.value && !force then (c1, u, Fail(ConflictError)) else
    var (c2, copied) := if found.value then c1.Copy(env, u.Remote(), u.Backup()) else (c1, Pass);
    if copied.Fail? then (c2, u, copied) else
    var u2 := if found.value then u.(backedUp := true) else u;
    var (c3, inserted) := c2.Insert(env, u.Remote(), u.localPath);
    (c3, if inserted.Pass? then u2.(updated := true) else u2, inserted)
  }

  /** Tells also whether anything had to be rolled back. */
  function RolledBack(env: Env, c: Cloud, u: Uploader): (Cloud, Uploader, Result<bool, Error>) {
    if u.backedUp then
      var (c1, copied) := c.Copy(env, u.Backup(), u.Remote());
      if copied.Fail? then (c1, u, Err(copied.error))
      else (c1, u.(backupPath := None, updated := false), Ok(true))
    else if u.updated then
      var (c1, deleted) := c.Delete(env, u.Remote());
      if deleted.Fail? then (c1, u, Err(deleted.error))
      else (c1, u.(updated := false), Ok(true))
    else (c, u, Ok(false))
  }

  class CloudStorageUploader {
    const bucket: string
    const remotePath: string
    const localPath: string
    var backupPath: Option<string>
    var updated: bool
    var backedUp: bool

    function State(): Uploader
      reads this
    {
      Uploader(bucket, remotePath, localPath, backupPath, updated, backedUp)
    }

    constructor (bucket: string, remotePath: string, localPath: string)
      ensures State() == Fresh(bucket, remotePath, localPath)
    {
      this.bucket, this.remotePath, this.localPath := bucket, remotePath, localPath;
      this.backupPath, this.updated, this.backedUp := Some(remotePath + ".old"), false, false;
    }

    method Upload(storage: Storage, force: bool) returns (r: Outcome<Error>)
      modifies this, storage
      ensures (storage.state, State(), r) == Uploaded(storage.env, old(storage.state), old(State()), force)
    {
      var found := storage.Exists(State().Remote());
      if found.Err? {
        return Fail(found.error);
      }
      if found.value {
        if !force {
          return Fail(ConflictError);
        }
        var copied := storage.Copy(State().Remote(), State().Backup());
        if copied.Fail? {
          return copied;
        }
        backedUp := true;
      }
      r := storage.Insert(State().Remote(), localPath);
      if r.Pass? {
        updated := true;
      }
    }

    method Rollback(storage: Storage) returns (r: Result<bool, Error>)
      modifies this, storage
      ensures (storage.state, State(), r) == RolledBack(storage.env, old(storage.state), old(State()))
    {
      var changed := false;
      if backedUp {
        var copied := storage.Copy(State().Backup(), State().Remote());
        if copied.Fail? {
          return Err(copied.error);
        }
        changed := true;
        backupPath := None;
      } else if updated {
        var deleted := storage.Delete(State().Remote());
        if deleted.Fail? {
          return Err(deleted.error);
        }
        changed := true;
      }
      updated := false;
      r := Ok(changed);
    }
  }

  // ---------------------------------------------------------------- batches

  /** Uploads us[i], us[i + 1], ... in order; an exception ends the loop. */
  function UploadAll(env: Env, c: Cloud, us: seq<Uploader>, i: nat, force: bool): (r: (Cloud, seq<Uploader>, Outcome<Error>))
    requires i <= |us|
    ensures |r.1| == |us|
    decreases |us| - i
  {
    if i == |us| then (c, us, Pass) else
    var (c1, u1, r1) := Uploaded(env, c, us[i], force);
    if r1.Fail? then (c1, us[i := u1], r1) else UploadAll(env, c1, us[i := u1], i + 1, force)
  }

  /** Rolls back us[i - 1], ..., us[0]; an exception ends the loop. */
  function RollbackAll(env: Env, c: Cloud, us: seq<Uploader>, i: nat): (r: (Cloud, seq<Uploader>, Outcome<Error>))
    requires i <= |us|
    ensures |r.1| == |us|
    decreases i
  {
    if i == 0 then (c, us, Pass) else
    var (c1, u1, r1) := RolledBack(env, c, us[i - 1]);
    if r1.Err? then (c1, us[i - 1 := u1], Fail(r1.error)) else RollbackAll(env, c1, us[i - 1 := u1], i - 1)
  }

  function States(us: seq<CloudStorageUploader>): seq<Uploader>
    reads us
  {
    seq(|us|, i requires 0 <= i < |us| reads us => us[i].State())
  }

  lemma UploadAllStep(env: Env, c: Cloud, us: seq<Uploader>, i: nat, force: bool)
    requires i < |us|
    ensures var (c1, u1, r1) := Uploaded(env, c, us[i], force);
      UploadAll(env, c, us, i, force) ==
        if r1.Fail? then (c1, us[i := u1], r1) else UploadAll(env, c1, us[i := u1], i + 1, force)
  {
  }

  lemma RollbackAllStep(env: Env, c: Cloud, us: seq<Uploader>, i: nat)
    requires i < |us|
    ensures var (c1, u1, r1) := RolledBack(env, c, us[i]);
      RollbackAll(env, c, us, i + 1) ==
        if r1.Err? then (c1, us[i := u1], Fail(r1.error)) else RollbackAll(env, c1, us[i := u1], i)
  {
  }

  lemma StatesUpdated(us: seq<CloudStorageUploader>, before: seq<Uploader>, i: nat)
    requires |before| == |us| && i < |us|
    requires forall j :: 0 <= j < |us| && j != i ==> us[j].State() == before[j]
    ensures States(us) == before[i := us[i].State()]
  {
  }

  ghost predicate Distinct(us: seq<CloudStorageUploader>) {
    forall i, j :: 0 <= i < j < |us| ==> us[i] != us[j]
  }

  method UploadEach(storage: Storage, us: seq<CloudStorageUploader>, force: bool) returns (r: Outcome<Error>)
    requires Distinct(us)
    modifies storage, us
    ensures (storage.state, States(us), r) == UploadAll(storage.env, old(storage.state), old(States(us)), 0, force)
  {
    r := Pass;
    var i := 0;
    while i < |us| && r.Pass?
      invariant 0 <= i <= |us|
      invariant UploadAll(storage.env, old(storage.state), old(States(us)), 0, force) ==
        if r.Pass? then UploadAll(storage.env, storage.state, States(us), i, force) else (storage.state, States(us), r)
      decreases |us| - i, r.Pass?
    {
      ghost var before := States(us);
      UploadAllStep(storage.env, storage.state, before, i, force);
      r := us[i].Upload(storage, force);
      StatesUpdated(us, before, i);
      i := i + 1;
    }
  }

  method RollbackEach(storage: Storage, us: seq<CloudStorageUploader>) returns (r: Outcome<Error>)
    requires Distinct(us)
    modifies storage, us
    ensures (storage.state, States(us), r) == RollbackAll(storage.env, old(storage.state), old(States(us)), |us|)
  {
    r := Pass;
    var i := |us|;
    while i > 0 && r.Pass?
      invariant 0 <= i <= |us|
      invariant RollbackAll(storage.env, old(storage.state), old(States(us)), |us|) ==
        if r.Pass? then RollbackAll(storage.env, storage.state, States(us), i) else (storage.state, States(us), r)
      decreases i, r.Pass?
    {
      i := i - 1;
      ghost var before := States(us);
      RollbackAllStep(storage.env, storage.state, before, i);
      var changed := us[i].Rollback(storage);
      StatesUpdated(us, before, i);
      if changed.Err? {
        r := Fail(changed.error);
      }
    }
  }

  /** No upload of the batch touches a place that another one uses. */
  ghost predicate Apart(us: seq<Uploader>) {
    (forall i, j :: 0 <= i < |us| && 0 <= j < |us| ==> us[i].Remote() != us[j].Backup()) &&
    (forall i, j :: 0 <= i < j < |us| ==> us[i].Remote() != us[j].Remote() && us[i].Backup() != us[j].Backup())
  }

  /** No upload of the batch goes to where an earlier one uploads or backs up. */
  ghost predicate InTurn(us: seq<Uploader>) {
    (forall i :: 0 <= i < |us| ==> us[i].Remote() != us[i].Backup()) &&
    (forall i, j :: 0 <= i < j < |us| ==>
       us[j].Remote() != us[i].Remote() && us[j].Remote() != us[i].Backup() && us[j].Backup() != us[i].Backup())
  }

  ghost predicate AllFresh(us: seq<Uploader>) {
    forall i :: 0 <= i < |us| ==> us[i].backupPath.Some? && !us[i].updated && !us[i].backedUp
  }

  /** u has just been made for its place and file. */
  predicate IsFresh(u: Uploader) {
    u == Fresh(u.bucket, u.remotePath, u.localPath)
  }

  /** No two uploads go to one place, and none to where another one backs up. */
  ghost predicate ClearPlaces(us: seq<Uploader>) {
    (forall i, j :: 0 <= i < j < |us| ==> us[i].Remote() != us[j].Remote()) &&
    (forall i, j :: 0 <= i < |us| && 0 <= j < |us| ==> us[i].Remote() != Loc(us[j].bucket, us[j].remotePath + ".old"))
  }

  /** The same for an upload and those before it only. */
  ghost predicate InOrder(us: seq<Uploader>) {
    forall i, j :: 0 <= i < j < |us| ==> !Clashes(us[i], us[j])
  }

  /** v goes to where u uploads, or to that path with ".old" after it. */
  predicate Clashes(u: Uploader, v: Uploader) {
    v.Remote() == u.Remote() || v.Remote() == Loc(u.bucket, u.remotePath + ".old")
  }

  lemma BackupsDiffer(u: Uploader, v: Uploader)
    requires IsFresh(u) && IsFresh(v)
    ensures u.Remote() != u.Backup()
    ensures u.Remote() != v.Remote() ==> u.Backup() != v.Backup()
  {
    var a, b := u.remotePath, v.remotePath;
    assert (a + ".old")[..|a|] == a && (b + ".old")[..|b|] == b;
  }

  lemma FreshInTurn(us: seq<Uploader>)
    requires (forall i :: 0 <= i < |us| ==> IsFresh(us[i])) && InOrder(us)
    ensures AllFresh(us) && InTurn(us)
  {
    forall i, j | 0 <= i <= j < |us|
      ensures us[i].Remote() != us[i].Backup()
      ensures i < j ==> us[j].Remote() != us[i].Remote() && us[j].Remote() != us[i].Backup() && us[j].Backup() != us[i].Backup()
    {
      BackupsDiffer(us[i], us[j]);
      assert IsFresh(us[i]) && (i < j ==> !Clashes(us[i], us[j]));
    }
  }

  lemma FreshApart(us: seq<Uploader>)
    requires (forall i :: 0 <= i < |us| ==> IsFresh(us[i])) && ClearPlaces(us)
    ensures AllFresh(us) && Apart(us)
  {
    forall i, j | 0 <= i < j < |us|
      ensures us[i].Backup() != us[j].Backup()
    {
      BackupsDiffer(us[i], us[j]);
      assert us[i].Remote() != us[j].Remote();
    }
    forall i, j | 0 <= i < |us| && 0 <= j < |us|
      ensures us[i].Remote() != us[j].Backup()
    {
      assert IsFresh(us[j]);
    }
  }

  predicate SameAt(c: Cloud, c': Cloud, l: Loc) {
    (l in c.objects <==> l in c'.objects) && (l in c.objects ==> c.objects[l] == c'.objects[l])
  }

  ghost predicate IsRemote(us: seq<Uploader>, l: Loc) {
    exists i :: 0 <= i < |us| && us[i].Remote() == l
  }

  /** l is where one of us has put a backup of what it overwrote. */
  ghost predicate IsTakenBackup(us: seq<Uploader>, l: Loc) {
    exists i :: 0 <= i < |us| && us[i].backedUp && us[i].Backup() == l
  }

  /** The flags of u say how to get back from c to what c0 has at u's remote path. */
  predicate Undoable(c0: Cloud, c: Cloud, u0: Uploader, u: Uploader) {
    u == u0.(updated := u.updated, backedUp := u.backedUp) &&
    if u.backedUp then
      u.Remote() in c0.objects && u.Backup() in c.objects && c.objects[u.Backup()] == c0.objects[u.Remote()]
    else if u.updated then u.Remote() !in c0.objects && u.Remote() in c.objects
    else SameAt(c0, c, u.Remote())
  }

  ghost predicate AllUndoable(c0: Cloud, c: Cloud, us0: seq<Uploader>, us: seq<Uploader>) {
    |us| == |us0| && forall i {:trigger Undoable(c0, c, us0[i], us[i])} :: 0 <= i < |us| ==> Undoable(c0, c, us0[i], us[i])
  }

  /** Uploads change nothing of an uploader but its flags. */
  lemma UndoableSame(c0: Cloud, c: Cloud, us0: seq<Uploader>, us: seq<Uploader>)
    requires AllUndoable(c0, c, us0, us)
    ensures forall i :: 0 <= i < |us| ==> us[i] == us0[i].(updated := us[i].updated, backedUp := us[i].backedUp)
  {
    forall i | 0 <= i < |us|
      ensures us[i] == us0[i].(updated := us[i].updated, backedUp := us[i].backedUp)
    {
      assert Undoable(c0, c, us0[i], us[i]);
    }
  }

  /** Only remote paths and the backups that were taken have been written. */
  ghost predicate OnlyTouched(c0: Cloud, c: Cloud, us: seq<Uploader>) {
    forall l :: UntouchedAt(c0, c, us, l)
  }

  ghost predicate UntouchedAt(c0: Cloud, c: Cloud, us: seq<Uploader>, l: Loc) {
    !IsRemote(us, l) && !IsTakenBackup(us, l) ==> SameAt(c0, c, l)
  }

  predicate Holds(env: Env, c: Cloud, u: Uploader) {
    u.localPath in env.host && u.Remote() in c.objects && c.objects[u.Remote()] == env.host[u.localPath]
  }

  lemma UploadUndoable(env: Env, c: Cloud, u: Uploader, force: bool)
    requires u.Remote() != u.Backup() && !u.updated && !u.backedUp
    ensures var (c', u', r) := Uploaded(env, c, u, force);
      Undoable(c, c', u, u') &&
      (forall l :: l != u.Remote() && (l != u.Backup() || !u'.backedUp) ==> SameAt(c, c', l)) &&
      (forall l :: l in c.objects ==> l in c'.objects) &&
      (u'.backedUp ==> u.Remote() in c.objects && force) &&
      (r.Pass? ==> u'.updated && Holds(env, c', u')) &&
      (r == Fail(ConflictError) <==> env.fate(c.calls) && u.Remote() in c.objects && !force)
  {
  }

  /** Each upload can be undone, only remote paths and backups that were taken
      have been written, and backups were taken by force of what was in the way. */
  ghost predicate Recoverable(c0: Cloud, c: Cloud, us0: seq<Uploader>, us: seq<Uploader>, force: bool) {
    AllUndoable(c0, c, us0, us) && OnlyTouched(c0, c, us) &&
    (forall j :: 0 <= j < |us| && us[j].backedUp ==> us[j].Remote() in c0.objects && force)
  }

  /** After the first i uploads of the batch us0. */
  ghost predicate Progress(env: Env, c0: Cloud, c: Cloud, us0: seq<Uploader>, us: seq<Uploader>, i: nat, force: bool) {
    Recoverable(c0, c, us0, us, force) && i <= |us| &&
    (forall j :: i <= j < |us| ==> us[j] == us0[j]) &&
    (forall j :: 0 <= j < i ==> us[j].updated) &&
    (Apart(us0) ==> forall j :: 0 <= j < i ==> Holds(env, c, us[j]))
  }

  /** A way in which the upload of the batch us0 may end. */
  ghost predicate Stopped(env: Env, c0: Cloud, us0: seq<Uploader>, end: (Cloud, seq<Uploader>, Outcome<Error>), force: bool) {
    var (c, us, r) := end;
    Recoverable(c0, c, us0, us, force) &&
    (r.Pass? ==> forall j :: 0 <= j < |us| ==> us[j].updated) &&
    (r.Pass? && Apart(us0) ==> forall j :: 0 <= j < |us| ==> Holds(env, c, us[j]))
  }

  lemma UploadNext(env: Env, c0: Cloud, c: Cloud, us0: seq<Uploader>, us: seq<Uploader>, i: nat, force: bool)
    requires InTurn(us0) && AllFresh(us0) && Progress(env, c0, c, us0, us, i, force)
    requires i < |us|
    ensures var (c1, u1, r1) := Uploaded(env, c, us[i], force);
      if r1.Pass? then Progress(env, c0, c1, us0, us[i := u1], i + 1, force)
      else Stopped(env, c0, us0, (c1, us[i := u1], r1), force)
  {
    UploadOneUndoable(env, c0, c, us0, us, i, force);
    UploadUndoable(env, c, us[i], force);
    if Apart(us0) {
      UndoableSame(c0, c, us0, us);
      StillHold(env, c, us0, us, i, force);
    }
  }

  lemma ProgressStops(env: Env, c0: Cloud, c: Cloud, us0: seq<Uploader>, us: seq<Uploader>, force: bool)
    requires Progress(env, c0, c, us0, us, |us|, force)
    ensures Stopped(env, c0, us0, (c, us, Pass), force)
  {
  }

  /** Wherever the batch stops, it can be recovered from; and if no upload is in the
      way of another, what has been uploaded stays. */
  lemma {:induction false} UploadAllUndoable(env: Env, c0: Cloud, c: Cloud, us0: seq<Uploader>, us: seq<Uploader>, i: nat, force: bool)
    requires InTurn(us0) && AllFresh(us0) && Progress(env, c0, c, us0, us, i, force)
    ensures Stopped(env, c0, us0, UploadAll(env, c, us, i, force), force)
    decreases |us| - i
  {
    if i == |us| {
      ProgressStops(env, c0, c, us0, us, force);
    } else {
      var (c1, u1, r1) := Uploaded(env, c, us[i], force);
      UploadNext(env, c0, c, us0, us, i, force);
      if r1.Pass? {
        UploadAllUndoable(env, c0, c1, us0, us[i := u1], i + 1, force);
      }
    }
  }

  lemma NotTouchedBefore(us: seq<Uploader>, i: nat, u: Uploader, l: Loc)
    requires i < |us| && u.Remote() == us[i].Remote() && u.Backup() == us[i].Backup() && !us[i].backedUp
    requires !IsRemote(us[i := u], l) && !IsTakenBackup(us[i := u], l)
    ensures !IsRemote(us, l) && !IsTakenBackup(us, l)
    ensures u.Remote() != l && !(u.backedUp && u.Backup() == l)
  {
    forall j | 0 <= j < |us|
      ensures us[j].Remote() != l && !(us[j].backedUp && us[j].Backup() == l)
    {
      assert us[i := u][j] == if j == i then u else us[j];
    }
    assert us[i := u][i] == u;
  }

  /** What an upload leaves of the others: they can still be undone. */
  lemma OtherUndoable(c0: Cloud, c: Cloud, c1: Cloud, u: Uploader, v0: Uploader, v: Uploader)
    requires Undoable(c0, c, v0, v)
    requires forall l :: l != u.Remote() && l != u.Backup() ==> SameAt(c, c1, l)
    requires forall l :: l in c.objects ==> l in c1.objects
    requires v.backedUp ==> v.Backup() != u.Remote() && v.Backup() != u.Backup()
    requires !v.updated ==> v.Remote() != u.Remote() && v.Remote() != u.Backup()
    ensures Undoable(c0, c1, v0, v)
  {
    assert v.backedUp ==> SameAt(c, c1, v.Backup());
    assert !v.updated ==> SameAt(c, c1, v.Remote());
  }

  lemma OthersUndoable(c0: Cloud, c: Cloud, c1: Cloud, us0: seq<Uploader>, us: seq<Uploader>, i: nat, u: Uploader)
    requires InTurn(us0) && AllFresh(us0) && AllUndoable(c0, c, us0, us) && i < |us| && Undoable(c0, c1, us0[i], u)
    requires (forall j :: i <= j < |us| ==> us[j] == us0[j]) && (forall j :: 0 <= j < i ==> us[j].updated)
    requires forall l :: l != us[i].Remote() && l != us[i].Backup() ==> SameAt(c, c1, l)
    requires forall l :: l in c.objects ==> l in c1.objects
    ensures AllUndoable(c0, c1, us0, us[i := u])
  {
    forall j | 0 <= j < |us|
      ensures Undoable(c0, c1, us0[j], us[i := u][j])
    {
      assert Undoable(c0, c, us0[j], us[j]);
      if j != i {
        OtherUndoable(c0, c, c1, us[i], us0[j], us[j]);
      }
    }
  }

  lemma StillUntouched(c0: Cloud, c: Cloud, c1: Cloud, us: seq<Uploader>, i: nat, u: Uploader)
    requires OnlyTouched(c0, c, us) && i < |us| && !us[i].backedUp
    requires u.Remote() == us[i].Remote() && u.Backup() == us[i].Backup()
    requires forall l :: l != u.Remote() && (l != u.Backup() || !u.backedUp) ==> SameAt(c, c1, l)
    ensures OnlyTouched(c0, c1, us[i := u])
  {
    var us1 := us[i := u];
    forall l
      ensures UntouchedAt(c0, c1, us1, l)
    {
      if !IsRemote(us1, l) && !IsTakenBackup(us1, l) {
        NotTouchedBefore(us, i, u, l);
        assert UntouchedAt(c0, c, us, l) && SameAt(c, c1, l);
      }
    }
  }

  lemma UploadOneUndoable(env: Env, c0: Cloud, c: Cloud, us0: seq<Uploader>, us: seq<Uploader>, i: nat, force: bool)
    requires InTurn(us0) && AllFresh(us0) && AllUndoable(c0, c, us0, us) && OnlyTouched(c0, c, us)
    requires i < |us| && (forall j :: i <= j < |us| ==> us[j] == us0[j]) && (forall j :: 0 <= j < i ==> us[j].updated)
    ensures var (c1, u1, _) := Uploaded(env, c, us[i], force);
      AllUndoable(c0, c1, us0, us[i := u1]) && OnlyTouched(c0, c1, us[i := u1]) &&
      (u1.backedUp ==> u1.Remote() in c0.objects && force)
  {
    var (c1, u1, _) := Uploaded(env, c, us[i], force);
    UploadUndoable(env, c, us[i], force);
    assert Undoable(c0, c, us0[i], us[i]);
    OthersUndoable(c0, c, c1, us0, us, i, u1);
    StillUntouched(c0, c, c1, us, i, u1);
  }

  /** An upload apart from the others leaves what they have put in place. */
  lemma StillHold(env: Env, c: Cloud, us0: seq<Uploader>, us: seq<Uploader>, i: nat, force: bool)
    requires Apart(us0) && |us| == |us0| && i < |us| && us[i] == us0[i] && !us[i].updated && !us[i].backedUp
    requires forall j :: 0 <= j < i ==> Holds(env, c, us[j]) && us[j].Remote() == us0[j].Remote()
    ensures forall j :: 0 <= j < i ==> Holds(env, Uploaded(env, c, us[i], force).0, us[j])
  {
    UploadUndoable(env, c, us[i], force);
    var c1 := Uploaded(env, c, us[i], force).0;
    forall j | 0 <= j < i
      ensures Holds(env, c1, us[j])
    {
      assert us0[j].Remote() != us0[i].Backup() && us0[j].Remote() != us0[i].Remote();
      assert SameAt(c, c1, us[j].Remote());
    }
  }

  lemma RollbackUndoes(env: Env, c0: Cloud, c: Cloud, u0: Uploader, u: Uploader)
    requires Undoable(c0, c, u0, u)
    ensures var (c', u', r) := RolledBack(env, c, u);
      (forall l :: l != u.Remote() ==> SameAt(c, c', l)) &&
      (r.Ok? ==> SameAt(c0, c', u.Remote()) && u' == Cleared(u) && r.value == (u.backedUp || u.updated))
  {
  }

  /** An uploader whose rollback went through. */
  function Cleared(u: Uploader): Uploader {
    u.(updated := false, backupPath := if u.backedUp then None else u.backupPath)
  }

  /** Of the batch us0, the last uploads have been rolled back down to the i-th. */
  ghost predicate Undone(c0: Cloud, c: Cloud, us0: seq<Uploader>, us: seq<Uploader>, i: nat) {
    |us| == |us0| && i <= |us| &&
    (forall j {:trigger Undoable(c0, c, us0[j], us[j])} :: 0 <= j < i ==> Undoable(c0, c, us0[j], us[j])) &&
    (forall j :: i <= j < |us| ==> SameAt(c0, c, us0[j].Remote()))
  }

  lemma UndoneNext(env: Env, c0: Cloud, c: Cloud, us0: seq<Uploader>, us: seq<Uploader>, i: nat)
    requires InTurn(us0) && 0 < i && Undone(c0, c, us0, us, i)
    ensures var (c1, u1, r1) := RolledBack(env, c, us[i - 1]);
      (r1.Ok? ==> Undone(c0, c1, us0, us[i - 1 := u1], i - 1) && u1 == Cleared(us[i - 1])) &&
      (forall l :: !IsRemote(us0, l) ==> SameAt(c, c1, l))
  {
    var (c1, u1, _) := RolledBack(env, c, us[i - 1]);
    assert Undoable(c0, c, us0[i - 1], us[i - 1]);
    RollbackUndoes(env, c0, c, us0[i - 1], us[i - 1]);
    forall j | 0 <= j < i - 1
      ensures Undoable(c0, c1, us0[j], us[i - 1 := u1][j])
    {
      assert Undoable(c0, c, us0[j], us[j]);
    }
  }

  /** A rollback that succeeds gives every remote path its earlier content or
      absence, and writes nothing else. */
  lemma {:induction false} RollbackAllRestores(env: Env, c0: Cloud, c: Cloud, us0: seq<Uploader>, us: seq<Uploader>, i: nat)
    requires InTurn(us0) && Undone(c0, c, us0, us, i)
    requires RollbackAll(env, c, us, i).2.Pass?
    ensures var (c', us', r) := RollbackAll(env, c, us, i);
      (forall j :: 0 <= j < |us| ==> SameAt(c0, c', us0[j].Remote())) &&
      (forall l :: !IsRemote(us0, l) ==> SameAt(c, c', l)) &&
      forall j :: 0 <= j < |us| ==> us'[j] == if j < i then Cleared(us[j]) else us[j]
    decreases i
  {
    if i == 0 {
    } else {
      var (c1, u1, r1) := RolledBack(env, c, us[i - 1]);
      UndoneNext(env, c0, c, us0, us, i);
      RollbackAllRestores(env, c0, c1, us0, us[i - 1 := u1], i - 1);
    }
  }
}
