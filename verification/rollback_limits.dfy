/** When the rollback of a forced update restores cloud storage, and when not. */
module RollbackLimits {
  import opened Wrappers
  import opened CloudStorage
  import opened Uploaders
  import opened BaseConfigs
  import opened ConfigRuns

  /** If the forced update of st fails and the rollback goes through, every remote
      path has its earlier content or absence. */
  ghost predicate IsUndone(env: Env, st: Updater) {
    var (c, us, r) := Attempted(env, st, true);
    Executed(env, st, true).1.Err? && RollbackAll(env, c, us, |us|).2.Pass? ==>
      forall i :: 0 <= i < |st.pending| ==> SameAt(st.cloud, Executed(env, st, true).0.cloud, st.pending[i].Remote())
  }

  /** That is so whatever the config, the cloud, the local files and the failures. */
  ghost predicate AlwaysUndone(us: seq<Uploader>) {
    forall env: Env, st: Updater :: st.pending == us ==> IsUndone(env, st)
  }

  // ------------------------------------------------------ what cannot be undone

  /** us[i] is the first upload in the way of an earlier one, us[j]: of what is
      uploaded there, or else of the backup that is taken of it. */
  ghost predicate IsFirst(us: seq<Uploader>, i: nat, j: nat) {
    j < i < |us| && AllFresh(us) &&
    (forall k, m :: 0 <= k < m < i ==> us[m].Remote() != us[k].Remote() && us[m].Remote() != us[k].Backup()) &&
    (forall k :: 0 <= k <= i ==> us[k].Remote() != us[k].Backup()) &&
    if us[i].Remote() == us[j].Remote() then us[i].Backup() == us[j].Backup()
    else us[i].Remote() == us[j].Backup() && forall k :: 0 <= k < i ==> us[k].Remote() != us[i].Remote()
  }

  lemma {:induction false} OrderEnds(us: seq<Uploader>) returns (i: nat)
    requires !InOrder(us)
    ensures i < |us| && InOrder(us[..i]) && !InOrder(us[..i + 1])
    decreases |us|
  {
    var front := us[..|us| - 1];
    if InOrder(front) {
      i := |us| - 1;
      assert us[..i + 1] == us;
    } else {
      i := OrderEnds(front);
      assert front[..i] == us[..i] && front[..i + 1] == us[..i + 1];
    }
  }

  lemma FirstClash(us: seq<Uploader>) returns (i: nat, j: nat)
    requires (forall k :: 0 <= k < |us| ==> IsFresh(us[k])) && !InOrder(us)
    ensures IsFirst(us, i, j)
  {
    i := OrderEnds(us);
    j := ClashWith(us, i);
    assert IsFresh(us[i]) && IsFresh(us[j]);
    forall k | 0 <= k <= i
      ensures us[k].Remote() != us[k].Backup()
    {
      BackupsDiffer(us[k], us[k]);
    }
    OrderedApart(us, i);
  }

  lemma OrderedBefore(us: seq<Uploader>, i: nat, k: nat, m: nat)
    requires i <= |us| && InOrder(us[..i]) && k < m < i
    ensures !Clashes(us[k], us[m])
  {
    assert !Clashes(us[..i][k], us[..i][m]);
  }

  lemma OrderedApart(us: seq<Uploader>, i: nat)
    requires (forall k :: 0 <= k < |us| ==> IsFresh(us[k])) && i <= |us| && InOrder(us[..i])
    ensures AllFresh(us)
    ensures forall k, m :: 0 <= k < m < i ==> us[m].Remote() != us[k].Remote() && us[m].Remote() != us[k].Backup()
  {
    forall k | 0 <= k < |us|
      ensures us[k].backupPath.Some? && !us[k].updated && !us[k].backedUp
    {
      assert IsFresh(us[k]);
    }
    forall k, m | 0 <= k < m < i
      ensures us[m].Remote() != us[k].Remote() && us[m].Remote() != us[k].Backup()
    {
      OrderedBefore(us, i, k, m);
      assert IsFresh(us[k]);
    }
  }

  lemma ClashWith(us: seq<Uploader>, i: nat) returns (j: nat)
    requires i < |us| && InOrder(us[..i]) && !InOrder(us[..i + 1])
    ensures j < i && Clashes(us[j], us[i])
    ensures us[j].Remote() != us[i].Remote() ==> forall k :: 0 <= k < i ==> us[k].Remote() != us[i].Remote()
  {
    if k :| 0 <= k < i && us[k].Remote() == us[i].Remote() {
      j := k;
    } else {
      var k, m :| 0 <= k < m < i + 1 && Clashes(us[..i + 1][k], us[..i + 1][m]);
      j := k;
      if m < i {
        OrderedBefore(us, i, k, m);
      }
    }
  }

  function StopAt(i: nat): nat {
    2 * i + 4
  }

  /** Every local file is there and says "new"; just one call fails. */
  ghost predicate IsBad(env: Env, us: seq<Uploader>, i: nat) {
    (forall k :: 0 <= k < |us| ==> us[k].localPath in env.host && env.host[us[k].localPath] == "new") &&
    forall k: nat :: env.fate(k) <==> k != StopAt(i)
  }

  function Locals(us: seq<Uploader>): set<string> {
    set u <- us :: u.localPath
  }

  lemma BadEnv(us: seq<Uploader>, i: nat) returns (env: Env)
    ensures IsBad(env, us, i)
  {
    env := Env(map p | p in Locals(us) :: "new", c => "", k => k != StopAt(i));
  }

  /** The k-th uploader after uploads up to the i-th. */
  function Flagged(us: seq<Uploader>, i: nat, j: nat, k: nat): Uploader
    requires k < |us|
  {
    if k <= i then us[k].(updated := true, backedUp := k == j || k == i) else us[k]
  }

  /** n uploads have been made. */
  ghost predicate AreFlagged(us: seq<Uploader>, vs: seq<Uploader>, i: nat, j: nat, n: nat) {
    |vs| == |us| && forall k :: 0 <= k < |us| ==> vs[k] == if k < n then Flagged(us, i, j, k) else us[k]
  }

  ghost predicate MayBeAt(us: seq<Uploader>, j: nat, n: nat, l: Loc)
    requires j < |us| && n <= |us|
  {
    l == us[j].Remote() || (n > j && l == us[j].Backup()) || IsRemote(us[..n], l)
  }

  /** After n uploads, of those before the i-th, from a cloud with one object, "old"
      at the place of the j-th. */
  ghost predicate Loaded(us: seq<Uploader>, i: nat, j: nat, c: Cloud, n: nat) {
    IsFirst(us, i, j) && n <= i && c.calls == 2 * n + (if n > j then 1 else 0) &&
    (forall l :: l in c.objects ==> MayBeAt(us, j, n, l)) &&
    us[j].Remote() in c.objects && (n > j ==> Has(c, us[j].Remote(), "new") && us[j].Backup() in c.objects) &&
    forall k :: 0 <= k < n ==> us[k].Remote() in c.objects
  }

  /** A new upload to a free place, and to a taken one, when nothing fails. */
  lemma UploadsNew(env: Env, c: Cloud, u: Uploader)
    requires u.localPath in env.host && (forall k :: c.calls <= k < c.calls + 3 ==> env.fate(k)) && u.Remote() != u.Backup()
    ensures var content := env.host[u.localPath];
      Uploaded(env, c, u, true) ==
        if u.Remote() in c.objects then
          (Cloud(c.objects[u.Backup() := c.objects[u.Remote()]][u.Remote() := content], c.calls + 3),
           u.(backedUp := true, updated := true), Pass)
        else
          (Cloud(c.objects[u.Remote() := content], c.calls + 2), u.(updated := true), Pass)
  {
  }

  lemma OneMoreRemote(us: seq<Uploader>, n: nat, l: Loc)
    requires n < |us|
    ensures IsRemote(us[..n + 1], l) <==> IsRemote(us[..n], l) || us[n].Remote() == l
  {
    if IsRemote(us[..n + 1], l) {
      var k :| 0 <= k < n + 1 && us[..n + 1][k].Remote() == l;
      assert k < n ==> us[..n][k].Remote() == l;
    }
    if IsRemote(us[..n], l) {
      var k :| 0 <= k < n && us[..n][k].Remote() == l;
      assert us[..n + 1][k].Remote() == l;
    }
    assert us[..n + 1][n] == us[n];
  }

  /** Only the j-th of the uploads before the i-th finds anything. */
  lemma PlaceTaken(us: seq<Uploader>, i: nat, j: nat, c: Cloud, n: nat)
    requires Loaded(us, i, j, c, n) && n < i
    ensures us[n].Remote() in c.objects <==> n == j
  {
    assert forall k :: 0 <= k < n ==> us[..n][k] == us[k];
  }

  lemma MayBeMore(us: seq<Uploader>, j: nat, n: nat, l: Loc)
    requires j < |us| && n < |us|
    ensures MayBeAt(us, j, n, l) || l == us[n].Remote() || (n == j && l == us[j].Backup()) ==> MayBeAt(us, j, n + 1, l)
  {
    OneMoreRemote(us, n, l);
  }

  lemma LoadNext(env: Env, us: seq<Uploader>, i: nat, j: nat, c: Cloud, n: nat)
    requires IsBad(env, us, i) && Loaded(us, i, j, c, n) && n < i
    ensures var (c1, u1, r1) := Uploaded(env, c, us[n], true);
      r1.Pass? && u1 == Flagged(us, i, j, n) && Loaded(us, i, j, c1, n + 1)
  {
    PlaceTaken(us, i, j, c, n);
    UploadsNew(env, c, us[n]);
    var c1 := Uploaded(env, c, us[n], true).0;
    forall l | l in c1.objects
      ensures MayBeAt(us, j, n + 1, l)
    {
      MayBeMore(us, j, n, l);
    }
    if n == j {
      assert Has(c1, us[j].Remote(), "new") && us[j].Backup() in c1.objects;
    } else {
      LoadOther(us, i, j, c, n);
    }
  }

  /** An upload to a free place is not where the j-th one is, nor its backup. */
  lemma LoadOther(us: seq<Uploader>, i: nat, j: nat, c: Cloud, n: nat)
    requires Loaded(us, i, j, c, n) && n < i && n != j
    ensures us[n].Remote() != us[j].Remote() && (n > j ==> us[n].Remote() != us[j].Backup())
  {
  }

  /** When the uploads with numbers from m on have been rolled back: what is there
      for those that are left, and why the wrong thing will be there in the end. */
  ghost predicate Rolling(us: seq<Uploader>, i: nat, j: nat, c: Cloud, m: nat) {
    IsFirst(us, i, j) && m <= |us| && c.calls > StopAt(i) &&
    (forall k :: 0 <= k < m && k < i ==> us[k].Remote() in c.objects) &&
    (m > i ==> us[i].Backup() in c.objects) && (m > j ==> us[j].Backup() in c.objects) &&
    if us[i].Remote() == us[j].Remote()
    then Has(c, us[j].Remote(), "new") && (m > j ==> Has(c, us[j].Backup(), "new"))
    else us[j].Backup() in c.objects
  }

  /** The upload in the way. */
  lemma LoadLast(env: Env, us: seq<Uploader>, i: nat, j: nat, c: Cloud)
    requires IsBad(env, us, i) && Loaded(us, i, j, c, i)
    ensures var (c1, u1, r1) := Uploaded(env, c, us[i], true);
      r1.Pass? && u1 == Flagged(us, i, j, i) && c1.calls == StopAt(i) && Rolling(us, i, j, c1.Tick(), |us|)
  {
    UploadsNew(env, c, us[i]);
  }

  /** The call after it fails, be it that of the next upload or the config write. */
  lemma StopsThere(env: Env, us: seq<Uploader>, vs: seq<Uploader>, i: nat, c: Cloud)
    requires |vs| == |us| && i <= |us| && !env.fate(c.calls)
    ensures var (c1, vs1, r1) := UploadAll(env, c, vs, i, true);
      vs1 == vs && if i == |us| then c1 == c && r1.Pass? else c1 == c.Tick() && r1.Fail?
  {
    if i < |us| {
      assert vs[i := vs[i]] == vs;
    }
  }

  lemma FlaggedNext(us: seq<Uploader>, vs: seq<Uploader>, i: nat, j: nat, n: nat)
    requires AreFlagged(us, vs, i, j, n) && n < |us|
    ensures AreFlagged(us, vs[n := Flagged(us, i, j, n)], i, j, n + 1)
  {
  }

  lemma LoadsLast(env: Env, us: seq<Uploader>, vs: seq<Uploader>, i: nat, j: nat, c: Cloud)
    requires IsBad(env, us, i) && Loaded(us, i, j, c, i) && AreFlagged(us, vs, i, j, i)
    ensures LoadsAndStops(us, i, j, UploadAll(env, c, vs, i, true))
  {
    UploadAllStep(env, c, vs, i, true);
    LoadLast(env, us, i, j, c);
    FlaggedNext(us, vs, i, j, i);
    var (c1, u1, _) := Uploaded(env, c, vs[i], true);
    StopsThere(env, us, vs[i := u1], i + 1, c1);
  }

  lemma LoadsNext(env: Env, us: seq<Uploader>, vs: seq<Uploader>, i: nat, j: nat, c: Cloud, n: nat)
    returns (c1: Cloud, vs1: seq<Uploader>)
    requires IsBad(env, us, i) && Loaded(us, i, j, c, n) && AreFlagged(us, vs, i, j, n) && n < i
    ensures Loaded(us, i, j, c1, n + 1) && AreFlagged(us, vs1, i, j, n + 1) && |vs1| == |vs|
    ensures UploadAll(env, c, vs, n, true) == UploadAll(env, c1, vs1, n + 1, true)
  {
    UploadAllStep(env, c, vs, n, true);
    LoadNext(env, us, i, j, c, n);
    FlaggedNext(us, vs, i, j, n);
    c1, vs1 := Uploaded(env, c, vs[n], true).0, vs[n := Flagged(us, i, j, n)];
  }

  lemma {:induction false} LoadAll(env: Env, us: seq<Uploader>, vs: seq<Uploader>, i: nat, j: nat, c: Cloud, n: nat)
    requires IsBad(env, us, i) && Loaded(us, i, j, c, n) && AreFlagged(us, vs, i, j, n)
    ensures LoadsAndStops(us, i, j, UploadAll(env, c, vs, n, true))
    decreases i - n
  {
    if n == i {
      LoadsLast(env, us, vs, i, j, c);
    } else {
      var c1, vs1 := LoadsNext(env, us, vs, i, j, c, n);
      LoadAll(env, us, vs1, i, j, c1, n + 1);
    }
  }

  /** The uploads stop at the call that fails, or all go through before it. */
  ghost predicate LoadsAndStops(us: seq<Uploader>, i: nat, j: nat, end: (Cloud, seq<Uploader>, Outcome<Error>)) {
    var (c, vs, r) := end;
    IsFirst(us, i, j) && AreFlagged(us, vs, i, j, i + 1) &&
    if r.Pass? then c.calls == StopAt(i) && Rolling(us, i, j, c.Tick(), |us|) else Rolling(us, i, j, c, |us|)
  }

  lemma RollNext(env: Env, us: seq<Uploader>, i: nat, j: nat, c: Cloud, m: nat)
    requires IsBad(env, us, i) && Rolling(us, i, j, c, m) && m > 0
    ensures var (c1, _, r1) := RolledBack(env, c, Flagged(us, i, j, m - 1));
      r1.Ok? && Rolling(us, i, j, c1, m - 1)
  {
  }

  ghost predicate FlaggedBefore(us: seq<Uploader>, vs: seq<Uploader>, i: nat, j: nat, m: nat) {
    m <= |us| == |vs| && forall k :: 0 <= k < m ==> vs[k] == Flagged(us, i, j, k)
  }

  lemma FewerFlagged(us: seq<Uploader>, vs: seq<Uploader>, i: nat, j: nat, m: nat, v: Uploader)
    requires FlaggedBefore(us, vs, i, j, m) && m > 0
    ensures FlaggedBefore(us, vs[m - 1 := v], i, j, m - 1)
  {
  }

  lemma RollsNext(env: Env, us: seq<Uploader>, vs: seq<Uploader>, i: nat, j: nat, c: Cloud, m: nat)
    returns (c1: Cloud, vs1: seq<Uploader>)
    requires IsBad(env, us, i) && Rolling(us, i, j, c, m) && FlaggedBefore(us, vs, i, j, m) && m > 0
    ensures Rolling(us, i, j, c1, m - 1) && FlaggedBefore(us, vs1, i, j, m - 1)
    ensures RollbackAll(env, c, vs, m) == RollbackAll(env, c1, vs1, m - 1)
  {
    var (c', v', _) := RolledBack(env, c, vs[m - 1]);
    RollbackAllStep(env, c, vs, m - 1);
    RollNext(env, us, i, j, c, m);
    FewerFlagged(us, vs, i, j, m, v');
    c1, vs1 := c', vs[m - 1 := v'];
  }

  lemma {:induction false} RollAll(env: Env, us: seq<Uploader>, vs: seq<Uploader>, i: nat, j: nat, c: Cloud, m: nat)
    requires IsBad(env, us, i) && Rolling(us, i, j, c, m) && FlaggedBefore(us, vs, i, j, m)
    ensures var (c1, _, r1) := RollbackAll(env, c, vs, m);
      r1.Pass? && Rolling(us, i, j, c1, 0)
    decreases m
  {
    if m == 0 {
    } else {
      var c1, vs1 := RollsNext(env, us, vs, i, j, c, m);
      RollAll(env, us, vs1, i, j, c1, m - 1);
    }
  }

  /** A writable dirty config with these uploads, and a cloud with one object. */
  function BadUpdate(us: seq<Uploader>, l: Loc): Updater {
    Updater(true, Cloud(map[l := "old"], 0), map[], map["d" := Dependency(map[], map[])], us)
  }

  lemma ClashBreaks(env: Env, us: seq<Uploader>, i: nat, j: nat)
    requires IsBad(env, us, i) && IsFirst(us, i, j)
    ensures !IsUndone(env, BadUpdate(us, us[j].Remote()))
  {
    var st := BadUpdate(us, us[j].Remote());
    assert "d" in st.data && st.data != st.disk;
    LoadAll(env, us, us, i, j, st.cloud, 0);
    var (c, vs, _) := Attempted(env, st, true);
    RollAll(env, us, vs, i, j, c, |us|);
    var c' := Executed(env, st, true).0.cloud;
    assert Rolling(us, i, j, c', 0);
    assert !SameAt(st.cloud, c', us[i].Remote());
  }

  /** Forced updates of these uploads can always be undone exactly if no upload goes
      to where an earlier one uploads or backs up. */
  lemma UndoneExactly(us: seq<Uploader>)
    requires forall k :: 0 <= k < |us| ==> IsFresh(us[k])
    ensures AlwaysUndone(us) <==> InOrder(us)
  {
    if InOrder(us) {
      FreshInTurn(us);
      forall env: Env, st: Updater | st.pending == us
        ensures IsUndone(env, st)
      {
        var (c, vs, _) := Attempted(env, st, true);
        if Executed(env, st, true).1.Err? && RollbackAll(env, c, vs, |vs|).2.Pass? {
          FailedUpdateIsUndone(env, st, true);
        }
      }
    } else {
      var i, j := FirstClash(us);
      var env := BadEnv(us, i);
      ClashBreaks(env, us, i, j);
      assert BadUpdate(us, us[j].Remote()).pending == us;
    }
  }
}
