/** device_utils.py: pushing directories to a device, with a cache of checksums. */
module Push {
  import opened Wrappers

  /** A path is the sequence of its components. */
  type Path = seq<string>
  type Content = string
  type Sum = string

  /** One (host_path, device_path) pair: the files below the host directory, by
      relative path, and the device directory they go to. */
  datatype Source = Source(files: map<Path, Content>, device: Path)

  /** A cache entry: whether the files not on the host were ignored, and sums. */
  datatype Entry = Entry(ignoreOthers: bool, sums: map<Path, Sum>)

  predicate Under(dir: Path, p: Path) {
    dir <= p
  }

  predicate Nested(a: Path, b: Path) {
    a <= b || b <= a
  }

  // ------------------------------------------------------------ what is meant

  /** The host files under their device paths. */
  function Image(s: Source): (m: map<Path, Content>)
    ensures forall rel :: rel in s.files ==> s.device + rel in m && m[s.device + rel] == s.files[rel]
    ensures forall p :: p in m ==> Under(s.device, p) && p[|s.device|..] in s.files && m[p] == s.files[p[|s.device|..]]
  {
    var m := map p | p in (set rel <- s.files :: s.device + rel) :: s.files[p[|s.device|..]];
    m
  }

  ghost function Images(sources: seq<Source>): map<Path, Content> {
    if sources == [] then map[] else Images(sources[..|sources| - 1]) + Image(sources[|sources| - 1])
  }

  /** p is under one of the first n device directories. */
  ghost predicate UnderSome(sources: seq<Source>, n: nat, p: Path)
    requires n <= |sources|
  {
    exists i :: 0 <= i < n && Under(sources[i].device, p)
  }

  /** The device after a push, in one step and without any checksums: what may
      not stay goes, and all host files are there. */
  ghost function Pushed(sources: seq<Source>, deleteStale: bool, device: map<Path, Content>): map<Path, Content> {
    (map p | p in device && !(deleteStale && UnderSome(sources, |sources|, p)) :: device[p]) + Images(sources)
  }

  /** Device directories of one call are not nested in one another. */
  ghost predicate Separate(sources: seq<Source>) {
    forall i, j :: 0 <= i < j < |sources| ==> !Nested(sources[i].device, sources[j].device)
  }

  lemma {:induction false} ImagesAt(sources: seq<Source>, i: nat, p: Path)
    requires Separate(sources) && i < |sources| && Under(sources[i].device, p)
    ensures p in Images(sources) <==> p in Image(sources[i])
    ensures p in Image(sources[i]) ==> Images(sources)[p] == Image(sources[i])[p]
    decreases |sources|
  {
    var front, last := sources[..|sources| - 1], sources[|sources| - 1];
    if i < |front| {
      ImagesAt(front, i, p);
      if Under(last.device, p) {
        PrefixesNest(sources[i].device, last.device, p);
      }
    } else if p in Images(front) {
      var j := ImagesFrom(front, p);
      PrefixesNest(sources[j].device, last.device, p);
    }
  }

  lemma PrefixesNest(a: Path, b: Path, p: Path)
    requires Under(a, p) && Under(b, p)
    ensures Nested(a, b)
  {
    if |a| <= |b| {
      assert a == p[..|a|] == b[..|a|];
    } else {
      assert b == p[..|b|] == a[..|b|];
    }
  }

  lemma {:induction false} ImagesFrom(sources: seq<Source>, p: Path) returns (i: nat)
    requires p in Images(sources)
    ensures i < |sources| && p in Image(sources[i])
    decreases |sources|
  {
    if p in Image(sources[|sources| - 1]) {
      i := |sources| - 1;
    } else {
      i := ImagesFrom(sources[..|sources| - 1], p);
    }
  }

  /** After a push every host file is on the device with equal content and nothing
      outside the device directories has changed. Below them, no other file is
      left if stale files are deleted, and otherwise all others are as before. */
  lemma PushedMeans(sources: seq<Source>, deleteStale: bool, device: map<Path, Content>, p: Path)
    requires Separate(sources)
    ensures var after := Pushed(sources, deleteStale, device);
      (forall i, rel :: 0 <= i < |sources| && rel in sources[i].files && p == sources[i].device + rel ==>
         p in after && after[p] == sources[i].files[rel]) &&
      ((forall i, rel :: 0 <= i < |sources| && rel in sources[i].files ==> p != sources[i].device + rel) ==>
         if deleteStale && UnderSome(sources, |sources|, p) then p !in after
         else (p in after <==> p in device) && (p in device ==> after[p] == device[p]))
  {
    var after := Pushed(sources, deleteStale, device);
    forall i, rel | 0 <= i < |sources| && rel in sources[i].files && p == sources[i].device + rel
      ensures p in after && after[p] == sources[i].files[rel]
    {
      ImagesAt(sources, i, p);
    }
    if p in Images(sources) {
      var i := ImagesFrom(sources, p);
      assert p == sources[i].device + p[|sources[i].device|..];
    }
  }

  // ---------------------------------------------------------------- checksums

  type Files = map<Path, Content>

  ghost predicate Injective(md5: Content -> Sum) {
    forall a, b :: md5(a) == md5(b) ==> a == b
  }

  /** md5sum on a directory. */
  function AllSums(md5: Content -> Sum, files: Files, dir: Path): map<Path, Sum> {
    map p | p in files && Under(dir, p) :: md5(files[p])
  }

  /** md5sum on files, of which some may be missing. */
  function SumsOf(md5: Content -> Sum, files: Files, paths: set<Path>): map<Path, Sum> {
    map p | p in files && p in paths :: md5(files[p])
  }

  /** The entry to be committed for a directory: the sums of its host files. */
  ghost predicate IsCommit(md5: Content -> Sum, s: Source, trackStale: bool, e: Entry) {
    e.ignoreOthers == !trackStale &&
    (forall p :: p in e.sums <==> p in Image(s)) &&
    (forall p <- e.sums :: e.sums[p] == md5(Image(s)[p]))
  }

  /** An entry that ignored other files vouches for its sums only; one that did
      not is all there is below the directory. */
  ghost predicate Sound(md5: Content -> Sum, files: Files, dir: Path, e: Entry) {
    (forall p <- e.sums :: Under(dir, p) && p in files && e.sums[p] == md5(files[p])) &&
    (!e.ignoreOthers ==> forall p <- files :: Under(dir, p) ==> p in e.sums)
  }

  /** A push leaves entries for other directories sound. */
  lemma SoundElsewhere(md5: Content -> Sum, sources: seq<Source>, deleteStale: bool, files: Files, dir: Path, e: Entry)
    requires Separate(sources) && Sound(md5, files, dir, e)
    requires forall i :: 0 <= i < |sources| ==> !Nested(dir, sources[i].device)
    ensures Sound(md5, Pushed(sources, deleteStale, files), dir, e)
  {
    var after := Pushed(sources, deleteStale, files);
    forall p | Under(dir, p)
      ensures p in after <==> p in files
      ensures p in files ==> after[p] == files[p]
    {
      forall i | 0 <= i < |sources|
        ensures !Under(sources[i].device, p)
      {
        if Under(sources[i].device, p) {
          PrefixesNest(dir, sources[i].device, p);
        }
      }
      if p in Images(sources) {
        var i := ImagesFrom(sources, p);
      }
    }
  }

  /** The entry that a push commits for one of its directories is sound. */
  lemma SoundCommit(md5: Content -> Sum, sources: seq<Source>, i: nat, deleteStale: bool, files: Files, e: Entry)
    requires Separate(sources) && i < |sources| && IsCommit(md5, sources[i], deleteStale, e)
    ensures Sound(md5, Pushed(sources, deleteStale, files), sources[i].device, e)
  {
    var after := Pushed(sources, deleteStale, files);
    forall p | Under(sources[i].device, p)
      ensures p in Image(sources[i]) ==> p in after && after[p] == Image(sources[i])[p]
      ensures deleteStale && p in after ==> p in Image(sources[i])
    {
      ImagesAt(sources, i, p);
    }
  }

  // --------------------------------------------------------------------- work

  datatype Job = Job(content: Content, to: Path)

  ghost predicate IsTarget(jobs: seq<Job>, p: Path) {
    exists i :: 0 <= i < |jobs| && jobs[i].to == p
  }

  ghost predicate JobsFrom(image: map<Path, Content>, jobs: seq<Job>) {
    forall i :: 0 <= i < |jobs| ==> jobs[i].to in image && jobs[i].content == image[jobs[i].to]
  }

  /** What should be at p is about to be pushed, or already there. */
  ghost predicate Provided(files: Files, jobs: seq<Job>, p: Path, content: Content) {
    IsTarget(jobs, p) || (p in files && files[p] == content)
  }

  ghost predicate NothingMissing(files: Files, s: Source, jobs: seq<Job>) {
    forall rel <- s.files :: Provided(files, jobs, s.device + rel, s.files[rel])
  }

  lemma TargetConcat(a: seq<Job>, b: seq<Job>, p: Path)
    ensures IsTarget(a + b, p) <==> IsTarget(a, p) || IsTarget(b, p)
  {
    if IsTarget(a, p) {
      var i :| 0 <= i < |a| && a[i].to == p;
      assert (a + b)[i].to == p;
    }
    if IsTarget(b, p) {
      var i :| 0 <= i < |b| && b[i].to == p;
      assert (a + b)[|a| + i].to == p;
    }
  }

  ghost predicate NothingMissingIn(sources: seq<Source>, i: nat, files: Files, jobs: seq<Job>)
    requires i <= |sources|
  {
    forall j :: 0 <= j < i ==> NothingMissing(files, sources[j], jobs)
  }

  /** stale is what is on the device below the first i directories only. */
  ghost predicate IsStale(sources: seq<Source>, i: nat, files: Files, stale: set<Path>)
    requires i <= |sources|
  {
    forall p :: p in stale <==> p in files && p !in Images(sources) && UnderSome(sources, i, p)
  }

  /** The work collected for the first i directories. */
  ghost predicate WorkFor(sources: seq<Source>, i: nat, deleteStale: bool, files: Files, jobs: seq<Job>, stale: set<Path>)
    requires i <= |sources|
  {
    JobsFrom(Images(sources), jobs) &&
    NothingMissingIn(sources, i, files, jobs) &&
    (deleteStale ==> IsStale(sources, i, files, stale))
  }

  lemma MoreJobs(sources: seq<Source>, i: nat, jobs: seq<Job>, toPush: seq<Job>)
    requires Separate(sources) && i < |sources| && JobsFrom(Images(sources), jobs) && JobsFrom(Image(sources[i]), toPush)
    ensures JobsFrom(Images(sources), jobs + toPush)
  {
    forall k | 0 <= k < |toPush|
      ensures toPush[k].to in Images(sources) && toPush[k].content == Images(sources)[toPush[k].to]
    {
      ImagesAt(sources, i, toPush[k].to);
    }
  }

  lemma MoreProvided(sources: seq<Source>, i: nat, files: Files, jobs: seq<Job>, toPush: seq<Job>)
    requires i < |sources| && NothingMissingIn(sources, i, files, jobs) && NothingMissing(files, sources[i], toPush)
    ensures NothingMissingIn(sources, i + 1, files, jobs + toPush)
  {
    forall j | 0 <= j <= i
      ensures NothingMissing(files, sources[j], jobs + toPush)
    {
      assert j < i ==> NothingMissing(files, sources[j], jobs);
      forall rel <- sources[j].files
        ensures Provided(files, jobs + toPush, sources[j].device + rel, sources[j].files[rel])
      {
        TargetConcat(jobs, toPush, sources[j].device + rel);
      }
    }
  }

  lemma MoreStale(sources: seq<Source>, i: nat, files: Files, stale: set<Path>, toDelete: set<Path>)
    requires Separate(sources) && i < |sources| && IsStale(sources, i, files, stale)
    requires forall p :: p in toDelete <==> p in files && Under(sources[i].device, p) && p !in Image(sources[i])
    ensures IsStale(sources, i + 1, files, stale + toDelete)
  {
    forall p
      ensures p in stale + toDelete <==> p in files && p !in Images(sources) && UnderSome(sources, i + 1, p)
    {
      assert UnderSome(sources, i + 1, p) <==> UnderSome(sources, i, p) || Under(sources[i].device, p);
      if Under(sources[i].device, p) {
        ImagesAt(sources, i, p);
      }
    }
  }

  lemma NoWork(sources: seq<Source>, deleteStale: bool, files: Files)
    ensures WorkFor(sources, 0, deleteStale, files, [], {})
  {
  }

  /** files after some jobs. */
  ghost predicate AfterJobs(files: Files, jobs: seq<Job>, files': Files) {
    (forall p :: p in files' <==> p in files || IsTarget(jobs, p)) &&
    forall p <- files' :: if IsTarget(jobs, p) then Job(files'[p], p) in jobs else files'[p] == files[p]
  }

  /** Deleting what is stale and pushing what is not there makes the device as it
      is meant to be. */
  lemma WorkDone(sources: seq<Source>, deleteStale: bool, files: Files, jobs: seq<Job>, stale: set<Path>, files': Files)
    requires Separate(sources) && WorkFor(sources, |sources|, deleteStale, files, jobs, stale)
    requires AfterJobs(if deleteStale then files - stale else files, jobs, files')
    ensures files' == Pushed(sources, deleteStale, files)
  {
    var after := Pushed(sources, deleteStale, files);
    forall p
      ensures p in files' <==> p in after
      ensures p in files' ==> files'[p] == after[p]
    {
      if p in Images(sources) {
        var i := ImagesFrom(sources, p);
        ImagesAt(sources, i, p);
        var rel := p[|sources[i].device|..];
        assert NothingMissing(files, sources[i], jobs) && sources[i].device + rel == p;
        assert Provided(files, jobs, p, sources[i].files[rel]);
      }
    }
  }

  // --------------------------------------------------- one directory, file by file

  /** left is sums without the files that have been compared. */
  ghost predicate IsLeft(s: Source, sums: map<Path, Sum>, rest: set<Path>, left: map<Path, Sum>) {
    (forall p :: p in left <==> p in sums && !(p in Image(s) && p[|s.device|..] !in rest)) &&
    (forall p <- left :: left[p] == sums[p])
  }

  lemma LeftWithout(s: Source, sums: map<Path, Sum>, rest: set<Path>, left: map<Path, Sum>, rel: Path)
    requires IsLeft(s, sums, rest, left) && rel in rest && rel in s.files
    ensures s.device + rel in left <==> s.device + rel in sums
    ensures IsLeft(s, sums, rest - {rel}, left - {s.device + rel})
  {
    assert (s.device + rel)[|s.device|..] == rel;
    assert forall p :: Under(s.device, p) && p[|s.device|..] == rel ==> p == s.device + rel;
  }

  function SumIn(sums: map<Path, Sum>, p: Path): Option<Sum> {
    if p in sums then Some(sums[p]) else None
  }

  /** A host file is to be pushed if the sum of its device path is not known, or another one. */
  predicate NeedsPush(md5: Content -> Sum, s: Source, sums: map<Path, Sum>, rel: Path)
    requires rel in s.files
  {
    SumIn(sums, s.device + rel) != Some(md5(s.files[rel]))
  }

  /** Of the files that have been compared, toPush is for those that need it, and
      upToDate has the others. */
  ghost predicate IsSplit(md5: Content -> Sum, s: Source, sums: map<Path, Sum>, rest: set<Path>,
                          toPush: seq<Job>, upToDate: seq<Path>)
  {
    (forall rel <- s.files :: IsTarget(toPush, s.device + rel) <==> rel !in rest && NeedsPush(md5, s, sums, rel)) &&
    (forall rel <- s.files :: rel in upToDate <==> rel !in rest && !NeedsPush(md5, s, sums, rel))
  }

  lemma SplitMore(md5: Content -> Sum, s: Source, sums: map<Path, Sum>, rest: set<Path>,
                  toPush: seq<Job>, upToDate: seq<Path>, rel: Path)
    requires IsSplit(md5, s, sums, rest, toPush, upToDate) && rel in rest && rel in s.files
    ensures if NeedsPush(md5, s, sums, rel)
      then IsSplit(md5, s, sums, rest - {rel}, toPush + [Job(s.files[rel], s.device + rel)], upToDate)
      else IsSplit(md5, s, sums, rest - {rel}, toPush, upToDate + [rel])
  {
    if NeedsPush(md5, s, sums, rel) {
      var job := Job(s.files[rel], s.device + rel);
      assert [job][0].to == s.device + rel;
      forall r <- s.files
        ensures IsTarget(toPush + [job], s.device + r) <==> IsTarget(toPush, s.device + r) || r == rel
      {
        TargetConcat(toPush, [job], s.device + r);
        assert (s.device + r)[|s.device|..] == r && (s.device + rel)[|s.device|..] == rel;
      }
    }
  }

  lemma AllKnown(md5: Content -> Sum, files: Files, dir: Path, sums: map<Path, Sum>)
    requires Sound(md5, files, dir, Entry(false, sums))
    ensures forall p :: p in sums <==> p in files && Under(dir, p)
  {
  }

  /** The device paths of some jobs. */
  function Targets(jobs: seq<Job>): seq<Path> {
    seq(|jobs|, i requires 0 <= i < |jobs| => jobs[i].to)
  }

  /** The entries of the first i directories are those of their host files. */
  ghost predicate Committed(md5: Content -> Sum, cache: map<Path, Entry>, sources: seq<Source>, i: nat, deleteStale: bool)
    requires i <= |sources|
  {
    forall j :: 0 <= j < i ==>
      sources[j].device in cache && IsCommit(md5, sources[j], deleteStale, cache[sources[j].device])
  }

  lemma CommittedMore(md5: Content -> Sum, cache: map<Path, Entry>, sources: seq<Source>, i: nat, deleteStale: bool, e: Entry)
    requires Separate(sources) && i < |sources| && Committed(md5, cache, sources, i, deleteStale)
    requires IsCommit(md5, sources[i], deleteStale, e)
    ensures Committed(md5, cache[sources[i].device := e], sources, i + 1, deleteStale)
  {
    forall j | 0 <= j < i
      ensures sources[j].device != sources[i].device
    {
      assert !Nested(sources[j].device, sources[i].device);
    }
  }

  /** Directories that are pushed to, or lie apart from those that are. */
  ghost predicate AreApart(dirs: set<Path>, sources: seq<Source>) {
    forall dir <- dirs, i :: 0 <= i < |sources| ==> dir == sources[i].device || !Nested(dir, sources[i].device)
  }

  lemma StayApart(dirs: set<Path>, more: set<Path>, sources: seq<Source>)
    requires Separate(sources) && AreApart(dirs, sources)
    requires forall dir <- more :: dir in dirs || IsDevice(sources, dir)
    ensures AreApart(more, sources)
  {
    forall dir <- more, i | 0 <= i < |sources|
      ensures dir == sources[i].device || !Nested(dir, sources[i].device)
    {
      if dir !in dirs {
        var j :| 0 <= j < |sources| && sources[j].device == dir;
        assert j < i ==> !Nested(sources[j].device, sources[i].device);
        assert i < j ==> !Nested(sources[i].device, sources[j].device);
      }
    }
  }

  /** What a push goes by. */
  datatype State = State(md5: Content -> Sum, enableCache: bool, files: Files, cache: map<Path, Entry>) {
    predicate IsCached(s: Source, ignoreOthers: bool) {
      enableCache && s.device in cache && cache[s.device].ignoreOthers == ignoreOthers
    }

    /** The sum for a host file, if any: the cached one, or that of the file on the device. */
    function KnownSum(s: Source, ignoreOthers: bool, rel: Path): Option<Sum> {
      var p := s.device + rel;
      if IsCached(s, ignoreOthers) then SumIn(cache[s.device].sums, p)
      else if p in files then Some(md5(files[p])) else None
    }

    /** Whether the push skips a host file. */
    predicate IsSkipped(s: Source, ignoreOthers: bool, rel: Path)
      requires rel in s.files
    {
      KnownSum(s, ignoreOthers, rel) == Some(md5(s.files[rel]))
    }

    ghost predicate AllSkipped(s: Source, ignoreOthers: bool) {
      forall rel <- s.files :: IsSkipped(s, ignoreOthers, rel)
    }

    /** No file of the directories is pushed. */
    ghost predicate UpToDate(sources: seq<Source>, deleteStale: bool) {
      forall j :: 0 <= j < |sources| ==> AllSkipped(sources[j], !deleteStale)
    }

    /** A push of s sends the file at p. */
    ghost predicate SendsFrom(s: Source, ignoreOthers: bool, p: Path) {
      exists rel <- s.files :: p == s.device + rel && !IsSkipped(s, ignoreOthers, rel)
    }

    /** A push of the first n directories sends the file at p. */
    ghost predicate Sends(sources: seq<Source>, n: nat, deleteStale: bool, p: Path)
      requires n <= |sources|
    {
      exists j :: 0 <= j < n && SendsFrom(sources[j], !deleteStale, p)
    }
  }

  /** With sound sums a push skips exactly the files that the device has already,
      except that sums cached without regard to other files leave these unknown. */
  lemma SkippedExactly(st: State, s: Source, ignoreOthers: bool, rel: Path)
    requires Injective(st.md5) && rel in s.files
    requires st.IsCached(s, ignoreOthers) ==> Sound(st.md5, st.files, s.device, st.cache[s.device])
    ensures var p := s.device + rel;
      st.IsSkipped(s, ignoreOthers, rel) <==>
        p in st.files && st.files[p] == s.files[rel] &&
        !(st.enableCache && s.device in st.cache && st.cache[s.device].ignoreOthers && ignoreOthers &&
          p !in st.cache[s.device].sums)
  {
    assert Under(s.device, s.device + rel);
  }

  /** In both states a push skips the same files of s. */
  ghost predicate SkipAlike(st: State, st': State, s: Source, ignoreOthers: bool) {
    forall rel <- s.files :: st.IsSkipped(s, ignoreOthers, rel) <==> st'.IsSkipped(s, ignoreOthers, rel)
  }

  /** And of the directories from the i-th on. */
  ghost predicate AlikeFrom(st: State, st': State, sources: seq<Source>, i: nat, deleteStale: bool) {
    forall j :: i <= j < |sources| ==> SkipAlike(st, st', sources[j], !deleteStale)
  }

  /** The entry of one directory has no say on the files of the others. */
  lemma StillAlike(st0: State, st: State, st': State, sources: seq<Source>, i: nat, deleteStale: bool)
    requires Separate(sources) && i < |sources| && st' == st.(cache := st'.cache)
    requires forall dir :: dir != sources[i].device ==> SameEntry(st.cache, st'.cache, dir)
    requires AlikeFrom(st0, st, sources, i, deleteStale)
    ensures AlikeFrom(st0, st', sources, i + 1, deleteStale)
  {
    forall j | i < j < |sources|
      ensures SkipAlike(st0, st', sources[j], !deleteStale)
    {
      assert !Nested(sources[i].device, sources[j].device) && SameEntry(st.cache, st'.cache, sources[j].device);
      assert SkipAlike(st0, st, sources[j], !deleteStale);
    }
  }

  lemma SendsMore(st0: State, st: State, sources: seq<Source>, i: nat, deleteStale: bool, p: Path)
    requires i < |sources| && SkipAlike(st0, st, sources[i], !deleteStale)
    ensures st0.Sends(sources, i + 1, deleteStale, p) <==>
            st0.Sends(sources, i, deleteStale, p) || st.SendsFrom(sources[i], !deleteStale, p)
  {
    assert st0.SendsFrom(sources[i], !deleteStale, p) <==> st.SendsFrom(sources[i], !deleteStale, p);
  }

  lemma TargetsSent(st: State, s: Source, ignoreOthers: bool, toPush: seq<Job>, p: Path)
    requires JobsFrom(Image(s), toPush)
    requires forall rel <- s.files :: IsTarget(toPush, s.device + rel) <==> !st.IsSkipped(s, ignoreOthers, rel)
    ensures IsTarget(toPush, p) <==> st.SendsFrom(s, ignoreOthers, p)
  {
    if IsTarget(toPush, p) {
      assert p in Image(s) && p == s.device + p[|s.device|..];
    }
  }

  lemma InTargets(jobs: seq<Job>, p: Path)
    ensures p in Targets(jobs) <==> IsTarget(jobs, p)
  {
    if IsTarget(jobs, p) {
      var i :| 0 <= i < |jobs| && jobs[i].to == p;
      assert Targets(jobs)[i] == p;
    }
  }

  /** A push sends something exactly if some file is not skipped. */
  lemma SomeSent(st: State, sources: seq<Source>, deleteStale: bool)
    ensures !st.UpToDate(sources, deleteStale) <==> exists p :: st.Sends(sources, |sources|, deleteStale, p)
  {
    if !st.UpToDate(sources, deleteStale) {
      var j :| 0 <= j < |sources| && !st.AllSkipped(sources[j], !deleteStale);
      var rel :| rel in sources[j].files && !st.IsSkipped(sources[j], !deleteStale, rel);
      assert st.SendsFrom(sources[j], !deleteStale, sources[j].device + rel);
      assert st.Sends(sources, |sources|, deleteStale, sources[j].device + rel);
    } else {
      forall p
        ensures !st.Sends(sources, |sources|, deleteStale, p)
      {
        assert forall j :: 0 <= j < |sources| ==> st.AllSkipped(sources[j], !deleteStale);
      }
    }
  }

  lemma NothingSent(st: State, sources: seq<Source>, deleteStale: bool, jobs: seq<Job>)
    requires forall p :: IsTarget(jobs, p) <==> st.Sends(sources, |sources|, deleteStale, p)
    ensures st.UpToDate(sources, deleteStale) <==> jobs == []
  {
    SomeSent(st, sources, deleteStale);
    assert jobs != [] ==> IsTarget(jobs, jobs[0].to);
  }

  // ------------------------------------------------------------- the device

  class DeviceUtils {
    const md5: Content -> Sum
    const enableCache: bool
    var files: Files
    var cache: map<Path, Entry>
    var pushed: seq<Path>                         // history: what has been sent

    constructor (md5: Content -> Sum, enableCache: bool, files: Files)
      ensures this.md5 == md5 && this.enableCache == enableCache && this.files == files && cache == map[] && pushed == []
    {
      this.md5, this.enableCache, this.files, this.cache, this.pushed := md5, enableCache, files, map[], [];
    }

    ghost predicate Valid()
      reads this
    {
      forall dir <- cache :: Sound(md5, files, dir, cache[dir])
    }

    function Now(): State
      reads this
    {
      State(md5, enableCache, files, cache)
    }

    method DeviceChecksums(s: Source, ignoreOthers: bool) returns (sums: map<Path, Sum>)
      requires Valid()
      modifies this`cache
      ensures Valid() && Sound(md5, files, s.device, Entry(ignoreOthers, sums))
      ensures forall rel <- s.files :: NeedsPush(md5, s, sums, rel) <==> !old(Now()).IsSkipped(s, ignoreOthers, rel)
      ensures cache == if old(Now()).IsCached(s, ignoreOthers) then old(cache) else old(cache)[s.device := Entry(ignoreOthers, sums)]
      ensures !old(Now()).IsCached(s, ignoreOthers) ==>
        forall p :: p in sums <==> p in files && Under(s.device, p) && (ignoreOthers ==> p in Image(s))
    {
      if enableCache && s.device in cache && cache[s.device].ignoreOthers == ignoreOthers {
        return cache[s.device].sums;
      }
      if ignoreOthers {
        sums := SumsOf(md5, files, set rel <- s.files :: s.device + rel);
      } else {
        sums := AllSums(md5, files, s.device);
      }
      cache := cache[s.device := Entry(ignoreOthers, sums)];
    }

    /** The files to push, those that are up to date, and those on the device only
        (of use when stale files are tracked). */
    method GetChangedAndStaleFiles(s: Source, trackStale: bool)
      returns (toPush: seq<Job>, upToDate: seq<Path>, toDelete: set<Path>)
      requires Valid() && Injective(md5)
      modifies this`cache
      ensures Valid() && cache.Keys <= old(cache.Keys) + {s.device}
      ensures forall dir :: dir != s.device ==> SameEntry(old(cache), cache, dir)
      ensures JobsFrom(Image(s), toPush) && NothingMissing(files, s, toPush)
      ensures forall rel <- s.files :: IsTarget(toPush, s.device + rel) <==> !old(Now()).IsSkipped(s, !trackStale, rel)
      ensures forall rel <- s.files :: rel in upToDate <==> old(Now()).IsSkipped(s, !trackStale, rel)
      ensures trackStale ==> forall p :: p in toDelete <==> p in files && Under(s.device, p) && p !in Image(s)
    {
      var ignoreOthers := !trackStale;
      var sums := DeviceChecksums(s, ignoreOthers);
      toPush, upToDate, toDelete := CompareSums(s, ignoreOthers, sums);
      if trackStale {
        AllKnown(md5, files, s.device, sums);
      }
    }

    method CompareSums(s: Source, ghost ignoreOthers: bool, sums: map<Path, Sum>)
      returns (toPush: seq<Job>, upToDate: seq<Path>, toDelete: set<Path>)
      requires Injective(md5) && Sound(md5, files, s.device, Entry(ignoreOthers, sums))
      ensures JobsFrom(Image(s), toPush) && NothingMissing(files, s, toPush)
      ensures IsSplit(md5, s, sums, {}, toPush, upToDate)
      ensures forall p :: p in toDelete <==> p in sums && p !in Image(s)
    {
      toPush, upToDate := [], [];
      var left, rest := sums, s.files.Keys;
      while rest != {}
        invariant rest <= s.files.Keys && JobsFrom(Image(s), toPush)
        invariant IsSplit(md5, s, sums, rest, toPush, upToDate)
        invariant IsLeft(s, sums, rest, left)
        decreases rest
      {
        var rel :| rel in rest;
        var p := s.device + rel;
        LeftWithout(s, sums, rest, left, rel);
        SplitMore(md5, s, sums, rest, toPush, upToDate, rel);
        if p in left && left[p] == md5(s.files[rel]) {
          upToDate := upToDate + [rel];
        } else {
          toPush := toPush + [Job(s.files[rel], p)];
        }
        left := left - {p};
        rest := rest - {rel};
      }
      toDelete := left.Keys;
      SplitMisses(s, ignoreOthers, sums, toPush, upToDate);
    }

    /** Files whose sums are right are on the device. */
    lemma SplitMisses(s: Source, ignoreOthers: bool, sums: map<Path, Sum>, toPush: seq<Job>, upToDate: seq<Path>)
      requires Injective(md5) && Sound(md5, files, s.device, Entry(ignoreOthers, sums))
      requires IsSplit(md5, s, sums, {}, toPush, upToDate)
      ensures NothingMissing(files, s, toPush)
    {
      forall rel <- s.files
        ensures Provided(files, toPush, s.device + rel, s.files[rel])
      {
        assert !NeedsPush(md5, s, sums, rel) ==> md5(files[s.device + rel]) == md5(s.files[rel]);
      }
    }

    method CollectWork(sources: seq<Source>, deleteStale: bool) returns (jobs: seq<Job>, stale: set<Path>)
      requires Valid() && Injective(md5) && Separate(sources)
      modifies this`cache
      ensures WorkFor(sources, |sources|, deleteStale, files, jobs, stale)
      ensures forall p :: IsTarget(jobs, p) <==> old(Now()).Sends(sources, |sources|, deleteStale, p)
      ensures Valid() && forall dir <- cache :: dir in old(cache) || IsDevice(sources, dir)
    {
      jobs, stale := [], {};
      NoWork(sources, deleteStale, files);
      for i := 0 to |sources|
        invariant Valid() && forall dir <- cache :: dir in old(cache) || IsDevice(sources, dir)
        invariant WorkFor(sources, i, deleteStale, files, jobs, stale)
        invariant AlikeFrom(old(Now()), Now(), sources, i, deleteStale)
        invariant forall p :: IsTarget(jobs, p) <==> old(Now()).Sends(sources, i, deleteStale, p)
      {
        ghost var st := Now();
        jobs, stale := CollectMore(sources, i, deleteStale, jobs, stale);
        StillAlike(old(Now()), st, Now(), sources, i, deleteStale);
        forall p
          ensures old(Now()).Sends(sources, i + 1, deleteStale, p) <==>
                  old(Now()).Sends(sources, i, deleteStale, p) || st.SendsFrom(sources[i], !deleteStale, p)
        {
          SendsMore(old(Now()), st, sources, i, deleteStale, p);
        }
        assert IsDevice(sources, sources[i].device);
      }
    }

    method CollectMore(sources: seq<Source>, i: nat, deleteStale: bool, jobs0: seq<Job>, stale0: set<Path>)
      returns (jobs: seq<Job>, stale: set<Path>)
      requires Valid() && Injective(md5) && Separate(sources) && i < |sources|
      requires WorkFor(sources, i, deleteStale, files, jobs0, stale0)
      modifies this`cache
      ensures WorkFor(sources, i + 1, deleteStale, files, jobs, stale)
      ensures forall p :: IsTarget(jobs, p) <==> IsTarget(jobs0, p) || old(Now()).SendsFrom(sources[i], !deleteStale, p)
      ensures Valid() && cache.Keys <= old(cache.Keys) + {sources[i].device}
      ensures forall dir :: dir != sources[i].device ==> SameEntry(old(cache), cache, dir)
    {
      var toPush, upToDate, toDelete := GetChangedAndStaleFiles(sources[i], deleteStale);
      MoreJobs(sources, i, jobs0, toPush);
      MoreProvided(sources, i, files, jobs0, toPush);
      if deleteStale {
        MoreStale(sources, i, files, stale0, toDelete);
      }
      forall p
        ensures IsTarget(jobs0 + toPush, p) <==> IsTarget(jobs0, p) || old(Now()).SendsFrom(sources[i], !deleteStale, p)
      {
        TargetConcat(jobs0, toPush, p);
        TargetsSent(old(Now()), sources[i], !deleteStale, toPush, p);
      }
      jobs, stale := jobs0 + toPush, stale0 + toDelete;
    }

    method PushFiles(jobs: seq<Job>)
      modifies this`files, this`pushed
      ensures AfterJobs(old(files), jobs, files)
      ensures pushed == old(pushed) + Targets(jobs)
    {
      for i := 0 to |jobs|
        invariant AfterJobs(old(files), jobs[..i], files)
        invariant pushed == old(pushed) + Targets(jobs)[..i]
      {
        files := files[jobs[i].to := jobs[i].content];
        pushed := pushed + [jobs[i].to];
        assert jobs[..i + 1] == jobs[..i] + [jobs[i]];
        forall p
          ensures IsTarget(jobs[..i + 1], p) <==> IsTarget(jobs[..i], p) || p == jobs[i].to
        {
          TargetConcat(jobs[..i], [jobs[i]], p);
          assert [jobs[i]][0].to == jobs[i].to;
        }
      }
      assert jobs[..|jobs|] == jobs && Targets(jobs)[..|jobs|] == Targets(jobs);
    }

    /** Runs the commit functions of all directories. */
    method CommitAll(sources: seq<Source>, deleteStale: bool)
      requires Separate(sources)
      modifies this`cache
      ensures Committed(md5, cache, sources, |sources|, deleteStale)
      ensures forall dir :: !IsDevice(sources, dir) ==> SameEntry(old(cache), cache, dir)
    {
      for i := 0 to |sources|
        invariant Committed(md5, cache, sources, i, deleteStale)
        invariant forall dir :: !IsDevice(sources, dir) ==> SameEntry(old(cache), cache, dir)
      {
        CommitOne(sources, i, deleteStale);
      }
    }

    method CommitOne(sources: seq<Source>, i: nat, deleteStale: bool)
      requires Separate(sources) && i < |sources| && Committed(md5, cache, sources, i, deleteStale)
      modifies this`cache
      ensures Committed(md5, cache, sources, i + 1, deleteStale)
      ensures forall dir :: !IsDevice(sources, dir) ==> SameEntry(old(cache), cache, dir)
    {
      var sums := HostChecksums(sources[i], deleteStale);
      CommittedMore(md5, cache, sources, i, deleteStale, Entry(!deleteStale, sums));
      assert IsDevice(sources, sources[i].device);
      cache := cache[sources[i].device := Entry(!deleteStale, sums)];
    }

    /** The sums of the host files, under their device paths. */
    method HostChecksums(s: Source, ghost trackStale: bool) returns (sums: map<Path, Sum>)
      ensures IsCommit(md5, s, trackStale, Entry(!trackStale, sums))
    {
      var image := Image(s);
      sums := map p | p in image :: md5(image[p]);
    }

    /** The entries that are left and those just committed fit the pushed files. */
    lemma PushedIsSound(sources: seq<Source>, deleteStale: bool, before: Files, entries: map<Path, Entry>)
      requires Separate(sources) && files == Pushed(sources, deleteStale, before)
      requires Committed(md5, cache, sources, |sources|, deleteStale)
      requires forall dir :: !IsDevice(sources, dir) ==> SameEntry(entries, cache, dir)
      requires forall dir <- entries :: Sound(md5, before, dir, entries[dir])
      requires AreApart(entries.Keys, sources)
      ensures Valid()
    {
      forall dir <- cache
        ensures Sound(md5, files, dir, cache[dir])
      {
        if IsDevice(sources, dir) {
          var j :| 0 <= j < |sources| && sources[j].device == dir;
          SoundCommit(md5, sources, j, deleteStale, before, cache[dir]);
        } else {
          SoundElsewhere(md5, sources, deleteStale, before, dir, cache[dir]);
        }
      }
    }

    /** After a push no host file needs another one, with the cache or without. */
    lemma PushedIsUpToDate(sources: seq<Source>, deleteStale: bool, before: Files)
      requires Separate(sources) && files == Pushed(sources, deleteStale, before)
      requires Committed(md5, cache, sources, |sources|, deleteStale)
      ensures Now().UpToDate(sources, deleteStale)
    {
      forall j, rel | 0 <= j < |sources| && rel in sources[j].files
        ensures Now().IsSkipped(sources[j], !deleteStale, rel)
      {
        ImagesAt(sources, j, sources[j].device + rel);
      }
    }

    /** Cached directories are pushed to again, or lie apart from what is pushed. */
    ghost predicate Apart(sources: seq<Source>)
      reads this
    {
      AreApart(cache.Keys, sources)
    }

    method DoWork(ghost sources: seq<Source>, deleteStale: bool, jobs: seq<Job>, stale: set<Path>)
      requires Separate(sources) && WorkFor(sources, |sources|, deleteStale, files, jobs, stale)
      modifies this`files, this`pushed
      ensures files == Pushed(sources, deleteStale, old(files))
      ensures pushed == old(pushed) + Targets(jobs)
    {
      if deleteStale && stale != {} {
        files := files - stale;
      }
      assert files == if deleteStale then old(files) - stale else old(files);
      PushFiles(jobs);
      WorkDone(sources, deleteStale, old(files), jobs, stale, files);
    }

    /** Brings the cache up to date after a push on the files before. */
    method UpdateCache(sources: seq<Source>, deleteStale: bool, ghost before: Files)
      requires Separate(sources) && Apart(sources) && files == Pushed(sources, deleteStale, before)
      requires forall dir <- cache :: Sound(md5, before, dir, cache[dir])
      modifies this`cache
      ensures Valid() && Now().UpToDate(sources, deleteStale)
      ensures forall dir <- cache :: dir in old(cache) || IsDevice(sources, dir)
    {
      CommitAll(sources, deleteStale);
      PushedIsSound(sources, deleteStale, before, old(cache));
      PushedIsUpToDate(sources, deleteStale, before);
    }

    /** Deletes what is stale and pushes what has changed, then brings the cache
        up to date. Whatever the cache, the device ends up as Pushed says, exactly
        the files that are not skipped have been sent, and no file needs another push. */
    method PushChangedFiles(sources: seq<Source>, deleteStale: bool)
      requires Valid() && Injective(md5) && Separate(sources) && Apart(sources)
      modifies this
      ensures files == Pushed(sources, deleteStale, old(files))
      ensures Now().UpToDate(sources, deleteStale)
      ensures old(pushed) <= pushed
      ensures forall p :: p in pushed[|old(pushed)|..] <==> old(Now()).Sends(sources, |sources|, deleteStale, p)
      ensures old(Now()).UpToDate(sources, deleteStale) <==> pushed == old(pushed)
      ensures Apart(sources)
      ensures Valid() && forall dir <- cache :: dir in old(cache) || IsDevice(sources, dir)
    {
      var jobs, stale := CollectWork(sources, deleteStale);
      NothingSent(old(Now()), sources, deleteStale, jobs);
      DoWork(sources, deleteStale, jobs, stale);
      forall p
        ensures p in Targets(jobs) <==> IsTarget(jobs, p)
      {
        InTargets(jobs, p);
      }
      StayApart(old(cache.Keys), cache.Keys, sources);
      UpdateCache(sources, deleteStale, old(files));
      StayApart(old(cache.Keys), cache.Keys, sources);
    }
  }

  predicate SameEntry(a: map<Path, Entry>, b: map<Path, Entry>, dir: Path) {
    (dir in a <==> dir in b) && (dir in a ==> a[dir] == b[dir])
  }

  ghost predicate IsDevice(sources: seq<Source>, dir: Path) {
    exists i :: 0 <= i < |sources| && sources[i].device == dir
  }

  // --------------------------------------------------------------------- runs

  datatype Call = Call(sources: seq<Source>, deleteStale: bool)

  ghost function PushedRun(calls: seq<Call>, files: Files): Files
    decreases |calls|
  {
    if calls == [] then files else PushedRun(calls[1..], Pushed(calls[0].sources, calls[0].deleteStale, files))
  }

  /** All calls of a run push to some of these directories, none nested in another. */
  ghost predicate Within(calls: seq<Call>, dirs: set<Path>) {
    (forall a, b :: a in dirs && b in dirs && a != b ==> !Nested(a, b)) &&
    forall k :: 0 <= k < |calls| ==>
      Separate(calls[k].sources) &&
      forall i :: 0 <= i < |calls[k].sources| ==> calls[k].sources[i].device in dirs
  }

  /** Any run leaves the device as it is meant to be, with the cache or without. */
  method PushRun(u: DeviceUtils, calls: seq<Call>, ghost dirs: set<Path>)
    requires u.Valid() && Injective(u.md5) && Within(calls, dirs) && u.cache.Keys <= dirs
    modifies u
    ensures u.Valid() && u.files == PushedRun(calls, old(u.files))
  {
    for k := 0 to |calls|
      invariant u.Valid() && u.cache.Keys <= dirs
      invariant PushedRun(calls[k..], u.files) == PushedRun(calls, old(u.files))
    {
      assert calls[k..][1..] == calls[k + 1..];
      u.PushChangedFiles(calls[k].sources, calls[k].deleteStale);
    }
  }

  /** A push after one of the same host files sends nothing, and leaves the device
      as it is. What it requires is what PushChangedFiles ensures. */
  method PushAgain(u: DeviceUtils, sources: seq<Source>, deleteStale: bool, ghost before: Files)
    requires u.Valid() && Injective(u.md5) && Separate(sources) && u.Apart(sources)
    requires u.files == Pushed(sources, deleteStale, before) && u.Now().UpToDate(sources, deleteStale)
    modifies u
    ensures u.pushed == old(u.pushed) && u.files == old(u.files)
    ensures u.Valid() && u.Apart(sources) && u.Now().UpToDate(sources, deleteStale)
  {
    PushedTwice(sources, deleteStale, before);
    u.PushChangedFiles(sources, deleteStale);
  }

  lemma PushedTwice(sources: seq<Source>, deleteStale: bool, files: Files)
    requires Separate(sources)
    ensures var after := Pushed(sources, deleteStale, files);
      Pushed(sources, deleteStale, after) == after
  {
  }

  /** The same run on two devices with the same files, one of them cached. */
  method CachedAsUncached(cached: DeviceUtils, uncached: DeviceUtils, calls: seq<Call>, ghost dirs: set<Path>)
    requires cached != uncached && cached.enableCache && !uncached.enableCache
    requires cached.Valid() && Injective(cached.md5) && cached.cache.Keys <= dirs
    requires uncached.Valid() && Injective(uncached.md5) && uncached.cache.Keys <= dirs
    requires Within(calls, dirs) && cached.files == uncached.files
    modifies cached, uncached
    ensures cached.files == uncached.files
  {
    PushRun(cached, calls, dirs);
    PushRun(uncached, calls, dirs);
  }
}
