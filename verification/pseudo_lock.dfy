/** The pseudo lock of cloud_storage.py and the guarded download built on it.

    Any number of processes run GetIfHashChanged at once, on any paths. Every
    system call is one step; steps of different processes interleave freely, and
    a process may die between any two of them. */
module PseudoLock {
  import opened Wrappers

  type Pid = nat
  type Inode = nat
  type Path = string
  type Content = string
  type Hash = string

  /** What does not change during a run: the hash function, the hash that callers
      ask for at each download path, the remote objects, and the local files
      found when the run starts. */
  datatype World = World(
    hash: Content -> Hash,
    want: Path -> Hash,
    remote: Path -> Content,
    init: map<Path, Content>)

  /** How a call ends. */
  datatype Ending = Returned(changed: bool) | Raised

  /** Where a process is. The inode is the one its lock-file descriptor refers to. */
  datatype Pc =
    | Idle                                         // in the wait loop of _FileLock
    | Guarded                                      // owns the guard
    | Opened(ino: Inode)                           // guard, lock file open
    | LockFailed(ino: Inode)                       // guard, flock was refused
    | Backoff(ino: Inode)                          // guard released, still to close
    | Entered(ino: Inode)                          // guard and flock
    | CheckExists(ino: Inode)                      // flock only: the body starts
    | CheckHash(ino: Inode)
    | Fetch(ino: Inode)                            // first download attempt
    | FetchAgain(ino: Inode)                       // retry after a server error
    | Fetched(ino: Inode, tmp: Content)            // download complete in a temporary file
    | Releasing(ino: Inode, out: Ending)          // body over, waiting for the guard
    | RelGuarded(ino: Inode, out: Ending)         // guard and flock
    | RelUnlocked(ino: Inode, out: Ending)        // guard, flock dropped
    | RelClosed(out: Ending)                      // guard, descriptor closed
    | RelRemoved(out: Ending)                     // guard, removal attempted
    | Orphaned(ino: Inode)                         // release timed out, flock kept
    | Finished(out: Ending)
    | Dead

  datatype Proc = Proc(path: Path, pc: Pc)

  datatype State = State(
    procs: map<Pid, Proc>,
    guard: Option<Pid>,            // flock owner of the global lock file
    linked: map<Path, Inode>,      // directory entries of the lock files
    locks: map<Inode, Pid>,        // flock owners
    nextInode: Inode,
    files: map<Path, Content>,     // download paths
    moves: multiset<Path>)         // history: completed downloads

  predicate HasGuard(pc: Pc) {
    pc.Guarded? || pc.Opened? || pc.LockFailed? || pc.Entered? ||
    pc.RelGuarded? || pc.RelUnlocked? || pc.RelClosed? || pc.RelRemoved?
  }

  /** The inode on which a process at pc owns the flock. */
  function LockOf(pc: Pc): Option<Inode> {
    if pc.Entered? || pc.CheckExists? || pc.CheckHash? || pc.Fetch? || pc.FetchAgain? ||
       pc.Fetched? || pc.Releasing? || pc.RelGuarded? || pc.Orphaned?
    then Some(pc.ino) else None
  }

  /** In the wait loop or in an acquiring attempt. */
  predicate IsAcquiring(pc: Pc) {
    pc.Idle? || pc.Guarded? || pc.Opened? || pc.LockFailed? || pc.Backoff? || pc.Entered?
  }

  /** Between the return of the acquiring attempt and the start of the releasing one. */
  predicate InBody(pc: Pc) {
    pc.CheckExists? || pc.CheckHash? || pc.Fetch? || pc.FetchAgain? || pc.Fetched?
  }

  /** What one system call does to the shared state. */
  datatype Change =
    | Keep
    | GrabGuard                    // flock(LOCK_EX | LOCK_NB) on the global lock file
    | FreeGuard
    | Create                       // open(..., 'w') of a lock file that is not there
    | Lock(i: Inode)
    | Unlock(i: Inode)             // flock(LOCK_UN), or closing the descriptor that has it
    | Unlink                       // os.remove of the lock file
    | Replace(c: Content)          // shutil.move over the download path
    | Perish                       // all descriptors of a dead process are closed

  /** Process p goes to pc with the given change of the shared state. */
  datatype Event =
    | Call(p: Pid, path: Path)
    | Act(p: Pid, pc: Pc, change: Change)

  /** The transitions of one process on path, line by line. With guarded == false
      the global lock file excludes nobody. */
  predicate Allowed(w: World, guarded: bool, s: State, path: Path, pc: Pc, pc': Pc, ch: Change) {
    if ch.Perish? then !pc.Dead? && pc'.Dead? else
    match pc
    // _AttemptPseudoLockAcquisition inside the wait loop
    case Idle =>
      (ch.GrabGuard? && (guarded ==> s.guard.None?) && pc' == Guarded) ||
      (ch.Keep? && (pc' == Idle || pc' == Finished(Raised)))           // busy or failed; time out
    case Guarded =>
      (if path in s.linked then ch.Keep? && pc' == Opened(s.linked[path])
       else ch.Create? && pc' == Opened(s.nextInode)) ||
      (ch.FreeGuard? && pc' == Idle)                                   // the open raised IOError
    case Opened(ino) =>
      if ino in s.locks then ch.Keep? && pc' == LockFailed(ino)
      else ch == Lock(ino) && pc' == Entered(ino)
    case LockFailed(ino) => ch.FreeGuard? && pc' == Backoff(ino)
    case Backoff(ino) => ch.Keep? && pc' == Idle
    case Entered(ino) => ch.FreeGuard? && pc' == CheckExists(ino)
    // the body of GetIfHashChanged, with _GetLocked
    case CheckExists(ino) => ch.Keep? && pc' == if path in s.files then CheckHash(ino) else Fetch(ino)
    case CheckHash(ino) =>
      ch.Keep? && pc' == (if path !in s.files then Releasing(ino, Raised)
                          else if Matches(w, s, path) then Releasing(ino, Returned(false))
                          else Fetch(ino))
    case Fetch(ino) =>
      ch.Keep? && (pc' == Fetched(ino, w.remote(path)) ||
                   pc' == FetchAgain(ino) ||                           // ServerError
                   pc' == Releasing(ino, Raised))                      // any other error
    case FetchAgain(ino) =>
      ch.Keep? && (pc' == Fetched(ino, w.remote(path)) || pc' == Releasing(ino, Raised))
    case Fetched(ino, tmp) =>
      (ch == Replace(tmp) && pc' == Releasing(ino, Returned(true))) ||
      (ch.Keep? && pc' == Releasing(ino, Raised))                      // the move failed
    // _AttemptPseudoLockRelease inside the wait loop
    case Releasing(ino, out) =>
      (ch.GrabGuard? && (guarded ==> s.guard.None?) && pc' == RelGuarded(ino, out)) ||
      (ch.Keep? && (pc' == Releasing(ino, out) || pc' == Orphaned(ino)))  // busy or failed; time out
    case RelGuarded(ino, out) => ch == Unlock(ino) && pc' == RelUnlocked(ino, out)
    case RelUnlocked(ino, out) => ch.Keep? && pc' == RelClosed(out)
    case RelClosed(out) => (ch.Unlink? || ch.Keep?) && pc' == RelRemoved(out)  // any OSError is ignored
    case RelRemoved(out) => ch.FreeGuard? && pc' == Finished(out)
    case Orphaned(ino) => ch == Unlock(ino) && pc' == Finished(Raised) // collected at last
    case Finished(_) => false
    case Dead => false
  }

  predicate Matches(w: World, s: State, path: Path) {
    path in s.files && w.hash(s.files[path]) == w.want(path)
  }

  predicate Enabled(w: World, guarded: bool, s: State, e: Event) {
    match e
    case Call(p, _) => p in s.procs ==> s.procs[p].pc.Finished?
    case Act(p, pc, ch) =>
      p in s.procs && Allowed(w, guarded, s, s.procs[p].path, s.procs[p].pc, pc, ch)
  }

  function Changed(s: State, p: Pid, path: Path, ch: Change): State {
    match ch
    case Keep => s
    case GrabGuard => s.(guard := Some(p))
    case FreeGuard => s.(guard := if s.guard == Some(p) then None else s.guard)
    case Create => s.(linked := s.linked[path := s.nextInode], nextInode := s.nextInode + 1)
    case Lock(i) => s.(locks := s.locks[i := p])
    case Unlock(i) => s.(locks := s.locks - {i})
    case Unlink => s.(linked := s.linked - {path})
    case Replace(c) => s.(files := s.files[path := c], moves := s.moves + multiset{path})
    case Perish => s.(guard := if s.guard == Some(p) then None else s.guard,
                      locks := map i | i in s.locks && s.locks[i] != p :: s.locks[i])
  }

  function Apply(s: State, e: Event): State
    requires e.Act? ==> e.p in s.procs
  {
    match e
    case Call(p, path) => s.(procs := s.procs[p := Proc(path, Idle)])
    case Act(p, pc, ch) =>
      var path := s.procs[p].path;
      Changed(s, p, path, ch).(procs := s.procs[p := Proc(path, pc)])
  }

  /** Different paths are linked to different files. */
  ghost predicate LinksInv(s: State) {
    (forall path <- s.linked :: s.linked[path] < s.nextInode) &&
    (forall a <- s.linked, b <- s.linked :: s.linked[a] == s.linked[b] ==> a == b)
  }

  /** Lock files left behind by earlier runs may be linked; nobody holds anything. */
  ghost predicate Init(w: World, s: State) {
    s.procs == map[] && s.guard.None? && s.locks == map[] &&
    LinksInv(s) && s.files == w.init && s.moves == multiset{}
  }

  /** The events es can happen one after the other from s. */
  predicate CanRun(w: World, guarded: bool, s: State, es: seq<Event>)
    decreases |es|
  {
    es == [] || (Enabled(w, guarded, s, es[0]) && CanRun(w, guarded, Apply(s, es[0]), es[1..]))
  }

  function After(w: World, guarded: bool, s: State, es: seq<Event>): State
    requires CanRun(w, guarded, s, es)
    decreases |es|
  {
    if es == [] then s else After(w, guarded, Apply(s, es[0]), es[1..])
  }

  /** The remote object for path has the hash that is asked for. */
  predicate Published(w: World, path: Path) {
    w.hash(w.remote(path)) == w.want(path)
  }

  /** What may go wrong at any time: a process dies, waits on or gives up, and its
      system calls and downloads fail. All results hold with these steps. */
  lemma FailuresHappen(w: World, guarded: bool, s: State, p: Pid)
    requires p in s.procs && !s.procs[p].pc.Dead?
    ensures Enabled(w, guarded, s, Act(p, Dead, Perish))
    ensures var pc := s.procs[p].pc;
      (pc.Idle? ==> Enabled(w, guarded, s, Act(p, Idle, Keep)) && Enabled(w, guarded, s, Act(p, Finished(Raised), Keep))) &&
      (pc.Guarded? ==> Enabled(w, guarded, s, Act(p, Idle, FreeGuard))) &&
      (pc.Fetch? ==> Enabled(w, guarded, s, Act(p, FetchAgain(pc.ino), Keep))) &&
      (Fetching(pc) ==> Enabled(w, guarded, s, Act(p, Releasing(pc.ino, Raised), Keep))) &&
      (pc.Releasing? ==> Enabled(w, guarded, s, Act(p, pc, Keep)) && Enabled(w, guarded, s, Act(p, Orphaned(pc.ino), Keep))) &&
      (pc.RelClosed? ==> Enabled(w, guarded, s, Act(p, RelRemoved(pc.out), Keep)))
  {
  }

  // ---------------------------------------------------------------- invariants

  ghost predicate GuardInv(s: State) {
    forall p :: s.guard == Some(p) <==> p in s.procs && HasGuard(s.procs[p].pc)
  }

  /** A lock owner's inode is the one linked at its path. */
  ghost predicate ProcLockInv(s: State, p: Pid)
    requires p in s.procs
  {
    var Proc(path, pc) := s.procs[p];
    (LockOf(pc).Some? ==>
       var ino := LockOf(pc).value;
       ino in s.locks && s.locks[ino] == p && path in s.linked && s.linked[path] == ino) &&
    (pc.Opened? ==> path in s.linked && s.linked[path] == pc.ino) &&
    (pc.RelUnlocked? || pc.RelClosed? ==> path in s.linked ==> s.linked[path] !in s.locks)
  }

  ghost predicate OwnersInv(s: State) {
    forall i <- s.locks :: s.locks[i] in s.procs && LockOf(s.procs[s.locks[i]].pc) == Some(i) && i < s.nextInode
  }

  ghost predicate LockInv(s: State) {
    (forall p <- s.procs :: ProcLockInv(s, p)) && OwnersInv(s) && LinksInv(s)
  }

  /** What a transition means for the guard and the lock, whatever line it is. */
  predicate Summary(s: State, path: Path, pc: Pc, pc': Pc, ch: Change) {
    match ch
    case Keep =>
      HasGuard(pc') == HasGuard(pc) && LockOf(pc') == LockOf(pc) && !pc'.RelUnlocked? &&
      (pc'.Opened? ==> path in s.linked && pc'.ino == s.linked[path]) &&
      (pc'.RelClosed? ==> pc.RelUnlocked?)
    case GrabGuard => s.guard.None? && !HasGuard(pc) && HasGuard(pc') && LockOf(pc') == LockOf(pc) &&
      !pc'.Opened? && !pc'.RelUnlocked? && !pc'.RelClosed?
    case FreeGuard => HasGuard(pc) && !HasGuard(pc') && LockOf(pc') == LockOf(pc)
    case Create => pc.Guarded? && path !in s.linked && pc' == Opened(s.nextInode)
    case Lock(i) => pc == Opened(i) && i !in s.locks && pc' == Entered(i)
    case Unlock(i) => LockOf(pc) == Some(i) && LockOf(pc').None? && HasGuard(pc') == HasGuard(pc) &&
      !pc'.Opened?
    case Unlink => pc.RelClosed? && pc'.RelRemoved?
    case Replace(_) => pc.Fetched? && pc'.Releasing? && pc'.ino == pc.ino
    case Perish => pc'.Dead?
  }

  lemma Summarize(w: World, s: State, path: Path, pc: Pc, pc': Pc, ch: Change)
    requires Allowed(w, true, s, path, pc, pc', ch)
    ensures Summary(s, path, pc, pc', ch)
  {
    if IsAcquiring(pc) {
      SummarizeAcquiring(w, s, path, pc, pc', ch);
    } else if InBody(pc) {
      SummarizeBody(w, s, path, pc, pc', ch);
    } else {
      SummarizeReleasing(w, s, path, pc, pc', ch);
    }
  }

  lemma SummarizeAcquiring(w: World, s: State, path: Path, pc: Pc, pc': Pc, ch: Change)
    requires IsAcquiring(pc) && Allowed(w, true, s, path, pc, pc', ch)
    ensures Summary(s, path, pc, pc', ch)
  {
  }

  lemma SummarizeBody(w: World, s: State, path: Path, pc: Pc, pc': Pc, ch: Change)
    requires InBody(pc) && Allowed(w, true, s, path, pc, pc', ch)
    ensures Summary(s, path, pc, pc', ch)
  {
  }

  lemma SummarizeReleasing(w: World, s: State, path: Path, pc: Pc, pc': Pc, ch: Change)
    requires !IsAcquiring(pc) && !InBody(pc) && Allowed(w, true, s, path, pc, pc', ch)
    ensures Summary(s, path, pc, pc', ch)
  {
  }

  lemma GuardKept(s: State, p: Pid, pc: Pc, ch: Change)
    requires GuardInv(s) && p in s.procs && Summary(s, s.procs[p].path, s.procs[p].pc, pc, ch)
    ensures GuardInv(Apply(s, Act(p, pc, ch)))
  {
  }

  lemma OwnLockKept(s: State, p: Pid, pc: Pc, ch: Change)
    requires GuardInv(s) && LockInv(s)
    requires p in s.procs && Summary(s, s.procs[p].path, s.procs[p].pc, pc, ch)
    ensures ProcLockInv(Apply(s, Act(p, pc, ch)), p)
  {
    assert ProcLockInv(s, p);
  }

  lemma OtherLockKept(s: State, p: Pid, pc: Pc, ch: Change, q: Pid)
    requires GuardInv(s) && LockInv(s)
    requires p in s.procs && Summary(s, s.procs[p].path, s.procs[p].pc, pc, ch) && q in s.procs && q != p
    ensures ProcLockInv(Apply(s, Act(p, pc, ch)), q)
  {
    assert ProcLockInv(s, p) && ProcLockInv(s, q);
  }

  lemma OwnersKept(s: State, p: Pid, pc: Pc, ch: Change)
    requires GuardInv(s) && LockInv(s)
    requires p in s.procs && Summary(s, s.procs[p].path, s.procs[p].pc, pc, ch)
    ensures OwnersInv(Apply(s, Act(p, pc, ch)))
  {
    var s' := Apply(s, Act(p, pc, ch));
    assert ProcLockInv(s, p);
    forall i | i in s'.locks
      ensures s'.locks[i] in s'.procs && LockOf(s'.procs[s'.locks[i]].pc) == Some(i) && i < s'.nextInode
    {
      assert i in s.locks || ch == Lock(i);
    }
  }

  lemma LockKept(s: State, p: Pid, pc: Pc, ch: Change)
    requires GuardInv(s) && LockInv(s)
    requires p in s.procs && Summary(s, s.procs[p].path, s.procs[p].pc, pc, ch)
    ensures LockInv(Apply(s, Act(p, pc, ch)))
  {
    OwnersKept(s, p, pc, ch);
    forall q | q in s.procs
      ensures ProcLockInv(Apply(s, Act(p, pc, ch)), q)
    {
      if q == p {
        OwnLockKept(s, p, pc, ch);
      } else {
        OtherLockKept(s, p, pc, ch, q);
      }
    }
  }

  ghost predicate Inv(s: State) {
    GuardInv(s) && LockInv(s)
  }

  lemma CallKeeps(s: State, p: Pid, path: Path)
    requires Inv(s) && (p in s.procs ==> s.procs[p].pc.Finished?)
    ensures Inv(Apply(s, Call(p, path)))
  {
    var s' := Apply(s, Call(p, path));
    forall q | q in s'.procs
      ensures ProcLockInv(s', q)
    {
      assert q in s.procs ==> ProcLockInv(s, q);
    }
  }

  lemma InvKept(w: World, s: State, e: Event)
    requires Inv(s) && Enabled(w, true, s, e)
    ensures Inv(Apply(s, e))
  {
    match e
    case Call(p, path) =>
      CallKeeps(s, p, path);
    case Act(p, pc, ch) =>
      Summarize(w, s, s.procs[p].path, s.procs[p].pc, pc, ch);
      GuardKept(s, p, pc, ch);
      LockKept(s, p, pc, ch);
  }

  // ------------------------------------------------------------------- files

  function EndingOf(pc: Pc): Option<Ending> {
    if pc.Releasing? || pc.RelGuarded? || pc.RelUnlocked? || pc.RelClosed? || pc.RelRemoved? || pc.Finished?
    then Some(pc.out) else None
  }

  ghost predicate ProcFileInv(w: World, s: State, p: Pid)
    requires p in s.procs
  {
    var Proc(path, pc) := s.procs[p];
    (pc.CheckHash? ==> path in s.files) &&
    (pc.Fetch? || pc.FetchAgain? || pc.Fetched? ==> !Matches(w, s, path)) &&
    (pc.Fetched? ==> pc.tmp == w.remote(path)) &&
    (HasReturned(pc) ==> Matches(w, s, path)) &&
    (EndingOf(pc) == Some(Returned(true)) ==> s.moves[path] > 0)
  }

  /** How many downloads may replace the file at path: none if it is right from the start. */
  function Budget(w: World, path: Path): nat {
    if path in w.init && w.hash(w.init[path]) == w.want(path) then 0 else 1
  }

  ghost predicate FileAt(w: World, s: State, path: Path) {
    s.moves[path] <= Budget(w, path) &&
    (s.moves[path] > 0 ==> path in s.files && s.files[path] == w.remote(path)) &&
    (s.moves[path] == 0 ==>
       (path in s.files <==> path in w.init) && (path in s.files ==> s.files[path] == w.init[path]))
  }

  ghost predicate FileInv(w: World, s: State, path: Path) {
    (forall p <- s.procs :: s.procs[p].path == path ==> ProcFileInv(w, s, p)) && FileAt(w, s, path)
  }

  predicate Fetching(pc: Pc) {
    pc.Fetch? || pc.FetchAgain? || pc.Fetched?
  }

  predicate HasReturned(pc: Pc) {
    EndingOf(pc).Some? && EndingOf(pc).value.Returned?
  }

  /** What a transition of a process means for the file at its path. */
  predicate FileSummary(w: World, s: State, path: Path, pc: Pc, pc': Pc, ch: Change) {
    (ch.Replace? ==> pc.Fetched? && pc.tmp == ch.c && pc' == Releasing(pc.ino, Returned(true))) &&
    (pc'.CheckHash? ==> path in s.files) &&
    (Fetching(pc') ==> Fetching(pc) || !Matches(w, s, path)) &&
    (pc'.Fetched? ==> pc'.tmp == w.remote(path)) &&
    (HasReturned(pc') && !ch.Replace? ==> HasReturned(pc) || Matches(w, s, path)) &&
    (EndingOf(pc') == Some(Returned(true)) && !ch.Replace? ==> EndingOf(pc) == Some(Returned(true)))
  }

  lemma SummarizeFiles(w: World, s: State, path: Path, pc: Pc, pc': Pc, ch: Change)
    requires Allowed(w, true, s, path, pc, pc', ch)
    ensures FileSummary(w, s, path, pc, pc', ch)
  {
    if IsAcquiring(pc) {
      SummarizeFilesAcquiring(w, s, path, pc, pc', ch);
    } else if InBody(pc) {
      SummarizeFilesBody(w, s, path, pc, pc', ch);
    } else {
      SummarizeFilesReleasing(w, s, path, pc, pc', ch);
    }
  }

  lemma SummarizeFilesAcquiring(w: World, s: State, path: Path, pc: Pc, pc': Pc, ch: Change)
    requires IsAcquiring(pc) && Allowed(w, true, s, path, pc, pc', ch)
    ensures FileSummary(w, s, path, pc, pc', ch)
  {
  }

  lemma SummarizeFilesBody(w: World, s: State, path: Path, pc: Pc, pc': Pc, ch: Change)
    requires InBody(pc) && Allowed(w, true, s, path, pc, pc', ch)
    ensures FileSummary(w, s, path, pc, pc', ch)
  {
  }

  lemma SummarizeFilesReleasing(w: World, s: State, path: Path, pc: Pc, pc': Pc, ch: Change)
    requires !IsAcquiring(pc) && !InBody(pc) && Allowed(w, true, s, path, pc, pc', ch)
    ensures FileSummary(w, s, path, pc, pc', ch)
  {
  }

  lemma OwnFileKept(w: World, s: State, p: Pid, pc: Pc, ch: Change)
    requires p in s.procs && Published(w, s.procs[p].path) && ProcFileInv(w, s, p)
    requires FileSummary(w, s, s.procs[p].path, s.procs[p].pc, pc, ch)
    ensures ProcFileInv(w, Apply(s, Act(p, pc, ch)), p)
  {
  }

  /** Only an owner of the lock replaces the file, so no other one is in the body. */
  lemma OtherFileKept(w: World, s: State, p: Pid, pc: Pc, ch: Change, q: Pid)
    requires p in s.procs && q in s.procs && q != p
    requires Inv(s) && Published(w, s.procs[q].path) && FileInv(w, s, s.procs[q].path)
    requires FileSummary(w, s, s.procs[p].path, s.procs[p].pc, pc, ch)
    ensures ProcFileInv(w, Apply(s, Act(p, pc, ch)), q)
  {
    assert ProcFileInv(w, s, q) && ProcLockInv(s, q) && ProcLockInv(s, p);
    assert s.procs[p].path == s.procs[q].path ==> ProcFileInv(w, s, p);
  }

  /** A completed download uses up the one that is allowed, and brings the object. */
  lemma FileAtKept(w: World, s: State, p: Pid, pc: Pc, ch: Change, path: Path)
    requires Published(w, path) && FileInv(w, s, path) && p in s.procs
    requires FileSummary(w, s, s.procs[p].path, s.procs[p].pc, pc, ch)
    ensures FileAt(w, Apply(s, Act(p, pc, ch)), path)
  {
    assert s.procs[p].path == path ==> ProcFileInv(w, s, p);
  }

  lemma FileKept(w: World, s: State, e: Event, path: Path)
    requires Published(w, path) && Inv(s) && FileInv(w, s, path) && Enabled(w, true, s, e)
    ensures FileInv(w, Apply(s, e), path)
  {
    match e
    case Call(_, _) =>
      assert FileAt(w, Apply(s, e), path);
    case Act(p, pc, ch) =>
      SummarizeFiles(w, s, s.procs[p].path, s.procs[p].pc, pc, ch);
      FileAtKept(w, s, p, pc, ch, path);
      forall q | q in s.procs && s.procs[q].path == path
        ensures ProcFileInv(w, Apply(s, e), q)
      {
        if q == p {
          OwnFileKept(w, s, p, pc, ch);
        } else {
          OtherFileKept(w, s, p, pc, ch, q);
        }
      }
  }

  /** A file that is right stays so: what replaces it is the remote object. */
  lemma MatchKept(w: World, s: State, e: Event, path: Path)
    requires Published(w, path) && FileInv(w, s, path) && Enabled(w, true, s, e) && Matches(w, s, path)
    ensures Matches(w, Apply(s, e), path)
  {
    if e.Act? {
      SummarizeFiles(w, s, s.procs[e.p].path, s.procs[e.p].pc, e.pc, e.change);
      assert s.procs[e.p].path == path ==> ProcFileInv(w, s, e.p);
    }
  }

  // ---------------------------------------------------------------- whole runs

  lemma {:induction false} RunKeeps(w: World, s: State, es: seq<Event>)
    requires Inv(s) && CanRun(w, true, s, es)
    ensures Inv(After(w, true, s, es))
    decreases |es|
  {
    if es == [] {
    } else {
      InvKept(w, s, es[0]);
      RunKeeps(w, Apply(s, es[0]), es[1..]);
    }
  }

  lemma {:induction false} RunKeepsFile(w: World, s: State, es: seq<Event>, path: Path)
    requires Published(w, path) && Inv(s) && FileInv(w, s, path) && CanRun(w, true, s, es)
    ensures FileInv(w, After(w, true, s, es), path)
    ensures Matches(w, s, path) ==> Matches(w, After(w, true, s, es), path)
    decreases |es|
  {
    if es == [] {
    } else {
      InvKept(w, s, es[0]);
      FileKept(w, s, es[0], path);
      if Matches(w, s, path) {
        MatchKept(w, s, es[0], path);
      }
      RunKeepsFile(w, Apply(s, es[0]), es[1..], path);
    }
  }

  /** In every interleaving, two processes that own the lock of one path are the
      same process, and the file they locked is the one linked at that path. */
  lemma MutualExclusion(w: World, s0: State, es: seq<Event>, p: Pid, q: Pid)
    requires Init(w, s0) && CanRun(w, true, s0, es)
    ensures var s := After(w, true, s0, es);
      p in s.procs && LockOf(s.procs[p].pc).Some? ==>
        s.procs[p].path in s.linked && LockOf(s.procs[p].pc) == Some(s.linked[s.procs[p].path])
    ensures var s := After(w, true, s0, es);
      (p in s.procs && q in s.procs && s.procs[p].path == s.procs[q].path &&
       LockOf(s.procs[p].pc).Some? && LockOf(s.procs[q].pc).Some?) ==> p == q
  {
    RunKeeps(w, s0, es);
    var s := After(w, true, s0, es);
    if p in s.procs && LockOf(s.procs[p].pc).Some? {
      assert ProcLockInv(s, p);
      if q in s.procs && LockOf(s.procs[q].pc).Some? && s.procs[p].path == s.procs[q].path {
        SameOwner(s, p, q);
      }
    }
  }

  /** Every call that returns leaves the file with the wanted hash, and the file
      has it ever after, whatever happens next. */
  lemma ReturnedMatches(w: World, s0: State, es: seq<Event>, p: Pid, more: seq<Event>)
    requires Init(w, s0) && CanRun(w, true, s0, es) && CanRun(w, true, After(w, true, s0, es), more)
    requires var s := After(w, true, s0, es);
      p in s.procs && s.procs[p].pc.Finished? && s.procs[p].pc.out.Returned? && Published(w, s.procs[p].path)
    ensures var s := After(w, true, s0, es);
      Matches(w, s, s.procs[p].path) && Matches(w, After(w, true, s, more), s.procs[p].path)
  {
    var s := After(w, true, s0, es);
    RunKeeps(w, s0, es);
    RunKeepsFile(w, s0, es, s.procs[p].path);
    assert ProcFileInv(w, s, p);
    RunKeepsFile(w, s, more, s.procs[p].path);
  }

  /** Over the whole run at most one completed download replaces the file at path,
      and none if it had the hash at the start. Failed downloads leave it alone. */
  lemma AtMostOneDownload(w: World, s0: State, es: seq<Event>, path: Path)
    requires Published(w, path) && Init(w, s0) && CanRun(w, true, s0, es)
    ensures var s := After(w, true, s0, es);
      s.moves[path] <= 1 &&
      (path in w.init && w.hash(w.init[path]) == w.want(path) ==> s.moves[path] == 0) &&
      (s.moves[path] == 0 ==> (path in s.files <==> path in w.init)) &&
      (path in s.files ==> s.files[path] == if s.moves[path] == 0 then w.init[path] else w.remote(path))
  {
    RunKeepsFile(w, s0, es, path);
  }

  /** A call that answers that the file was changed comes after the one download
      that replaced it; for a file that was right at the start no call says so. */
  lemma ChangedMeans(w: World, s0: State, es: seq<Event>, p: Pid)
    requires Init(w, s0) && CanRun(w, true, s0, es)
    requires var s := After(w, true, s0, es);
      p in s.procs && s.procs[p].pc == Finished(Returned(true)) && Published(w, s.procs[p].path)
    ensures var s := After(w, true, s0, es);
      var path := s.procs[p].path;
      s.moves[path] == 1 && path in s.files && s.files[path] == w.remote(path) &&
      !(path in w.init && w.hash(w.init[path]) == w.want(path))
  {
    var s := After(w, true, s0, es);
    RunKeeps(w, s0, es);
    RunKeepsFile(w, s0, es, s.procs[p].path);
    assert ProcFileInv(w, s, p);
  }

  // -------------------------------------------------------------------- one call

  predicate Replaces(e: Event, p: Pid) {
    e.Act? && e.p == p && e.change.Replace?
  }

  /** A server error that p answers with another attempt to download. */
  predicate Retries(e: Event, p: Pid) {
    e.Act? && e.p == p && e.pc.FetchAgain?
  }

  ghost predicate HasReplaced(es: seq<Event>, p: Pid) {
    exists i :: 0 <= i < |es| && Replaces(es[i], p)
  }

  function RetriesOf(es: seq<Event>, p: Pid): nat
    decreases |es|
  {
    if es == [] then 0 else (if Retries(es[0], p) then 1 else 0) + RetriesOf(es[1..], p)
  }

  /** The process starts no other call. */
  predicate NoCall(es: seq<Event>, p: Pid) {
    forall i :: 0 <= i < |es| ==> !(es[i].Call? && es[i].p == p)
  }

  /** What can be said of a call at pc that has replaced the file or not. */
  predicate Answers(pc: Pc, replaced: bool) {
    (IsAcquiring(pc) || InBody(pc) ==> !replaced) &&
    (HasReturned(pc) ==> EndingOf(pc).value.changed == replaced)
  }

  lemma AnswersKept(w: World, guarded: bool, s: State, p: Pid, pc: Pc, ch: Change, replaced: bool)
    requires Enabled(w, guarded, s, Act(p, pc, ch)) && Answers(s.procs[p].pc, replaced)
    ensures Answers(pc, replaced || ch.Replace?)
  {
  }

  /** How often a call at pc may still try again. */
  function RetriesLeft(pc: Pc): nat {
    if IsAcquiring(pc) || pc.CheckExists? || pc.CheckHash? || pc.Fetch? then 1 else 0
  }

  lemma RetriesLeftKept(w: World, guarded: bool, s: State, p: Pid, pc: Pc, ch: Change)
    requires Enabled(w, guarded, s, Act(p, pc, ch))
    ensures (if pc.FetchAgain? then 1 else 0) + RetriesLeft(pc) <= RetriesLeft(s.procs[p].pc)
  {
  }

  lemma {:induction false} AnswersAfter(w: World, guarded: bool, s: State, es: seq<Event>, p: Pid, replaced: bool)
    requires CanRun(w, guarded, s, es) && NoCall(es, p) && p in s.procs && Answers(s.procs[p].pc, replaced)
    ensures p in After(w, guarded, s, es).procs
    ensures Answers(After(w, guarded, s, es).procs[p].pc, replaced || HasReplaced(es, p))
    ensures RetriesOf(es, p) <= RetriesLeft(s.procs[p].pc)
    decreases |es|
  {
    if es == [] {
    } else {
      var e := es[0];
      if e.Act? && e.p == p {
        AnswersKept(w, guarded, s, p, e.pc, e.change, replaced);
        RetriesLeftKept(w, guarded, s, p, e.pc, e.change);
      }
      assert HasReplaced(es, p) <==> Replaces(e, p) || HasReplaced(es[1..], p) by {
        assert forall i :: 0 < i < |es| ==> es[i] == es[1..][i - 1];
      }
      AnswersAfter(w, guarded, Apply(s, e), es[1..], p, replaced || Replaces(e, p));
    }
  }

  /** From its start to its end a call tries at most twice to download, and it
      answers that the file was changed exactly if it is the one that replaced it. */
  lemma AnswerIsReplaced(w: World, guarded: bool, s: State, es: seq<Event>, p: Pid)
    requires CanRun(w, guarded, s, es) && NoCall(es, p) && p in s.procs && s.procs[p].pc.Idle?
    ensures p in After(w, guarded, s, es).procs
    ensures var pc := After(w, guarded, s, es).procs[p].pc;
      pc.Finished? && pc.out.Returned? ==> (pc.out.changed <==> HasReplaced(es, p))
    ensures RetriesOf(es, p) <= 1
  {
    AnswersAfter(w, guarded, s, es, p, false);
  }

  // ------------------------------------------------------------ runs that exist

  lemma {:induction false} RunExtends(w: World, guarded: bool, s: State, es: seq<Event>, e: Event)
    requires CanRun(w, guarded, s, es) && Enabled(w, guarded, After(w, guarded, s, es), e)
    ensures CanRun(w, guarded, s, es + [e])
    ensures After(w, guarded, s, es + [e]) == Apply(After(w, guarded, s, es), e)
    decreases |es|
  {
    if es != [] {
      RunExtends(w, guarded, Apply(s, es[0]), es[1..], e);
      assert (es + [e])[1..] == es[1..] + [e];
    } else {
      assert (es + [e])[1..] == [];
    }
  }

  /** es goes on from before, and nobody crashes or makes another call meanwhile. */
  predicate GoesOn(before: seq<Event>, es: seq<Event>) {
    before <= es && forall i :: |before| <= i < |es| ==> es[i].Act? && !es[i].change.Perish?
  }

  function Moved(s: State, p: Pid, pc: Pc): State
    requires p in s.procs
  {
    s.(procs := s.procs[p := Proc(s.procs[p].path, pc)])
  }

  /** A step that changes nothing that is shared. */
  lemma Moves(w: World, guarded: bool, s0: State, before: seq<Event>, p: Pid, pc: Pc) returns (es: seq<Event>)
    requires CanRun(w, guarded, s0, before)
    requires var s := After(w, guarded, s0, before);
      p in s.procs && Allowed(w, guarded, s, s.procs[p].path, s.procs[p].pc, pc, Keep)
    ensures CanRun(w, guarded, s0, es) && GoesOn(before, es)
    ensures After(w, guarded, s0, es) == Moved(After(w, guarded, s0, before), p, pc)
  {
    RunExtends(w, guarded, s0, before, Act(p, pc, Keep));
    es := before + [Act(p, pc, Keep)];
  }

  /** A step that takes the guard. */
  lemma Grabs(w: World, guarded: bool, s0: State, before: seq<Event>, p: Pid, pc: Pc) returns (es: seq<Event>)
    requires CanRun(w, guarded, s0, before)
    requires var s := After(w, guarded, s0, before);
      p in s.procs && Allowed(w, guarded, s, s.procs[p].path, s.procs[p].pc, pc, GrabGuard)
    ensures CanRun(w, guarded, s0, es) && GoesOn(before, es)
    ensures After(w, guarded, s0, es) == Moved(After(w, guarded, s0, before), p, pc).(guard := Some(p))
  {
    RunExtends(w, guarded, s0, before, Act(p, pc, GrabGuard));
    es := before + [Act(p, pc, GrabGuard)];
  }

  /** A step that lets go of the guard. */
  lemma FreesGuard(w: World, guarded: bool, s0: State, before: seq<Event>, p: Pid, pc: Pc) returns (es: seq<Event>)
    requires CanRun(w, guarded, s0, before)
    requires var s := After(w, guarded, s0, before);
      p in s.procs && s.guard == Some(p) && Allowed(w, guarded, s, s.procs[p].path, s.procs[p].pc, pc, FreeGuard)
    ensures CanRun(w, guarded, s0, es) && GoesOn(before, es)
    ensures After(w, guarded, s0, es) == Moved(After(w, guarded, s0, before), p, pc).(guard := None)
  {
    RunExtends(w, guarded, s0, before, Act(p, pc, FreeGuard));
    es := before + [Act(p, pc, FreeGuard)];
  }

  /** The inode that the next open of the lock file at path refers to. */
  function InodeFor(s: State, path: Path): Inode {
    if path in s.linked then s.linked[path] else s.nextInode
  }

  /** The state in which p has just acquired the lock of path in an attempt of its own. */
  function Acquired(s: State, p: Pid, path: Path): State {
    var ino := InodeFor(s, path);
    s.(procs := s.procs[p := Proc(path, CheckExists(ino))], guard := None,
       locks := s.locks[ino := p], linked := s.linked[path := ino],
       nextInode := if path in s.linked then s.nextInode else s.nextInode + 1)
  }

  /** The state in which p owns the guard and has just opened the lock file of path. */
  function LockFileOpened(s: State, p: Pid, path: Path): State {
    var ino := InodeFor(s, path);
    s.(procs := s.procs[p := Proc(path, Opened(ino))], guard := Some(p), linked := s.linked[path := ino],
       nextInode := if path in s.linked then s.nextInode else s.nextInode + 1)
  }

  lemma AttemptOpens(w: World, guarded: bool, s0: State, before: seq<Event>, p: Pid) returns (es: seq<Event>)
    requires CanRun(w, guarded, s0, before)
    requires var s := After(w, guarded, s0, before);
      p in s.procs && s.procs[p].pc.Idle? && (guarded ==> s.guard.None?)
    ensures CanRun(w, guarded, s0, es) && GoesOn(before, es)
    ensures var s := After(w, guarded, s0, before);
      After(w, guarded, s0, es) == LockFileOpened(s, p, s.procs[p].path)
  {
    var s := After(w, guarded, s0, before);
    es := Grabs(w, guarded, s0, before, p, Guarded);
    es := OpensFile(w, guarded, s0, es, p);
  }

  lemma OpensFile(w: World, guarded: bool, s0: State, before: seq<Event>, p: Pid) returns (es: seq<Event>)
    requires CanRun(w, guarded, s0, before)
    requires var s := After(w, guarded, s0, before);
      p in s.procs && s.procs[p].pc.Guarded? && s.guard == Some(p)
    ensures CanRun(w, guarded, s0, es) && GoesOn(before, es)
    ensures var s := After(w, guarded, s0, before);
      After(w, guarded, s0, es) == LockFileOpened(s, p, s.procs[p].path)
  {
    var s := After(w, guarded, s0, before);
    var path := s.procs[p].path;
    if path in s.linked {
      es := Moves(w, guarded, s0, before, p, Opened(s.linked[path]));
      assert s.linked[path := s.linked[path]] == s.linked;
    } else {
      RunExtends(w, guarded, s0, before, Act(p, Opened(s.nextInode), Create));
      es := before + [Act(p, Opened(s.nextInode), Create)];
    }
  }

  lemma LocksFile(w: World, guarded: bool, s0: State, before: seq<Event>, p: Pid) returns (es: seq<Event>)
    requires CanRun(w, guarded, s0, before)
    requires var s := After(w, guarded, s0, before);
      p in s.procs && s.procs[p].pc.Opened? && s.procs[p].pc.ino !in s.locks
    ensures CanRun(w, guarded, s0, es) && GoesOn(before, es)
    ensures var s := After(w, guarded, s0, before);
      var ino := s.procs[p].pc.ino;
      After(w, guarded, s0, es) == Moved(s, p, Entered(ino)).(locks := s.locks[ino := p])
  {
    var ino := After(w, guarded, s0, before).procs[p].pc.ino;
    RunExtends(w, guarded, s0, before, Act(p, Entered(ino), Lock(ino)));
    es := before + [Act(p, Entered(ino), Lock(ino))];
  }

  /** An attempt that nobody disturbs and that finds no owner acquires the lock. */
  lemma AttemptAcquires(w: World, guarded: bool, s0: State, before: seq<Event>, p: Pid) returns (es: seq<Event>)
    requires CanRun(w, guarded, s0, before)
    requires var s := After(w, guarded, s0, before);
      p in s.procs && s.procs[p].pc.Idle? && (guarded ==> s.guard.None?) && InodeFor(s, s.procs[p].path) !in s.locks
    ensures CanRun(w, guarded, s0, es) && GoesOn(before, es)
    ensures var s := After(w, guarded, s0, before);
      After(w, guarded, s0, es) == Acquired(s, p, s.procs[p].path)
  {
    var s := After(w, guarded, s0, before);
    var ino := InodeFor(s, s.procs[p].path);
    es := AttemptOpens(w, guarded, s0, before, p);
    es := LocksFile(w, guarded, s0, es, p);
    es := FreesGuard(w, guarded, s0, es, p, CheckExists(ino));
  }

  /** A flock on the lock file linked at path is owned by a process on that path. */
  lemma LinkedOwner(s: State, path: Path)
    requires Inv(s) && InodeFor(s, path) in s.locks
    ensures var q := s.locks[InodeFor(s, path)];
      q in s.procs && s.procs[q].path == path && LockOf(s.procs[q].pc).Some?
  {
    assert ProcLockInv(s, s.locks[InodeFor(s, path)]);
  }

  /** How many more steps a process takes at most that has the guard or the lock. */
  function ToGo(pc: Pc): nat {
    match pc
    case CheckExists(_) => 9
    case CheckHash(_) => 8
    case Fetch(_) => 7
    case FetchAgain(_) => 7
    case Fetched(_, _) => 6
    case Releasing(_, _) => 5
    case RelGuarded(_, _) => 4
    case RelUnlocked(_, _) => 3
    case RelClosed(_) => 2
    case RelRemoved(_) => 1
    case Orphaned(_) => 1
    case Guarded => 3
    case Opened(_) => 2
    case LockFailed(_) => 1
    case Entered(_) => 1
    case _ => 0
  }

  /** A next step of a process that is not waiting for anything, in which no
      system call fails. */
  function NextStep(w: World, s: State, p: Pid): Event
    requires p in s.procs && ToGo(s.procs[p].pc) > 0
  {
    var Proc(path, pc) := s.procs[p];
    match pc
    case Guarded => Act(p, Opened(InodeFor(s, path)), if path in s.linked then Keep else Create)
    case Opened(ino) => if ino in s.locks then Act(p, LockFailed(ino), Keep) else Act(p, Entered(ino), Lock(ino))
    case LockFailed(ino) => Act(p, Backoff(ino), FreeGuard)
    case Entered(ino) => Act(p, CheckExists(ino), FreeGuard)
    case CheckExists(ino) => Act(p, if path in s.files then CheckHash(ino) else Fetch(ino), Keep)
    case CheckHash(ino) =>
      Act(p, if path !in s.files then Releasing(ino, Raised)
             else if Matches(w, s, path) then Releasing(ino, Returned(false)) else Fetch(ino), Keep)
    case Fetch(ino) => Act(p, Fetched(ino, w.remote(path)), Keep)
    case FetchAgain(ino) => Act(p, Fetched(ino, w.remote(path)), Keep)
    case Fetched(ino, tmp) => Act(p, Releasing(ino, Returned(true)), Replace(tmp))
    case Releasing(ino, out) => Act(p, RelGuarded(ino, out), GrabGuard)
    case RelGuarded(ino, out) => Act(p, RelUnlocked(ino, out), Unlock(ino))
    case RelUnlocked(_, out) => Act(p, RelClosed(out), Keep)
    case RelClosed(out) => Act(p, RelRemoved(out), Unlink)
    case RelRemoved(out) => Act(p, Finished(out), FreeGuard)
    case Orphaned(ino) => Act(p, Finished(Raised), Unlock(ino))
  }

  lemma StepAllowed(w: World, s: State, p: Pid)
    requires p in s.procs && ToGo(s.procs[p].pc) > 0 && (s.procs[p].pc.Releasing? ==> s.guard.None?)
    ensures var e := NextStep(w, s, p);
      e.Act? && e.p == p && !e.change.Perish? && Allowed(w, true, s, s.procs[p].path, s.procs[p].pc, e.pc, e.change)
  {
  }

  /** Only p has moved, and nobody else has the guard. */
  ghost predicate OnlyMoved(s: State, s': State, p: Pid) {
    p in s.procs && p in s'.procs && s'.procs[p].path == s.procs[p].path &&
    s'.procs == s.procs[p := s'.procs[p]] && (s'.guard.None? || s'.guard == Some(p))
  }

  /** What the next step of p leads to. */
  ghost predicate Stepped(s: State, s': State, p: Pid) {
    OnlyMoved(s, s', p) && ToGo(s.procs[p].pc) > 0 &&
    var pc, pc' := s.procs[p].pc, s'.procs[p].pc;
    if pc.Entered? then s'.guard.None?
    else ToGo(pc') < ToGo(pc) && (IsEnding(pc) ==> IsEnding(pc')) && (ToGo(pc') == 0 ==> s'.guard.None?)
  }

  /** In the body or the release, or through with both. */
  predicate IsEnding(pc: Pc) {
    InBody(pc) || pc.Orphaned? || EndingOf(pc).Some?
  }

  lemma StepForward(w: World, s: State, p: Pid)
    requires p in s.procs && ToGo(s.procs[p].pc) > 0
    ensures var pc, e := s.procs[p].pc, NextStep(w, s, p);
      e.Act? && e.p == p && (e.change.GrabGuard? <==> pc.Releasing?) && !e.change.Perish? &&
      (if pc.Entered? then e.change.FreeGuard? else ToGo(e.pc) < ToGo(pc)) &&
      (IsEnding(pc) ==> IsEnding(e.pc)) && (ToGo(e.pc) == 0 && HasGuard(pc) ==> e.change.FreeGuard?)
  {
  }

  lemma StepSteps(w: World, s: State, p: Pid)
    requires p in s.procs && ToGo(s.procs[p].pc) > 0 && (s.guard.None? || s.guard == Some(p))
    requires HasGuard(s.procs[p].pc) <==> s.guard == Some(p)
    ensures Stepped(s, Apply(s, NextStep(w, s, p)), p)
  {
    StepForward(w, s, p);
    if s.procs[p].pc.Releasing? {
      assert NextStep(w, s, p).pc.RelGuarded?;
    }
  }

  lemma StepTaken(w: World, s0: State, before: seq<Event>, p: Pid) returns (es: seq<Event>)
    requires Init(w, s0) && CanRun(w, true, s0, before)
    requires var s := After(w, true, s0, before);
      p in s.procs && ToGo(s.procs[p].pc) > 0 && (s.guard.None? || s.guard == Some(p))
    ensures CanRun(w, true, s0, es) && GoesOn(before, es)
    ensures After(w, true, s0, es) == Apply(After(w, true, s0, before), NextStep(w, After(w, true, s0, before), p))
    ensures Stepped(After(w, true, s0, before), After(w, true, s0, es), p)
  {
    var s := After(w, true, s0, before);
    RunKeeps(w, s0, before);
    StepAllowed(w, s, p);
    StepSteps(w, s, p);
    RunExtends(w, true, s0, before, NextStep(w, s, p));
    es := before + [NextStep(w, s, p)];
  }

  /** From every state the guard comes free, if only its owner moves on. */
  lemma {:induction false} GuardComesFree(w: World, s0: State, before: seq<Event>, q: Pid, n: nat) returns (es: seq<Event>)
    requires Init(w, s0) && CanRun(w, true, s0, before)
    requires var s := After(w, true, s0, before);
      s.guard == Some(q) && q in s.procs && 0 < n == ToGo(s.procs[q].pc)
    ensures CanRun(w, true, s0, es) && GoesOn(before, es)
    ensures After(w, true, s0, es).guard.None? && OnlyMoved(After(w, true, s0, before), After(w, true, s0, es), q)
    decreases n
  {
    es := StepTaken(w, s0, before, q);
    var s := After(w, true, s0, es);
    if s.guard.None? {
    } else {
      es := GuardComesFree(w, s0, es, q, ToGo(s.procs[q].pc));
    }
  }

  /** How a call at pc ends if nobody else moves and no system call fails. */
  function EndAhead(w: World, s: State, path: Path, pc: Pc): Ending
    requires IsEnding(pc)
  {
    if pc.CheckExists? || (pc.CheckHash? && path in s.files) then Returned(!Matches(w, s, path))
    else if Fetching(pc) then Returned(true)
    else if EndingOf(pc).Some? then EndingOf(pc).value
    else Raised
  }

  lemma EndAheadKept(w: World, s: State, p: Pid)
    requires p in s.procs && IsEnding(s.procs[p].pc) && ToGo(s.procs[p].pc) > 0
    ensures var s' := Apply(s, NextStep(w, s, p));
      p in s'.procs && s'.procs[p].path == s.procs[p].path && IsEnding(s'.procs[p].pc) &&
      EndAhead(w, s', s.procs[p].path, s'.procs[p].pc) == EndAhead(w, s, s.procs[p].path, s.procs[p].pc)
  {
    if InBody(s.procs[p].pc) {
      BodyGoesOn(w, s, p);
    } else {
      ReleaseGoesOn(w, s, p);
    }
  }

  lemma BodyGoesOn(w: World, s: State, p: Pid)
    requires p in s.procs && InBody(s.procs[p].pc)
    ensures var e, pc := NextStep(w, s, p), s.procs[p].pc;
      e.Act? && e.p == p &&
      if pc.Fetched? then EndingOf(e.pc) == Some(Returned(true))
      else e.change.Keep? && IsEnding(e.pc) && EndAhead(w, s, s.procs[p].path, e.pc) == EndAhead(w, s, s.procs[p].path, pc)
  {
  }

  lemma ReleaseGoesOn(w: World, s: State, p: Pid)
    requires p in s.procs && IsEnding(s.procs[p].pc) && !InBody(s.procs[p].pc) && ToGo(s.procs[p].pc) > 0
    ensures var e, pc := NextStep(w, s, p), s.procs[p].pc;
      e.Act? && e.p == p && EndingOf(e.pc) == Some(if pc.Orphaned? then Raised else EndingOf(pc).value)
  {
  }

  lemma EndingDone(pc: Pc)
    requires IsEnding(pc)
    ensures pc.Finished? <==> ToGo(pc) == 0
    ensures pc.Finished? ==> EndingOf(pc) == Some(pc.out)
  {
  }

  /** A process that has the lock goes through its body and its release. With the
      file as it is, it downloads exactly if the file is not right, and says so. */
  lemma {:induction false} CallEnds(w: World, s0: State, before: seq<Event>, q: Pid, n: nat) returns (es: seq<Event>)
    requires Init(w, s0) && CanRun(w, true, s0, before)
    requires var s := After(w, true, s0, before);
      q in s.procs && IsEnding(s.procs[q].pc) && n == ToGo(s.procs[q].pc) &&
      (s.guard.None? || (s.guard == Some(q) && n > 0))
    ensures CanRun(w, true, s0, es) && GoesOn(before, es)
    ensures var s, s' := After(w, true, s0, before), After(w, true, s0, es);
      s'.guard.None? && OnlyMoved(s, s', q) &&
      s'.procs[q].pc == Finished(EndAhead(w, s, s.procs[q].path, s.procs[q].pc))
    decreases n
  {
    EndingDone(After(w, true, s0, before).procs[q].pc);
    if n == 0 {
      es := before;
    } else {
      EndAheadKept(w, After(w, true, s0, before), q);
      es := StepTaken(w, s0, before, q);
      es := CallEnds(w, s0, es, q, ToGo(After(w, true, s0, es).procs[q].pc));
    }
  }

  /** The lock is never lost: from every state that a run reaches, a waiting
      process can still acquire it, without anybody crashing and without new calls. */
  lemma WaiterCanAcquire(w: World, s0: State, es: seq<Event>, p: Pid) returns (more: seq<Event>)
    requires Init(w, s0) && CanRun(w, true, s0, es)
    requires var s := After(w, true, s0, es);
      p in s.procs && s.procs[p].pc.Idle?
    ensures CanRun(w, true, s0, more) && GoesOn(es, more)
    ensures var s := After(w, true, s0, more);
      p in s.procs && s.procs[p].pc.CheckExists? && s.procs[p].path == After(w, true, s0, es).procs[p].path &&
      s.guard.None?
  {
    var s, free := After(w, true, s0, es), es;
    var path := s.procs[p].path;
    if s.guard.Some? {
      GuardOwner(w, s0, es);
      free := GuardComesFree(w, s0, es, s.guard.value, ToGo(s.procs[s.guard.value].pc));
      s := After(w, true, s0, free);
    }
    if InodeFor(s, path) in s.locks {
      var q := s.locks[InodeFor(s, path)];
      LockOwner(w, s0, free, path);
      RunKeeps(w, s0, free);
      free := CallEnds(w, s0, free, q, ToGo(s.procs[q].pc));
      OwnerGone(w, s0, s, free, q, path);
    }
    more := AttemptAcquires(w, true, s0, free, p);
  }

  /** From every state that a run reaches a waiting call can still return, with
      the wanted file in place. */
  lemma WaiterCanReturn(w: World, s0: State, es: seq<Event>, p: Pid) returns (more: seq<Event>)
    requires Init(w, s0) && CanRun(w, true, s0, es)
    requires var s := After(w, true, s0, es);
      p in s.procs && s.procs[p].pc.Idle? && Published(w, s.procs[p].path)
    ensures CanRun(w, true, s0, more) && GoesOn(es, more)
    ensures var s := After(w, true, s0, more);
      p in s.procs && s.procs[p].pc.Finished? && s.procs[p].pc.out.Returned? &&
      s.procs[p].path == After(w, true, s0, es).procs[p].path && Matches(w, s, s.procs[p].path)
  {
    more := WaiterCanAcquire(w, s0, es, p);
    more := CallEnds(w, s0, more, p, 9);
    ReturnedMatches(w, s0, more, p, []);
  }

  lemma GuardOwner(w: World, s0: State, es: seq<Event>)
    requires Init(w, s0) && CanRun(w, true, s0, es)
    ensures var s := After(w, true, s0, es);
      s.guard.Some? ==> s.guard.value in s.procs && ToGo(s.procs[s.guard.value].pc) > 0 &&
                        !s.procs[s.guard.value].pc.Idle?
  {
    RunKeeps(w, s0, es);
    var s := After(w, true, s0, es);
    if s.guard.Some? {
      GuardMoves(s.procs[s.guard.value].pc);
    }
  }

  lemma GuardMoves(pc: Pc)
    requires HasGuard(pc)
    ensures ToGo(pc) > 0 && !pc.Idle?
  {
  }

  lemma LockOwner(w: World, s0: State, es: seq<Event>, path: Path)
    requires Init(w, s0) && CanRun(w, true, s0, es)
    requires var s := After(w, true, s0, es);
      s.guard.None? && InodeFor(s, path) in s.locks
    ensures var s := After(w, true, s0, es);
      var q := s.locks[InodeFor(s, path)];
      q in s.procs && IsEnding(s.procs[q].pc) && !s.procs[q].pc.Idle?
  {
    RunKeeps(w, s0, es);
    LinkedOwner(After(w, true, s0, es), path);
  }

  /** When the owner of the lock of path has ended, nobody owns it. */
  lemma OwnerGone(w: World, s0: State, s: State, es: seq<Event>, q: Pid, path: Path)
    requires Init(w, s0) && CanRun(w, true, s0, es) && Inv(s)
    requires InodeFor(s, path) in s.locks && q == s.locks[InodeFor(s, path)]
    requires var s' := After(w, true, s0, es);
      OnlyMoved(s, s', q) && s'.procs[q].pc.Finished?
    ensures var s' := After(w, true, s0, es);
      InodeFor(s', path) !in s'.locks
  {
    var s' := After(w, true, s0, es);
    RunKeeps(w, s0, es);
    LinkedOwner(s, path);
    if InodeFor(s', path) in s'.locks {
      LinkedOwner(s', path);
      SameOwner(s, q, s'.locks[InodeFor(s', path)]);
    }
  }

  lemma SameOwner(s: State, p: Pid, q: Pid)
    requires Inv(s) && p in s.procs && q in s.procs && s.procs[p].path == s.procs[q].path
    requires LockOf(s.procs[p].pc).Some? && LockOf(s.procs[q].pc).Some?
    ensures p == q
  {
    assert ProcLockInv(s, p) && ProcLockInv(s, q);
  }

  /** The run told in the comment of _FileLock: without the guard, process 1 removes
      the lock file on which process 2 has just acquired the lock, and process 3
      creates and locks a new one. Processes 2 and 3 then both hold the lock of path. */
  lemma UnguardedRunBreaks(w: World, path: Path)
    ensures exists s0, es ::
      Init(w, s0) && CanRun(w, false, s0, es) &&
      var s := After(w, false, s0, es);
      2 in s.procs && 3 in s.procs && s.procs[2].path == s.procs[3].path == path &&
      InBody(s.procs[2].pc) && InBody(s.procs[3].pc)
  {
    var s0 := State(map[], None, map[], map[], 0, w.init, multiset{});
    var es := SecondLosesFile(w, s0, path);
    es := AttemptAcquires(w, false, s0, es, 3);
  }

  /** Process 2 holds the lock of a lock file that is linked no more. */
  lemma SecondLosesFile(w: World, s0: State, path: Path) returns (es: seq<Event>)
    requires Init(w, s0) && s0.linked == map[] && s0.nextInode == 0
    ensures CanRun(w, false, s0, es)
    ensures var s := After(w, false, s0, es);
      s.procs.Keys == {1, 2, 3} && s.procs[2] == Proc(path, CheckExists(0)) && s.procs[3] == Proc(path, Idle) &&
      path !in s.linked && s.nextInode == 1 && s.locks == map[0 := 2]
  {
    var out;
    es, out := FirstUnlocks(w, s0, path);
    es := AttemptAcquires(w, false, s0, es, 2);
    RunExtends(w, false, s0, es, Act(1, RelRemoved(out), Unlink));
    es := es + [Act(1, RelRemoved(out), Unlink)];
  }

  /** Process 1 is through its call, except that its lock file is still linked. */
  lemma FirstUnlocks(w: World, s0: State, path: Path) returns (es: seq<Event>, out: Ending)
    requires Init(w, s0) && s0.linked == map[] && s0.nextInode == 0
    ensures CanRun(w, false, s0, es)
    ensures var s := After(w, false, s0, es);
      s.procs == map[1 := Proc(path, RelClosed(out)), 2 := Proc(path, Idle), 3 := Proc(path, Idle)] &&
      s.linked == map[path := 0] && s.nextInode == 1 && s.locks == map[]
  {
    es := ThreeCalls(w, s0, path);
    es := AttemptAcquires(w, false, s0, es, 1);
    es, out := BodyEnds(w, false, s0, es, 1);
    es := ReleaseUpToUnlink(w, false, s0, es, 1);
  }

  lemma ThreeCalls(w: World, s0: State, path: Path) returns (es: seq<Event>)
    requires s0.procs == map[]
    ensures CanRun(w, false, s0, es)
    ensures After(w, false, s0, es) ==
      s0.(procs := map[1 := Proc(path, Idle), 2 := Proc(path, Idle), 3 := Proc(path, Idle)])
  {
    RunExtends(w, false, s0, [], Call(1, path));
    es := [] + [Call(1, path)];
    RunExtends(w, false, s0, es, Call(2, path));
    es := es + [Call(2, path)];
    RunExtends(w, false, s0, es, Call(3, path));
    es := es + [Call(3, path)];
  }

  /** The body comes to an end, whatever the file at the path: it matches, or
      the download fails for good. */
  lemma BodyEnds(w: World, guarded: bool, s0: State, before: seq<Event>, p: Pid) returns (es: seq<Event>, out: Ending)
    requires CanRun(w, guarded, s0, before)
    requires var s := After(w, guarded, s0, before);
      p in s.procs && s.procs[p].pc.CheckExists?
    ensures CanRun(w, guarded, s0, es) && GoesOn(before, es)
    ensures var s := After(w, guarded, s0, before);
      After(w, guarded, s0, es) == Moved(s, p, Releasing(s.procs[p].pc.ino, out))
  {
    var s := After(w, guarded, s0, before);
    if s.procs[p].path in s.files {
      es := Moves(w, guarded, s0, before, p, CheckHash(s.procs[p].pc.ino));
      es, out := HashChecked(w, guarded, s0, es, p);
    } else {
      es, out := DownloadFails(w, guarded, s0, before, p);
    }
  }

  lemma DownloadFails(w: World, guarded: bool, s0: State, before: seq<Event>, p: Pid) returns (es: seq<Event>, out: Ending)
    requires CanRun(w, guarded, s0, before)
    requires var s := After(w, guarded, s0, before);
      p in s.procs && (s.procs[p].pc.CheckExists? || s.procs[p].pc.CheckHash?) &&
      Allowed(w, guarded, s, s.procs[p].path, s.procs[p].pc, Fetch(s.procs[p].pc.ino), Keep)
    ensures CanRun(w, guarded, s0, es) && GoesOn(before, es)
    ensures var s := After(w, guarded, s0, before);
      After(w, guarded, s0, es) == Moved(s, p, Releasing(s.procs[p].pc.ino, out))
  {
    var ino := After(w, guarded, s0, before).procs[p].pc.ino;
    es := Moves(w, guarded, s0, before, p, Fetch(ino));
    es := Moves(w, guarded, s0, es, p, Releasing(ino, Raised));
    out := Raised;
  }

  lemma HashChecked(w: World, guarded: bool, s0: State, before: seq<Event>, p: Pid) returns (es: seq<Event>, out: Ending)
    requires CanRun(w, guarded, s0, before)
    requires var s := After(w, guarded, s0, before);
      p in s.procs && s.procs[p].pc.CheckHash? && s.procs[p].path in s.files
    ensures CanRun(w, guarded, s0, es) && GoesOn(before, es)
    ensures var s := After(w, guarded, s0, before);
      After(w, guarded, s0, es) == Moved(s, p, Releasing(s.procs[p].pc.ino, out))
  {
    var s := After(w, guarded, s0, before);
    if Matches(w, s, s.procs[p].path) {
      out := Returned(false);
      es := Moves(w, guarded, s0, before, p, Releasing(s.procs[p].pc.ino, out));
    } else {
      es, out := DownloadFails(w, guarded, s0, before, p);
    }
  }

  lemma ReleaseUpToUnlink(w: World, guarded: bool, s0: State, before: seq<Event>, p: Pid) returns (es: seq<Event>)
    requires CanRun(w, guarded, s0, before)
    requires var s := After(w, guarded, s0, before);
      p in s.procs && s.procs[p].pc.Releasing? && (guarded ==> s.guard.None?)
    ensures CanRun(w, guarded, s0, es) && GoesOn(before, es)
    ensures var s := After(w, guarded, s0, before);
      var Proc(path, pc) := s.procs[p];
      After(w, guarded, s0, es) ==
        s.(procs := s.procs[p := Proc(path, RelClosed(pc.out))], guard := Some(p), locks := s.locks - {pc.ino})
  {
    var s := After(w, guarded, s0, before);
    var Proc(_, Releasing(ino, out)) := s.procs[p];
    es := Grabs(w, guarded, s0, before, p, RelGuarded(ino, out));
    es := DropsLock(w, guarded, s0, es, p);
    es := Moves(w, guarded, s0, es, p, RelClosed(out));
  }

  lemma DropsLock(w: World, guarded: bool, s0: State, before: seq<Event>, p: Pid) returns (es: seq<Event>)
    requires CanRun(w, guarded, s0, before)
    requires var s := After(w, guarded, s0, before);
      p in s.procs && s.procs[p].pc.RelGuarded?
    ensures CanRun(w, guarded, s0, es) && GoesOn(before, es)
    ensures var s := After(w, guarded, s0, before);
      var pc := s.procs[p].pc;
      After(w, guarded, s0, es) == Moved(s, p, RelUnlocked(pc.ino, pc.out)).(locks := s.locks - {pc.ino})
  {
    var pc := After(w, guarded, s0, before).procs[p].pc;
    RunExtends(w, guarded, s0, before, Act(p, RelUnlocked(pc.ino, pc.out), Unlock(pc.ino)));
    es := before + [Act(p, RelUnlocked(pc.ino, pc.out), Unlock(pc.ino))];
  }
}
