/** timeout_retry.py, reraiser_thread.py and decorators.py: retries, and the rule
    that decorated calls inside a retried call are not retried on their own. */
module TimeoutRetry {
  import opened Wrappers

  datatype Exn =
    | TimeoutError          // of reraiser_thread
    | CmdTimeoutError       // of cmd_helper
    | CommandTimeoutError   // what a decorated call raises for either
    | KeyboardInterrupt     // not an Exception: Run does not catch it
    | Other(id: nat)

  type Ending = Result<nat, Exn>

  /** What a thread does: calls of plain functions one after the other, calls of
      decorated functions, and RunAsync. */
  datatype Prog =
    | Call(name: string)
    | Then(first: Prog, second: Prog)
    | Decorated(retries: int, body: Prog)
    | Async(progs: seq<Prog>)

  /** The plain functions called so far. */
  type Log = seq<string>

  /** The answer of a plain function and whether the watchdog of an attempt has
      expired when it ends depend on all that happened before, in any way. */
  datatype Env = Env(answer: Log -> Ending, expired: Log -> bool, retryIf: Exn -> bool)

  /** Whether Run gives up on the numTry-th attempt with this outcome. */
  predicate IsLast(env: Env, out: Ending, numTry: nat, retries: int) {
    out.Ok? || out.error.KeyboardInterrupt? || numTry > retries || !env.retryIf(out.error)
  }

  function Converted(out: Ending): Ending {
    if out.Err? && (out.error.TimeoutError? || out.error.CmdTimeoutError?) then Err(CommandTimeoutError) else out
  }

  // ------------------------------------------------------------------- meaning

  /** The log and the outcome of prog, inside a retried call or not. */
  function Exec(env: Env, prog: Prog, log: Log, inside: bool): (Log, Ending)
    decreases prog, 1, 0
  {
    match prog
    case Call(name) => (log + [name], env.answer(log + [name]))
    case Then(first, second) =>
      var (log1, out1) := Exec(env, first, log, inside);
      if out1.Err? then (log1, out1) else Exec(env, second, log1, inside)
    case Decorated(retries, body) =>
      var (log1, out1) := if inside then Exec(env, body, log, true) else Run(env, body, log, 1, retries);
      (log1, Converted(out1))
    case Async(progs) => ExecAll(env, progs, 0, log, Ok(0), inside)
  }

  /** All threads complete; the first exception in their order is raised. */
  function ExecAll(env: Env, progs: seq<Prog>, i: nat, log: Log, out: Ending, inside: bool): (Log, Ending)
    requires i <= |progs|
    decreases progs, 0, |progs| - i
  {
    if i == |progs| then (log, out) else
    var (log1, out1) := Exec(env, progs[i], log, inside);
    ExecAll(env, progs, i + 1, log1, if out.Err? then out else out1, inside)
  }

  function Attempt(env: Env, body: Prog, log: Log): (Log, Ending)
    decreases body, 1, 1
  {
    var (log1, out1) := Exec(env, body, log, true);
    (log1, if env.expired(log1) then Err(TimeoutError) else out1)
  }

  function Run(env: Env, body: Prog, log: Log, numTry: nat, retries: int): (Log, Ending)
    decreases body, 2, if numTry > retries then 0 else retries - numTry + 1
  {
    var (log1, out1) := Attempt(env, body, log);
    if IsLast(env, out1, numTry, retries) then (log1, out1)
    else Run(env, body, log1, numTry + 1, retries)
  }

  // ------------------------------------------------------------- thread groups

  class ThreadGroup {
    const isTimeout: bool
    var blockedParent: ThreadGroup?
    ghost const birth: nat
    ghost const chain: set<ThreadGroup>

    constructor (isTimeout: bool, blockedParent: ThreadGroup?)
      requires blockedParent != null ==> blockedParent.Valid()
      ensures this.isTimeout == isTimeout && this.blockedParent == blockedParent && Valid()
    {
      this.isTimeout, this.blockedParent := isTimeout, blockedParent;
      this.birth := if blockedParent == null then 0 else blockedParent.birth + 1;
      this.chain := {this} + if blockedParent == null then {} else blockedParent.chain;
    }

    /** A group that is blocked on this one was started before it. */
    ghost predicate Valid()
      reads this, chain
      decreases birth
    {
      this in chain &&
      (blockedParent != null ==>
         blockedParent in chain && blockedParent.chain <= chain && blockedParent.birth < birth && blockedParent.Valid())
    }

    /** The first group with a timeout on the way up from this one, if any. */
    ghost function Nearest(): ThreadGroup?
      requires Valid()
      reads this, chain
      decreases birth
    {
      if isTimeout then this else if blockedParent == null then null else blockedParent.Nearest()
    }

    /** This group or one that is blocked on it, directly or not, has a timeout. */
    ghost predicate InTimeout()
      requires Valid()
      reads this, chain
    {
      Nearest() != null
    }
  }

  /** The n-th group on the way up from g, through those blocked on it. */
  ghost function Up(g: ThreadGroup, n: nat): (r: ThreadGroup?)
    requires g.Valid()
    reads g, g.chain
    ensures r != null ==> r in g.chain && r.Valid() && r.chain <= g.chain
    decreases g.birth
  {
    if n == 0 then g else if g.blockedParent == null then null else Up(g.blockedParent, n - 1)
  }

  /** The nearest group is the first one with a timeout, if there is one. */
  lemma {:induction false} NearestMeans(g: ThreadGroup) returns (n: nat)
    requires g.Valid()
    ensures g.Nearest() == Up(g, n) && (g.Nearest() != null ==> g.Nearest().isTimeout)
    ensures forall k :: 0 <= k < n ==> Up(g, k) != null && !Up(g, k).isTimeout
    decreases g.birth
  {
    if g.isTimeout {
      n := 0;
    } else if g.blockedParent == null {
      n := 1;
    } else {
      n := NearestMeans(g.blockedParent);
      n := n + 1;
      assert forall k :: 0 < k < n ==> Up(g, k) == Up(g.blockedParent, k - 1);
    }
  }

  /** The walk ends because every step leads to a group that was started earlier. */
  method CurrentTimeoutThreadGroup(current: ThreadGroup?) returns (r: ThreadGroup?)
    requires current != null ==> current.Valid()
    ensures r == if current == null then null else current.Nearest()
    ensures r != null ==> r.isTimeout && r in current.chain
  {
    r := current;
    while r != null
      invariant r != null ==> r.Valid()
      invariant r != null ==> current != null && r.chain <= current.chain
      invariant (if current == null then null else current.Nearest()) == if r == null then null else r.Nearest()
      decreases if r == null then 0 else r.birth + 1
    {
      if r.isTimeout {
        return;
      }
      r := r.blockedParent;
    }
  }

  ghost predicate Inside(current: ThreadGroup?)
    requires current != null ==> current.Valid()
    reads current, if current == null then {} else current.chain
  {
    current != null && current.InTimeout()
  }

  /** What a thread of the group current does. Whether it is inside a retried call
      is found out by walking the groups. */
  method Perform(env: Env, prog: Prog, log: Log, current: ThreadGroup?) returns (log': Log, out: Ending)
    requires current != null ==> current.Valid()
    ensures (log', out) == Exec(env, prog, log, Inside(current))
    decreases prog, 1
  {
    match prog {
      case Call(name) =>
        log' := log + [name];
        out := env.answer(log');
      case Then(first, second) =>
        log', out := Perform(env, first, log, current);
        if out.Ok? {
          log', out := Perform(env, second, log', current);
        }
      case Decorated(retries, body) =>
        var group := CurrentTimeoutThreadGroup(current);
        if group != null {
          log', out := Perform(env, body, log, current);
        } else {
          log', out := PerformRun(env, body, log, retries, current);
        }
        out := Converted(out);
      case Async(progs) =>
        log', out := RunAsync(env, progs, log, current);
    }
  }

  method RunAsync(env: Env, progs: seq<Prog>, log: Log, current: ThreadGroup?) returns (log': Log, out: Ending)
    requires current != null ==> current.Valid()
    ensures (log', out) == ExecAll(env, progs, 0, log, Ok(0), Inside(current))
    decreases progs, 0
  {
    var group := new ThreadGroup(false, current);
    assert Inside(group) == Inside(current);
    log', out := log, Ok(0);
    for i := 0 to |progs|
      invariant ExecAll(env, progs, i, log', out, Inside(current)) == ExecAll(env, progs, 0, log, Ok(0), Inside(current))
      invariant group.Valid() && Inside(group) == Inside(current)
    {
      var ret;
      log', ret := Perform(env, progs[i], log', group);
      if out.Ok? {
        out := ret;
      }
    }
    group.blockedParent := null;
  }

  method PerformRun(env: Env, body: Prog, log: Log, retries: int, current: ThreadGroup?) returns (log': Log, out: Ending)
    requires current != null ==> current.Valid()
    ensures (log', out) == Run(env, body, log, 1, retries)
    decreases body, 2
  {
    var numTry := 1;
    log' := log;
    while true
      invariant numTry >= 1 && Run(env, body, log', numTry, retries) == Run(env, body, log, 1, retries)
      decreases if numTry > retries then 0 else retries - numTry + 1
    {
      var group := new ThreadGroup(true, current);
      log', out := Perform(env, body, log', group);
      if env.expired(log') {
        out := Err(TimeoutError);
      }
      group.blockedParent := null;
      if IsLast(env, out, numTry, retries) {
        return;
      }
      numTry := numTry + 1;
    }
  }

  // ------------------------------------------------------------------- results

  /** How the attempt ends that starts with log and ends with log'. */
  function Tried(env: Env, body: Prog, log: Log, log': Log): Ending {
    if env.expired(log') then Err(TimeoutError) else Exec(env, body, log, true).1
  }

  /** The function is run from each log to the next one. */
  predicate Attempts(env: Env, body: Prog, logs: seq<Log>) {
    forall k :: 0 <= k < |logs| - 1 ==> Exec(env, body, logs[k], true).0 == logs[k + 1]
  }

  predicate MayRetry(env: Env, out: Ending) {
    out.Err? && !out.error.KeyboardInterrupt? && env.retryIf(out.error)
  }

  /** Run starts the function once and then again, at most retries times, after each
      failure that is to be retried and only after these; it ends as the last attempt
      does. The time-out of an attempt counts as its failure. */
  lemma RunMeans(env: Env, body: Prog, log: Log, retries: int) returns (logs: seq<Log>)
    ensures 2 <= |logs| <= (if retries > 0 then retries else 0) + 2 && logs[0] == log
    ensures Attempts(env, body, logs)
    ensures var n := |logs| - 1;
      Run(env, body, log, 1, retries) == (logs[n], Tried(env, body, logs[n - 1], logs[n])) &&
      (forall k :: 1 <= k < n ==> MayRetry(env, Tried(env, body, logs[k - 1], logs[k]))) &&
      (n <= retries ==> !MayRetry(env, Tried(env, body, logs[n - 1], logs[n])))
  {
    logs := RunFrom(env, body, log, 1, retries);
  }

  lemma {:induction false} RunFrom(env: Env, body: Prog, log: Log, numTry: nat, retries: int) returns (logs: seq<Log>)
    requires 1 <= numTry <= (if retries > 0 then retries else 0) + 1
    ensures 2 <= |logs| <= (if retries > 0 then retries else 0) + 3 - numTry && logs[0] == log
    ensures Attempts(env, body, logs)
    ensures var n := |logs| - 1;
      Run(env, body, log, numTry, retries) == (logs[n], Tried(env, body, logs[n - 1], logs[n])) &&
      (forall k :: 1 <= k < n ==> MayRetry(env, Tried(env, body, logs[k - 1], logs[k]))) &&
      (n + numTry - 1 <= retries ==> !MayRetry(env, Tried(env, body, logs[n - 1], logs[n])))
    decreases if numTry > retries then 0 else retries - numTry + 1
  {
    var (log1, out1) := Attempt(env, body, log);
    if IsLast(env, out1, numTry, retries) {
      logs := [log, log1];
    } else {
      var rest := RunFrom(env, body, log1, numTry + 1, retries);
      logs := [log] + rest;
      assert forall k :: 1 <= k < |logs| ==> logs[k] == rest[k - 1];
    }
  }

  /** A decorated call lets no time-out through: it raises CommandTimeoutError for
      either kind, and any other ending is that of the function or of Run. */
  lemma DecoratedRaises(env: Env, retries: int, body: Prog, log: Log, inside: bool)
    ensures var (log1, out1) := if inside then Exec(env, body, log, true) else Run(env, body, log, 1, retries);
      var (log', out) := Exec(env, Decorated(retries, body), log, inside);
      log' == log1 && out != Err(TimeoutError) && out != Err(CmdTimeoutError) &&
      if out1 == Err(TimeoutError) || out1 == Err(CmdTimeoutError) then out == Err(CommandTimeoutError)
      else out == out1
  {
  }

  /** RunAsync runs all functions, whatever any of them raises. It ends as the n-th
      does, the first one that raises, or the last one if none does. */
  lemma AsyncMeans(env: Env, progs: seq<Prog>, log: Log, inside: bool) returns (logs: seq<Log>, n: nat)
    ensures |logs| == |progs| + 1 && logs[0] == log
    ensures forall i :: 0 <= i < |progs| ==> Exec(env, progs[i], logs[i], inside).0 == logs[i + 1]
    ensures var (log', out) := Exec(env, Async(progs), log, inside);
      log' == logs[|progs|] &&
      if progs == [] then out == Ok(0) else
      n < |progs| && out == Exec(env, progs[n], logs[n], inside).1 && (out.Ok? ==> n == |progs| - 1) &&
      forall k :: 0 <= k < n ==> Exec(env, progs[k], logs[k], inside).1.Ok?
  {
    logs, n := [log], 0;
    var out: Ending := Ok(0);
    for i := 0 to |progs|
      invariant |logs| == i + 1 && logs[0] == log && n <= i
      invariant forall k :: 0 <= k < i ==> Exec(env, progs[k], logs[k], inside).0 == logs[k + 1]
      invariant ExecAll(env, progs, i, logs[i], out, inside) == ExecAll(env, progs, 0, log, Ok(0), inside)
      invariant i == 0 ==> out == Ok(0)
      invariant i > 0 ==> n < i && out == Exec(env, progs[n], logs[n], inside).1 && (out.Ok? ==> n == i - 1)
      invariant forall k :: 0 <= k < n ==> Exec(env, progs[k], logs[k], inside).1.Ok?
    {
      var (log1, out1) := Exec(env, progs[i], logs[i], inside);
      if out.Ok? {
        n, out := i, out1;
      }
      logs := logs + [log1];
    }
  }

  /** The same calls, but no decorated one is ever retried. */
  function NoRetries(prog: Prog): Prog {
    match prog
    case Call(_) => prog
    case Then(first, second) => Then(NoRetries(first), NoRetries(second))
    case Decorated(_, body) => Decorated(0, NoRetries(body))
    case Async(progs) => Async(AllNoRetries(progs))
  }

  function AllNoRetries(progs: seq<Prog>): (r: seq<Prog>)
    ensures |r| == |progs| && forall i :: 0 <= i < |progs| ==> r[i] == NoRetries(progs[i])
  {
    seq(|progs|, i requires 0 <= i < |progs| => NoRetries(progs[i]))
  }

  lemma {:induction false} InsideNoRetries(env: Env, prog: Prog, log: Log)
    ensures Exec(env, NoRetries(prog), log, true) == Exec(env, prog, log, true)
    decreases prog, 1, 0
  {
    match prog
    case Call(_) =>
    case Then(first, second) =>
      InsideNoRetries(env, first, log);
      InsideNoRetries(env, second, Exec(env, first, log, true).0);
    case Decorated(_, body) => InsideNoRetries(env, body, log);
    case Async(progs) => AllInsideNoRetries(env, progs, 0, log, Ok(0));
  }

  lemma AllInsideNoRetries(env: Env, progs: seq<Prog>, i: nat, log: Log, out: Ending)
    requires i <= |progs|
    ensures ExecAll(env, AllNoRetries(progs), i, log, out, true) == ExecAll(env, progs, i, log, out, true)
    decreases progs, 0, |progs| - i
  {
    if i < |progs| {
      InsideNoRetries(env, progs[i], log);
      var (log1, out1) := Exec(env, progs[i], log, true);
      AllInsideNoRetries(env, progs, i + 1, log1, if out.Err? then out else out1);
    }
  }

  /** Under a decorated call, directly or through RunAsync, it makes no difference
      how often the decorated calls inside are to be retried. */
  lemma NestedRetriesDoNotCount(env: Env, retries: int, body: Prog, log: Log, inside: bool)
    ensures Exec(env, Decorated(retries, body), log, inside) == Exec(env, Decorated(retries, NoRetries(body)), log, inside)
  {
    InsideNoRetries(env, body, log);
    RunNoRetries(env, body, log, 1, retries);
  }

  lemma {:induction false} RunNoRetries(env: Env, body: Prog, log: Log, numTry: nat, retries: int)
    ensures Run(env, body, log, numTry, retries) == Run(env, NoRetries(body), log, numTry, retries)
    decreases if numTry > retries then 0 else retries - numTry + 1
  {
    InsideNoRetries(env, body, log);
    var (log1, out1) := Attempt(env, body, log);
    if !IsLast(env, out1, numTry, retries) {
      RunNoRetries(env, body, log1, numTry + 1, retries);
    }
  }

  /** How many calls of the plain function name a program has, each counted once. */
  function Count(prog: Prog, name: string): nat {
    match prog
    case Call(called) => if called == name then 1 else 0
    case Then(first, second) => Count(first, name) + Count(second, name)
    case Decorated(_, body) => Count(body, name)
    case Async(progs) => AllCount(progs, 0, name)
  }

  function AllCount(progs: seq<Prog>, i: nat, name: string): nat
    requires i <= |progs|
    decreases progs, |progs| - i
  {
    if i == |progs| then 0 else Count(progs[i], name) + AllCount(progs, i + 1, name)
  }

  /** How often the plain function name has been called. */
  function Called(log: Log, name: string): nat {
    multiset(log)[name]
  }

  lemma {:induction false} InsideCallsOnce(env: Env, prog: Prog, log: Log, name: string)
    ensures Called(Exec(env, prog, log, true).0, name) <= Called(log, name) + Count(prog, name)
    decreases prog, 1, 0
  {
    match prog
    case Call(_) =>
    case Then(first, second) =>
      InsideCallsOnce(env, first, log, name);
      InsideCallsOnce(env, second, Exec(env, first, log, true).0, name);
    case Decorated(_, body) => InsideCallsOnce(env, body, log, name);
    case Async(progs) => AllInsideCallsOnce(env, progs, 0, log, Ok(0), name);
  }

  lemma AllInsideCallsOnce(env: Env, progs: seq<Prog>, i: nat, log: Log, out: Ending, name: string)
    requires i <= |progs|
    ensures Called(ExecAll(env, progs, i, log, out, true).0, name) <= Called(log, name) + AllCount(progs, i, name)
    decreases progs, 0, |progs| - i
  {
    if i == |progs| {
    } else {
      InsideCallsOnce(env, progs[i], log, name);
      var (log1, out1) := Exec(env, progs[i], log, true);
      AllInsideCallsOnce(env, progs, i + 1, log1, if out.Err? then out else out1, name);
    }
  }

  lemma {:induction false} AttemptsCall(env: Env, body: Prog, logs: seq<Log>, n: nat, name: string)
    requires n < |logs| && Attempts(env, body, logs)
    ensures Called(logs[n], name) <= Called(logs[0], name) + n * Count(body, name)
    decreases n
  {
    if n == 0 {
    } else {
      AttemptsCall(env, body, logs, n - 1, name);
      InsideCallsOnce(env, body, logs[n - 1], name);
      assert n * Count(body, name) == (n - 1) * Count(body, name) + Count(body, name);
    }
  }

  lemma TimesGrow(a: nat, b: nat, c: nat)
    requires a <= b
    ensures a * c <= b * c
  {
  }

  /** A decorated call makes each plain call under it at most retries + 1 times,
      however deeply it is decorated in between, and once inside another one. */
  lemma CallsAreNotMultiplied(env: Env, retries: int, body: Prog, log: Log, inside: bool, name: string)
    ensures Called(Exec(env, Decorated(retries, body), log, inside).0, name) <=
            Called(log, name) + (1 + if !inside && retries > 0 then retries else 0) * Count(body, name)
  {
    if inside {
      InsideCallsOnce(env, body, log, name);
    } else {
      var logs := RunMeans(env, body, log, retries);
      AttemptsCall(env, body, logs, |logs| - 1, name);
      TimesGrow(|logs| - 1, 1 + if retries > 0 then retries else 0, Count(body, name));
    }
  }
}
