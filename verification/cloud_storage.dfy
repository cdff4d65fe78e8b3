/** Cloud storage as the uploader sees it: objects at bucket and path, and calls
    that may fail without effect.

    fate(k) tells whether the k-th outside operation of a run goes through, so a
    statement about every fate is a statement about every pattern of failures. */
module CloudStorage {
  import opened Wrappers

  type Content = string

  datatype Error = ConflictError | CloudError | ReadWriteError | ValueError | IoError

  datatype Loc = Loc(bucket: string, path: string)

  /** The surroundings of a run: local files, which do not change, the hash
      function, and the fate of each outside operation. */
  datatype Env = Env(host: map<string, Content>, hash: Content -> string, fate: nat -> bool)

  datatype Cloud = Cloud(objects: map<Loc, Content>, calls: nat) {
    function Tick(): Cloud {
      this.(calls := calls + 1)
    }

    function Exists(env: Env, l: Loc): (Cloud, Result<bool, Error>) {
      (Tick(), if env.fate(calls) then Ok(l in objects) else Err(CloudError))
    }

    /** Fails too when nothing is at from, as gsutil does. */
    function Copy(env: Env, from: Loc, to: Loc): (Cloud, Outcome<Error>) {
      if env.fate(calls) && from in objects then (Tick().(objects := objects[to := objects[from]]), Pass)
      else (Tick(), Fail(CloudError))
    }

    function Insert(env: Env, l: Loc, localPath: string): (Cloud, Outcome<Error>) {
      if env.fate(calls) && localPath in env.host then (Tick().(objects := objects[l := env.host[localPath]]), Pass)
      else (Tick(), Fail(CloudError))
    }

    function Delete(env: Env, l: Loc): (Cloud, Outcome<Error>) {
      if env.fate(calls) && l in objects then (Tick().(objects := objects - {l}), Pass)
      else (Tick(), Fail(CloudError))
    }
  }

  /** The cloud that all uploaders of a process talk to. */
  class Storage {
    const env: Env
    var state: Cloud

    constructor (env: Env, state: Cloud)
      ensures this.env == env && this.state == state
    {
      this.env, this.state := env, state;
    }

    method Exists(l: Loc) returns (r: Result<bool, Error>)
      modifies this
      ensures (state, r) == old(state).Exists(env, l)
    {
      var (next, res) := state.Exists(env, l);
      state, r := next, res;
    }

    method Copy(from: Loc, to: Loc) returns (r: Outcome<Error>)
      modifies this
      ensures (state, r) == old(state).Copy(env, from, to)
    {
      var (next, res) := state.Copy(env, from, to);
      state, r := next, res;
    }

    method Insert(l: Loc, localPath: string) returns (r: Outcome<Error>)
      modifies this
      ensures (state, r) == old(state).Insert(env, l, localPath)
    {
      var (next, res) := state.Insert(env, l, localPath);
      state, r := next, res;
    }

    method Delete(l: Loc) returns (r: Outcome<Error>)
      modifies this
      ensures (state, r) == old(state).Delete(env, l)
    {
      var (next, res) := state.Delete(env, l);
      state, r := next, res;
    }

    /** An outside operation that is no cloud call: writing the config file. */
    method WriteGoesThrough() returns (ok: bool)
      modifies this
      ensures ok == env.fate(old(state).calls) && state == old(state).Tick()
    {
      ok := env.fate(state.calls);
      state := state.Tick();
    }
  }
}
