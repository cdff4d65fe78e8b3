/** dependency_info.py and manager.py: the dependencies of several configs, merged. */
module DependencyManagers {
  import opened LocalPaths
  import opened LookupOrders
  import opened Sequences
  import opened Wrappers

  datatype Error = ValueError | UnsupportedConfigFormatError | NoPathFoundError

  /** What a config says, or several configs together say, about a dependency on
      a platform. */
  datatype Info = Info(
    dependency: string, platform: string, configPaths: seq<string>,
    local: Option<Groups>, cloud: Option<string>)

  datatype Key = Key(dependency: string, platform: string)

  function KeyOf(info: Info): Key {
    Key(info.dependency, info.platform)
  }

  /** DependencyInfo.Update */
  function Updated(a: Info, b: Info): (Info, Outcome<Error>) {
    var a1 := a.(configPaths := a.configPaths + b.configPaths);
    if KeyOf(a) != KeyOf(b) || (b.cloud.Some? && a.cloud.Some?) then (a1, Fail(ValueError)) else
    var local := if a.local.None? then b.local
                 else if b.local.None? then a.local
                 else Some(Merged(a.local.value, b.local.value, |b.local.value|));
    (a1.(cloud := if b.cloud.Some? then b.cloud else a.cloud, local := local), Pass)
  }

  class DependencyInfo {
    const dependency: string
    const platform: string
    var configPaths: seq<string>
    var localPathInfo: LocalPathInfo?
    var cloudStorageInfo: Option<string>

    function State(): Info
      reads this, localPathInfo
    {
      Info(dependency, platform, configPaths,
           if localPathInfo == null then None else Some(localPathInfo.groups), cloudStorageInfo)
    }

    constructor (dependency: string, platform: string, configPath: string,
                 localPathInfo: LocalPathInfo?, cloudStorageInfo: Option<string>)
      ensures this.localPathInfo == localPathInfo
      ensures State() == Info(dependency, platform, [configPath],
                              if localPathInfo == null then None else Some(localPathInfo.groups), cloudStorageInfo)
    {
      this.dependency, this.platform, this.configPaths := dependency, platform, [configPath];
      this.localPathInfo, this.cloudStorageInfo := localPathInfo, cloudStorageInfo;
    }

    /** Without local paths of its own, this one shares those of other from now on. */
    method Update(other: DependencyInfo) returns (r: Outcome<Error>)
      modifies this, localPathInfo
      ensures (State(), r) == Updated(old(State()), old(other.State()))
      ensures r.Pass? ==> localPathInfo == if old(localPathInfo) == null then old(other.localPathInfo) else old(localPathInfo)
    {
      configPaths := configPaths + other.configPaths;
      if dependency != other.dependency || platform != other.platform {
        return Fail(ValueError);
      }
      if other.cloudStorageInfo.Some? {
        if cloudStorageInfo.Some? {
          return Fail(ValueError);
        }
        cloudStorageInfo := other.cloudStorageInfo;
      }
      if localPathInfo == null {
        localPathInfo := other.localPathInfo;
      } else {
        localPathInfo.Update(other.localPathInfo);
      }
      r := Pass;
    }
  }

  // ------------------------------------------------------------------- manager

  type Lookups = map<Key, Info>

  function WithInfo(known: Lookups, info: Info): Result<Lookups, Error> {
    var key := KeyOf(info);
    if key !in known then Ok(known[key := info])
    else
      var (updated, r) := Updated(known[key], info);
      if r.Fail? then Err(r.error) else Ok(known[key := updated])
  }

  function Registered(infos: seq<Info>): Result<Lookups, Error> {
    if infos == [] then Ok(map[])
    else
      var known := Registered(infos[..|infos| - 1]);
      if known.Err? then known else WithInfo(known.value, infos[|infos| - 1])
  }

  datatype Config = Config(configType: string, infos: seq<Info>)

  function AllInfos(configs: seq<Config>): seq<Info> {
    if configs == [] then [] else AllInfos(configs[..|configs| - 1]) + configs[|configs| - 1].infos
  }

  predicate Supported(configs: seq<Config>, types: seq<string>) {
    forall i :: 0 <= i < |configs| ==> types == [] || configs[i].configType in types
  }

  /** _GetDependencyInfo: the info for the platform, or else the default one. */
  function InfoFor(known: Lookups, dependency: string, platform: string): Option<Info> {
    if Key(dependency, platform) in known then Some(known[Key(dependency, platform)])
    else if Key(dependency, "default") in known then Some(known[Key(dependency, "default")])
    else None
  }

  function FindLocal(info: Info, fs: FileSystem): Option<string> {
    if info.local.None? then None else Lookup(info.local.value, fs)
  }

  /** The local path of a dependency, if any is found. */
  function PathFor(known: Lookups, dependency: string, platform: string, fs: FileSystem): Option<string> {
    var info := InfoFor(known, dependency, platform);
    if info.None? then None else FindLocal(info.value, fs)
  }

  /** The configs before the i-th are fine, and this is what is wrong with that. */
  ghost predicate FirstFails(configs: seq<Config>, i: nat, types: seq<string>, error: Error) {
    i < |configs| && Supported(configs[..i], types) && Registered(AllInfos(configs[..i])).Ok? &&
    if types != [] && configs[i].configType !in types then error == UnsupportedConfigFormatError
    else error == ValueError && Registered(AllInfos(configs[..i + 1])).Err?
  }

  class DependencyManager {
    const supportedConfigs: seq<string>
    var lookup: Lookups

    constructor (supportedConfigs: seq<string>)
      ensures this.supportedConfigs == supportedConfigs && lookup == map[]
    {
      this.supportedConfigs, this.lookup := supportedConfigs, map[];
    }

    /** The loop of __init__: the dependencies of all configs, first ones first. */
    method Init(configs: seq<Config>) returns (r: Outcome<Error>)
      requires lookup == map[]
      modifies this
      ensures r.Pass? <==> Supported(configs, supportedConfigs) && Registered(AllInfos(configs)).Ok?
      ensures r.Pass? ==> Registered(AllInfos(configs)) == Ok(lookup)
      ensures r.Fail? ==> exists i :: 0 <= i < |configs| && FirstFails(configs, i, supportedConfigs, r.error)
    {
      for i := 0 to |configs|
        invariant Supported(configs[..i], supportedConfigs)
        invariant Registered(AllInfos(configs[..i])) == Ok(lookup)
      {
        assert configs[..i + 1][..i] == configs[..i];
        ghost var before := AllInfos(configs[..i]);
        r := UpdateDependencies(configs[i], before);
        if r.Fail? {
          if supportedConfigs == [] || configs[i].configType in supportedConfigs {
            FailsForAll(configs, i);
          }
          assert FirstFails(configs, i, supportedConfigs, r.error);
          return;
        }
      }
      assert configs[..|configs|] == configs;
      r := Pass;
    }

    method UpdateDependencies(config: Config, ghost before: seq<Info>) returns (r: Outcome<Error>)
      requires Registered(before) == Ok(lookup)
      modifies this
      ensures r.Pass? <==> (supportedConfigs == [] || config.configType in supportedConfigs) &&
                           Registered(before + config.infos).Ok?
      ensures r.Pass? ==> Registered(before + config.infos) == Ok(lookup)
      ensures r.Fail? ==> r.error == if supportedConfigs == [] || config.configType in supportedConfigs
                                     then ValueError else UnsupportedConfigFormatError
    {
      if supportedConfigs != [] && config.configType !in supportedConfigs {
        return Fail(UnsupportedConfigFormatError);
      }
      NoneMore(before, config.infos);
      for j := 0 to |config.infos|
        invariant Registered(before + config.infos[..j]) == Ok(lookup)
      {
        var added := WithInfo(lookup, config.infos[j]);
        RegisteredNext(before, config.infos, j);
        if added.Err? {
          RegisteredStops(before, config.infos, j + 1);
          assert added.error == ValueError;
          return Fail(added.error);
        }
        lookup := added.value;
      }
      assert config.infos[..|config.infos|] == config.infos;
      r := Pass;
    }

    /** The info for the platform, or else the default one. */
    function GetDependencyInfo(dependency: string, platform: string): Option<Info>
      reads this
    {
      InfoFor(lookup, dependency, platform)
    }

    method LocalPath(dependency: string, platform: string, fs: FileSystem) returns (r: Result<string, Error>)
      ensures r == var path := PathFor(lookup, dependency, platform, fs);
        if path.Some? then Ok(path.value) else Err(NoPathFoundError)
    {
      var info := GetDependencyInfo(dependency, platform);
      if info.None? {
        return Err(NoPathFoundError);
      }
      var localPath := FindLocal(info.value, fs);
      if localPath.None? {
        return Err(NoPathFoundError);
      }
      r := Ok(localPath.value);
    }
  }

  lemma {:induction false} RegisteredFails(infos: seq<Info>, n: nat)
    requires n <= |infos| && Registered(infos[..n]).Err?
    ensures Registered(infos).Err?
    decreases |infos|
  {
    if n == |infos| {
      assert infos[..n] == infos;
    } else {
      assert infos[..|infos| - 1][..n] == infos[..n];
      RegisteredFails(infos[..|infos| - 1], n);
    }
  }

  lemma RegisteredNext(before: seq<Info>, infos: seq<Info>, j: nat)
    requires j < |infos| && Registered(before + infos[..j]).Ok?
    ensures Registered(before + infos[..j + 1]) == WithInfo(Registered(before + infos[..j]).value, infos[j])
  {
    var front := before + infos[..j];
    OneMore(infos, j);
    Associate(before, infos[..j], [infos[j]]);
    assert (front + [infos[j]])[..|front|] == front;
  }

  lemma RegisteredStops(before: seq<Info>, infos: seq<Info>, j: nat)
    requires j <= |infos| && Registered(before + infos[..j]).Err?
    ensures Registered(before + infos).Err?
  {
    assert (before + infos)[..|before| + j] == before + infos[..j];
    RegisteredFails(before + infos, |before| + j);
  }

  lemma {:induction false} AllInfosPrefix(configs: seq<Config>, i: nat)
    requires i <= |configs|
    ensures AllInfos(configs[..i]) <= AllInfos(configs)
    decreases |configs|
  {
    if i == |configs| {
      assert configs[..i] == configs;
    } else {
      assert configs[..|configs| - 1][..i] == configs[..i];
      AllInfosPrefix(configs[..|configs| - 1], i);
    }
  }

  /** The infos of all configs, those of each config together and in their order. */
  lemma {:induction false} AllInfosConcat(a: seq<Config>, b: seq<Config>)
    ensures AllInfos(a + b) == AllInfos(a) + AllInfos(b)
    ensures forall i :: 0 <= i < |b| ==> AllInfos([b[i]]) == b[i].infos
    decreases |b|
  {
    forall i | 0 <= i < |b|
      ensures AllInfos([b[i]]) == b[i].infos
    {
      assert [b[i]][..0] == [];
      assert AllInfos([]) == [];
    }
    if b == [] {
      assert a + b == a;
    } else {
      var front, last := b[..|b| - 1], b[|b| - 1];
      AllInfosConcat(a, front);
      OneMore(b, |b| - 1);
      Associate(a, front, [last]);
      assert ((a + front) + [last])[..|a + front|] == a + front;
      Associate(AllInfos(a), AllInfos(front), last.infos);
    }
  }

  lemma FailsForAll(configs: seq<Config>, i: nat)
    requires i < |configs| && Registered(AllInfos(configs[..i + 1])).Err?
    ensures Registered(AllInfos(configs)).Err?
  {
    AllInfosPrefix(configs, i + 1);
    var n := |AllInfos(configs[..i + 1])|;
    assert AllInfos(configs)[..n] == AllInfos(configs[..i + 1]);
    RegisteredFails(AllInfos(configs), n);
  }

  // -------------------------------------------------------------------- meaning

  /** All that the configs say about one dependency on one platform, in order. */
  function About(infos: seq<Info>, key: Key): (r: seq<Info>)
    ensures forall i :: 0 <= i < |r| ==> KeyOf(r[i]) == key
  {
    if infos == [] then []
    else
      var last := infos[|infos| - 1];
      About(infos[..|infos| - 1], key) + if KeyOf(last) == key then [last] else []
  }

  /** The groups of all infos, one after the other. */
  function PlainGroups(infos: seq<Info>): Groups {
    if infos == [] then []
    else
      var last := infos[|infos| - 1];
      PlainGroups(infos[..|infos| - 1]) + if last.local.Some? then last.local.value else []
  }

  function Clouds(infos: seq<Info>): seq<string> {
    if infos == [] then []
    else
      var last := infos[|infos| - 1];
      Clouds(infos[..|infos| - 1]) + if last.cloud.Some? then [last.cloud.value] else []
  }

  function Paths(infos: seq<Info>): seq<string> {
    if infos == [] then [] else Paths(infos[..|infos| - 1]) + infos[|infos| - 1].configPaths
  }

  /** info is what those infos say together. */
  ghost predicate Combines(info: Info, infos: seq<Info>) {
    info.configPaths == Paths(infos) &&
    |Clouds(infos)| <= 1 && info.cloud == (if Clouds(infos) == [] then None else Some(Clouds(infos)[0])) &&
    forall fs :: FindLocal(info, fs) == Lookup(PlainGroups(infos), fs)
  }

  lemma CombinesOne(info: Info)
    ensures Combines(info, [info])
  {
    assert [info][..0] == [];
    assert [] + info.configPaths == info.configPaths;
    if info.local.Some? {
      assert [] + info.local.value == info.local.value;
    }
  }

  lemma CombinesMore(a: Info, infos: seq<Info>, b: Info)
    requires Combines(a, infos) && KeyOf(a) == KeyOf(b)
    ensures Updated(a, b).1.Pass? <==> |Clouds(infos + [b])| <= 1
    ensures Updated(a, b).1.Pass? ==> Combines(Updated(a, b).0, infos + [b])
  {
    assert (infos + [b])[..|infos|] == infos;
    var (c, r) := Updated(a, b);
    if r.Pass? {
      forall fs
        ensures FindLocal(c, fs) == Lookup(PlainGroups(infos + [b]), fs)
      {
        assert FindLocal(a, fs) == Lookup(PlainGroups(infos), fs);
        if b.local.Some? {
          LookupConcat(PlainGroups(infos), b.local.value, fs);
          if a.local.Some? {
            LookupMerged(a.local.value, b.local.value, fs);
            LookupConcat(a.local.value, b.local.value, fs);
          }
        } else {
          assert PlainGroups(infos) + [] == PlainGroups(infos);
        }
      }
    }
  }

  lemma AboutMore(infos: seq<Info>, info: Info, key: Key)
    ensures About(infos + [info], key) == if KeyOf(info) == key then About(infos, key) + [info] else About(infos, key)
  {
    assert (infos + [info])[..|infos|] == infos;
    assert About(infos, key) + [] == About(infos, key);
  }

  lemma CloudsMore(infos: seq<Info>, info: Info)
    ensures |Clouds(infos + [info])| >= |Clouds(infos)|
  {
    assert (infos + [info])[..|infos|] == infos;
  }

  /** What is known under key is what the infos say about it. */
  ghost predicate Knows(known: Lookups, infos: seq<Info>, key: Key) {
    if About(infos, key) == [] then key !in known
    else key in known && KeyOf(known[key]) == key && Combines(known[key], About(infos, key))
  }

  lemma KnowsMore(known: Lookups, infos: seq<Info>, info: Info, key: Key)
    requires Knows(known, infos, key) && Knows(known, infos, KeyOf(info))
    ensures WithInfo(known, info).Ok? <==> |Clouds(About(infos + [info], KeyOf(info)))| <= 1
    ensures WithInfo(known, info).Ok? ==> Knows(WithInfo(known, info).value, infos + [info], key)
  {
    AboutMore(infos, info, key);
    AboutMore(infos, info, KeyOf(info));
    var about := About(infos, KeyOf(info));
    if about == [] {
      assert about + [info] == [info];
      CombinesOne(info);
    } else {
      CombinesMore(known[KeyOf(info)], about, info);
    }
  }

  /** Merging succeeds exactly when no dependency has cloud storage data twice on
      one platform. What is known then is what all configs say, as if nothing
      had been left out: on any file system the merged local paths find what the
      plain groups of all configs find, in the order of the configs. */
  lemma {:induction false} RegisteredMeans(infos: seq<Info>)
    ensures Registered(infos).Ok? ==> forall key :: Knows(Registered(infos).value, infos, key)
    ensures Registered(infos).Ok? <==> forall key :: |Clouds(About(infos, key))| <= 1
    decreases |infos|
  {
    if infos == [] {
      assert forall key :: Knows(map[], [], key);
    } else {
      var front, last := infos[..|infos| - 1], infos[|infos| - 1];
      assert infos == front + [last];
      RegisteredMeans(front);
      if Registered(front).Ok? {
        forall key
          ensures WithInfo(Registered(front).value, last).Ok? ==>
            Knows(WithInfo(Registered(front).value, last).value, infos, key)
        {
          KnowsMore(Registered(front).value, front, last, key);
        }
        KnowsMore(Registered(front).value, front, last, KeyOf(last));
        KnownClouds(Registered(infos), infos);
      } else {
        var key :| |Clouds(About(front, key))| > 1;
        AboutMore(front, last, key);
        CloudsMore(About(front, key), last);
        assert |Clouds(About(infos, key))| > 1;
      }
    }
  }

  lemma KnownClouds(r: Result<Lookups, Error>, infos: seq<Info>)
    requires r.Ok? ==> forall key :: Knows(r.value, infos, key)
    ensures r.Ok? ==> forall key :: |Clouds(About(infos, key))| <= 1
  {
    if r.Ok? {
      forall key
        ensures |Clouds(About(infos, key))| <= 1
      {
        assert Knows(r.value, infos, key);
      }
    }
  }

  lemma {:induction false} AboutConcat(a: seq<Info>, b: seq<Info>, key: Key)
    ensures About(a + b, key) == About(a, key) + About(b, key)
    decreases |b|
  {
    if b == [] {
      assert a + b == a;
    } else {
      var front, last := b[..|b| - 1], b[|b| - 1];
      AboutConcat(a, front, key);
      AboutMore(a + front, last, key);
      AboutMore(front, last, key);
      OneMore(b, |b| - 1);
      Associate(a, front, [last]);
      Associate(About(a, key), About(front, key), [last]);
    }
  }

  lemma {:induction false} PlainGroupsConcat(a: seq<Info>, b: seq<Info>)
    ensures PlainGroups(a + b) == PlainGroups(a) + PlainGroups(b)
    decreases |b|
  {
    if b == [] {
      assert a + b == a;
    } else {
      var front, last := b[..|b| - 1], b[|b| - 1];
      PlainGroupsConcat(a, front);
      OneMore(b, |b| - 1);
      Associate(a, front, [last]);
      assert ((a + front) + [last])[..|a + front|] == a + front;
      Associate(PlainGroups(a), PlainGroups(front), if last.local.Some? then last.local.value else []);
    }
  }

  lemma PrefixRegistered(infos: seq<Info>, more: seq<Info>)
    requires Registered(infos + more).Ok?
    ensures Registered(infos).Ok?
  {
    assert (infos + more)[..|infos|] == infos;
    if Registered(infos).Err? {
      RegisteredFails(infos + more, |infos|);
    }
  }

  /** The plain groups of the info that the configs have for the platform. */
  function GroupsFor(infos: seq<Info>, dependency: string, platform: string): Groups {
    if About(infos, Key(dependency, platform)) != [] then PlainGroups(About(infos, Key(dependency, platform)))
    else PlainGroups(About(infos, Key(dependency, "default")))
  }

  lemma PathForMeans(infos: seq<Info>, dependency: string, platform: string, fs: FileSystem)
    requires Registered(infos).Ok?
    ensures PathFor(Registered(infos).value, dependency, platform, fs) == Lookup(GroupsFor(infos, dependency, platform), fs)
  {
    RegisteredMeans(infos);
    var known := Registered(infos).value;
    assert Knows(known, infos, Key(dependency, platform)) && Knows(known, infos, Key(dependency, "default"));
  }

  /** Whether later configs keep the local paths that the earlier ones find: they
      do where the earlier ones know the platform or the later ones do not, and
      otherwise if what they say of it starts with all that the earlier ones say
      of the default platform, known paths left out. */
  predicate KeepsPaths(infos: seq<Info>, more: seq<Info>, dependency: string, platform: string) {
    var key := Key(dependency, platform);
    About(infos, key) != [] || About(more, key) == [] ||
    Tidy(PlainGroups(About(infos, Key(dependency, "default"))), {""}) <= Tidy(PlainGroups(About(more, key)), {""})
  }

  lemma GroupsKept(infos: seq<Info>, more: seq<Info>, dependency: string, platform: string, fs: FileSystem)
    requires var key := Key(dependency, platform);
      About(infos, key) != [] || About(more, key) == []
    ensures !TellsApart(GroupsFor(infos, dependency, platform), GroupsFor(infos + more, dependency, platform), fs)
  {
    var key := if About(infos, Key(dependency, platform)) != [] then Key(dependency, platform) else Key(dependency, "default");
    AboutConcat(infos, more, Key(dependency, platform));
    AboutConcat(infos, more, key);
    PlainGroupsConcat(About(infos, key), About(more, key));
    LookupConcat(PlainGroups(About(infos, key)), PlainGroups(About(more, key)), fs);
  }

  lemma KeptOrNot(infos: seq<Info>, more: seq<Info>, dependency: string, platform: string)
    ensures KeepsPaths(infos, more, dependency, platform) <==>
            forall fs :: !TellsApart(GroupsFor(infos, dependency, platform), GroupsFor(infos + more, dependency, platform), fs)
  {
    var key := Key(dependency, platform);
    if About(infos, key) != [] || About(more, key) == [] {
      forall fs
        ensures !TellsApart(GroupsFor(infos, dependency, platform), GroupsFor(infos + more, dependency, platform), fs)
      {
        GroupsKept(infos, more, dependency, platform, fs);
      }
    } else {
      AboutConcat(infos, more, key);
      assert [] + About(more, key) == About(more, key);
      FindsTheSame(GroupsFor(infos, dependency, platform), GroupsFor(infos + more, dependency, platform));
    }
  }

  /** Later configs keep every local path that the earlier ones find for the
      platform, on every file system, exactly if KeepsPaths says so. */
  lemma EarlierConfigWins(infos: seq<Info>, more: seq<Info>, dependency: string, platform: string)
    requires Registered(infos + more).Ok?
    ensures Registered(infos).Ok?
    ensures var known, all := Registered(infos).value, Registered(infos + more).value;
      KeepsPaths(infos, more, dependency, platform) <==>
      forall fs :: PathFor(known, dependency, platform, fs).Some? ==>
        PathFor(all, dependency, platform, fs) == PathFor(known, dependency, platform, fs)
  {
    PrefixRegistered(infos, more);
    forall fs
      ensures PathFor(Registered(infos).value, dependency, platform, fs) ==
              Lookup(GroupsFor(infos, dependency, platform), fs)
      ensures PathFor(Registered(infos + more).value, dependency, platform, fs) ==
              Lookup(GroupsFor(infos + more, dependency, platform), fs)
    {
      PathForMeans(infos, dependency, platform, fs);
      PathForMeans(infos + more, dependency, platform, fs);
    }
    KeptOrNot(infos, more, dependency, platform);
    assert forall fs ::
      TellsApart(GroupsFor(infos, dependency, platform), GroupsFor(infos + more, dependency, platform), fs) <==>
      PathFor(Registered(infos).value, dependency, platform, fs).Some? &&
      PathFor(Registered(infos + more).value, dependency, platform, fs) !=
      PathFor(Registered(infos).value, dependency, platform, fs);
  }

  /** A later entry for the platform itself hides the default one of an earlier
      config: the path that was found gives way to another one, or to none. */
  lemma LaterPlatformHides(local: Option<Groups>, fs: FileSystem)
    requires fs == (map["x" := 0, "y" := 0]) && (local == Some([["y"]]) || local == None)
    ensures var infos := [Info("d", "default", ["c1"], Some([["x"]]), None)];
      var more := [Info("d", "p", ["c2"], local, None)];
      Registered(infos).Ok? && Registered(infos + more).Ok? &&
      PathFor(Registered(infos).value, "d", "p", fs) == Some("x") &&
      PathFor(Registered(infos + more).value, "d", "p", fs) == if local.Some? then Some("y") else None
  {
    var first, later := Info("d", "default", ["c1"], Some([["x"]]), None), Info("d", "p", ["c2"], local, None);
    assert [first][..0] == [] && ([first] + [later])[..1] == [first];
    assert Registered([first]) == Ok(map[KeyOf(first) := first]);
    assert Registered([first] + [later]) == Ok(map[KeyOf(first) := first, KeyOf(later) := later]);
    LookupPicks([["x"]], fs);
    LookupPicks([["y"]], fs);
  }
}
