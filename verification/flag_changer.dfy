/** flag_changer.py: the stack of flag states on top of a command line file. */
module FlagChangers {
  import opened Wrappers
  import opened Flags
  import opened Sequences

  /** The device: a file system that nobody else writes to. */
  class Device {
    var files: map<string, string>

    constructor (files: map<string, string>)
      ensures this.files == files
    {
      this.files := files;
    }

    method WriteFile(path: string, contents: string)
      modifies this
      ensures files == old(files)[path := contents]
    {
      files := files[path := contents];
    }

    method RemovePath(path: string)
      modifies this
      ensures files == old(files) - {path}
    {
      files := files - {path};
    }
  }

  function ReadIn(files: map<string, string>, path: string): Option<string> {
    if path in files then Some(files[path]) else None
  }

  ghost predicate GoodSet(flags: set<string>) {
    forall f <- flags :: Good(f)
  }

  /** The members of a set in an order that is up to the set. */
  method InSomeOrder(flags: set<string>) returns (order: seq<string>)
    ensures ToSet(order) == flags && |order| == |flags|
  {
    order := [];
    var rest := flags;
    while rest != {}
      invariant rest <= flags && ToSet(order) == flags - rest && |order| + |rest| == |flags|
      decreases rest
    {
      var f :| f in rest;
      ghost var before := order;
      order := order + [f];
      rest := rest - {f};
      assert ToSet(order) == ToSet(before) + {f};
    }
  }

  class FlagChanger {
    const device: Device
    const cmdlinePath: string
    var stateStack: seq<set<string>>

    /** The flags now in the command line file. */
    function OnDevice(): seq<string>
      reads device
    {
      FileFlags(ReadIn(device.files, cmdlinePath))
    }

    /** The top of the stack is what the device file holds. */
    ghost predicate Valid()
      reads this, device
    {
      stateStack != [] && stateStack[|stateStack| - 1] == ToSet(OnDevice())
    }

    /** Flags that the printer can write down were all that was ever put here. */
    ghost predicate AllGoodStates()
      reads this
    {
      forall i :: 0 <= i < |stateStack| ==> GoodSet(stateStack[i])
    }

    /** Opens the command line file of that name, or raises ValueError for a path. */
    static method Open(device: Device, cmdlineFile: string) returns (r: Option<FlagChanger>)
      modifies device
      ensures r.None? <==> '/' in cmdlineFile
      ensures r.None? ==> device.files == old(device.files)
      ensures r.Some? ==>
        var changer := r.value;
        fresh(changer) && changer.Valid() && changer.device == device &&
        changer.cmdlinePath == "/data/local/tmp/" + cmdlineFile &&
        device.files == old(device.files) - {"/data/local/" + cmdlineFile} &&
        |changer.stateStack| == 1
    {
      if '/' in cmdlineFile {
        return None;
      }
      var changer := new FlagChanger(device, "/data/local/tmp/" + cmdlineFile);
      var legacy := "/data/local/" + cmdlineFile;
      if legacy in device.files {
        device.RemovePath(legacy);
      }
      var _ := changer.GetCurrentFlags();
      r := Some(changer);
    }

    constructor (device: Device, cmdlinePath: string)
      ensures this.device == device && this.cmdlinePath == cmdlinePath && stateStack == [{}]
    {
      this.device, this.cmdlinePath, this.stateStack := device, cmdlinePath, [{}];
    }

    method GetCurrentFlags() returns (flags: seq<string>)
      requires stateStack != []
      modifies this
      ensures flags == OnDevice() && Valid()
      ensures stateStack == old(stateStack)[|old(stateStack)| - 1 := ToSet(flags)]
    {
      var line := "";
      if cmdlinePath in device.files {
        line := StripRight(StripLeft(device.files[cmdlinePath]));
      }
      flags := ParseFlags(line);
      stateStack := stateStack[|stateStack| - 1 := ToSet(flags)];
    }

    /** Writes the file, or removes it when there are no flags. */
    method Store(flags: set<string>)
      modifies device
      ensures GoodSet(flags) ==> ToSet(OnDevice()) == flags
      ensures cmdlinePath in device.files <==> flags != {}
      ensures device.files - {cmdlinePath} == old(device.files) - {cmdlinePath}
    {
      var order := InSomeOrder(flags);
      var commandLine := Serialized(order);
      if commandLine.Some? {
        device.WriteFile(cmdlinePath, commandLine.value);
      } else {
        device.RemovePath(cmdlinePath);
      }
      assert ReadIn(device.files, cmdlinePath) == commandLine;
      if GoodSet(flags) {
        assert forall i :: 0 <= i < |order| ==> order[i] in ToSet(order);
        ReadBack(order);
      }
    }

    /** Writes the top of the stack. Good flags come back as they are. */
    method UpdateCommandLineFile() returns (flags: seq<string>)
      requires stateStack != []
      modifies this, device
      ensures flags == OnDevice() && Valid()
      ensures stateStack == old(stateStack)[|old(stateStack)| - 1 := ToSet(flags)]
      ensures GoodSet(old(stateStack)[|old(stateStack)| - 1]) ==> stateStack == old(stateStack)
      ensures cmdlinePath in device.files <==> old(stateStack)[|old(stateStack)| - 1] != {}
      ensures device.files - {cmdlinePath} == old(device.files) - {cmdlinePath}
    {
      Store(stateStack[|stateStack| - 1]);
      flags := GetCurrentFlags();
    }

    method ReplaceFlags(flags: seq<string>) returns (now: seq<string>)
      requires Valid()
      modifies this, device
      ensures Valid() && now == OnDevice() && stateStack == old(stateStack) + [ToSet(now)]
      ensures AllGood(flags) ==> ToSet(now) == ToSet(flags)
      ensures device.files - {cmdlinePath} == old(device.files) - {cmdlinePath}
    {
      now := ReplaceWith(ToSet(flags));
    }

    method ReplaceWith(newFlags: set<string>) returns (now: seq<string>)
      requires Valid()
      modifies this, device
      ensures Valid() && now == OnDevice() && stateStack == old(stateStack) + [ToSet(now)]
      ensures GoodSet(newFlags) ==> ToSet(now) == newFlags
      ensures device.files - {cmdlinePath} == old(device.files) - {cmdlinePath}
    {
      stateStack := stateStack + [newFlags];
      now := UpdateCommandLineFile();
    }

    method PushFlags(add: seq<string>, remove: seq<string>) returns (now: seq<string>)
      requires Valid()
      modifies this, device
      ensures Valid() && now == OnDevice() && stateStack == old(stateStack) + [ToSet(now)]
      ensures AllGood(add) && old(AllGoodStates()) ==>
        ToSet(now) == ToSet(old(OnDevice())) + ToSet(add) - ToSet(remove)
      ensures device.files - {cmdlinePath} == old(device.files) - {cmdlinePath}
    {
      var newFlags := stateStack[|stateStack| - 1];
      newFlags := newFlags + ToSet(add);
      newFlags := newFlags - ToSet(remove);
      now := ReplaceWith(newFlags);
    }

    method AddFlags(flags: seq<string>) returns (now: seq<string>)
      requires Valid()
      modifies this, device
      ensures Valid() && now == OnDevice() && stateStack == old(stateStack) + [ToSet(now)]
      ensures AllGood(flags) && old(AllGoodStates()) ==> ToSet(now) == ToSet(old(OnDevice())) + ToSet(flags)
      ensures device.files - {cmdlinePath} == old(device.files) - {cmdlinePath}
    {
      now := PushFlags(flags, []);
    }

    method RemoveFlags(flags: seq<string>) returns (now: seq<string>)
      requires Valid()
      modifies this, device
      ensures Valid() && now == OnDevice() && stateStack == old(stateStack) + [ToSet(now)]
      ensures old(AllGoodStates()) ==> ToSet(now) == ToSet(old(OnDevice())) - ToSet(flags)
      ensures device.files - {cmdlinePath} == old(device.files) - {cmdlinePath}
    {
      now := PushFlags([], flags);
    }

    /** Needs a matching earlier change, as the source asserts. */
    method Restore() returns (now: seq<string>)
      requires Valid() && |stateStack| > 1
      modifies this, device
      ensures Valid() && now == OnDevice() && |stateStack| == |old(stateStack)| - 1
      ensures stateStack == old(stateStack)[..|stateStack|][|stateStack| - 1 := ToSet(now)]
      ensures GoodSet(old(stateStack)[|old(stateStack)| - 2]) ==> stateStack == old(stateStack)[..|old(stateStack)| - 1]
      ensures device.files - {cmdlinePath} == old(device.files) - {cmdlinePath}
    {
      stateStack := stateStack[..|stateStack| - 1];
      now := UpdateCommandLineFile();
    }
  }

  // ----------------------------------------------------------- nested sessions

  datatype Change =
    | Replace(flags: seq<string>)
    | Push(add: seq<string>, remove: seq<string>)
    | Add(flags: seq<string>)
    | Remove(flags: seq<string>)

  /** Properly nested changes and restores: a change, what happens under it, its
      Restore, and what happens after that. */
  datatype Session = Done | Nest(change: Change, inner: Session, rest: Session)

  ghost predicate GoodChange(c: Change) {
    match c
    case Replace(flags) => AllGood(flags)
    case Push(add, _) => AllGood(add)
    case Add(flags) => AllGood(flags)
    case Remove(_) => true
  }

  ghost predicate GoodSession(s: Session) {
    s.Nest? ==> GoodChange(s.change) && GoodSession(s.inner) && GoodSession(s.rest)
  }

  /** The flags after a change, as a set. */
  function Result(flags: set<string>, c: Change): set<string> {
    match c
    case Replace(now) => ToSet(now)
    case Push(add, remove) => flags + ToSet(add) - ToSet(remove)
    case Add(more) => flags + ToSet(more)
    case Remove(less) => flags - ToSet(less)
  }

  /** What the device holds after each change and each Restore of a session. */
  function Trace(flags: set<string>, s: Session): seq<set<string>>
    decreases s
  {
    match s
    case Done => []
    case Nest(change, inner, rest) =>
      var now := Result(flags, change);
      [now] + Trace(now, inner) + [flags] + Trace(flags, rest)
  }

  /** After each step of a properly nested session of good flags the device holds
      what the changes in force make of the flags that it held before, and after the
      session the flags of before, as a set; and so does the stack. */
  method Perform(changer: FlagChanger, s: Session) returns (seen: seq<set<string>>)
    requires changer.Valid() && changer.AllGoodStates() && GoodSession(s)
    modifies changer, changer.device
    ensures changer.Valid() && changer.stateStack == old(changer.stateStack)
    ensures ToSet(changer.OnDevice()) == ToSet(old(changer.OnDevice()))
    ensures seen == Trace(ToSet(old(changer.OnDevice())), s)
    ensures changer.device.files - {changer.cmdlinePath} == old(changer.device.files) - {changer.cmdlinePath}
    decreases s
  {
    seen := [];
    if s.Nest? {
      var now := Apply(changer, s.change);
      var inner := Perform(changer, s.inner);
      var back := changer.Restore();
      var rest := Perform(changer, s.rest);
      seen := [ToSet(now)] + inner + [ToSet(back)] + rest;
    }
  }

  method Apply(changer: FlagChanger, c: Change) returns (now: seq<string>)
    requires changer.Valid() && changer.AllGoodStates() && GoodChange(c)
    modifies changer, changer.device
    ensures changer.Valid() && changer.AllGoodStates()
    ensures now == changer.OnDevice() && changer.stateStack == old(changer.stateStack) + [ToSet(now)]
    ensures ToSet(now) == Result(ToSet(old(changer.OnDevice())), c)
    ensures changer.device.files - {changer.cmdlinePath} == old(changer.device.files) - {changer.cmdlinePath}
  {
    match c {
      case Replace(flags) => now := changer.ReplaceFlags(flags);
      case Push(add, remove) => now := changer.PushFlags(add, remove);
      case Add(flags) => now := changer.AddFlags(flags);
      case Remove(flags) => now := changer.RemoveFlags(flags);
    }
  }
}
