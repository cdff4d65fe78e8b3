/** local_path_info.py: local paths in priority groups, and their merging. */
module LocalPaths {
  import opened Sequences
  import opened Wrappers

  type Groups = seq<seq<string>>

  /** The paths that exist, with their modification times. */
  type FileSystem = fs: map<string, int> | "" !in fs

  function Existing(group: seq<string>, fs: FileSystem): seq<string> {
    if group == [] then []
    else (if group[0] in fs then [group[0]] else []) + Existing(group[1..], fs)
  }

  /** Where the first of the newest paths is, as max finds it. */
  function NewestAt(paths: seq<string>, fs: FileSystem): (i: nat)
    requires paths != [] && forall p <- paths :: p in fs
    ensures i < |paths|
    ensures forall j :: 0 <= j < i ==> fs[paths[j]] < fs[paths[i]]
    ensures forall j :: i <= j < |paths| ==> fs[paths[j]] <= fs[paths[i]]
  {
    var last := |paths| - 1;
    if last == 0 then 0
    else
      var i := NewestAt(paths[..last], fs);
      if fs[paths[last]] > fs[paths[i]] then last else i
  }

  lemma {:induction false} ExistingExist(group: seq<string>, fs: FileSystem)
    ensures forall p :: p in Existing(group, fs) <==> p in group && p in fs
    decreases |group|
  {
    if group == [] {
    } else {
      ExistingExist(group[1..], fs);
    }
  }

  /** The newest path of the first group of which any path exists. */
  function Lookup(groups: Groups, fs: FileSystem): Option<string> {
    if groups == [] then None
    else
      var existing := Existing(groups[0], fs);
      if existing == [] then Lookup(groups[1..], fs)
      else
        ExistingExist(groups[0], fs);
        Some(existing[NewestAt(existing, fs)])
  }

  predicate Has(groups: Groups, path: string) {
    exists g <- groups :: path in g
  }

  /** The paths of a group that are not in groups yet. */
  function NewOnes(groups: Groups, group: seq<string>): seq<string> {
    if group == [] then []
    else (if Has(groups, group[0]) then [] else [group[0]]) + NewOnes(groups, group[1..])
  }

  function WithGroup(groups: Groups, group: seq<string>): Groups {
    if NewOnes(groups, group) == [] then groups else groups + [NewOnes(groups, group)]
  }

  /** groups with the first n groups of more. */
  function Merged(groups: Groups, more: Groups, n: nat): Groups
    requires n <= |more|
  {
    if n == 0 then groups else WithGroup(Merged(groups, more, n - 1), more[n - 1])
  }

  predicate NoneEmpty(groups: Groups) {
    forall i :: 0 <= i < |groups| ==> groups[i] != []
  }

  /** Merging appends no empty group and keeps the groups that were there. */
  lemma {:induction false} MergedAppends(groups: Groups, more: Groups, n: nat)
    requires n <= |more|
    ensures groups <= Merged(groups, more, n) && NoneEmpty(Merged(groups, more, n)[|groups|..])
    decreases n
  {
    if n == 0 {
    } else {
      MergedAppends(groups, more, n - 1);
    }
  }

  class LocalPathInfo {
    var groups: Groups

    constructor (groups: Groups)
      ensures this.groups == groups
    {
      this.groups := groups;
    }

    method GetLocalPath(fs: FileSystem) returns (r: Option<string>)
      ensures r == Lookup(groups, fs)
    {
      for i := 0 to |groups|
        invariant Lookup(groups, fs) == Lookup(groups[i..], fs)
      {
        var existing := Existing(groups[i], fs);
        assert groups[i..][1..] == groups[i + 1..];
        if existing == [] {
          continue;
        }
        ExistingExist(groups[i], fs);
        return Some(existing[NewestAt(existing, fs)]);
      }
      r := None;
    }

    /** The paths of a group that are not in local paths yet. */
    method NewPaths(group: seq<string>) returns (groupList: seq<string>)
      ensures groupList == NewOnes(groups, group)
    {
      groupList := [];
      for j := 0 to |group|
        invariant groupList + NewOnes(groups, group[j..]) == NewOnes(groups, group)
      {
        NewOnesNext(groups, group, j, groupList);
        if !Has(groups, group[j]) {
          groupList := groupList + [group[j]];
        }
      }
      assert groupList + NewOnes(groups, []) == groupList;
    }

    /** Appends the groups of other without the paths that are known already.
        The other one may be this one. */
    method Update(other: LocalPathInfo?)
      modifies this
      ensures groups == if other == null then old(groups) else Merged(old(groups), old(other.groups), |old(other.groups)|)
    {
      if other == null {
        return;
      }
      var i := 0;
      while i < |other.groups|
        invariant i <= |other.groups| && other.groups == old(other.groups)
        invariant groups == Merged(old(groups), other.groups, i)
        decreases |other.groups| - i
      {
        var groupList := NewPaths(other.groups[i]);
        if other == this {
          NothingNew(groups, groups[i]);
        }
        if groupList != [] {
          groups := groups + [groupList];
        }
        i := i + 1;
      }
    }
  }

  lemma NewOnesNext(groups: Groups, group: seq<string>, j: nat, done: seq<string>)
    requires j < |group|
    ensures done + NewOnes(groups, group[j..]) ==
      (if Has(groups, group[j]) then done else done + [group[j]]) + NewOnes(groups, group[j + 1..])
  {
    assert group[j..][1..] == group[j + 1..];
    Associate(done, [group[j]], NewOnes(groups, group[j + 1..]));
  }

  lemma {:induction false} NothingNew(groups: Groups, group: seq<string>)
    requires forall p <- group :: Has(groups, p)
    ensures NewOnes(groups, group) == []
    decreases |group|
  {
    if group == [] {
    } else {
      assert group[0] in group && forall p <- group[1..] :: p in group;
      NothingNew(groups, group[1..]);
    }
  }

  // -------------------------------------------------------------- same lookups

  lemma {:induction false} LookupConcat(a: Groups, b: Groups, fs: FileSystem)
    ensures Lookup(a + b, fs) == if Lookup(a, fs).Some? then Lookup(a, fs) else Lookup(b, fs)
    decreases |a|
  {
    if a == [] {
      assert a + b == b;
    } else {
      assert (a + b)[1..] == a[1..] + b;
      LookupConcat(a[1..], b, fs);
    }
  }

  lemma {:induction false} NoneExist(groups: Groups, path: string, fs: FileSystem)
    requires Lookup(groups, fs).None? && Has(groups, path)
    ensures path !in fs
    decreases |groups|
  {
    ExistingExist(groups[0], fs);
    assert Existing(groups[0], fs) == [];
    if path !in groups[0] {
      var g :| g in groups && path in g;
      assert g in groups[1..];
      NoneExist(groups[1..], path, fs);
    }
  }

  /** Where no earlier path exists, those left out do not exist either. */
  lemma {:induction false} NewOnesExist(groups: Groups, group: seq<string>, fs: FileSystem)
    requires Lookup(groups, fs).None?
    ensures Existing(NewOnes(groups, group), fs) == Existing(group, fs)
    decreases |group|
  {
    if group == [] {
    } else {
      NewOnesExist(groups, group[1..], fs);
      assert [] + NewOnes(groups, group[1..]) == NewOnes(groups, group[1..]);
      assert [] + Existing(group[1..], fs) == Existing(group[1..], fs);
      if Has(groups, group[0]) {
        NoneExist(groups, group[0], fs);
      } else {
        assert ([group[0]] + NewOnes(groups, group[1..]))[1..] == NewOnes(groups, group[1..]);
      }
    }
  }

  lemma LookupWithGroup(groups: Groups, group: seq<string>, fs: FileSystem)
    ensures Lookup(WithGroup(groups, group), fs) == Lookup(groups + [group], fs)
  {
    LookupConcat(groups, [group], fs);
    LookupConcat(groups, [NewOnes(groups, group)], fs);
    if Lookup(groups, fs).None? {
      NewOnesExist(groups, group, fs);
    }
  }

  /** Groups with the same lookup stay so with one more group. */
  lemma LookupOneMore(merged: Groups, plain: Groups, group: seq<string>, fs: FileSystem)
    requires Lookup(merged, fs) == Lookup(plain, fs)
    ensures Lookup(WithGroup(merged, group), fs) == Lookup(plain + [group], fs)
  {
    LookupWithGroup(merged, group, fs);
    LookupConcat(merged, [group], fs);
    LookupConcat(plain, [group], fs);
  }

  lemma {:induction false} LookupMergedFirst(groups: Groups, more: Groups, n: nat, fs: FileSystem)
    requires n <= |more|
    ensures Lookup(Merged(groups, more, n), fs) == Lookup(groups + more[..n], fs)
    decreases n
  {
    if n == 0 {
      NoneMore(groups, more);
    } else {
      LookupMergedFirst(groups, more, n - 1, fs);
      LookupOneMore(Merged(groups, more, n - 1), groups + more[..n - 1], more[n - 1], fs);
      OneMore(more, n - 1);
      Associate(groups, more[..n - 1], [more[n - 1]]);
    }
  }

  /** On any file system the merged groups find what the plain groups, one after
      the other, would find. */
  lemma LookupMerged(groups: Groups, more: Groups, fs: FileSystem)
    ensures Lookup(Merged(groups, more, |more|), fs) == Lookup(groups + more, fs)
  {
    LookupMergedFirst(groups, more, |more|, fs);
    assert more[..|more|] == more;
  }
}
