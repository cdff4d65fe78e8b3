/** When one list of priority groups finds all that another one finds: exactly when
    it starts with the same groups, known paths left out. */
module LookupOrders {
  import opened LocalPaths
  import opened Sequences
  import opened Wrappers

  /** The first of the newest paths of a group that exist, from the front. */
  function Pick(group: seq<string>, fs: FileSystem): (r: Option<string>)
    ensures r.Some? ==> r.value in group && r.value in fs
    ensures r.None? <==> forall p <- group :: p !in fs
  {
    if group == [] then None
    else
      var later := Pick(group[1..], fs);
      if group[0] in fs && (later.None? || fs[group[0]] >= fs[later.value]) then Some(group[0]) else later
  }

  lemma {:induction false} PickAt(group: seq<string>, fs: FileSystem, i: nat)
    requires i < |group| && group[i] in fs
    requires forall j :: 0 <= j < i && group[j] in fs ==> fs[group[j]] < fs[group[i]]
    requires forall j :: i <= j < |group| && group[j] in fs ==> fs[group[j]] <= fs[group[i]]
    ensures Pick(group, fs) == Some(group[i])
    decreases i
  {
    var later := Pick(group[1..], fs);
    if i == 0 {
      if later.Some? {
        var j :| 0 <= j < |group[1..]| && group[1..][j] == later.value;
        assert group[j + 1] == later.value;
      }
    } else {
      PickAt(group[1..], fs, i - 1);
    }
  }

  /** The paths that do not exist make no difference. */
  lemma {:induction false} PickExisting(group: seq<string>, fs: FileSystem)
    ensures Pick(Existing(group, fs), fs) == Pick(group, fs)
    decreases |group|
  {
    if group == [] {
    } else {
      PickExisting(group[1..], fs);
      if group[0] in fs {
        assert ([group[0]] + Existing(group[1..], fs))[1..] == Existing(group[1..], fs);
      } else {
        assert [] + Existing(group[1..], fs) == Existing(group[1..], fs);
      }
    }
  }

  lemma LookupPicks(groups: Groups, fs: FileSystem)
    requires groups != []
    ensures Lookup(groups, fs) == if Pick(groups[0], fs).Some? then Pick(groups[0], fs) else Lookup(groups[1..], fs)
  {
    var existing := Existing(groups[0], fs);
    PickExisting(groups[0], fs);
    ExistingExist(groups[0], fs);
    if existing != [] {
      PickAt(existing, fs, NewestAt(existing, fs));
    }
  }

  // ----------------------------------------------------------------- tidy groups

  ghost predicate IsDistinct(group: seq<string>) {
    forall j, k :: 0 <= j < k < |group| ==> group[j] != group[k]
  }

  /** The paths of a group that are not in seen, each once. */
  function Unseen(group: seq<string>, seen: set<string>): (r: seq<string>)
    ensures forall p :: p in r <==> p in group && p !in seen
    ensures IsDistinct(r)
  {
    if group == [] then []
    else if group[0] in seen then Unseen(group[1..], seen)
    else [group[0]] + Unseen(group[1..], seen + {group[0]})
  }

  /** Every path where it is met first, and no empty groups. */
  function Tidy(groups: Groups, seen: set<string>): Groups {
    if groups == [] then []
    else
      var group := Unseen(groups[0], seen);
      (if group == [] then [] else [group]) + Tidy(groups[1..], seen + ToSet(groups[0]))
  }

  ghost predicate IsTidy(groups: Groups) {
    (forall i :: 0 <= i < |groups| ==> groups[i] != []) &&
    (forall i :: 0 <= i < |groups| ==> IsDistinct(groups[i])) &&
    (forall i, k :: 0 <= i < k < |groups| ==> ToSet(groups[i]) !! ToSet(groups[k]))
  }

  ghost predicate AvoidsAll(groups: Groups, seen: set<string>) {
    forall i :: 0 <= i < |groups| ==> ToSet(groups[i]) !! seen
  }

  lemma {:induction false} TidyIsTidy(groups: Groups, seen: set<string>)
    ensures IsTidy(Tidy(groups, seen)) && AvoidsAll(Tidy(groups, seen), seen)
    decreases |groups|
  {
    if groups == [] {
    } else {
      TidyIsTidy(groups[1..], seen + ToSet(groups[0]));
      TidyMore(Unseen(groups[0], seen), Tidy(groups[1..], seen + ToSet(groups[0])), seen, ToSet(groups[0]));
    }
  }

  lemma TidyMore(group: seq<string>, rest: Groups, seen: set<string>, more: set<string>)
    requires IsDistinct(group) && ToSet(group) !! seen && ToSet(group) <= more
    requires IsTidy(rest) && AvoidsAll(rest, seen + more)
    ensures var groups := (if group == [] then [] else [group]) + rest;
      IsTidy(groups) && AvoidsAll(groups, seen)
  {
    var groups := (if group == [] then [] else [group]) + rest;
    forall i, k | 0 <= i < k < |groups|
      ensures ToSet(groups[i]) !! ToSet(groups[k])
    {
      assert group != [] ==> groups[k] == rest[k - 1];
    }
  }

  /** What leaving out known paths may change: a path that was seen is not picked. */
  lemma {:induction false} PickUnseen(group: seq<string>, seen: set<string>, fs: FileSystem)
    ensures var all, unseen := Pick(group, fs), Pick(Unseen(group, seen), fs);
      unseen == all || (all.Some? && all.value in seen && (unseen.None? || fs[unseen.value] <= fs[all.value]))
    decreases |group|
  {
    if group == [] {
    } else if group[0] in seen {
      PickUnseen(group[1..], seen, fs);
    } else {
      PickUnseen(group[1..], seen + {group[0]}, fs);
      assert Unseen(group, seen)[1..] == Unseen(group[1..], seen + {group[0]});
    }
  }

  lemma {:induction false} LookupTidy(groups: Groups, seen: set<string>, fs: FileSystem)
    requires forall p <- seen :: p !in fs
    ensures Lookup(Tidy(groups, seen), fs) == Lookup(groups, fs)
    decreases |groups|
  {
    if groups == [] {
    } else {
      var group, rest := Unseen(groups[0], seen), Tidy(groups[1..], seen + ToSet(groups[0]));
      PickUnseen(groups[0], seen, fs);
      LookupPicks(groups, fs);
      if group != [] {
        LookupPicks([group] + rest, fs);
        assert ([group] + rest)[1..] == rest;
      } else {
        assert [] + rest == rest;
      }
      if Pick(groups[0], fs).None? {
        LookupTidy(groups[1..], seen + ToSet(groups[0]), fs);
      }
    }
  }

  // ------------------------------------------------------------- telling apart

  /** On this file system only first finds what it finds. */
  predicate TellsApart(first: Groups, second: Groups, fs: FileSystem) {
    Lookup(first, fs).Some? && Lookup(second, fs) != Lookup(first, fs)
  }

  /** Tidy groups that do not start with the first ones differ on some file system,
      with no other paths than theirs. */
  lemma {:induction false} Apart(first: Groups, second: Groups) returns (fs: FileSystem)
    requires IsTidy(first) && IsTidy(second) && !(first <= second)
    requires AvoidsAll(first, {""}) && AvoidsAll(second, {""})
    ensures TellsApart(first, second, fs)
    ensures forall p <- fs :: Has(first, p) || Has(second, p)
    decreases |first|
  {
    if second == [] || first[0] != second[0] {
      fs := ApartAtOnce(first, second);
    } else {
      fs := Apart(first[1..], second[1..]);
      NoneOf(first, second, fs);
      LookupPicks(first, fs);
      LookupPicks(second, fs);
    }
  }

  lemma NoneOf(first: Groups, second: Groups, fs: FileSystem)
    requires first != [] && second != [] && first[0] == second[0] && IsTidy(first) && IsTidy(second)
    requires forall p <- fs :: Has(first[1..], p) || Has(second[1..], p)
    ensures Pick(first[0], fs).None?
    ensures forall p <- fs :: Has(first, p) || Has(second, p)
  {
    forall p <- fs
      ensures p !in first[0] && (Has(first, p) || Has(second, p))
    {
      if Has(first[1..], p) {
        LaterOnly(first, p);
      } else {
        LaterOnly(second, p);
      }
    }
  }

  lemma LaterOnly(groups: Groups, p: string)
    requires groups != [] && IsTidy(groups) && Has(groups[1..], p)
    ensures p !in groups[0] && Has(groups, p)
  {
    var i :| 0 <= i < |groups[1..]| && p in groups[1..][i];
    assert groups[i + 1] == groups[1..][i];
    assert p in ToSet(groups[i + 1]);
  }

  /** Two paths with times that show the difference of the first groups. */
  lemma ApartAtOnce(first: Groups, second: Groups) returns (fs: FileSystem)
    requires IsTidy(first) && first != [] && (second == [] || (IsTidy(second) && first[0] != second[0]))
    requires AvoidsAll(first, {""}) && AvoidsAll(second, {""})
    ensures TellsApart(first, second, fs)
    ensures forall p <- fs :: Has(first, p) || Has(second, p)
  {
    var a := first[0];
    assert ToSet(a) !! {""} && a[0] in a;
    if second == [] {
      fs := map[a[0] := 0];
      PickAt(a, fs, 0);
    } else {
      var b := second[0];
      assert ToSet(b) !! {""};
      assert "" !in a && "" !in b by {
        assert "" in a ==> "" in ToSet(a);
        assert "" in b ==> "" in ToSet(b);
      }
      var x, y;
      x, y, fs := GroupsApart(a, b);
      LookupPicks(second, fs);
    }
    LookupPicks(first, fs);
  }

  /** x is found in a, and y in b. */
  predicate Picks(a: seq<string>, b: seq<string>, x: string, y: string, fs: FileSystem) {
    x != y && fs.Keys == {x, y} && Pick(a, fs) == Some(x) && Pick(b, fs) == Some(y)
  }

  lemma OnlyInFirst(a: seq<string>, b: seq<string>, i: nat)
    requires i < |a| && a[i] !in b && b != [] && IsDistinct(a) && a[i] != "" && b[0] != ""
    ensures Picks(a, b, a[i], b[0], map[a[i] := 1, b[0] := 0])
  {
    var fs: FileSystem := map[a[i] := 1, b[0] := 0];
    PickAt(a, fs, i);
    PickAt(b, fs, 0);
  }

  lemma OnlyInSecond(a: seq<string>, b: seq<string>, i: nat)
    requires i < |b| && b[i] !in a && a != [] && IsDistinct(b) && b[i] != "" && a[0] != ""
    ensures Picks(a, b, a[0], b[i], map[a[0] := 0, b[i] := 1])
  {
    var fs: FileSystem := map[a[0] := 0, b[i] := 1];
    PickAt(a, fs, 0);
    PickAt(b, fs, i);
  }

  lemma Reordered(a: seq<string>, b: seq<string>, i: nat)
    requires i < |a| && i < |b| && a[i] != b[i] && a[..i] == b[..i] && IsDistinct(a) && IsDistinct(b)
    requires a[i] != "" && b[i] != ""
    ensures Picks(a, b, a[i], b[i], map[a[i] := 0, b[i] := 0])
  {
    NotBefore(a, i);
    NotBefore(b, i);
    PickFirst(a, i, b[i]);
    PickFirst(b, i, a[i]);
    assert map[b[i] := 0, a[i] := 0] == map[a[i] := 0, b[i] := 0];
  }

  /** Of two paths of the same time, the one that comes first. */
  lemma PickFirst(group: seq<string>, i: nat, other: string)
    requires i < |group| && group[i] !in group[..i] && other !in group[..i] && group[i] != "" && other != ""
    ensures Pick(group, map[group[i] := 0, other := 0]) == Some(group[i])
  {
    forall j | 0 <= j < i
      ensures group[j] != group[i] && group[j] != other
    {
      assert group[j] in group[..i];
    }
    PickAt(group, map[group[i] := 0, other := 0], i);
  }

  /** A path of each group, such that one group picks the one and the other the other. */
  lemma GroupsApart(a: seq<string>, b: seq<string>) returns (x: string, y: string, fs: FileSystem)
    requires a != [] && b != [] && a != b && IsDistinct(a) && IsDistinct(b) && "" !in a && "" !in b
    ensures x in a && y in b && Picks(a, b, x, y, fs)
  {
    if i :| 0 <= i < |a| && a[i] !in b {
      x, y, fs := a[i], b[0], map[a[i] := 1, b[0] := 0];
      OnlyInFirst(a, b, i);
    } else if i :| 0 <= i < |b| && b[i] !in a {
      x, y, fs := a[0], b[i], map[a[0] := 0, b[i] := 1];
      OnlyInSecond(a, b, i);
    } else {
      var i := FirstChange(a, b, 0);
      x, y, fs := a[i], b[i], map[a[i] := 0, b[i] := 0];
      Reordered(a, b, i);
    }
  }

  /** Groups of the same paths differ first where both still have a path. */
  lemma {:induction false} FirstChange(a: seq<string>, b: seq<string>, i: nat) returns (j: nat)
    requires a != b && IsDistinct(a) && IsDistinct(b) && i <= |a| && i <= |b| && a[..i] == b[..i]
    requires forall k :: 0 <= k < |a| ==> a[k] in b
    requires forall k :: 0 <= k < |b| ==> b[k] in a
    ensures j < |a| && j < |b| && a[j] != b[j] && a[..j] == b[..j]
    decreases |a| - i
  {
    NotBefore(a, i);
    NotBefore(b, i);
    if a[i] != b[i] {
      j := i;
    } else {
      OneMore(a, i);
      OneMore(b, i);
      j := FirstChange(a, b, i + 1);
    }
  }

  lemma NotBefore(group: seq<string>, i: nat)
    requires IsDistinct(group) && i <= |group|
    ensures i < |group| ==> group[i] !in group[..i]
    ensures i == |group| ==> group[..i] == group
  {
  }

  lemma StartsTheSame(first: Groups, second: Groups, fs: FileSystem)
    requires Tidy(first, {""}) <= Tidy(second, {""})
    ensures !TellsApart(first, second, fs)
  {
    var a, b := Tidy(first, {""}), Tidy(second, {""});
    LookupTidy(first, {""}, fs);
    LookupTidy(second, {""}, fs);
    Continues(a, b);
    LookupConcat(a, b[|a|..], fs);
  }

  lemma StartsApart(first: Groups, second: Groups) returns (fs: FileSystem)
    requires !(Tidy(first, {""}) <= Tidy(second, {""}))
    ensures TellsApart(first, second, fs)
  {
    TidyIsTidy(first, {""});
    TidyIsTidy(second, {""});
    fs := Apart(Tidy(first, {""}), Tidy(second, {""}));
    LookupTidy(first, {""}, fs);
    LookupTidy(second, {""}, fs);
  }

  /** What first finds, second finds on every file system, exactly when second,
      tidied up, starts with first, tidied up. */
  lemma FindsTheSame(first: Groups, second: Groups)
    ensures (forall fs :: !TellsApart(first, second, fs)) <==> Tidy(first, {""}) <= Tidy(second, {""})
  {
    if Tidy(first, {""}) <= Tidy(second, {""}) {
      forall fs
        ensures !TellsApart(first, second, fs)
      {
        StartsTheSame(first, second, fs);
      }
    } else {
      var fs := StartsApart(first, second);
    }
  }
}
