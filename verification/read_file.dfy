/** file_utils.cc: reading a file into a buffer of fixed length, and trimming it. */
module ReadFiles {

  newtype byte = x: int | 0 <= x < 256

  /** How the operating system answers a call of read: with at most so many
      bytes, with EINTR, or with another error. */
  datatype Answer = Short(most: nat) | Interrupted | Failed

  /** An open file. Reads are answered as the script says, and in full after it. */
  class File {
    const bytes: seq<byte>
    var offset: nat
    var script: seq<Answer>

    constructor (bytes: seq<byte>, script: seq<Answer>)
      ensures this.bytes == bytes && offset == 0 && this.script == script
    {
      this.bytes, this.offset, this.script := bytes, 0, script;
    }

    /** read(fd, buf + at, want): the number of bytes read, none at the end of
        the file only, or -1 for EINTR and -2 for other errors. */
    method Read(buf: array<byte>, at: nat, want: nat) returns (rsize: int)
      requires offset <= |bytes| && at + want <= buf.Length && want > 0
      modifies this`offset, this`script, buf
      ensures script == if old(script) == [] then [] else old(script)[1..]
      ensures rsize == -2 <==> old(script) != [] && old(script)[0].Failed?
      ensures rsize == -1 <==> old(script) != [] && old(script)[0].Interrupted?
      ensures rsize < 0 ==> -2 <= rsize && offset == old(offset) && buf[..] == old(buf[..])
      ensures rsize >= 0 ==> rsize <= want && offset == old(offset) + rsize <= |bytes|
      ensures rsize == 0 ==> offset == |bytes|
      ensures rsize >= 0 ==>
        buf[..] == old(buf[..at]) + bytes[old(offset)..offset] + old(buf[at + rsize..])
    {
      var answer := Short(want);
      if script != [] {
        answer, script := script[0], script[1..];
      }
      if answer.Failed? {
        return -2;
      }
      if answer.Interrupted? {
        return -1;
      }
      var left := |bytes| - offset;
      var count := if answer.most == 0 then 1 else answer.most;
      count := if count > want then want else count;
      count := if count > left then left else count;
      forall i | 0 <= i < count {
        buf[at + i] := bytes[offset + i];
      }
      offset := offset + count;
      rsize := count;
    }
  }

  /** The text in a buffer, up to the first NUL. */
  function Text(buf: seq<byte>): seq<byte> {
    if buf == [] || buf[0] == 0 then [] else [buf[0]] + Text(buf[1..])
  }

  predicate IsStop(c: byte) {
    c == 0 || c == 13 || c == 10
  }

  predicate IsPrint(c: byte) {
    32 <= c < 127
  }

  function Shown(c: byte): byte {
    if IsPrint(c) then c else 63
  }

  /** What is left of a line: up to the first NUL, CR or LF, with '?' for what
      cannot be printed. */
  function Trimmed(s: seq<byte>): seq<byte> {
    if s == [] || IsStop(s[0]) then [] else [Shown(s[0])] + Trimmed(s[1..])
  }

  /** What is left is the longest beginning without NUL, CR and LF, each byte shown
      as itself if it is a printable ASCII character and as '?' if it is not. */
  lemma {:induction false} TrimmedExactly(s: seq<byte>, t: seq<byte>)
    ensures t == Trimmed(s) <==>
      |t| <= |s| &&
      (forall i :: 0 <= i < |t| ==>
         s[i] != 0 && s[i] != 13 && s[i] != 10 && t[i] == if 32 <= s[i] <= 126 then s[i] else 63) &&
      (|t| < |s| ==> s[|t|] == 0 || s[|t|] == 13 || s[|t|] == 10)
    decreases |s|
  {
    if s == [] || IsStop(s[0]) {
    } else if t != [] {
      TrimmedExactly(s[1..], t[1..]);
      assert t == [t[0]] + t[1..];
      if |t| <= |s| {
        Shift(s, t);
      }
    }
  }

  /** Bytes of s and t one by one, the first ones apart. */
  lemma Shift(s: seq<byte>, t: seq<byte>)
    requires 0 < |t| <= |s|
    ensures forall i :: 0 < i < |t| ==> s[i] == s[1..][i - 1] && t[i] == t[1..][i - 1]
    ensures forall i :: 0 <= i < |t| - 1 ==> s[1..][i] == s[i + 1] && t[1..][i] == t[i + 1]
  {
  }

  function Min(a: int, b: int): int {
    if a < b then a else b
  }

  /** The number of bytes read, or -1. A null file could not be opened. On
      success the buffer holds what fits of the file, and a NUL after it. */
  method ReadFile(file: File?, buf: array<byte>) returns (r: int)
    requires buf.Length >= 1 && (file != null ==> file.offset == 0)
    modifies buf, file
    ensures -1 <= r <= buf.Length
    ensures r == -1 ==> file == null || Failed in old(file.script)
    ensures file == null ==> buf[..] == old(buf[..])[0 := 0]
    ensures r >= 0 ==> file != null && r == Min(|file.bytes|, buf.Length)
    ensures r >= 0 ==> var n := Min(r, buf.Length - 1); buf[..n] == file.bytes[..n] && buf[n] == 0
  {
    buf[0] := 0;
    if file == null {
      return -1;
    }
    var totRead := 0;
    while true
      invariant 0 <= totRead < buf.Length && totRead == file.offset <= |file.bytes|
      invariant buf[..totRead] == file.bytes[..totRead]
      invariant forall a <- file.script :: a in old(file.script)
      decreases |file.script|, |file.bytes| - totRead
    {
      ghost var script := file.script;
      var rsize := file.Read(buf, totRead, buf.Length - totRead);
      if rsize == 0 {
        break;
      }
      if rsize == -1 {
        continue;
      } else if rsize < 0 {
        assert script[0] in script;
        return -1;
      }
      totRead := totRead + rsize;
      assert buf[..totRead] == file.bytes[..totRead];
      if totRead == buf.Length {
        break;
      }
    }
    buf[if totRead < buf.Length then totRead else buf.Length - 1] := 0;
    r := totRead;
  }

  lemma {:induction false} TextIsTrimmed(buf: seq<byte>, s: seq<byte>, i: nat)
    requires i < |buf| && i <= |s| && buf[i] == 0 && (i == |s| || IsStop(s[i]))
    requires forall j :: 0 <= j < i ==> buf[j] == Shown(s[j]) && !IsStop(s[j])
    ensures Text(buf) == Trimmed(s)
    decreases i
  {
    if i == 0 {
    } else {
      TextIsTrimmed(buf[1..], s[1..], i - 1);
    }
  }

  /** Whatever the pattern of short reads and interrupts, a success leaves the
      first buf.Length - 1 bytes of the file, trimmed and ended by a NUL. */
  method ReadFileTrimmed(file: File?, buf: array<byte>) returns (ok: bool)
    requires buf.Length >= 1 && (file != null ==> file.offset == 0)
    modifies buf, file
    ensures !ok ==> file == null || Failed in old(file.script)
    ensures ok ==> file != null && 0 in buf[..]
    ensures ok ==> Text(buf[..]) == Trimmed(file.bytes[..Min(|file.bytes|, buf.Length - 1)])
  {
    var rsize := ReadFile(file, buf);
    if rsize < 0 {
      return false;
    }
    ghost var n := Min(rsize, buf.Length - 1);
    ghost var s := file.bytes[..n];
    var i := 0;
    while i < rsize
      invariant 0 <= i <= n && buf[n] == 0
      invariant forall j :: 0 <= j < i ==> buf[j] == Shown(s[j]) && !IsStop(s[j])
      invariant forall j :: i <= j < n ==> buf[j] == s[j]
    {
      var c := buf[i];
      if IsStop(c) {
        buf[i] := 0;
        break;
      }
      buf[i] := Shown(c);
      i := i + 1;
    }
    assert buf[i] == 0;
    TextIsTrimmed(buf[..], s, i);
    assert buf[..][i] == 0;
    ok := true;
  }
}
