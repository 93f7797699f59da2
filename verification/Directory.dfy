/** The directory of filesys.c: a listing cursor shared by all descriptors, the lookup by name, and
    the copy of a program image.

    The loops that measure a name look at one byte more than the 32 of the name field: the byte behind
    it is the low byte of the type.  So a name that fills its field ends correctly only for type 0.
 */
module Directory {
  import opened Bytes
  import opened FileSystem
  import opened Wrappers

  /** The bytes of a directory entry from its name on, as far as the length loops look. */
  function NameByte(d: Dentry, i: nat): byte
    requires |d.name| == MAX_FNAME_LEN && i <= MAX_FNAME_LEN
  {
    if i < MAX_FNAME_LEN then d.name[i] else d.filetype % 256
  }

  /** The length that the loops measure, from `from` on. */
  function MeasuredFrom(d: Dentry, from: nat): (n: nat)
    requires |d.name| == MAX_FNAME_LEN && from <= MAX_FNAME_LEN + 1
    ensures from <= n <= MAX_FNAME_LEN + 1 && (n <= MAX_FNAME_LEN ==> NameByte(d, n) == NUL)
    ensures forall i :: from <= i < n ==> NameByte(d, i) != NUL
    decreases MAX_FNAME_LEN + 1 - from
  {
    if from > MAX_FNAME_LEN || NameByte(d, from) == NUL then from else MeasuredFrom(d, from + 1)
  }

  function Measured(d: Dentry): nat
    requires |d.name| == MAX_FNAME_LEN
  {
    MeasuredFrom(d, 0)
  }

  /** The name proper: the field up to its first NUL. */
  function Name(d: Dentry): (s: seq<byte>)
    requires |d.name| == MAX_FNAME_LEN
    ensures |s| <= MAX_FNAME_LEN && NUL !in s
    ensures |s| < MAX_FNAME_LEN ==> d.name[|s|] == NUL
    ensures s <= d.name
  {
    d.name[..FirstNul(d.name, 0)]
  }

  function FirstNul(s: seq<byte>, from: nat): (n: nat)
    requires from <= |s|
    ensures from <= n <= |s| && (n < |s| ==> s[n] == NUL) && forall i :: from <= i < n ==> s[i] != NUL
    decreases |s| - from
  {
    if from == |s| || s[from] == NUL then from else FirstNul(s, from + 1)
  }

  /** The name ends where the loops look for its end. */
  predicate Terminated(d: Dentry)
    requires |d.name| == MAX_FNAME_LEN
  {
    |Name(d)| < MAX_FNAME_LEN || d.filetype % 256 == 0
  }

  lemma {:induction false} MeasuredIsLength(d: Dentry)
    requires |d.name| == MAX_FNAME_LEN
    ensures Measured(d) == |Name(d)| + if Terminated(d) then 0 else 1
  {
    var n, m := |Name(d)|, Measured(d);
    assert forall i :: 0 <= i < n ==> d.name[i] == Name(d)[i];
    assert m >= n;
    if n < MAX_FNAME_LEN {
      assert NameByte(d, n) == NUL;
    } else {
      assert NameByte(d, n) == d.filetype % 256;
    }
  }

  /** The measuring loop, as it stands in read_dentry_by_name and dir_read. */
  method Measure(d: Dentry) returns (len: nat)
    requires |d.name| == MAX_FNAME_LEN
    ensures len == Measured(d)
  {
    len := 0;
    while len <= MAX_FNAME_LEN && NameByte(d, len) != NUL
      invariant 0 <= len <= MAX_FNAME_LEN + 1 && MeasuredFrom(d, len) == MeasuredFrom(d, 0)
      decreases MAX_FNAME_LEN + 1 - len
    {
      len := len + 1;
    }
  }

  // ----- lookup -----

  /** The entry is the one that the measuring and comparing accept for `fname`. */
  ghost predicate Accepts(d: Dentry, fname: seq<byte>)
    requires |d.name| == MAX_FNAME_LEN
  {
    && Measured(d) == Min(|fname|, MAX_FNAME_LEN + 1)
    && forall i :: 0 <= i < Measured(d) ==> fname[i] == NameByte(d, i)
  }

  /** strncmp(fname, name, len) of two texts without NUL in their first `len` bytes. */
  method SameBytes(fname: seq<byte>, d: Dentry, len: nat) returns (same: bool)
    requires |d.name| == MAX_FNAME_LEN && len <= |fname| && len <= MAX_FNAME_LEN + 1 && NUL !in fname
    ensures same <==> forall i :: 0 <= i < len ==> fname[i] == NameByte(d, i)
  {
    var i := 0;
    while i < len
      invariant 0 <= i <= len && forall j :: 0 <= j < i ==> fname[j] == NameByte(d, j)
    {
      if fname[i] != NameByte(d, i) || fname[i] == NUL {
        return false;
      }
      i := i + 1;
    }
    return true;
  }

  /** The lookup of `fname` ends at entry `i`. */
  ghost predicate FoundAt(img: Image, fname: seq<byte>, i: nat)
    requires WellFormed(img)
  {
    i < img.nDentries && Accepts(img.dentries[i], fname) && forall j :: 0 <= j < i ==> !Accepts(img.dentries[j], fname)
  }

  /** read_dentry_by_name: the first entry that is accepted. */
  method ReadDentryByName(img: Image, fname: seq<byte>) returns (r: Option<Dentry>, ghost at: nat)
    requires WellFormed(img) && NUL !in fname
    ensures r.None? <==> forall i :: 0 <= i < img.nDentries ==> !Accepts(img.dentries[i], fname)
    ensures r.Some? ==> FoundAt(img, fname, at) && r.value == img.dentries[at]
  {
    at := 0;
    var len := Min(|fname|, MAX_FNAME_LEN + 1);
    var i := 0;
    while i < img.nDentries && i < MAX_DENTRIES
      invariant 0 <= i <= img.nDentries && forall j :: 0 <= j < i ==> !Accepts(img.dentries[j], fname)
    {
      var len2 := Measure(img.dentries[i]);
      if len2 == len {
        var same := SameBytes(fname, img.dentries[i], len);
        if same {
          return Some(img.dentries[i]), i;
        }
      }
      i := i + 1;
    }
    return None, 0;
  }

  /** The texts that an entry accepts: its own name if the name ends where the loops look for its end,
      and otherwise every text that goes on after the 32 bytes of the name with the low byte of the type. */
  lemma {:induction false} AcceptsByName(d: Dentry, fname: seq<byte>)
    requires |d.name| == MAX_FNAME_LEN && NUL !in fname
    ensures |fname| <= MAX_FNAME_LEN ==> (Accepts(d, fname) <==> Name(d) == fname && Terminated(d))
    ensures |fname| > MAX_FNAME_LEN ==>
      (Accepts(d, fname) <==>
       !Terminated(d) && fname[..MAX_FNAME_LEN] == d.name && fname[MAX_FNAME_LEN] == d.filetype % 256)
  {
    MeasuredIsLength(d);
    if Accepts(d, fname) {
      assert forall i :: 0 <= i < |fname| && i < MAX_FNAME_LEN ==> fname[i] == NameByte(d, i) == d.name[i];
      if |fname| <= MAX_FNAME_LEN {
        assert Terminated(d);
        assert Name(d) == fname;
      } else {
        assert fname[MAX_FNAME_LEN] == NameByte(d, MAX_FNAME_LEN);
      }
    }
    if |fname| > MAX_FNAME_LEN && !Terminated(d) && fname[..MAX_FNAME_LEN] == d.name {
      assert forall i :: 0 <= i < MAX_FNAME_LEN ==> fname[i] == fname[..MAX_FNAME_LEN][i];
    }
  }

  /** The lookup accepts exactly the names of entries if and only if every name ends inside its field or
      is followed by a type byte of 0. */
  lemma {:induction false} LookupIsByName(d: Dentry)
    requires |d.name| == MAX_FNAME_LEN
    ensures (forall fname :: NUL !in fname ==> (Accepts(d, fname) <==> fname == Name(d))) <==> Terminated(d)
  {
    if Terminated(d) {
      forall fname | NUL !in fname ensures Accepts(d, fname) <==> fname == Name(d) {
        AcceptsByName(d, fname);
      }
    } else {
      AcceptsByName(d, Name(d));
    }
  }

  /** With distinct names, looking up the name of an entry finds that entry and no other, if and only
      if the name ends where the loops look for its end. */
  lemma {:induction false} LookupFindsEntry(img: Image, i: nat, j: nat)
    requires WellFormed(img) && i < img.nDentries && j < img.nDentries
    requires forall a, b :: 0 <= a < b < img.nDentries ==> Name(img.dentries[a]) != Name(img.dentries[b])
    ensures Accepts(img.dentries[j], Name(img.dentries[i])) <==> j == i && Terminated(img.dentries[i])
  {
    AcceptsByName(img.dentries[j], Name(img.dentries[i]));
  }

  // ----- listing -----

  /** What dir_read puts into the buffer for an entry. */
  function Listed(d: Dentry): seq<byte>
    requires |d.name| == MAX_FNAME_LEN
  {
    seq(Measured(d), i requires 0 <= i < Measured(d) => NameByte(d, i))
    + if Measured(d) < MAX_FNAME_LEN then [NUL] else []
  }

  /** What successive reads of the directory return. */
  function Listing(img: Image): seq<seq<byte>>
    requires WellFormed(img)
  {
    seq(img.nDentries, i requires 0 <= i < img.nDentries => Listed(img.dentries[i]))
  }

  lemma {:induction false} ListedIsName(d: Dentry)
    requires |d.name| == MAX_FNAME_LEN
    ensures |Name(d)| < MAX_FNAME_LEN ==> Listed(d) == Name(d) + [NUL]
    ensures |Name(d)| == MAX_FNAME_LEN && Terminated(d) ==> Listed(d) == Name(d)
    ensures !Terminated(d) ==> Listed(d) == Name(d) + [d.filetype % 256]
  {
    MeasuredIsLength(d);
    var n, all := |Name(d)|, Listed(d);
    forall i | 0 <= i < n ensures all[i] == Name(d)[i] {
      assert all[i] == NameByte(d, i) == d.name[i];
    }
    assert all[..n] == Name(d);
    if n < MAX_FNAME_LEN {
      assert all == all[..n] + [NUL];
    } else if Terminated(d) {
      assert all == all[..n];
    } else {
      assert all[n] == NameByte(d, n) && all == all[..n] + [all[n]];
    }
  }

  /** The directory cursor, which all descriptors share. */
  class Cursor {
    var dirsRead: nat

    constructor ()
      ensures dirsRead == 0
    {
      dirsRead := 0;
    }

    /** dir_read. */
    method Read(img: Image, buf: array<byte>) returns (r: int)
      requires WellFormed(img) && buf.Length > MAX_FNAME_LEN
      modifies this, buf
      ensures old(dirsRead) >= img.nDentries ==> r == 0 && dirsRead == old(dirsRead) && buf[..] == old(buf[..])
      ensures old(dirsRead) < img.nDentries ==>
        && dirsRead == old(dirsRead) + 1 && 0 < r == |Listed(img.dentries[old(dirsRead)])| <= MAX_FNAME_LEN + 1
        && buf[..r] == Listed(img.dentries[old(dirsRead)])
    {
      if dirsRead >= img.nDentries {
        return 0;
      }
      var d := img.dentries[dirsRead];
      var len := Measure(d);
      var i := 0;
      while i < len && NameByte(d, i) != NUL
        invariant 0 <= i <= len && forall k :: 0 <= k < i ==> buf[k] == NameByte(d, k)
        modifies buf
      {
        buf[i] := NameByte(d, i);
        i := i + 1;
      }
      if len < MAX_FNAME_LEN {
        buf[len] := NUL;
        len := len + 1;
      }
      dirsRead := dirsRead + 1;
      return len;
    }

    /** fs_close. */
    method Close(filetype: nat)
      modifies this
      ensures dirsRead == if filetype == 1 then 0 else old(dirsRead)
    {
      if filetype == 1 {
        dirsRead := 0;
      }
    }

    /** The loop of ece391ls.c: a lone reader gets every entry once, in order, and nothing after them. */
    method List(img: Image) returns (names: seq<seq<byte>>)
      requires WellFormed(img) && dirsRead == 0
      modifies this
      ensures names == Listing(img) && dirsRead >= img.nDentries
    {
      hide Listed;
      var buf := new byte[MAX_FNAME_LEN + 1];
      names := [];
      while true
        invariant |names| == dirsRead <= img.nDentries
        invariant forall i :: 0 <= i < |names| ==> names[i] == Listed(img.dentries[i])
        decreases img.nDentries - dirsRead
      {
        var cnt := Read(img, buf);
        if cnt == 0 {
          break;
        }
        names := names + [buf[..cnt]];
      }
    }

    /** A listing, n reads that all return 0, and after a close the same listing again. */
    method Relist(img: Image, n: nat) returns (names: seq<seq<byte>>, again: seq<seq<byte>>)
      requires WellFormed(img) && dirsRead == 0
      modifies this
      ensures names == Listing(img) && again == names
    {
      hide Listed;
      names := List(img);
      var buf := new byte[MAX_FNAME_LEN + 1];
      var i := 0;
      while i < n
        invariant dirsRead >= img.nDentries
      {
        var r := Read(img, buf);
        assert r == 0;
        i := i + 1;
      }
      Close(1);
      again := List(img);
    }
  }

  // ----- loading a program -----

  /** The file fits the copy buffer and memory of this size. */
  ghost predicate Fits(img: Image, inode: nat, size: nat)
    requires WellFormed(img)
  {
    && inode < |img.inodes|
    && img.inodes[inode].length <= |img.blocks| * FS_BLOCK_SIZE && img.inodes[inode].length <= size
  }

  ghost predicate Nowhere(img: Image, fname: seq<byte>)
    requires WellFormed(img)
  {
    forall i :: 0 <= i < img.nDentries ==> !Accepts(img.dentries[i], fname)
  }

  lemma {:induction false} WholeFileMisses(img: Image, inode: nat)
    requires WellFormed(img) && inode < |img.inodes| && img.inodes[inode].length > 0
    ensures MissesBlock(img, inode, 0, img.inodes[inode].length) <==> !BlocksInRange(img, inode)
  {
    var n := img.inodes[inode].length;
    if BlocksInRange(img, inode) {
      NoneMissing(img, inode, 0, n);
    } else if !MissesBlock(img, inode, 0, n) {
      InRangeGrows(img, inode, 0, n);
    }
  }

  /** fs_copy: the whole file, through a buffer as large as all data blocks together.  It fails exactly when
      no entry is found or a block of the file does not exist. */
  method FsCopy(img: Image, fname: seq<byte>, mem: array<byte>, stray: nat) returns (r: int, ghost at: nat)
    requires WellFormed(img) && NUL !in fname
    requires forall i :: 0 <= i < img.nDentries && Accepts(img.dentries[i], fname) ==>
               Fits(img, img.dentries[i].inode, mem.Length)
    modifies mem
    ensures !Nowhere(img, fname) ==> FoundAt(img, fname, at) && Fits(img, img.dentries[at].inode, mem.Length)
    ensures r == if Nowhere(img, fname) || !BlocksInRange(img, img.dentries[at].inode) then -1 else 0
    ensures r == -1 ==> mem[..] == old(mem[..])
    ensures r == 0 ==>
      var inode := img.dentries[at].inode; mem[..img.inodes[inode].length] == Contents(img, inode)
  {
    hide Contents, Accepts;
    var entry;
    entry, at := ReadDentryByName(img, fname);
    if entry.None? {
      return -1, at;
    }
    var inode := entry.value.inode;
    var buf := new byte[|img.blocks| * FS_BLOCK_SIZE];
    var n := img.inodes[inode].length;
    if n > 0 {
      WholeFileMisses(img, inode);
    }
    var bytesRead := ReadData(img, inode, 0, buf, n, stray);
    if bytesRead == -1 {
      return -1, at;
    }
    ReadIsSlice(img, inode, 0, n, buf[..n]);
    assert Contents(img, inode)[0..n] == Contents(img, inode);
    var i := 0;
    while i < bytesRead
      invariant 0 <= i <= bytesRead && mem[..i] == buf[..i]
      modifies mem
    {
      mem[i] := buf[i];
      i := i + 1;
    }
    return 0, at;
  }
}
