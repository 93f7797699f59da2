/** The files of filesys.c: block-wise reads refine the flat contents of a file.
 */
module FileSystem {
  import opened Bytes

  const FS_BLOCK_SIZE := 4096
  const DATABLOCKS_PER_INODE := 1023
  const MAX_DENTRIES := 63
  const MAX_FNAME_LEN := 32

  datatype Dentry = Dentry(name: seq<byte>, filetype: nat, inode: nat)

  datatype Inode = Inode(length: nat, datablocks: seq<nat>)

  datatype Image = Image(nDentries: nat, dentries: seq<Dentry>, inodes: seq<Inode>, blocks: seq<seq<byte>>)

  ghost predicate WellFormed(img: Image) {
    && |img.dentries| == MAX_DENTRIES && img.nDentries <= MAX_DENTRIES
    && (forall i :: 0 <= i < MAX_DENTRIES ==> |img.dentries[i].name| == MAX_FNAME_LEN)
    && (forall i :: 0 <= i < |img.inodes| ==>
          |img.inodes[i].datablocks| == DATABLOCKS_PER_INODE
          && img.inodes[i].length <= DATABLOCKS_PER_INODE * FS_BLOCK_SIZE)
    && (forall b :: 0 <= b < |img.blocks| ==> |img.blocks[b]| == FS_BLOCK_SIZE)
  }

  /** Every block that the file needs exists. */
  ghost predicate BlocksInRange(img: Image, inode: nat)
    requires WellFormed(img) && inode < |img.inodes|
  {
    forall k :: 0 <= k < DATABLOCKS_PER_INODE && k * FS_BLOCK_SIZE < img.inodes[inode].length ==>
      img.inodes[inode].datablocks[k] < |img.blocks|
  }

  // ----- flat contents -----

  /** The first `n` blocks of a file, one after the other. */
  ghost function Concatenated(img: Image, inode: nat, n: nat): (s: seq<byte>)
    requires WellFormed(img) && inode < |img.inodes| && n <= DATABLOCKS_PER_INODE
    requires forall k :: 0 <= k < n ==> img.inodes[inode].datablocks[k] < |img.blocks|
    ensures |s| == n * FS_BLOCK_SIZE
  {
    if n == 0 then []
    else Concatenated(img, inode, n - 1) + img.blocks[img.inodes[inode].datablocks[n - 1]]
  }

  function BlocksOf(length: nat): (n: nat)
    ensures (n == 0 <==> length == 0) && length <= n * FS_BLOCK_SIZE && (n > 0 ==> (n - 1) * FS_BLOCK_SIZE < length)
  {
    (length + FS_BLOCK_SIZE - 1) / FS_BLOCK_SIZE
  }

  /** The bytes of a file. */
  ghost function Contents(img: Image, inode: nat): (s: seq<byte>)
    requires WellFormed(img) && inode < |img.inodes| && BlocksInRange(img, inode)
    ensures |s| == img.inodes[inode].length
  {
    Concatenated(img, inode, BlocksOf(img.inodes[inode].length))[..img.inodes[inode].length]
  }

  lemma {:induction false} ByteOfBlock(img: Image, inode: nat, n: nat, i: nat)
    requires WellFormed(img) && inode < |img.inodes| && n <= DATABLOCKS_PER_INODE
    requires forall k :: 0 <= k < n ==> img.inodes[inode].datablocks[k] < |img.blocks|
    requires i < n * FS_BLOCK_SIZE
    ensures Concatenated(img, inode, n)[i] ==
      img.blocks[img.inodes[inode].datablocks[i / FS_BLOCK_SIZE]][i % FS_BLOCK_SIZE]
  {
    if i < (n - 1) * FS_BLOCK_SIZE {
      ByteOfBlock(img, inode, n - 1, i);
    }
  }

  lemma {:induction false} ByteOfFile(img: Image, inode: nat, i: nat)
    requires WellFormed(img) && inode < |img.inodes| && BlocksInRange(img, inode) && i < img.inodes[inode].length
    ensures img.inodes[inode].datablocks[i / FS_BLOCK_SIZE] < |img.blocks|
    ensures Contents(img, inode)[i] ==
      img.blocks[img.inodes[inode].datablocks[i / FS_BLOCK_SIZE]][i % FS_BLOCK_SIZE]
  {
    ByteOfBlock(img, inode, BlocksOf(img.inodes[inode].length), i);
  }

  // ----- reads -----

  function Min(a: int, b: int): int {
    if a <= b then a else b
  }

  /** How many bytes a read of `n` at `offset` is after. */
  function Wanted(img: Image, inode: nat, offset: nat, n: nat): nat {
    if inode < |img.inodes| && offset < img.inodes[inode].length then Min(n, img.inodes[inode].length - offset) else 0
  }

  /** Block `k` of the file lies between `offset` and the end of a read of `count` bytes, or is the one
      at `offset` itself. */
  predicate Touches(offset: nat, count: nat, k: nat) {
    k == offset / FS_BLOCK_SIZE || (offset / FS_BLOCK_SIZE <= k && k * FS_BLOCK_SIZE < offset + count)
  }

  /** Byte `i` of the file is in a block that exists, and is `b`. */
  ghost predicate Stores(img: Image, inode: nat, i: nat, b: byte)
    requires WellFormed(img)
  {
    && inode < |img.inodes| && i / FS_BLOCK_SIZE < DATABLOCKS_PER_INODE
    && img.inodes[inode].datablocks[i / FS_BLOCK_SIZE] < |img.blocks|
    && img.blocks[img.inodes[inode].datablocks[i / FS_BLOCK_SIZE]][i % FS_BLOCK_SIZE] == b
  }

  /** A block that the read touches does not exist. */
  ghost predicate MissesBlock(img: Image, inode: nat, offset: nat, count: nat)
    requires WellFormed(img) && inode < |img.inodes|
  {
    exists k :: 0 <= k < DATABLOCKS_PER_INODE && Touches(offset, count, k)
      && img.inodes[inode].datablocks[k] >= |img.blocks|
  }

  /** read_data.  `stray` is what the table lookup yields when it is made with an index out of range,
      which happens before the checks that then return. */
  method ReadData(img: Image, inode: nat, offset: nat, buf: array?<byte>, length: nat, stray: nat) returns (r: int)
    requires WellFormed(img)
    requires buf != null ==> Wanted(img, inode, offset, length) <= buf.Length
    modifies if buf == null then {} else {buf}
    ensures buf == null || inode >= |img.inodes| ==> r == -1
    ensures buf != null && inode < |img.inodes| && offset >= img.inodes[inode].length ==> r == 0
    ensures buf != null && inode < |img.inodes| && offset < img.inodes[inode].length ==>
      var count := Wanted(img, inode, offset, length);
      && r == (if MissesBlock(img, inode, offset, count) then -1 else count)
      && (r != -1 ==> forall i :: 0 <= i < count ==> Stores(img, inode, offset + i, buf[i]))
    ensures r >= 0 ==> forall i :: r <= i < buf.Length ==> buf[i] == old(buf[i])
  {
    var bytesRead := 0;
    var fileDataBlock := offset / FS_BLOCK_SIZE;
    var blockOffset := offset % FS_BLOCK_SIZE;
    var fsDataBlock :=
      if inode < |img.inodes| && fileDataBlock < DATABLOCKS_PER_INODE then img.inodes[inode].datablocks[fileDataBlock]
      else stray;
    if buf == null || inode >= |img.inodes| {
      return -1;
    }
    if offset >= img.inodes[inode].length {
      return 0;
    }
    ghost var count := Wanted(img, inode, offset, length);
    if fsDataBlock >= |img.blocks| {
      assert Touches(offset, count, fileDataBlock);
      return -1;
    }
    while bytesRead < length
      invariant 0 <= bytesRead <= count && 0 <= blockOffset <= FS_BLOCK_SIZE
      invariant fileDataBlock * FS_BLOCK_SIZE + blockOffset == offset + bytesRead
      invariant fileDataBlock < DATABLOCKS_PER_INODE && offset / FS_BLOCK_SIZE <= fileDataBlock
      invariant fsDataBlock == img.inodes[inode].datablocks[fileDataBlock] < |img.blocks|
      invariant forall k :: offset / FS_BLOCK_SIZE <= k <= fileDataBlock ==>
        img.inodes[inode].datablocks[k] < |img.blocks|
      invariant forall i :: 0 <= i < bytesRead ==> Stores(img, inode, offset + i, buf[i])
      invariant forall i :: bytesRead <= i < buf.Length ==> buf[i] == old(buf[i])
    {
      if offset + bytesRead >= img.inodes[inode].length {
        return bytesRead;
      }
      if blockOffset >= FS_BLOCK_SIZE {
        fileDataBlock := fileDataBlock + 1;
        fsDataBlock := img.inodes[inode].datablocks[fileDataBlock];
        blockOffset := 0;
        if fsDataBlock >= |img.blocks| {
          assert Touches(offset, count, fileDataBlock);
          return -1;
        }
      }
      buf[bytesRead] := img.blocks[fsDataBlock][blockOffset];
      bytesRead := bytesRead + 1;
      blockOffset := blockOffset + 1;
    }
    return bytesRead;
  }

  /** On a file whose blocks are in range, read_data copies a slice of the flat contents. */
  lemma {:induction false} ReadIsSlice(img: Image, inode: nat, offset: nat, count: nat, got: seq<byte>)
    requires WellFormed(img) && inode < |img.inodes| && BlocksInRange(img, inode)
    requires offset + count <= img.inodes[inode].length && |got| == count
    requires forall i :: 0 <= i < count ==> Stores(img, inode, offset + i, got[i])
    ensures got == Contents(img, inode)[offset..offset + count]
  {
    forall i | 0 <= i < count
      ensures got[i] == Contents(img, inode)[offset + i]
    {
      ByteOfFile(img, inode, offset + i);
    }
  }

  lemma {:induction false} NoneMissing(img: Image, inode: nat, offset: nat, count: nat)
    requires WellFormed(img) && inode < |img.inodes| && BlocksInRange(img, inode)
    requires offset < img.inodes[inode].length && offset + count <= img.inodes[inode].length
    ensures !MissesBlock(img, inode, offset, count)
  {
  }

  /** A read before the first missing block fails exactly when it reaches that block. */
  lemma {:induction false} FailsAtFirstMissing(img: Image, inode: nat, bad: nat, offset: nat, count: nat)
    requires WellFormed(img) && inode < |img.inodes| && bad < DATABLOCKS_PER_INODE
    requires img.inodes[inode].datablocks[bad] >= |img.blocks|
    requires forall k :: 0 <= k < bad ==> img.inodes[inode].datablocks[k] < |img.blocks|
    requires offset < bad * FS_BLOCK_SIZE
    ensures MissesBlock(img, inode, offset, count) <==> offset + count > bad * FS_BLOCK_SIZE
  {
    assert offset / FS_BLOCK_SIZE < bad;
    if offset + count > bad * FS_BLOCK_SIZE {
      assert Touches(offset, count, bad);
    }
  }

  /** The value of a signed count passed on as unsigned. */
  function Unsigned(n: int): nat
    requires -0x8000_0000 <= n < 0x8000_0000
  {
    if n < 0 then n + 0x1_0000_0000 else n
  }

  /** The part of a file_t that reads use. */
  class OpenFile {
    var inode: nat
    var position: nat

    constructor (inode: nat)
      ensures this.inode == inode && position == 0
    {
      this.inode := inode;
      position := 0;
    }

    /** A read of `n` bytes at the position fails. */
    ghost predicate Fails(img: Image, n: nat)
      requires WellFormed(img)
      reads this
    {
      || inode >= |img.inodes|
      || (position < img.inodes[inode].length && MissesBlock(img, inode, position, Wanted(img, inode, position, n)))
    }

    /** file_read: the next bytes of the file, and the position moves past them. */
    method Read(img: Image, buf: array<byte>, nbytes: int, stray: nat) returns (r: int)
      requires WellFormed(img) && -0x8000_0000 <= nbytes < 0x8000_0000
      requires Wanted(img, inode, position, Unsigned(nbytes)) <= buf.Length
      modifies `position, buf
      ensures r == if old(Fails(img, Unsigned(nbytes))) then -1 else Wanted(img, inode, old(position), Unsigned(nbytes))
      ensures position == if r == -1 then old(position) else old(position) + r
      ensures r != -1 ==> forall i :: 0 <= i < r ==> Stores(img, inode, old(position) + i, buf[i])
    {
      r := ReadData(img, inode, position, buf, Unsigned(nbytes), stray);
      if r != -1 {
        position := position + r;
      }
    }

    /** The loop of ece391cat.c: the whole file is printed if its blocks exist, and otherwise what lies
        before the first piece of 1024 bytes that touches a missing block, and a message. */
    method Cat(img: Image, stray: nat) returns (r: int, out: seq<byte>)
      requires WellFormed(img) && position == 0
      modifies `position
      ensures r == if inode < |img.inodes| && BlocksInRange(img, inode) then 0 else 3
      ensures r == 0 ==> out == Contents(img, inode)
      ensures r == 3 ==> position <= |out| && out[position..] == READ_FAILED && Fails(img, 1024)
      ensures r == 3 ==> forall i :: 0 <= i < position ==> Stores(img, inode, i, out[i])
    {
      var buf := new byte[1024];
      out := [];
      while true
        invariant |out| == position && forall i :: 0 <= i < position ==> Stores(img, inode, i, out[i])
        invariant inode < |img.inodes| ==> position <= img.inodes[inode].length && InRangeBefore(img, inode, position)
        decreases if inode < |img.inodes| then img.inodes[inode].length - position else 0
      {
        ghost var pos, count := position, Wanted(img, inode, position, 1024);
        var cnt := Read(img, buf, 1024, stray);
        if cnt == 0 {
          ReadIsSlice(img, inode, 0, |out|, out);
          assert Contents(img, inode)[0..|out|] == Contents(img, inode);
          return 0, out;
        }
        if cnt == -1 {
          if inode < |img.inodes| {
            InRangeMisses(img, inode, position, Wanted(img, inode, position, 1024));
          }
          return 3, out + READ_FAILED;
        }
        InRangeGrows(img, inode, pos, count);
        out := out + buf[..cnt];
      }
    }
  }

  /** The blocks that hold the first `n` bytes exist. */
  ghost predicate InRangeBefore(img: Image, inode: nat, n: nat)
    requires WellFormed(img) && inode < |img.inodes|
  {
    forall k :: 0 <= k < DATABLOCKS_PER_INODE && k * FS_BLOCK_SIZE < n ==>
      img.inodes[inode].datablocks[k] < |img.blocks|
  }

  lemma {:induction false} InRangeGrows(img: Image, inode: nat, pos: nat, count: nat)
    requires WellFormed(img) && inode < |img.inodes| && InRangeBefore(img, inode, pos)
    requires !MissesBlock(img, inode, pos, count)
    ensures InRangeBefore(img, inode, pos + count)
  {
    forall k | 0 <= k < DATABLOCKS_PER_INODE && k * FS_BLOCK_SIZE < pos + count
      ensures img.inodes[inode].datablocks[k] < |img.blocks|
    {
      if k * FS_BLOCK_SIZE >= pos {
        assert Touches(pos, count, k);
      }
    }
  }

  lemma {:induction false} InRangeMisses(img: Image, inode: nat, pos: nat, count: nat)
    requires WellFormed(img) && inode < |img.inodes| && MissesBlock(img, inode, pos, count)
    requires pos < img.inodes[inode].length && pos + count <= img.inodes[inode].length
    ensures !BlocksInRange(img, inode)
  {
    if BlocksInRange(img, inode) {
      NoneMissing(img, inode, pos, count);
      assert false;
    }
  }

  // ----- reads of any sizes -----

  /** What a sequence of reads returns, one after the other, from position `pos` of a text. */
  function ReadsFrom(text: seq<byte>, pos: nat, sizes: seq<nat>): seq<byte>
    requires pos <= |text|
    decreases |sizes|
  {
    if sizes == [] then []
    else
      var next := pos + Min(sizes[0], |text| - pos);
      text[pos..next] + ReadsFrom(text, next, sizes[1..])
  }

  function Sum(sizes: seq<nat>): nat {
    if sizes == [] then 0 else sizes[0] + Sum(sizes[1..])
  }

  lemma {:induction false} Joined(text: seq<byte>, a: nat, b: nat, c: nat)
    requires a <= b <= c <= |text|
    ensures text[a..b] + text[b..c] == text[a..c]
  {
  }

  /** Reads of any sizes return consecutive pieces: together the text, as far as the sizes go. */
  lemma {:induction false} ReadsAreConsecutive(text: seq<byte>, pos: nat, sizes: seq<nat>)
    requires pos <= |text|
    ensures ReadsFrom(text, pos, sizes) == text[pos..pos + Min(Sum(sizes), |text| - pos)]
    decreases |sizes|
  {
    if sizes != [] {
      var next := pos + Min(sizes[0], |text| - pos);
      ReadsAreConsecutive(text, next, sizes[1..]);
      FirstRead(text, pos, sizes);
      hide ReadsFrom, Sum;
      Joined(text, pos, next, pos + Min(Sum(sizes), |text| - pos));
    }
  }

  /** The first of a sequence of reads. */
  lemma {:induction false} FirstRead(text: seq<byte>, pos: nat, sizes: seq<nat>)
    requires pos <= |text| && sizes != []
    ensures Sum(sizes) == sizes[0] + Sum(sizes[1..])
    ensures var next := pos + Min(sizes[0], |text| - pos);
      ReadsFrom(text, pos, sizes) == text[pos..next] + ReadsFrom(text, next, sizes[1..])
  {
  }

  /** What a read returns on a file whose blocks exist is the next slice of the contents. */
  lemma {:induction false} NextSlice(img: Image, inode: nat, pos: nat, n: nat, got: seq<byte>)
    requires WellFormed(img) && inode < |img.inodes| && BlocksInRange(img, inode)
    requires pos <= img.inodes[inode].length && |got| == Wanted(img, inode, pos, n)
    requires forall i :: 0 <= i < |got| ==> Stores(img, inode, pos + i, got[i])
    ensures |got| == Min(n, |Contents(img, inode)| - pos) && got == Contents(img, inode)[pos..pos + |got|]
  {
    ReadIsSlice(img, inode, pos, |got|, got);
  }

  /** The position lies in a file whose blocks exist. */
  ghost predicate Sound(img: Image, inode: nat, pos: nat)
    requires WellFormed(img)
  {
    inode < |img.inodes| && BlocksInRange(img, inode) && pos <= img.inodes[inode].length
  }

  /** One file_read with room for what it asks; a call that fails returns nothing. */
  method ReadOne(img: Image, file: OpenFile, n: nat, stray: nat) returns (piece: seq<byte>)
    requires WellFormed(img) && n < 0x8000_0000
    modifies file`position
    ensures file.position == old(file.position) + |piece|
    ensures forall i :: 0 <= i < |piece| ==> Stores(img, file.inode, old(file.position) + i, piece[i])
    ensures Sound(img, file.inode, old(file.position)) ==>
      && Sound(img, file.inode, file.position) && |piece| == Min(n, img.inodes[file.inode].length - old(file.position))
      && piece == Contents(img, file.inode)[old(file.position)..file.position]
  {
    hide Contents, Stores, MissesBlock, BlocksInRange;
    var buf := new byte[n];
    if Sound(img, file.inode, file.position) {
      GoodReads(img, file.inode, file.position, n);
    }
    var r := file.Read(img, buf, n, stray);
    if r == -1 {
      return [];
    }
    piece := buf[..r];
    if Sound(img, file.inode, old(file.position)) {
      NextSlice(img, file.inode, old(file.position), n, piece);
    }
  }

  /** A sequence of file_read calls.  The bytes returned are always consecutive bytes of the file. */
  method ReadAll(img: Image, file: OpenFile, sizes: seq<nat>, stray: nat) returns (out: seq<byte>)
    requires WellFormed(img) && forall i :: 0 <= i < |sizes| ==> sizes[i] < 0x8000_0000
    modifies file`position
    ensures file.position == old(file.position) + |out|
    ensures forall i :: 0 <= i < |out| ==> Stores(img, file.inode, old(file.position) + i, out[i])
    ensures Sound(img, file.inode, old(file.position)) ==>
      out == ReadsFrom(Contents(img, file.inode), old(file.position), sizes)
  {
    hide ReadsFrom, Contents, Stores, BlocksInRange, Fetched, Pending;
    ghost var good := Sound(img, file.inode, file.position);
    ghost var text := if good then Contents(img, file.inode) else [];
    out := [];
    var i := 0;
    FetchedNone(img, file.inode, file.position);
    if good {
      PendingAll(text, file.position, sizes);
    }
    while i < |sizes|
      invariant 0 <= i <= |sizes| && file.position == old(file.position) + |out|
      invariant Fetched(img, file.inode, old(file.position), out)
      invariant good ==> Sound(img, file.inode, file.position)
      invariant good ==> Pending(text, old(file.position), sizes, out, file.position, i)
    {
      ghost var before, pos := out, file.position;
      var piece := ReadOne(img, file, sizes[i], stray);
      out := out + piece;
      FetchedMore(img, file.inode, old(file.position), before, piece);
      if good {
        PendingLess(text, old(file.position), sizes, before, pos, i, piece);
      }
      i := i + 1;
    }
    FetchedAll(img, file.inode, old(file.position), out);
    if good {
      PendingNone(text, old(file.position), sizes, out, file.position);
    }
  }

  /** `out` is what lies in the file from `start` on. */
  ghost predicate Fetched(img: Image, inode: nat, start: nat, out: seq<byte>)
    requires WellFormed(img)
  {
    forall i :: 0 <= i < |out| ==> Stores(img, inode, start + i, out[i])
  }

  lemma {:induction false} FetchedNone(img: Image, inode: nat, start: nat)
    requires WellFormed(img)
    ensures Fetched(img, inode, start, [])
  {
  }

  lemma {:induction false} FetchedMore(img: Image, inode: nat, start: nat, out: seq<byte>, piece: seq<byte>)
    requires WellFormed(img) && Fetched(img, inode, start, out)
    requires forall i :: 0 <= i < |piece| ==> Stores(img, inode, start + |out| + i, piece[i])
    ensures Fetched(img, inode, start, out + piece)
  {
    hide Stores;
    forall i | 0 <= i < |out + piece| ensures Stores(img, inode, start + i, (out + piece)[i]) {
      if i >= |out| {
        assert Stores(img, inode, start + |out| + (i - |out|), piece[i - |out|]);
      }
    }
  }

  lemma {:induction false} FetchedAll(img: Image, inode: nat, start: nat, out: seq<byte>)
    requires WellFormed(img) && Fetched(img, inode, start, out)
    ensures forall i :: 0 <= i < |out| ==> Stores(img, inode, start + i, out[i])
  {
    hide Stores;
  }

  /** With `out` read and the position at `pos`, the reads from the i-th on are left of all of them. */
  ghost predicate Pending(text: seq<byte>, start: nat, sizes: seq<nat>, out: seq<byte>, pos: nat, i: nat)
    requires start <= |text|
  {
    pos <= |text| && i <= |sizes| && out + ReadsFrom(text, pos, sizes[i..]) == ReadsFrom(text, start, sizes)
  }

  lemma {:induction false} PendingAll(text: seq<byte>, start: nat, sizes: seq<nat>)
    requires start <= |text|
    ensures Pending(text, start, sizes, [], start, 0)
  {
    hide ReadsFrom;
    assert sizes[0..] == sizes;
  }

  lemma {:induction false} PendingLess(text: seq<byte>, start: nat, sizes: seq<nat>, out: seq<byte>, pos: nat, i: nat,
                                       piece: seq<byte>)
    requires start <= |text| && Pending(text, start, sizes, out, pos, i) && i < |sizes|
    requires |piece| == Min(sizes[i], |text| - pos) && piece == text[pos..pos + |piece|]
    ensures Pending(text, start, sizes, out + piece, pos + |piece|, i + 1)
  {
    hide ReadsFrom;
    NextRead(text, pos, sizes, i);
    Regroup(out, piece, ReadsFrom(text, pos + |piece|, sizes[i + 1..]));
  }

  lemma {:induction false} PendingNone(text: seq<byte>, start: nat, sizes: seq<nat>, out: seq<byte>, pos: nat)
    requires start <= |text| && Pending(text, start, sizes, out, pos, |sizes|)
    ensures out == ReadsFrom(text, start, sizes)
  {
    hide ReadsFrom;
    NoRead(text, pos, sizes);
  }

  lemma {:induction false} Regroup(a: seq<byte>, b: seq<byte>, c: seq<byte>)
    ensures (a + b) + c == a + (b + c)
  {
  }

  lemma {:induction false} GoodReads(img: Image, inode: nat, pos: nat, n: nat)
    requires WellFormed(img) && inode < |img.inodes| && BlocksInRange(img, inode)
    ensures pos < img.inodes[inode].length ==> !MissesBlock(img, inode, pos, Wanted(img, inode, pos, n))
  {
    if pos < img.inodes[inode].length {
      NoneMissing(img, inode, pos, Wanted(img, inode, pos, n));
    }
  }

  lemma {:induction false} NextRead(text: seq<byte>, pos: nat, sizes: seq<nat>, i: nat)
    requires pos <= |text| && i < |sizes|
    ensures var next := pos + Min(sizes[i], |text| - pos);
      ReadsFrom(text, pos, sizes[i..]) == text[pos..next] + ReadsFrom(text, next, sizes[i + 1..])
  {
    assert sizes[i..][0] == sizes[i] && sizes[i..][1..] == sizes[i + 1..];
  }

  lemma {:induction false} NoRead(text: seq<byte>, pos: nat, sizes: seq<nat>)
    requires pos <= |text|
    ensures ReadsFrom(text, pos, sizes[|sizes|..]) == []
  {
  }
}
