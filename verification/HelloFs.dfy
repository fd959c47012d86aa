/**
  The chained-block file system of asgn4/hello.c: a block bitmap, file blocks
  linked through their headers, and reads and writes that move a whole file
  through one staging buffer.

  The image is a sequence of blocks, each a header (struct metadata) and the
  4016 data bytes after it; block 0 holds the persistent bitmap.  Timestamps
  and the FUSE plumbing are not modelled.
 */
module HelloFs {

  const NUM_BLOCKS := 400
  const USABLE := 4096 - 80           // BLOCK_SIZE - sizeof(struct metadata)
  const MAX_FILENAME := 20
  const MAX_REQUEST := 128 * 1024     // size of the staging buffer
  const MAX_CHAIN := 32               // whole blocks that fit in the staging buffer

  newtype byte = x: int | 0 <= x < 256

  datatype Metadata = Metadata(filename: string, fileSize: int, next: int)

  datatype Block = Block(md: Metadata, data: seq<byte>)

  datatype Error = ENOENT | EEXIST | ENOMEM | ENOBUFS | ENAMETOOLONG

  datatype Result<T> = Ok(value: T) | Err(error: Error)

  const NoFile := Metadata("", 0, 0)

  // ---- specification -----------------------------------------------------------

  ghost predicate OnDisk(disk: seq<Block>, c: seq<int>) {
    forall j | 0 <= j < |c| :: 0 <= c[j] < |disk| && |disk[c[j]].data| == USABLE
  }

  /** The headers of the blocks of `c` link them in this order, and the last one ends the chain. */
  ghost predicate Links(disk: seq<Block>, c: seq<int>)
    requires OnDisk(disk, c)
  {
    && (forall i, j | 0 <= i < j < |c| && j == i + 1 :: disk[c[i]].md.next == c[j] && c[j] != 0)
    && (c != [] ==> disk[c[|c| - 1]].md.next == 0)
  }

  /** The bytes of the data areas of the blocks of `c`, in order. */
  ghost function Flatten(disk: seq<Block>, c: seq<int>): (s: seq<byte>)
    requires OnDisk(disk, c)
    ensures |s| == USABLE * |c|
  {
    if c == [] then [] else Flatten(disk, c[..|c| - 1]) + disk[c[|c| - 1]].data
  }

  lemma {:induction false} FlattenFrame(disk: seq<Block>, disk': seq<Block>, c: seq<int>)
    requires OnDisk(disk, c)
    requires forall j | 0 <= j < |c| :: c[j] < |disk'| && disk'[c[j]].data == disk[c[j]].data
    ensures Flatten(disk', c) == Flatten(disk, c)
  {
    if c != [] {
      FlattenFrame(disk, disk', c[..|c| - 1]);
    }
  }

  lemma {:induction false} FlattenPrefix(disk: seq<Block>, c: seq<int>, k: nat)
    requires OnDisk(disk, c)
    requires k <= |c|
    ensures Flatten(disk, c)[..USABLE * k] == Flatten(disk, c[..k])
  {
    if k < |c| {
      var n := |c| - 1;
      FlattenPrefix(disk, c[..n], k);
      assert c[..n][..k] == c[..k];
    } else {
      assert c[..k] == c;
    }
  }

  /** A chain whose first k blocks and r more bytes were copied from `b` reads back as `b`. */
  lemma {:induction false} FlattenCopied(disk: seq<Block>, c: seq<int>, b: seq<byte>, k: nat)
    requires OnDisk(disk, c)
    requires k <= |c| && USABLE * k <= |b|
    requires forall j | 0 <= j < k :: disk[c[j]].data == b[USABLE * j..USABLE * (j + 1)]
    ensures Flatten(disk, c[..k]) == b[..USABLE * k]
  {
    if k > 0 {
      FlattenCopied(disk, c, b, k - 1);
      assert c[..k][..k - 1] == c[..k - 1];
      assert b[..USABLE * k] == b[..USABLE * (k - 1)] + b[USABLE * (k - 1)..USABLE * k];
    }
  }

  /** What a read of `size` bytes at `offset` returns. */
  function Slice(s: seq<byte>, offset: nat, size: nat): seq<byte> {
    if offset >= |s| then []
    else if offset + size > |s| then s[offset..]
    else s[offset..offset + size]
  }

  /** The bytes of `s` from `offset` on, `size` of them or as many as there are. */
  ghost predicate Delivers(s: seq<byte>, offset: nat, size: nat, bytes: seq<byte>) {
    && |bytes| == (if offset >= |s| then 0 else if size < |s| - offset then size else |s| - offset)
    && forall i | 0 <= i < |bytes| :: bytes[i] == s[offset + i]
  }

  lemma SliceDelivers(s: seq<byte>, offset: nat, size: nat)
    ensures Delivers(s, offset, size, Slice(s, offset, size))
  {
  }

  lemma SliceAll(s: seq<byte>)
    ensures Slice(s, 0, |s|) == s
  {
  }

  /** Copying out of the staging buffer is slicing the file it holds. */
  lemma SliceOfPrefix(s: seq<byte>, whole: seq<byte>, length: nat, offset: nat, size: nat, n: nat)
    requires |whole| <= |s| && s[..|whole|] == whole
    requires offset < length <= |whole|
    requires n == if offset + size > length then length - offset else size
    ensures s[offset..offset + n] == Slice(whole[..length], offset, size)
  {
    assert whole[..length][offset..offset + n] == whole[offset..offset + n];
    assert s[..|whole|][offset..offset + n] == s[offset..offset + n];
  }

  function FreeCount(bitmap: seq<int>): nat {
    if bitmap == [] then 0
    else FreeCount(bitmap[..|bitmap| - 1]) + if bitmap[|bitmap| - 1] == 0 then 1 else 0
  }

  lemma {:induction false} FreeCountTake(bitmap: seq<int>, i: nat)
    requires i < |bitmap| && bitmap[i] == 0
    ensures FreeCount(bitmap[i := 1]) == FreeCount(bitmap) - 1
  {
    var n := |bitmap| - 1;
    if i < n {
      FreeCountTake(bitmap[..n], i);
      assert bitmap[i := 1][..n] == bitmap[..n][i := 1];
    } else {
      assert bitmap[i := 1][..n] == bitmap[..n];
    }
  }

  lemma {:induction false} FreeCountZero(bitmap: seq<int>)
    requires forall i | 0 <= i < |bitmap| :: bitmap[i] != 0
    ensures FreeCount(bitmap) == 0
  {
    if bitmap != [] {
      FreeCountZero(bitmap[..|bitmap| - 1]);
    }
  }

  /** The number of blocks a file of `size` bytes occupies; an empty file keeps its header block. */
  function BlocksFor(size: nat): nat {
    if size == 0 then 1 else (size + USABLE - 1) / USABLE
  }

  method CopyInto(buffer: array<byte>, at: nat, bytes: seq<byte>)
    requires at + |bytes| <= buffer.Length
    modifies buffer
    ensures buffer[..at + |bytes|] == old(buffer[..at]) + bytes
    ensures buffer[at + |bytes|..] == old(buffer[at + |bytes|..])
  {
    forall i | 0 <= i < |bytes| {
      buffer[at + i] := bytes[i];
    }
  }

  /** Reads the chain that begins at `start` into the staging buffer (hello.c:289-304, 361-376). */
  method LoadChain(disk: seq<Block>, start: int, buffer: array<byte>, ghost c: seq<int>)
    requires c != [] && OnDisk(disk, c) && Links(disk, c) && start == c[0]
    requires USABLE * |c| <= buffer.Length
    modifies buffer
    ensures buffer[..USABLE * |c|] == Flatten(disk, c)
  {
    var byteCount := 0;
    var pos := start;
    var md := disk[start].md;
    ghost var k := 0;
    while true
      invariant 0 <= k < |c| && pos == c[k] && md == disk[pos].md
      invariant byteCount == USABLE * k
      invariant buffer[..byteCount] == Flatten(disk, c[..k])
      decreases |c| - k
    {
      CopyInto(buffer, byteCount, disk[pos].data);
      assert c[..k + 1][..k] == c[..k];
      byteCount := byteCount + USABLE;
      assert k + 1 < |c| ==> disk[c[k]].md.next == c[k + 1] && c[k + 1] != 0;
      if md.next != 0 {
        pos := md.next;
        md := disk[pos].md;
        k := k + 1;
      } else {
        assert c[..k + 1] == c;
        break;
      }
    }
  }

  // ---- the structure on disk ------------------------------------------------------

  /**
    Ghost bookkeeping: the blocks each file owns, in order, and for every such
    block the file and position it belongs to.  That `owner` is a function makes
    chains acyclic and disjoint.
   */
  datatype Layout = Layout(chains: map<string, seq<int>>, owner: map<int, (string, nat)>)

  ghost predicate ChainOk(bitmap: seq<int>, disk: seq<Block>, l: Layout, n: string)
    requires |bitmap| == |disk| == NUM_BLOCKS && n in l.chains
  {
    var c := l.chains[n];
    && 1 <= |c| <= MAX_CHAIN && n != ""
    && (forall j | 0 <= j < |c| ::
          && 1 <= c[j] < NUM_BLOCKS && bitmap[c[j]] == 1
          && c[j] in l.owner && l.owner[c[j]] == (n, j)
          && disk[c[j]].md.filename == (if j == 0 then n else ""))
    && OnDisk(disk, c) && Links(disk, c)
  }

  /** The headers link every file's blocks into its chain, and chains use marked blocks only. */
  ghost predicate Linked(bitmap: seq<int>, disk: seq<Block>, l: Layout) {
    && |bitmap| == |disk| == NUM_BLOCKS
    && bitmap[0] == 1
    && (forall i | 0 <= i < NUM_BLOCKS :: bitmap[i] == 0 || bitmap[i] == 1)
    && (forall i | 0 <= i < NUM_BLOCKS :: |disk[i].data| == USABLE)
    && (forall i | 1 <= i < NUM_BLOCKS && bitmap[i] == 0 :: disk[i].md == NoFile)
    && (forall n | n in l.chains :: ChainOk(bitmap, disk, l, n))
    && (forall i | 1 <= i < NUM_BLOCKS && disk[i].md.filename != "" ::
          disk[i].md.filename in l.chains && l.chains[disk[i].md.filename][0] == i)
  }

  lemma ChainOf(bitmap: seq<int>, disk: seq<Block>, l: Layout, n: string)
    requires Linked(bitmap, disk, l) && n in l.chains
    ensures ChainOk(bitmap, disk, l, n)
  {
  }

  /** No two files share a block, and no file visits a block twice. */
  lemma ChainsDisjoint(bitmap: seq<int>, disk: seq<Block>, l: Layout, n: string, m: string, i: nat, j: nat)
    requires Linked(bitmap, disk, l) && n in l.chains && m in l.chains
    requires i < |l.chains[n]| && j < |l.chains[m]| && l.chains[n][i] == l.chains[m][j]
    ensures n == m && i == j
  {
    assert ChainOk(bitmap, disk, l, n) && ChainOk(bitmap, disk, l, m);
  }

  /** Overwriting data keeps the structure. */
  lemma LinkedAfterData(bitmap: seq<int>, disk: seq<Block>, l: Layout, b: int, data: seq<byte>)
    requires Linked(bitmap, disk, l) && 0 <= b < NUM_BLOCKS && |data| == USABLE
    ensures Linked(bitmap, disk[b := disk[b].(data := data)], l)
  {
    var disk' := disk[b := disk[b].(data := data)];
    forall n | n in l.chains
      ensures ChainOk(bitmap, disk', l, n)
    {
      assert ChainOk(bitmap, disk, l, n);
    }
  }

  /** So does storing a file's size in its first header. */
  lemma LinkedAfterSize(bitmap: seq<int>, disk: seq<Block>, l: Layout, path: string, size: int)
    requires Linked(bitmap, disk, l) && path in l.chains
    ensures l.chains[path] != [] && 0 <= l.chains[path][0] < NUM_BLOCKS
    ensures Linked(bitmap, Resized(disk, l.chains[path][0], size), l)
  {
    assert ChainOk(bitmap, disk, l, path);
    var disk' := Resized(disk, l.chains[path][0], size);
    forall n | n in l.chains
      ensures ChainOk(bitmap, disk', l, n)
    {
      assert ChainOk(bitmap, disk, l, n);
    }
  }

  function Extended(l: Layout, path: string, b: int): Layout
    requires path in l.chains
  {
    Layout(l.chains[path := l.chains[path] + [b]], l.owner[b := (path, |l.chains[path]|)])
  }

  function Relinked(disk: seq<Block>, last: int, b: int): seq<Block>
    requires 0 <= last < |disk|
  {
    disk[last := disk[last].(md := disk[last].md.(next := b))]
  }

  lemma LinksExtend(disk: seq<Block>, c: seq<int>, last: int, b: int)
    requires 0 < b < |disk| && OnDisk(disk, c + [b]) && c != [] && last == c[|c| - 1]
    requires OnDisk(disk, c) && Links(disk, c) && disk[b].md.next == 0
    requires forall j | 0 <= j < |c| - 1 :: c[j] != last
    requires forall j | 0 <= j < |c| :: c[j] != b
    ensures OnDisk(Relinked(disk, last, b), c + [b]) && Links(Relinked(disk, last, b), c + [b])
  {
    var disk', c' := Relinked(disk, last, b), c + [b];
    forall i, j | 0 <= i < j < |c'| && j == i + 1
      ensures disk'[c'[i]].md.next == c'[j] && c'[j] != 0
    {
      if j < |c| {
        assert disk[c[i]].md.next == c[j];
      }
    }
  }

  lemma ExtendOwn(bitmap: seq<int>, disk: seq<Block>, l: Layout, path: string, last: int, b: int)
    requires Linked(bitmap, disk, l) && path in l.chains && |l.chains[path]| < MAX_CHAIN
    requires 0 <= last < NUM_BLOCKS && last == l.chains[path][|l.chains[path]| - 1]
    requires 1 <= b < NUM_BLOCKS && bitmap[b] == 0
    ensures ChainOk(bitmap[b := 1], Relinked(disk, last, b), Extended(l, path, b), path)
  {
    hide Linked, Links;
    FreeBlock(bitmap, disk, l, b);
    ChainOf(bitmap, disk, l, path);
    var c := l.chains[path];
    LinksExtend(disk, c, last, b);
    var c', l', disk' := c + [b], Extended(l, path, b), Relinked(disk, last, b);
    forall j | 0 <= j < |c'|
      ensures 1 <= c'[j] < NUM_BLOCKS && bitmap[b := 1][c'[j]] == 1
      ensures c'[j] in l'.owner && l'.owner[c'[j]] == (path, j)
      ensures disk'[c'[j]].md.filename == (if j == 0 then path else "")
    {
      if j < |c| {
        assert c'[j] == c[j] && c[j] != b;
      }
    }
  }

  lemma FreeBlock(bitmap: seq<int>, disk: seq<Block>, l: Layout, b: int)
    requires Linked(bitmap, disk, l) && 1 <= b < NUM_BLOCKS && bitmap[b] == 0
    ensures |bitmap| == |disk| == NUM_BLOCKS && disk[b].md == NoFile && |disk[b].data| == USABLE
  {
  }

  lemma ExtendOther(bitmap: seq<int>, disk: seq<Block>, l: Layout, path: string, last: int, b: int, n: string)
    requires Linked(bitmap, disk, l) && path in l.chains && n in l.chains && n != path
    requires 0 <= last < NUM_BLOCKS && last == l.chains[path][|l.chains[path]| - 1]
    requires 1 <= b < NUM_BLOCKS && bitmap[b] == 0
    ensures ChainOk(bitmap[b := 1], Relinked(disk, last, b), Extended(l, path, b), n)
  {
    assert ChainOk(bitmap, disk, l, path) && ChainOk(bitmap, disk, l, n);
    var c := l.chains[n];
    assert forall j | 0 <= j < |c| :: c[j] != last && c[j] != b;
  }

  /** And linking a free block behind the last one of a file. */
  lemma LinkedAfterExtend(bitmap: seq<int>, disk: seq<Block>, l: Layout, path: string, last: int, b: int)
    requires Linked(bitmap, disk, l) && path in l.chains && |l.chains[path]| < MAX_CHAIN
    requires 0 <= last < NUM_BLOCKS && last == l.chains[path][|l.chains[path]| - 1]
    requires 1 <= b < NUM_BLOCKS && bitmap[b] == 0
    ensures Linked(bitmap[b := 1], Relinked(disk, last, b), Extended(l, path, b))
  {
    var l' := Extended(l, path, b);
    forall n | n in l'.chains
      ensures ChainOk(bitmap[b := 1], Relinked(disk, last, b), l', n)
    {
      if n == path {
        ExtendOwn(bitmap, disk, l, path, last, b);
      } else {
        ExtendOther(bitmap, disk, l, path, last, b, n);
      }
    }
    assert ChainOk(bitmap, disk, l, path);
  }

  function Created(l: Layout, path: string, b: int): Layout {
    Layout(l.chains[path := [b]], l.owner[b := (path, 0)])
  }

  /** And giving a free block to a new file. */
  lemma LinkedAfterCreate(bitmap: seq<int>, disk: seq<Block>, l: Layout, path: string, b: int)
    requires Linked(bitmap, disk, l) && path != "" && path !in l.chains
    requires 1 <= b < NUM_BLOCKS && bitmap[b] == 0
    ensures Linked(bitmap[b := 1], disk[b := disk[b].(md := Metadata(path, 0, 0))], Created(l, path, b))
  {
    var l' := Created(l, path, b);
    var disk' := disk[b := disk[b].(md := Metadata(path, 0, 0))];
    forall n | n in l'.chains
      ensures ChainOk(bitmap[b := 1], disk', l', n)
    {
      if n != path {
        assert ChainOk(bitmap, disk, l, n);
      }
    }
  }

  /** Marking a block that no file uses only loses it. */
  lemma LinkedAfterMark(bitmap: seq<int>, disk: seq<Block>, l: Layout, b: int)
    requires Linked(bitmap, disk, l) && 1 <= b < NUM_BLOCKS && bitmap[b] == 0
    ensures Linked(bitmap[b := 1], disk, l)
  {
    forall n | n in l.chains
      ensures ChainOk(bitmap[b := 1], disk, l, n)
    {
      assert ChainOk(bitmap, disk, l, n);
    }
  }

  lemma FilesKeys(disk: seq<Block>, l: Layout)
    ensures FilesOf(disk, l).Keys == l.chains.Keys
  {
  }

  /** The other files keep their blocks and everything in them. */
  ghost predicate OthersKept(disk: seq<Block>, l: Layout, disk': seq<Block>, l': Layout, path: string) {
    && |disk'| == |disk| && l'.chains.Keys == l.chains.Keys
    && forall n | n in l.chains && n != path ::
         && l'.chains[n] == l.chains[n]
         && forall j | 0 <= j < |l.chains[n]| ::
              0 <= l.chains[n][j] < |disk| && disk'[l.chains[n][j]] == disk[l.chains[n][j]]
  }

  /** They still do after a change of a block `x` that belongs to `path` or to nobody. */
  lemma OthersKeptStep(bitmap: seq<int>, disk0: seq<Block>, l0: Layout, disk: seq<Block>, l: Layout,
                       path: string, x: int, block: Block)
    requires OthersKept(disk0, l0, disk, l, path)
    requires Linked(bitmap, disk, l) && path in l.chains && x in l.chains[path]
    ensures 0 <= x < |disk| && OthersKept(disk0, l0, disk[x := block], l, path)
  {
    assert ChainOk(bitmap, disk, l, path);
    forall n, j | n in l0.chains && n != path && 0 <= j < |l0.chains[n]|
      ensures l0.chains[n][j] != x
    {
      assert ChainOk(bitmap, disk, l, n);
    }
  }

  ghost predicate SizeOk(disk: seq<Block>, c: seq<int>) {
    c != [] && OnDisk(disk, c) && 0 <= disk[c[0]].md.fileSize <= USABLE * |c|
  }

  /** The content of the file with chain `c`. */
  ghost function Content(disk: seq<Block>, c: seq<int>): seq<byte> {
    if SizeOk(disk, c) then Flatten(disk, c)[..disk[c[0]].md.fileSize] else []
  }

  /** A linked image in which no file is longer than its chain. */
  ghost predicate Sound(bitmap: seq<int>, disk: seq<Block>, l: Layout) {
    && Linked(bitmap, disk, l)
    && forall n | n in l.chains :: SizeOk(disk, l.chains[n])
  }

  ghost function FilesOf(disk: seq<Block>, l: Layout): map<string, seq<byte>> {
    map n | n in l.chains :: Content(disk, l.chains[n])
  }

  lemma SoundAfterMark(bitmap: seq<int>, disk: seq<Block>, l: Layout, b: int)
    requires Sound(bitmap, disk, l) && 1 <= b < NUM_BLOCKS == |bitmap| && bitmap[b] == 0
    ensures Sound(bitmap[b := 1], disk, l)
  {
    LinkedAfterMark(bitmap, disk, l, b);
  }

  /** A block of its own makes an empty file and changes nothing else. */
  lemma CreateResult(bitmap: seq<int>, disk: seq<Block>, l: Layout, path: string, b: int)
    requires Sound(bitmap, disk, l) && path != "" && path !in l.chains
    requires 1 <= b < NUM_BLOCKS == |bitmap| == |disk| && bitmap[b] == 0
    ensures var disk' := disk[b := disk[b].(md := Metadata(path, 0, 0))];
            && Sound(bitmap[b := 1], disk', Created(l, path, b))
            && FilesOf(disk', Created(l, path, b)) == FilesOf(disk, l)[path := []]
  {
    hide Linked, SizeOk, Content;
    var bitmap', disk', l' := bitmap[b := 1], disk[b := disk[b].(md := Metadata(path, 0, 0))], Created(l, path, b);
    SoundLinked(bitmap, disk, l);
    LinkedAfterCreate(bitmap, disk, l, path, b);
    forall n | n in l.chains
      ensures SizeOk(disk', l.chains[n]) && Content(disk', l.chains[n]) == Content(disk, l.chains[n])
    {
      CreateOther(bitmap, disk, l, n, b, disk'[b]);
    }
    DataSize(bitmap, disk, l, b);
    CreateOwn(disk', path, b);
  }

  lemma CreateOther(bitmap: seq<int>, disk: seq<Block>, l: Layout, n: string, b: int, block: Block)
    requires Linked(bitmap, disk, l) && n in l.chains && SizeOk(disk, l.chains[n])
    requires 0 <= b < NUM_BLOCKS && bitmap[b] == 0
    ensures SizeOk(disk[b := block], l.chains[n])
    ensures Content(disk[b := block], l.chains[n]) == Content(disk, l.chains[n])
  {
    ChainOf(bitmap, disk, l, n);
    hide Linked, Links;
    ContentFrame(disk, disk[b := block], l.chains[n]);
  }

  lemma DataSize(bitmap: seq<int>, disk: seq<Block>, l: Layout, b: int)
    requires Linked(bitmap, disk, l) && 0 <= b < NUM_BLOCKS
    ensures |disk| == NUM_BLOCKS && |disk[b].data| == USABLE
  {
  }

  lemma CreateOwn(disk: seq<Block>, path: string, b: int)
    requires 0 <= b < |disk| && disk[b].md == Metadata(path, 0, 0) && |disk[b].data| == USABLE
    ensures SizeOk(disk, [b]) && Content(disk, [b]) == []
  {
  }

  /**
    The loop invariant of the write-back: `k` whole blocks of the staging buffer
    `b` are on disk, the other files are as they were in (disk0, l0), and the
    chain has grown only as far as `size` needs.
   */
  ghost predicate StoreInv(bitmap0: seq<int>, disk0: seq<Block>, l0: Layout,
                           bitmap: seq<int>, disk: seq<Block>, l: Layout,
                           path: string, b: seq<byte>, size: nat, k: nat)
  {
    && Linked(bitmap, disk, l) && OthersKept(disk0, l0, disk, l, path)
    && path in l.chains && path in l0.chains && ChainOk(bitmap, disk, l, path)
    && var c, n0 := l.chains[path], |l0.chains[path]|;
       && k < |c| && USABLE * k <= size <= |b|
       && n0 > 0 && c[0] == l0.chains[path][0] && c[0] < |disk0|
       && disk[c[0]].md.fileSize == disk0[c[0]].md.fileSize
       && (forall j | 0 <= j < k :: disk[c[j]].data == b[USABLE * j..USABLE * (j + 1)])
       && n0 <= |c| && FreeCount(bitmap) == FreeCount(bitmap0) - (|c| - n0)
       && (|c| > n0 ==> USABLE * (|c| - 1) < size)
  }

  lemma StoreStart(bitmap: seq<int>, disk: seq<Block>, l: Layout, path: string, b: seq<byte>, size: nat)
    requires Linked(bitmap, disk, l) && path in l.chains && size <= |b|
    ensures StoreInv(bitmap, disk, l, bitmap, disk, l, path, b, size, 0)
  {
    forall n | n in l.chains
      ensures ChainOk(bitmap, disk, l, n)
    {
    }
  }

  /** What the loop reads off the invariant at position k. */
  lemma StoreHere(bitmap0: seq<int>, disk0: seq<Block>, l0: Layout,
                  bitmap: seq<int>, disk: seq<Block>, l: Layout,
                  path: string, b: seq<byte>, size: nat, k: nat)
    requires StoreInv(bitmap0, disk0, l0, bitmap, disk, l, path, b, size, k)
    ensures |bitmap| == |disk| == NUM_BLOCKS && Linked(bitmap, disk, l)
    ensures path in l.chains && path in l0.chains && k < |l.chains[path]| && USABLE * k <= size
    ensures 0 <= l.chains[path][k] < NUM_BLOCKS && |disk[l.chains[path][k]].data| == USABLE
    ensures var next := disk[l.chains[path][k]].md.next;
            if k + 1 < |l.chains[path]| then next != 0 && next == l.chains[path][k + 1] && 0 <= next < NUM_BLOCKS
            else next == 0
    ensures |l0.chains[path]| <= |l.chains[path]|
    ensures FreeCount(bitmap) == FreeCount(bitmap0) - (|l.chains[path]| - |l0.chains[path]|)
    ensures |l.chains[path]| > |l0.chains[path]| ==> USABLE * (|l.chains[path]| - 1) < size
  {
    var c := l.chains[path];
    assert k + 1 < |c| ==> disk[c[k]].md.next == c[k + 1];
  }

  /** After a whole block, the next position. */
  lemma StoreNext(bitmap0: seq<int>, disk0: seq<Block>, l0: Layout,
                  bitmap: seq<int>, disk: seq<Block>, l: Layout,
                  path: string, b: seq<byte>, size: nat, k: nat)
    requires StoreInv(bitmap0, disk0, l0, bitmap, disk, l, path, b, size, k)
    requires k + 1 < |l.chains[path]| && USABLE * (k + 1) <= size
    requires disk[l.chains[path][k]].data == b[USABLE * k..USABLE * (k + 1)]
    ensures StoreInv(bitmap0, disk0, l0, bitmap, disk, l, path, b, size, k + 1)
  {
  }

  /** One block of data written to position k. */
  lemma StoreData(bitmap0: seq<int>, disk0: seq<Block>, l0: Layout,
                  bitmap: seq<int>, disk: seq<Block>, l: Layout,
                  path: string, b: seq<byte>, size: nat, k: nat, data: seq<byte>)
    requires StoreInv(bitmap0, disk0, l0, bitmap, disk, l, path, b, size, k)
    requires |data| == USABLE
    ensures var x := l.chains[path][k];
            && 0 <= x < |disk|
            && StoreInv(bitmap0, disk0, l0, bitmap, disk[x := disk[x].(data := data)], l, path, b, size, k)
  {
    hide Linked, OthersKept, Links, OnDisk, FreeCount;
    StoreHere(bitmap0, disk0, l0, bitmap, disk, l, path, b, size, k);
    var c := l.chains[path];
    var x := c[k];
    LinkedAfterData(bitmap, disk, l, x, data);
    OthersKeptStep(bitmap, disk0, l0, disk, l, path, x, disk[x].(data := data));
    ChainOf(bitmap, disk[x := disk[x].(data := data)], l, path);
    assert forall j | 0 <= j < k :: c[j] != x;
  }

  /** A free block linked behind the last one, because more than the rest of this block is left. */
  lemma StoreExtend(bitmap0: seq<int>, disk0: seq<Block>, l0: Layout,
                    bitmap: seq<int>, disk: seq<Block>, l: Layout,
                    path: string, b: seq<byte>, size: nat, k: nat, free: int)
    requires StoreInv(bitmap0, disk0, l0, bitmap, disk, l, path, b, size, k)
    requires USABLE * (k + 1) < size <= USABLE * MAX_CHAIN && k == |l.chains[path]| - 1
    requires 1 <= free < NUM_BLOCKS && bitmap[free] == 0
    ensures var x := l.chains[path][k];
            && 0 <= x < |disk|
            && StoreInv(bitmap0, disk0, l0, bitmap[free := 1], Relinked(disk, x, free), Extended(l, path, free),
                        path, b, size, k)
            && Relinked(disk, x, free)[free].md == NoFile
  {
    hide Linked, OthersKept, Links, OnDisk, FreeCount;
    var c := l.chains[path];
    var x := c[k];
    var l' := Extended(l, path, free);
    StoreExtendFacts(bitmap, disk, l, path, free);
    var disk' := Relinked(disk, x, free);
    FreeCountTake(bitmap, free);
    LinkedAfterExtend(bitmap, disk, l, path, x, free);
    OthersKeptStep(bitmap, disk0, l0, disk, l, path, x, disk'[x]);
    assert OthersKept(disk0, l0, disk', l', path) by {
      OthersKeptLayout(disk0, l0, disk', l, l', path);
    }
    assert forall j | 0 <= j < k :: l'.chains[path][j] == c[j];
  }

  lemma StoreExtendFacts(bitmap: seq<int>, disk: seq<Block>, l: Layout, path: string, free: int)
    requires Linked(bitmap, disk, l) && path in l.chains && |l.chains[path]| < MAX_CHAIN
    requires 1 <= free < NUM_BLOCKS && bitmap[free] == 0
    ensures var c, k := l.chains[path], |l.chains[path]| - 1;
            && c != [] && 1 <= c[k] < |disk| && |bitmap| == |disk| == NUM_BLOCKS
            && free != c[k] && disk[free].md == NoFile
            && (forall j | 0 <= j < k :: 0 <= c[j] < |disk| && c[j] != c[k])
            && ChainOk(bitmap[free := 1], Relinked(disk, c[k], free), Extended(l, path, free), path)
  {
    assert ChainOk(bitmap, disk, l, path);
    ExtendOwn(bitmap, disk, l, path, l.chains[path][|l.chains[path]| - 1], free);
  }

  lemma OthersKeptLayout(disk0: seq<Block>, l0: Layout, disk: seq<Block>, l: Layout, l': Layout, path: string)
    requires OthersKept(disk0, l0, disk, l, path)
    requires l'.chains.Keys == l.chains.Keys
    requires forall n | n in l.chains && n != path :: l'.chains[n] == l.chains[n]
    ensures OthersKept(disk0, l0, disk, l', path)
  {
  }

  /** The content of a chain depends on its own blocks only. */
  lemma ContentFrame(disk: seq<Block>, disk': seq<Block>, c: seq<int>)
    requires SizeOk(disk, c) && |disk'| == |disk|
    requires forall j | 0 <= j < |c| :: 0 <= c[j] < |disk| && disk'[c[j]] == disk[c[j]]
    ensures SizeOk(disk', c) && Content(disk', c) == Content(disk, c)
  {
    FlattenFrame(disk, disk', c);
  }

  lemma ContentKept(bitmap: seq<int>, disk: seq<Block>, l: Layout,
                    disk': seq<Block>, l': Layout, path: string, n: string)
    requires Sound(bitmap, disk, l)
    requires OthersKept(disk, l, disk', l', path) && n in l.chains && n != path
    ensures n in l'.chains && SizeOk(disk', l'.chains[n])
    ensures Content(disk', l'.chains[n]) == Content(disk, l.chains[n])
  {
    hide Linked, OthersKept, Content;
    assert SizeOk(disk, l.chains[n]);
    KeptBlocks(disk, l, disk', l', path, n);
    ContentFrame(disk, disk', l.chains[n]);
  }

  lemma KeptBlocks(disk: seq<Block>, l: Layout, disk': seq<Block>, l': Layout, path: string, n: string)
    requires OthersKept(disk, l, disk', l', path) && n in l.chains && n != path
    ensures |disk'| == |disk| && n in l'.chains && l'.chains[n] == l.chains[n]
    ensures forall j | 0 <= j < |l.chains[n]| ::
              0 <= l.chains[n][j] < |disk| && disk'[l.chains[n][j]] == disk[l.chains[n][j]]
  {
  }

  /** What the write-back leaves in the file's blocks. */
  lemma StoredContent(bitmap0: seq<int>, disk0: seq<Block>, l0: Layout,
                      bitmap: seq<int>, disk: seq<Block>, l: Layout,
                      path: string, b: seq<byte>, size: nat, k: nat)
    requires StoreInv(bitmap0, disk0, l0, bitmap, disk, l, path, b, size, k)
    requires StoreDone(disk, l, path, b, size, k)
    ensures size <= USABLE * |l.chains[path]| && OnDisk(disk, l.chains[path])
    ensures Flatten(disk, l.chains[path])[..size] == b[..size]
  {
    hide Linked, OthersKept, FreeCount, Flatten;
    PrefixCopied(disk, l.chains[path], b, size, k);
  }

  lemma PrefixCopied(disk: seq<Block>, c: seq<int>, b: seq<byte>, size: nat, k: nat)
    requires OnDisk(disk, c) && k < |c| && USABLE * k <= size <= USABLE * (k + 1) && size <= |b|
    requires forall j | 0 <= j < k :: disk[c[j]].data == b[USABLE * j..USABLE * (j + 1)]
    requires disk[c[k]].data[..size - USABLE * k] == b[USABLE * k..size]
    ensures Flatten(disk, c)[..size] == b[..size]
  {
    FlattenCopied(disk, c, b, k);
    FlattenPrefix(disk, c, k + 1);
    var whole, front, last := Flatten(disk, c), Flatten(disk, c[..k]), disk[c[k]].data;
    assert c[..k + 1][..k] == c[..k];
    TakeTake(whole, USABLE * (k + 1), size);
    TakeSplit(front, last, size);
    TakeTake(b, size, USABLE * k);
    assert b[..size] == b[..size][..USABLE * k] + b[..size][USABLE * k..];
  }

  lemma TakeTake(s: seq<byte>, m: nat, n: nat)
    requires n <= m <= |s|
    ensures s[..m][..n] == s[..n]
  {
  }

  lemma TakeSplit(s: seq<byte>, t: seq<byte>, n: nat)
    requires |s| <= n <= |s| + |t|
    ensures (s + t)[..n] == s + t[..n - |s|]
  {
  }

  /** The specification of a write: everything else stays, and the file ends with the bytes written. */
  ghost predicate Wrote(files: map<string, seq<byte>>, files': map<string, seq<byte>>,
                        path: string, offset: nat, buf: seq<byte>)
  {
    && path in files && files'.Keys == files.Keys
    && (forall n | n in files && n != path :: files'[n] == files[n])
    && var s, s' := files[path], files'[path];
       && |s'| == offset + |buf| && s'[offset..] == buf
       && forall i | 0 <= i < |s| && i < offset :: s'[i] == s[i]
  }

  /** Writing at or before the old end leaves exactly the old prefix and the new bytes: the tail is cut off. */
  lemma WroteWithin(files: map<string, seq<byte>>, files': map<string, seq<byte>>,
                    path: string, offset: nat, buf: seq<byte>)
    requires Wrote(files, files', path, offset, buf) && offset <= |files[path]|
    ensures files' == files[path := files[path][..offset] + buf]
  {
    var s, s' := files[path], files'[path];
    assert s' == s'[..offset] + s'[offset..];
    assert s'[..offset] == s[..offset];
  }

  /** Reading back what was written, wherever it was written. */
  lemma ReadBack(files: map<string, seq<byte>>, files': map<string, seq<byte>>,
                 path: string, offset: nat, buf: seq<byte>)
    requires Wrote(files, files', path, offset, buf) && buf != []
    ensures Slice(files'[path], offset, |buf|) == buf
  {
    var s' := files'[path];
    assert s'[offset..offset + |buf|] == s'[offset..];
  }

  lemma OthersKeptSelf(bitmap: seq<int>, disk: seq<Block>, l: Layout, path: string)
    requires Linked(bitmap, disk, l)
    ensures OthersKept(disk, l, disk, l, path)
  {
    forall n | n in l.chains
      ensures ChainOk(bitmap, disk, l, n)
    {
    }
  }

  lemma OthersKeptTrans(disk: seq<Block>, l: Layout, disk1: seq<Block>, l1: Layout,
                        disk2: seq<Block>, l2: Layout, path: string)
    requires OthersKept(disk, l, disk1, l1, path) && OthersKept(disk1, l1, disk2, l2, path)
    ensures OthersKept(disk, l, disk2, l2, path)
  {
  }

  lemma WriteOthers(bitmap0: seq<int>, disk0: seq<Block>, l0: Layout, size: int,
                    disk: seq<Block>, l: Layout, path: string)
    requires Linked(bitmap0, disk0, l0) && path in l0.chains && l0.chains[path] != []
    requires 0 <= l0.chains[path][0] < |disk0|
    requires OthersKept(Resized(disk0, l0.chains[path][0], size), l0, disk, l, path)
    ensures OthersKept(disk0, l0, disk, l, path)
  {
    hide Linked, OthersKept;
    var h := l0.chains[path][0];
    var block := Resized(disk0, h, size)[h];
    OthersKeptSelf(bitmap0, disk0, l0, path);
    OthersKeptStep(bitmap0, disk0, l0, disk0, l0, path, h, block);
    OthersKeptTrans(disk0, l0, disk0[h := block], l0, disk, l, path);
  }

  /** Putting a write together: load, insert `buf`, store the size, write back. */
  lemma WriteResult(bitmap0: seq<int>, disk0: seq<Block>, l0: Layout, disk1: seq<Block>,
                    bitmap: seq<int>, disk: seq<Block>, l: Layout,
                    path: string, offset: nat, buf: seq<byte>, loaded: seq<byte>, b: seq<byte>, k: nat)
    requires Sound(bitmap0, disk0, l0) && path in l0.chains && SizeOk(disk0, l0.chains[path])
    requires USABLE * |l0.chains[path]| <= |loaded|
    requires loaded[..USABLE * |l0.chains[path]|] == Flatten(disk0, l0.chains[path])
    requires offset + |buf| <= |loaded| == |b|
    requires b[..offset] == loaded[..offset] && b[offset..offset + |buf|] == buf
    requires disk1 == Resized(disk0, l0.chains[path][0], offset + |buf|)
    requires StoreInv(bitmap0, disk1, l0, bitmap, disk, l, path, b, offset + |buf|, k)
    requires StoreDone(disk, l, path, b, offset + |buf|, k)
    ensures Sound(bitmap, disk, l)
    ensures Wrote(FilesOf(disk0, l0), FilesOf(disk, l), path, offset, buf)
  {
    hide Linked, OthersKept, OnDisk, StoreInv, StoreDone, SizeOk, Content, Sound, FilesOf, Wrote, Flatten;
    var c0, size := l0.chains[path], offset + |buf|;
    SizeRange(disk0, c0);
    SoundLinked(bitmap0, disk0, l0);
    WriteFacts(bitmap0, disk1, l0, bitmap, disk, l, path, b, size, k);
    WriteOwn(bitmap0, disk1, l0, bitmap, disk, l, path, b, size, k);
    WrittenBytes(disk0, c0, loaded, b, offset, buf);
    WriteOthers(bitmap0, disk0, l0, size, disk, l, path);
    WriteSound(bitmap0, disk0, l0, bitmap, disk, l, path, offset, buf);
  }

  lemma WriteReady(bitmap: seq<int>, disk: seq<Block>, l: Layout, path: string)
    requires Sound(bitmap, disk, l) && path in l.chains
    ensures |bitmap| == |disk| == NUM_BLOCKS && Linked(bitmap, disk, l)
    ensures var c := l.chains[path];
            && c != [] && |c| <= MAX_CHAIN && OnDisk(disk, c) && Links(disk, c) && SizeOk(disk, c)
            && 0 <= c[0] < NUM_BLOCKS
  {
    ChainOf(bitmap, disk, l, path);
  }

  lemma Inserted(loaded: seq<byte>, b: seq<byte>, offset: nat, buf: seq<byte>)
    requires offset + |buf| <= |loaded| == |b|
    requires b[..offset + |buf|] == loaded[..offset] + buf
    ensures b[..offset] == loaded[..offset] && b[offset..offset + |buf|] == buf
  {
    assert b[..offset] == b[..offset + |buf|][..offset];
    assert b[offset..offset + |buf|] == b[..offset + |buf|][offset..];
  }

  lemma SizeRange(disk: seq<Block>, c: seq<int>)
    requires SizeOk(disk, c)
    ensures c != [] && 0 <= c[0] < |disk|
  {
  }

  lemma SoundLinked(bitmap: seq<int>, disk: seq<Block>, l: Layout)
    requires Sound(bitmap, disk, l)
    ensures Linked(bitmap, disk, l) && |bitmap| == |disk| == NUM_BLOCKS
  {
  }

  lemma WriteOwn(bitmap0: seq<int>, disk1: seq<Block>, l0: Layout,
                 bitmap: seq<int>, disk: seq<Block>, l: Layout,
                 path: string, b: seq<byte>, size: nat, k: nat)
    requires StoreInv(bitmap0, disk1, l0, bitmap, disk, l, path, b, size, k)
    requires StoreDone(disk, l, path, b, size, k)
    requires path in l0.chains && l0.chains[path] != [] && 0 <= l0.chains[path][0] < |disk1|
    requires disk1[l0.chains[path][0]].md.fileSize == size
    ensures path in l.chains && SizeOk(disk, l.chains[path]) && Content(disk, l.chains[path]) == b[..size]
  {
    StoredContent(bitmap0, disk1, l0, bitmap, disk, l, path, b, size, k);
    hide Linked, OthersKept, FreeCount;
  }

  lemma WriteSound(bitmap0: seq<int>, disk0: seq<Block>, l0: Layout,
                   bitmap: seq<int>, disk: seq<Block>, l: Layout, path: string, offset: nat, buf: seq<byte>)
    requires Sound(bitmap0, disk0, l0) && path in l0.chains
    requires Linked(bitmap, disk, l) && OthersKept(disk0, l0, disk, l, path)
    requires l.chains.Keys == l0.chains.Keys && SizeOk(disk, l.chains[path])
    requires var s, s' := Content(disk0, l0.chains[path]), Content(disk, l.chains[path]);
             && |s'| == offset + |buf| && s'[offset..] == buf
             && forall i | 0 <= i < |s| && i < offset :: s'[i] == s[i]
    ensures Sound(bitmap, disk, l)
    ensures Wrote(FilesOf(disk0, l0), FilesOf(disk, l), path, offset, buf)
  {
    hide Linked, OthersKept, SizeOk, Content;
    forall n | n in l.chains
      ensures SizeOk(disk, l.chains[n])
      ensures n != path ==> Content(disk, l.chains[n]) == Content(disk0, l0.chains[n])
    {
      if n != path {
        ContentKept(bitmap0, disk0, l0, disk, l, path, n);
      }
    }
  }

  function Resized(disk: seq<Block>, h: int, size: int): seq<Block>
    requires 0 <= h < |disk|
  {
    disk[h := disk[h].(md := disk[h].md.(fileSize := size))]
  }

  /** The last position of the write-back holds the rest of the buffer. */
  ghost predicate StoreDone(disk: seq<Block>, l: Layout, path: string, b: seq<byte>, size: nat, k: nat) {
    && path in l.chains && k < |l.chains[path]| && 0 <= l.chains[path][k] < |disk|
    && |disk[l.chains[path][k]].data| == USABLE
    && USABLE * k <= size <= USABLE * (k + 1) && size <= |b|
    && disk[l.chains[path][k]].data[..size - USABLE * k] == b[USABLE * k..size]
  }

  lemma WriteFacts(bitmap0: seq<int>, disk1: seq<Block>, l0: Layout,
                   bitmap: seq<int>, disk: seq<Block>, l: Layout,
                   path: string, b: seq<byte>, size: nat, k: nat)
    requires StoreInv(bitmap0, disk1, l0, bitmap, disk, l, path, b, size, k)
    ensures Linked(bitmap, disk, l) && l.chains.Keys == l0.chains.Keys && path in l.chains
    ensures OthersKept(disk1, l0, disk, l, path) && OnDisk(disk, l.chains[path])
    ensures var c := l.chains[path];
            && c != [] && 0 <= c[0] < |disk| && c[0] < |disk1| && c[0] == l0.chains[path][0]
            && disk[c[0]].md.fileSize == disk1[c[0]].md.fileSize
  {
  }

  lemma WrittenBytes(disk: seq<Block>, c: seq<int>, loaded: seq<byte>, b: seq<byte>, offset: nat, buf: seq<byte>)
    requires SizeOk(disk, c)
    requires USABLE * |c| <= |loaded| && loaded[..USABLE * |c|] == Flatten(disk, c)
    requires offset + |buf| <= |loaded| == |b|
    requires b[..offset] == loaded[..offset] && b[offset..offset + |buf|] == buf
    ensures var s, s' := Content(disk, c), b[..offset + |buf|];
            && s'[offset..] == buf
            && forall i | 0 <= i < |s| && i < offset :: s'[i] == s[i]
  {
    var s, s' := Content(disk, c), b[..offset + |buf|];
    forall i | 0 <= i < |s| && i < offset
      ensures s'[i] == s[i]
    {
      assert s'[i] == b[..offset][i] == loaded[..offset][i] == loaded[..USABLE * |c|][i];
    }
  }

  class FileSystem {
    const bitmap: array<int>     // the global bitmap[]
    var diskBitmap: seq<int>     // its copy in block 0
    var disk: seq<Block>
    ghost var layout: Layout

    ghost predicate Consistent()
      reads this, bitmap
    {
      Linked(bitmap[..], disk, layout)
    }

    ghost predicate Valid()
      reads this, bitmap
    {
      Sound(bitmap[..], disk, layout) && diskBitmap == bitmap[..]
    }

    /** What a client sees: the files and their contents. */
    ghost function Files(): map<string, seq<byte>>
      reads this, bitmap
      requires Valid()
    {
      FilesOf(disk, layout)
    }

    /** main on a zeroed image (hello.c:541-569). */
    constructor ()
      ensures Valid() && Files() == map[] && fresh(bitmap)
    {
      bitmap := new int[NUM_BLOCKS](i => if i == 0 then 1 else 0);
      disk := seq(NUM_BLOCKS, _ => Block(NoFile, seq(USABLE, _ => 0)));
      diskBitmap := seq(NUM_BLOCKS, i => if i == 0 then 1 else 0);
      layout := Layout(map[], map[]);
    }

    /** The search that every operation begins with (hello.c:271-282, 344-354, 490-500). */
    method Lookup(path: string) returns (start: int)
      requires Consistent() && path != ""
      ensures start == 0 <==> path !in layout.chains
      ensures start != 0 ==> start == layout.chains[path][0]
    {
      start := 0;
      var i := 1;
      assert path in layout.chains ==> ChainOk(bitmap[..], disk, layout, path);
      while i < NUM_BLOCKS
        invariant 1 <= i <= NUM_BLOCKS
        invariant start == 0
        invariant path in layout.chains ==> layout.chains[path][0] >= i
      {
        if bitmap[i] == 1 {
          var md := disk[i].md;
          if md.filename == path {
            start := i;
            break;
          }
        }
        i := i + 1;
      }
    }

    method FindFree() returns (b: int)
      requires Consistent()
      ensures b == 0 ==> FreeCount(bitmap[..]) == 0
      ensures b != 0 ==> 1 <= b < NUM_BLOCKS && bitmap[b] == 0
    {
      b := 0;
      var i := 1;
      while i < NUM_BLOCKS
        invariant 1 <= i <= NUM_BLOCKS && b == 0
        invariant forall j | 1 <= j < i :: bitmap[j] != 0
      {
        if bitmap[i] == 0 {
          b := i;
          return;
        }
        i := i + 1;
      }
      FreeCountZero(bitmap[..]);
    }

    /** Writes the staging buffer back along the chain, extending it where needed (hello.c:395-434). */
    method Store(path: string, start: int, buffer: array<byte>, newSize: nat) returns (ok: bool, ghost k: nat)
      requires Consistent() && path in layout.chains && start == layout.chains[path][0]
      requires newSize <= USABLE * MAX_CHAIN && buffer.Length == MAX_REQUEST
      modifies `disk, `layout, bitmap
      ensures StoreInv(old(bitmap[..]), old(disk), old(layout), bitmap[..], disk, layout, path, buffer[..], newSize, k)
      ensures ok ==> StoreDone(disk, layout, path, buffer[..], newSize, k)
      ensures ok <==> FreeCount(old(bitmap[..])) >= BlocksFor(newSize) - |old(layout.chains[path])|
    {
      hide Linked, OthersKept, ChainOk, StoreInv, FreeCount;
      ghost var d0, l0, bm0 := disk, layout, bitmap[..];
      ghost var b := buffer[..];
      StoreStart(bm0, d0, l0, path, b, newSize);
      StoreHere(bm0, d0, l0, bm0, d0, l0, path, b, newSize, 0);
      var bytesWritten := 0;
      var rest := newSize;
      var current, next := start, start;
      var md := disk[start].md;
      k := 0;
      while true
        invariant StoreInv(bm0, d0, l0, bitmap[..], disk, layout, path, b, newSize, k)
        invariant buffer[..] == b
        invariant path in layout.chains && k < |layout.chains[path]| && |disk| == NUM_BLOCKS
        invariant current == layout.chains[path][k] && 0 <= current < NUM_BLOCKS && md == disk[current].md
        invariant bytesWritten == USABLE * k && rest == newSize - bytesWritten && rest >= 0
        decreases rest
      {
        ghost var d, l, bm := disk, layout, bitmap[..];
        StoreHere(bm0, d0, l0, bm, d, l, path, b, newSize, k);
        if rest > USABLE {
          if md.next == 0 {
            var free := FindFree();
            if free == 0 {
              return false, k;
            }
            StoreExtend(bm0, d0, l0, bm, d, l, path, b, newSize, k, free);
            bitmap[free] := 1;
            md := md.(next := free);
            disk := disk[current := disk[current].(md := md)];
            layout := Extended(l, path, free);
            next := md.next;
            md := NoFile;
          } else {
            md := disk[current].md;
            next := md.next;
            md := disk[next].md;
          }
          var data := buffer[bytesWritten..bytesWritten + USABLE];
          StoreData(bm0, d0, l0, bitmap[..], disk, layout, path, b, newSize, k, data);
          disk := disk[current := disk[current].(data := data)];
          StoreNext(bm0, d0, l0, bitmap[..], disk, layout, path, b, newSize, k);
          bytesWritten := bytesWritten + USABLE;
          rest := rest - USABLE;
          current := next;
          k := k + 1;
        } else {
          var data := buffer[bytesWritten..bytesWritten + rest] + disk[current].data[rest..];
          StoreData(bm0, d0, l0, bm, d, l, path, b, newSize, k, data);
          disk := disk[current := disk[current].(data := data)];
          return true, k;
        }
      }
    }

    /** hello_read (hello.c:256-323). */
    method Read(path: string, size: nat, offset: nat) returns (r: Result<seq<byte>>)
      requires Valid() && path != ""
      ensures path !in Files() ==> r == Err(ENOENT)
      ensures path in Files() ==> r == Ok(Slice(Files()[path], offset, size))
      // as many bytes as there are from `offset` on, but no more than asked for; none at or past the end
      ensures path in Files() ==> r.Ok? && Delivers(Files()[path], offset, size, r.value)
    {
      var start := Lookup(path);
      if start == 0 {
        return Err(ENOENT);
      }
      ghost var c := layout.chains[path];
      assert ChainOk(bitmap[..], disk, layout, path) && SizeOk(disk, c);
      ghost var whole := Flatten(disk, c);
      SliceDelivers(Files()[path], offset, size);
      var fileSize := disk[start].md.fileSize;
      var buffer := new byte[MAX_REQUEST];
      LoadChain(disk, start, buffer, c);
      if offset < fileSize {
        var n := if offset + size > fileSize then fileSize - offset else size;
        SliceOfPrefix(buffer[..], whole, fileSize, offset, size, n);
        r := Ok(buffer[offset..offset + n]);
      } else {
        r := Ok([]);
      }
    }

    /** The part of hello_write after the file has been found and its size checked (hello.c:361-437). */
    method Rewrite(path: string, start: int, buf: seq<byte>, offset: nat) returns (ok: bool)
      requires Sound(bitmap[..], disk, layout) && path in layout.chains
      requires layout.chains[path] != [] && start == layout.chains[path][0]
      requires offset + |buf| <= USABLE * MAX_CHAIN
      modifies `disk, `layout, `diskBitmap, bitmap
      ensures ok <==> FreeCount(old(bitmap[..])) >= BlocksFor(offset + |buf|) - |old(layout.chains[path])|
      ensures ok ==> Sound(bitmap[..], disk, layout) && diskBitmap == bitmap[..]
      ensures ok ==> Wrote(old(FilesOf(disk, layout)), FilesOf(disk, layout), path, offset, buf)
      ensures !ok ==> Linked(bitmap[..], disk, layout) && diskBitmap == old(diskBitmap)
    {
      hide Linked, OthersKept, StoreInv, StoreDone, Content, Wrote, FreeCount, Sound, FilesOf, SizeOk, OnDisk,
        Links, Flatten, BlocksFor;
      ghost var bm0, d0, l0 := bitmap[..], disk, layout;
      ghost var c0 := l0.chains[path];
      WriteReady(bm0, d0, l0, path);
      var buffer := new byte[MAX_REQUEST];
      LoadChain(disk, start, buffer, c0);
      ghost var loaded := buffer[..];
      CopyInto(buffer, offset, buf);
      ghost var b := buffer[..];
      Inserted(loaded, b, offset, buf);
      var newSize := offset + |buf|;
      disk := Resized(disk, start, newSize);
      LinkedAfterSize(bm0, d0, l0, path, newSize);
      ghost var d1 := disk;
      ghost var k;
      ok, k := Store(path, start, buffer, newSize);
      ghost var bm, d, l := bitmap[..], disk, layout;
      WriteFacts(bm0, d1, l0, bm, d, l, path, b, newSize, k);
      if ok {
        diskBitmap := bitmap[..];
        WriteResult(bm0, d0, l0, d1, bm, d, l, path, offset, buf, loaded, b, k);
      }
    }

    /** hello_write (hello.c:324-442). */
    method Write(path: string, buf: seq<byte>, offset: nat) returns (r: Result<nat>)
      requires Valid() && path != ""
      // a file in the last, incomplete block of the staging buffer is outside this model
      requires offset + |buf| <= USABLE * MAX_CHAIN || MAX_REQUEST < offset + |buf| < 0x8000_0000
      modifies `disk, `layout, `diskBitmap, bitmap
      ensures path !in old(Files()) ==> r == Err(ENOENT)
      ensures path in old(Files()) ==>
        if offset + |buf| > MAX_REQUEST then r == Err(ENOBUFS)
        else if FreeCount(old(bitmap[..])) < BlocksFor(offset + |buf|) - |old(layout.chains[path])| then r == Err(ENOMEM)
        else r == Ok(|buf|)
      ensures r.Ok? ==> Valid() && Wrote(old(Files()), Files(), path, offset, buf)
      ensures r.Err? && r.error != ENOMEM ==> Valid() && Files() == old(Files())
      // no room: the chain has been extended over blocks that only the bitmap in memory marks
      ensures r == Err(ENOMEM) ==> Consistent() && diskBitmap == old(diskBitmap)
    {
      SoundLinked(bitmap[..], disk, layout);
      hide Linked, Content, Wrote, FreeCount, SizeOk, BlocksFor, Sound;
      var start := Lookup(path);
      if start == 0 {
        return Err(ENOENT);
      }
      WriteReady(bitmap[..], disk, layout, path);
      var newSize := offset + |buf|;
      if newSize > MAX_REQUEST {
        return Err(ENOBUFS);
      }
      var ok := Rewrite(path, start, buf, offset);
      if !ok {
        return Err(ENOMEM);
      }
      r := Ok(|buf|);
    }

    /** hello_create (hello.c:477-529). */
    method Create(path: string) returns (r: Result<()>)
      requires Valid() && path != ""
      modifies `disk, `layout, `diskBitmap, bitmap
      ensures Valid()
      ensures
        if path in old(Files()) then r == Err(EEXIST)
        else if FreeCount(old(bitmap[..])) == 0 then r == Err(ENOMEM)
        else if |path| >= MAX_FILENAME then r == Err(ENAMETOOLONG)
        else r == Ok(())
      ensures Files() == if r.Ok? then old(Files())[path := []] else old(Files())
      // a name that is too long is noticed only after a block has been marked: the block is lost
      ensures FreeCount(bitmap[..])
           == FreeCount(old(bitmap[..])) - (if r.Ok? || r.error == ENAMETOOLONG then 1 else 0)
    {
      hide Linked, Content, FreeCount, SizeOk, Sound, FilesOf, Created;
      ghost var bm0, d0, l0 := bitmap[..], disk, layout;
      SoundLinked(bm0, d0, l0);
      FilesKeys(d0, l0);
      forall i | 0 <= i < NUM_BLOCKS {
        bitmap[i] := diskBitmap[i];
      }
      assert bitmap[..] == bm0;
      var start := Lookup(path);
      if start != 0 {
        return Err(EEXIST);
      }
      var b := FindFree();
      if b == 0 {
        return Err(ENOMEM);
      }
      FreeCountTake(bm0, b);
      bitmap[b] := 1;
      diskBitmap := bitmap[..];
      assert bitmap[..] == bm0[b := 1];
      SoundAfterMark(bm0, d0, l0, b);
      if |path| >= MAX_FILENAME {
        return Err(ENAMETOOLONG);
      }
      disk := disk[b := disk[b].(md := Metadata(path, 0, 0))];
      layout := Created(l0, path, b);
      CreateResult(bm0, d0, l0, path, b);
      r := Ok(());
    }

    /** A new file reads back what is written into it, and no other file changes. */
    method CreateWriteRead(path: string, buf: seq<byte>) returns (ok: bool, back: seq<byte>)
      requires Valid() && path != "" && |buf| <= USABLE * MAX_CHAIN
      modifies `disk, `layout, `diskBitmap, bitmap
      ensures ok ==> Valid() && back == buf && Files() == old(Files())[path := buf]
    {
      hide *;
      var c := Create(path);
      if c.Err? {
        return false, [];
      }
      ghost var files := Files();
      var w := Write(path, buf, 0);
      if w.Err? {
        return false, [];
      }
      WroteWithin(files, Files(), path, 0, buf);
      assert files[path][..0] + buf == buf;
      SliceAll(buf);
      var r := Read(path, |buf|, 0);
      ok, back := true, r.value;
    }
  }
}
