/** Writing an open file: filewrite splits the request so that each transaction fits its log reservation. */
module File {
  import opened Blocks
  import opened FsState
  import opened FsFiles
  import opened FsInodes
  import opened Fs
  import opened FsSpace
  import opened FsJournal

  /** The longest piece filewrite hands to one transaction. */
  function MaxChunk(maxop: nat): nat
    requires maxop >= 6
  {
    (maxop - 1 - 1 - 2) / 2 * BSIZE
  }

  /** The transaction bound: for every offset and every length up to MaxChunk, a write of an existing file block or
      at the end of the file log_writes at most MAXOPBLOCKS blocks, counting data, bitmap, indirect and inode blocks. */
  lemma ChunkFits(maxop: nat, off: nat, n: nat)
    requires maxop >= 6 && n <= MaxChunk(maxop)
    ensures LoopBound(off, n) + 1 <= maxop
  {
    var k := (maxop - 4) / 2;
    assert n <= k * BSIZE;
    if n > 0 {
      if off % BSIZE == 0 {
        SpannedAtMost(off, n, k);
      } else {
        SpannedAtMost(off, n, k + 1);
      }
    }
  }

  /** The bound on what a write of up to c blocks log_writes is within maxop at every offset exactly when 2c + 4 is, and
      MaxChunk is the largest whole number of blocks with that. The bound is proved, not shown to be reached: that takes
      every allocation to be in a bitmap block of its own. */
  lemma ChunkLargest(maxop: nat, c: nat)
    requires c >= 1
    ensures (forall off: nat, n: nat :: n <= c * BSIZE ==> LoopBound(off, n) + 1 <= maxop) <==> 2 * c + 4 <= maxop
    ensures maxop >= 6 ==> (c * BSIZE <= MaxChunk(maxop) <==> 2 * c + 4 <= maxop)
  {
    if 2 * c + 4 <= maxop {
      forall off: nat, n: nat | n <= c * BSIZE ensures LoopBound(off, n) + 1 <= maxop {
        ChunkFits(maxop, off, n);
      }
    } else {
      assert Spanned(1, c * BSIZE) == c + 1;
      assert LoopBound(1, c * BSIZE) + 1 > maxop;
    }
  }

  lemma SpannedAtMost(off: nat, n: nat, k: nat)
    requires off % BSIZE + n <= k * BSIZE
    ensures Spanned(off, n) <= k
  {
  }

  lemma OverlayTwice(c: seq<byte>, off: nat, a: seq<byte>, b: seq<byte>)
    requires off <= |c|
    ensures off + |a| <= |Overlay(c, off, a)|
    ensures Overlay(Overlay(c, off, a), off + |a|, b) == Overlay(c, off, a + b)
  {
  }

  // ------------------------------------------------------ how far filewrite gets

  /** The bytes filewrite gets to: all, or those of the pieces before the first one that would end past the largest
      file. */
  function Attempted(off: nat, n: nat, size: nat, max: nat): nat
    requires max > 0
  {
    if off > size || off > MAXFILE * BSIZE then 0
    else if off + n <= MAXFILE * BSIZE then n
    else (MAXFILE * BSIZE - off) / max * max
  }

  /** The first file block it does not get to. */
  function WriteReach(off: nat, n: nat, mapped: nat, size: nat, max: nat): nat
    requires max > 0
  {
    Reach(off, Attempted(off, n, size, max), mapped)
  }

  lemma Times(a: int, b: int, m: nat)
    ensures a <= b ==> a * m <= b * m
  {
  }

  lemma Multiple(x: nat, k: nat, max: nat)
    requires max > 0 && k % max == 0 && k <= x
    ensures k <= x / max * max && (x < k + max ==> x / max * max == k) && (k + max) % max == 0
  {
    var p, q := k / max, x / max;
    assert x == q * max + x % max && k == p * max && k + max == (p + 1) * max;
    Times(q + 1, p, max);
    Times(p + 1, q, max);
    Times(p, q, max);
    NoRemainder(p + 1, max);
  }

  lemma NoRemainder(p: nat, max: nat)
    requires max > 0
    ensures p * max % max == 0
  {
    if p * max / max < p {
      Times(p * max / max + 1, p, max);
    } else {
      Times(p, p * max / max, max);
    }
  }

  /** The piece filewrite takes after k bytes. */
  function Piece(k: nat, n: nat, max: nat): (n1: nat)
    requires k < n && max > 0
    ensures 0 < n1 <= max && k + n1 <= n
  {
    if n - k > max then max else n - k
  }

  /** A piece that writei refuses starts where the attempt ends. */
  lemma PieceRefused(off: nat, k: nat, n: nat, size: nat, max: nat)
    requires max > 0 && k % max == 0 && k < n && size <= MAXFILE * BSIZE
    requires k == 0 ==> off > size || off + Piece(k, n, max) > MAXFILE * BSIZE
    requires k > 0 ==> off <= size && off + k <= MAXFILE * BSIZE < off + k + Piece(k, n, max)
    ensures Attempted(off, n, size, max) == k
  {
    if off <= size {
      Multiple(MAXFILE * BSIZE - off, k, max);
    }
  }

  /** A piece that it accepts is within the attempt. */
  lemma PieceTaken(off: nat, k: nat, n: nat, size: nat, max: nat)
    requires max > 0 && k % max == 0 && k < n
    requires off <= size <= MAXFILE * BSIZE && off + k + Piece(k, n, max) <= MAXFILE * BSIZE
    ensures k + Piece(k, n, max) <= Attempted(off, n, size, max)
    ensures (k + Piece(k, n, max)) % max == 0 || k + Piece(k, n, max) == n
    ensures k + Piece(k, n, max) == n ==> Attempted(off, n, size, max) == n
  {
    Multiple(MAXFILE * BSIZE - off, k, max);
    if Piece(k, n, max) == max {
      Multiple(MAXFILE * BSIZE - off, k + max, max);
    }
  }

  /** A piece of n1 bytes within an attempt of a starts in or right after the blocks mapped before it. */
  lemma PieceReach(off: nat, k: nat, n1: nat, mapped: nat, a: nat)
    requires n1 > 0 && k <= mapped && k + n1 <= a
    ensures off / BSIZE <= (off + k) / BSIZE <= Top(off, k) <= Reach(off + k, n1, mapped - k) <= Reach(off, a, mapped)
    ensures k + n1 <= mapped ==> Reach(off + k, n1, mapped - k) == Top(off, k + n1)
    ensures k + n1 > mapped ==> Reach(off + k, n1, mapped - k) == Reach(off, a, mapped)
  {
    var x := off + if mapped < k + n1 then mapped else k + n1 - 1;
    var y := off + if mapped < a then mapped else a - 1;
    assert x <= y && off + k <= x && x / BSIZE <= y / BSIZE && (off + k) / BSIZE <= x / BSIZE;
    assert k > 0 ==> (off + k - 1) / BSIZE <= (off + k) / BSIZE <= (off + k - 1) / BSIZE + 1;
  }

  // ------------------------------------------------------------- one filewrite

  /** A filewrite: the blocks, inodes and owners it starts with, the file and its offset, the bytes to write, the
      longest piece, and how many of the bytes can be read. */
  datatype Call = Call(sb: Super, blk: Disk, ino: seq<Inode>, o: Own, i: nat, off: nat, src: seq<byte>, max: nat,
                       mapped: nat)
  {
    ghost predicate Valid() {
      i < |ino| && max > 0 && ino[i].size <= MAXFILE * BSIZE
    }

    function Ip(): Inode
      requires i < |ino|
    {
      ino[i]
    }

    /** The first file block it does not get to. */
    ghost function Goal(): nat
      requires Valid()
    {
      WriteReach(off, |src|, mapped, ino[i].size, max)
    }

    /** There are free blocks for all it gets to. */
    ghost predicate HasRoom()
      requires Valid()
    {
      Room(sb, blk, ino[i], off / BSIZE, Goal())
    }
  }

  /** After k bytes exactly the blocks for them are mapped. */
  ghost predicate Account(c: Call, blk: Disk, ip: Inode, k: nat)
    requires c.Valid()
  {
    && Paid(c.sb, c.blk, c.Ip(), blk, ip, c.off / BSIZE, Top(c.off, k)) && (k % c.max == 0 || k == |c.src|)
    && (k == |c.src| ==> Attempted(c.off, |c.src|, c.Ip().size, c.max) == |c.src| || c.src == [])
  }

  lemma AccountEnd(c: Call, blk: Disk, ip: Inode)
    requires c.Valid() && Account(c, blk, ip, |c.src|) && |c.src| <= c.mapped
    ensures c.HasRoom()
  {
    hide Paid, Room;
    PaidRoom(c.sb, c.blk, c.Ip(), blk, ip, c.off / BSIZE, Top(c.off, |c.src|));
    ReachEnd(c.off, |c.src|, c.mapped);
    ReachEnd(c.off, 0, c.mapped);
  }

  lemma AccountRefused(c: Call, blk: Disk, ip: Inode, k: nat)
    requires c.Valid() && Account(c, blk, ip, k) && k < |c.src| && k <= c.mapped
    requires k == 0 ==> c.off > c.Ip().size || c.off + Piece(k, |c.src|, c.max) > MAXFILE * BSIZE
    requires k > 0 ==> c.off <= c.Ip().size && c.off + k <= MAXFILE * BSIZE < c.off + k + Piece(k, |c.src|, c.max)
    ensures c.HasRoom()
  {
    hide Paid, Room, Attempted, Piece;
    PieceRefused(c.off, k, |c.src|, c.Ip().size, c.max);
    ReachEnd(c.off, k, c.mapped);
    PaidRoom(c.sb, c.blk, c.Ip(), blk, ip, c.off / BSIZE, Top(c.off, k));
  }

  /** A piece accepted: it panics only if the whole must, and if not the account goes on or the attempt ends in it. */
  lemma AccountPiece(c: Call, blk: Disk, ip: Inode, k: nat, n1: nat, blk': Disk, ip': Inode)
    requires c.Valid() && Account(c, blk, ip, k) && k < |c.src| && k <= c.mapped && n1 == Piece(k, |c.src|, c.max)
    requires c.off <= c.Ip().size && c.off + k + n1 <= MAXFILE * BSIZE
    ensures var b, hi := (c.off + k) / BSIZE, Reach(c.off + k, n1, c.mapped - k);
            && (!Room(c.sb, blk, ip, b, hi) ==> !c.HasRoom())
            && (Paid(c.sb, blk, ip, blk', ip', b, hi) ==>
                if k + n1 <= c.mapped then Account(c, blk', ip', k + n1) else c.HasRoom())
  {
    hide Paid, Room, Attempted, Piece, Reach, Top;
    var b, hi := (c.off + k) / BSIZE, Reach(c.off + k, n1, c.mapped - k);
    PieceTaken(c.off, k, |c.src|, c.Ip().size, c.max);
    PieceReach(c.off, k, n1, c.mapped, Attempted(c.off, |c.src|, c.Ip().size, c.max));
    if !Room(c.sb, blk, ip, b, hi) {
      PaidShort(c.sb, c.blk, c.Ip(), blk, ip, c.off / BSIZE, Top(c.off, k), b, hi, c.Goal());
    }
    if Paid(c.sb, blk, ip, blk', ip', b, hi) {
      PaidThen(c.sb, c.blk, c.Ip(), blk, ip, blk', ip', c.off / BSIZE, Top(c.off, k), b, hi);
      PaidRoom(c.sb, c.blk, c.Ip(), blk', ip', c.off / BSIZE, hi);
    }
  }

  /** The first k bytes of src are in the file, and nothing else has changed. */
  ghost predicate Stored(c: Call, blk: Disk, ino: seq<Inode>, k: nat)
    requires c.Valid()
  {
    && |ino| == |c.ino| && k <= |c.src|
    && (k == 0 ==> ino[c.i] == c.Ip() && Contents(blk, ino[c.i]) == Contents(c.blk, c.Ip()))
    && (k > 0 ==> c.off <= c.Ip().size && c.off + k <= ino[c.i].size &&
                  Contents(blk, ino[c.i]) == Overlay(Contents(c.blk, c.Ip()), c.off, c.src[..k]))
    && OthersKept(c.blk, c.ino, blk, ino, c.i)
  }

  ghost predicate OthersKept(blk0: Disk, ino0: seq<Inode>, blk: Disk, ino: seq<Inode>, i: nat) {
    && |ino| == |ino0|
    && forall j :: 0 <= j < |ino| && j != i ==> ino[j] == ino0[j] && Contents(blk, ino[j]) == Contents(blk0, ino0[j])
  }

  lemma OthersThen(blk0: Disk, ino0: seq<Inode>, blk: Disk, ino: seq<Inode>, blk': Disk, ino': seq<Inode>, i: nat)
    requires OthersKept(blk0, ino0, blk, ino, i) && OthersKept(blk, ino, blk', ino', i)
    ensures OthersKept(blk0, ino0, blk', ino', i)
  {
    hide Contents;
  }

  lemma StoredMore(c: Call, blk: Disk, ino: seq<Inode>, blk': Disk, ino': seq<Inode>, k: nat, n1: nat)
    requires c.Valid() && Stored(c, blk, ino, k) && k + n1 <= |c.src| && OthersKept(blk, ino, blk', ino', c.i) && n1 > 0
    requires c.off + k <= ino[c.i].size
    requires Contents(blk', ino'[c.i]) == Overlay(Contents(blk, ino[c.i]), c.off + k, c.src[k..k + n1])
    ensures Stored(c, blk', ino', k + n1)
  {
    hide Contents;
    assert c.src[..k] + c.src[k..k + n1] == c.src[..k + n1];
    OthersThen(c.blk, c.ino, blk, ino, blk', ino', c.i);
    if k > 0 {
      OverlayTwice(Contents(c.blk, c.Ip()), c.off, c.src[..k], c.src[k..k + n1]);
    }
  }

  // ------------------------------------------------- the transactions it makes

  /** A finished transaction: the blocks log_written, what the cache showed at end_op and the inodes and owners it
      shows, and how many bytes of the request had been written by then. */
  datatype Txn = Txn(logged: set<nat>, blk: Disk, ino: seq<Inode>, o: Own, done: nat)

  /** The blocks once all of the transactions are committed to blk0. */
  ghost function DiskAfter(blk0: Disk, txns: seq<Txn>): Disk {
    if txns == [] then blk0 else
      var t := txns[|txns| - 1];
      After(DiskAfter(blk0, txns[..|txns| - 1]), t.blk, t.logged)
  }

  /** Committing transaction number t after the earlier ones leaves a consistent disk with a piece more of src in the
      file: a whole number of pieces of max bytes, or all, or, if only mapped bytes could be read, some of those. */
  ghost predicate TxnOk(c: Call, txns: seq<Txn>, t: nat)
    requires c.Valid() && t < |txns|
  {
    var x, e := txns[t], DiskAfter(c.blk, txns[..t + 1]);
    && x.blk.Keys == c.blk.Keys && (forall b :: b in x.logged ==> c.sb.inodestart <= b < c.sb.size)
    && Consistent(c.sb, e, x.ino, x.o) && x.done <= |c.src| &&
       Shows(c.blk, c.ino, e, x.ino, c.i, c.off, c.src[..x.done])
    && (x.done % c.max == 0 || x.done == |c.src| || x.done <= c.mapped < |c.src|)
  }

  ghost predicate AllOk(c: Call, txns: seq<Txn>)
    requires c.Valid()
  {
    forall t :: 0 <= t < |txns| ==> TxnOk(c, txns, t)
  }

  lemma AllOkMore(c: Call, txns: seq<Txn>, x: Txn)
    requires c.Valid() && AllOk(c, txns) && TxnOk(c, txns + [x], |txns|)
    ensures AllOk(c, txns + [x])
  {
    hide Consistent, Shows, DiskAfter;
    forall t | 0 <= t < |txns| + 1 ensures TxnOk(c, txns + [x], t) {
      if t < |txns| {
        assert TxnOk(c, txns, t);
        assert (txns + [x])[..t + 1] == txns[..t + 1];
      }
    }
  }

  lemma ShowsThen(c: Call, blk: Disk, ino: seq<Inode>, k: nat, e: Disk, ino': seq<Inode>, d: seq<byte>)
    requires c.Valid() && Stored(c, blk, ino, k) && Shows(blk, ino, e, ino', c.i, c.off + k, d)
    requires k + |d| <= |c.src| && d == c.src[k..k + |d|]
    ensures Shows(c.blk, c.ino, e, ino', c.i, c.off, c.src[..k + |d|])
  {
    hide Contents;
    assert c.src[..k] + d == c.src[..k + |d|];
    if k > 0 {
      OverlayTwice(Contents(c.blk, c.Ip()), c.off, c.src[..k], d);
    }
  }

  /** The transactions so far, after which disk and cache agree. */
  ghost predicate Diary(c: Call, txns: seq<Txn>, blk: Disk, ino: seq<Inode>)
    requires c.Valid()
  {
    AllOk(c, txns) && DiskAfter(c.blk, txns) == blk && blk.Keys == c.blk.Keys && Synced(c.sb, blk, ino)
  }

  /** The next transaction commits d, the bytes from k on. */
  lemma DiaryMore(c: Call, txns: seq<Txn>, blk: Disk, ino: seq<Inode>, k: nat, x: Txn, d: seq<byte>)
    requires c.Valid() && Diary(c, txns, blk, ino) && Stored(c, blk, ino, k)
    requires Commits(c.sb, blk, ino, x.blk, x.ino, x.o, x.logged, c.i, c.off + k, d)
    requires k + |d| <= |c.src| && d == c.src[k..k + |d|] && x.done == k + |d|
    requires x.done % c.max == 0 || x.done == |c.src| || x.done <= c.mapped < |c.src|
    ensures AllOk(c, txns + [x])
    ensures After(blk, x.blk, x.logged) == x.blk && Synced(c.sb, x.blk, x.ino) ==> Diary(c, txns + [x], x.blk, x.ino)
  {
    hide Consistent, Shows, Stored, Contents, After, Synced, AllOk;
    var e := After(blk, x.blk, x.logged);
    assert (txns + [x])[..|txns|] == txns && (txns + [x])[..|txns| + 1] == txns + [x];
    assert DiskAfter(c.blk, txns + [x]) == e;
    ShowsThen(c, blk, ino, k, e, x.ino, d);
    AllOkMore(c, txns, x);
  }

  // ------------------------------------------------------------- one of its turns

  /** The bytes of a piece that writei says it wrote. */
  function Part(src: seq<byte>, r: int): seq<byte> {
    if 0 < r <= |src| then src[..r] else []
  }

  /** What one transaction of filewrite has done, writei having returned r: refused exactly what writei refuses; all of
      src written exactly if all could be read, and then the file is overlaid with it; no other file changed; exactly
      the empty slots on its way filled. If the inodes on disk were current they are again, and committing the
      transaction leaves a consistent disk with the bytes r says over the file, the one the cache shows if that is all
      of src. */
  ghost predicate Turn(sb: Super, blk: Disk, ino: seq<Inode>, i: nat, off: nat, src: seq<byte>, mapped: nat, x: Txn,
                       r: int)
    requires i < |ino|
  {
    && |x.ino| == |ino| && (r == -1 <==> Refused(off, |src|, ino[i].size)) && OthersKept(blk, ino, x.blk, x.ino, i)
    && (r != -1 ==> 0 <= r <= |src| && r <= mapped && (r == |src| <==> |src| <= mapped))
    && (r == |src| ==> off <= ino[i].size && Contents(x.blk, x.ino[i]) == Overlay(Contents(blk, ino[i]), off, src))
    && (r != -1 ==> Paid(sb, blk, ino[i], x.blk, x.ino[i], off / BSIZE, Reach(off, |src|, mapped)))
    && (Synced(sb, blk, ino) ==>
          && Commits(sb, blk, ino, x.blk, x.ino, x.o, x.logged, i, off, Part(src, r)) && Synced(sb, x.blk, x.ino)
          && (r == |src| ==> After(blk, x.blk, x.logged) == x.blk))
  }

  /** filewrite before a turn, k bytes written. */
  ghost predicate Underway(c: Call, txns: seq<Txn>, blk: Disk, ino: seq<Inode>, k: nat) {
    && c.Valid() && k <= |c.src| && k <= c.mapped && |ino| == |c.ino|
    && (k > 0 ==> c.off <= c.Ip().size && c.off + k <= MAXFILE * BSIZE)
    && Stored(c, blk, ino, k) && Account(c, blk, ino[c.i], k)
    && (Synced(c.sb, c.blk, c.ino) ==> Diary(c, txns, blk, ino))
  }

  lemma UnderwayStart(c: Call)
    requires c.Valid()
    ensures Underway(c, [], c.blk, c.ino, 0)
  {
    hide Paid, Synced, Contents;
    PaidNone(c.sb, c.blk, c.Ip(), c.off / BSIZE);
  }

  lemma UnderwaySize(c: Call, txns: seq<Txn>, blk: Disk, ino: seq<Inode>, k: nat)
    requires Underway(c, txns, blk, ino, k)
    ensures if k == 0 then ino[c.i].size == c.Ip().size else c.off <= c.Ip().size && c.off + k <= ino[c.i].size
    ensures k < |c.src| ==> k % c.max == 0
  {
    hide Paid, Synced, Contents, Diary;
  }

  /** A turn panics only if the call must. */
  lemma UnderwayPanics(c: Call, txns: seq<Txn>, blk: Disk, ino: seq<Inode>, k: nat, n1: nat)
    requires Underway(c, txns, blk, ino, k) && k < |c.src| && n1 == Piece(k, |c.src|, c.max)
    requires !Refused(c.off + k, n1, ino[c.i].size)
    requires !Room(c.sb, blk, ino[c.i], (c.off + k) / BSIZE, Reach(c.off + k, n1, c.mapped - k))
    ensures !c.HasRoom()
  {
    hide Paid, Synced, Contents, Diary, Stored, Account, Room, Reach, Piece;
    UnderwaySize(c, txns, blk, ino, k);
    AccountPiece(c, blk, ino[c.i], k, n1, blk, ino[c.i]);
  }

  lemma TurnAccount(c: Call, txns: seq<Txn>, blk: Disk, ino: seq<Inode>, k: nat, n1: nat, x: Txn, r: int)
    requires Underway(c, txns, blk, ino, k) && k < |c.src| && n1 == Piece(k, |c.src|, c.max)
    requires Turn(c.sb, blk, ino, c.i, c.off + k, c.src[k..k + n1], c.mapped - k, x, r)
    ensures if r == n1 then Account(c, x.blk, x.ino[c.i], k + n1) else c.HasRoom()
    ensures r == n1 ==> c.off <= c.Ip().size && c.off + k + n1 <= MAXFILE * BSIZE
    ensures r != n1 ==> c.mapped < |c.src| || c.off > c.Ip().size || c.off + |c.src| > MAXFILE * BSIZE
  {
    hide Paid, Synced, Contents, Diary, Stored, Account, Room, Reach, Commits, OthersKept, After;
    UnderwaySize(c, txns, blk, ino, k);
    if r == -1 {
      AccountRefused(c, blk, ino[c.i], k);
    } else {
      AccountPiece(c, blk, ino[c.i], k, n1, x.blk, x.ino[c.i]);
    }
  }

  lemma WholePieces(k: nat, n: nat, max: nat, mapped: nat, r: nat)
    requires max > 0 && k < n && k % max == 0 && k <= mapped && r <= Piece(k, n, max)
    requires r == 0 || (r <= mapped - k && (r == Piece(k, n, max) <==> Piece(k, n, max) <= mapped - k))
    ensures (k + r) % max == 0 || k + r == n || k + r <= mapped < n
  {
    Multiple(k, k, max);
  }

  lemma TurnDiary(c: Call, txns: seq<Txn>, blk: Disk, ino: seq<Inode>, k: nat, n1: nat, x: Txn, r: int)
    requires Underway(c, txns, blk, ino, k) && k < |c.src| && n1 == Piece(k, |c.src|, c.max) &&
             Synced(c.sb, c.blk, c.ino)
    requires Turn(c.sb, blk, ino, c.i, c.off + k, c.src[k..k + n1], c.mapped - k, x, r) &&
             x.done == k + |Part(c.src[k..k + n1], r)|
    ensures AllOk(c, txns + [x]) && (r == n1 ==> Diary(c, txns + [x], x.blk, x.ino))
  {
    hide Paid, Contents, Stored, Account, Reach, Commits, OthersKept, After, AllOk, DiskAfter, Synced, Piece, Refused;
    UnderwaySize(c, txns, blk, ino, k);
    var d := Part(c.src[k..k + n1], r);
    assert d == c.src[k..k + |d|];
    WholePieces(k, |c.src|, c.max, c.mapped, |d|);
    DiaryMore(c, txns, blk, ino, k, x, d);
  }

  /** A turn that does not panic: the next one follows, or filewrite returns -1 for a reason. */
  lemma UnderwayTurn(c: Call, txns: seq<Txn>, blk: Disk, ino: seq<Inode>, k: nat, n1: nat, x: Txn, r: int)
    requires Underway(c, txns, blk, ino, k) && k < |c.src| && n1 == Piece(k, |c.src|, c.max)
    requires Turn(c.sb, blk, ino, c.i, c.off + k, c.src[k..k + n1], c.mapped - k, x, r) &&
             x.done == k + |Part(c.src[k..k + n1], r)|
    ensures OthersKept(c.blk, c.ino, x.blk, x.ino, c.i) && (Synced(c.sb, c.blk, c.ino) ==> AllOk(c, txns + [x]))
    ensures if r == n1 then Underway(c, txns + [x], x.blk, x.ino, k + n1) else c.HasRoom()
    ensures r != n1 ==> c.mapped < |c.src| || c.off > c.Ip().size || c.off + |c.src| > MAXFILE * BSIZE
  {
    hide Paid, Contents, Account, Reach, Commits, After, AllOk, Diary, Synced, Piece, Room, OthersKept;
    UnderwaySize(c, txns, blk, ino, k);
    TurnAccount(c, txns, blk, ino, k, n1, x, r);
    OthersThen(c.blk, c.ino, blk, ino, x.blk, x.ino, c.i);
    if Synced(c.sb, c.blk, c.ino) {
      TurnDiary(c, txns, blk, ino, k, n1, x, r);
    }
    if r == n1 {
      StoredMore(c, blk, ino, x.blk, x.ino, k, n1);
    }
  }

  lemma UnderwayEnd(c: Call, txns: seq<Txn>, blk: Disk, ino: seq<Inode>)
    requires Underway(c, txns, blk, ino, |c.src|)
    ensures c.HasRoom() && OthersKept(c.blk, c.ino, blk, ino, c.i) && (Synced(c.sb, c.blk, c.ino) ==> AllOk(c, txns))
    ensures |ino| == |c.ino| && |c.src| <= c.mapped && (c.src != [] ==>
      c.off <= c.Ip().size && c.off + |c.src| <= MAXFILE * BSIZE &&
      Contents(blk, ino[c.i]) == Overlay(Contents(c.blk, c.Ip()), c.off, c.src))
  {
    hide Paid, Contents, Synced, AllOk, OthersKept, Account, Room;
    assert c.src[..|c.src|] == c.src;
    AccountEnd(c, blk, ino[c.i]);
  }

  class OpenFile {
    const fs: FileSystem
    const i: nat                 // the file's inode
    const writable: bool
    var off: nat
    ghost var txns: seq<Txn>     // the finished transactions

    constructor (fs: FileSystem, i: nat, writable: bool)
      ensures this.fs == fs && this.i == i && this.writable == writable && off == 0 && txns == []
    {
      this.fs, this.i, this.writable, off, txns := fs, i, writable, 0, [];
    }

    ghost predicate Valid()
      reads this, fs
    {
      fs.Sound() && i < |fs.ino| && off < U32MAX
    }

    /** One turn of filewrite's loop: begin_op, writei of n1 bytes, end_op. r is writei's result; k bytes of the request
        were written before. !ok is a panic: too few free blocks for the empty slots on the way. */
    method WriteChunk(src: seq<byte>, mapped: nat, maxop: nat, ghost k: nat) returns (ok: bool, r: int)
      requires Valid() && maxop >= 6 && |src| <= MaxChunk(maxop) && |src| < U32MAX
      modifies fs, this`off, this`txns
      ensures ok <==> Refused(old(off), |src|, old(fs.ino[i].size)) ||
                      Room(fs.sb, old(fs.blk), old(fs.ino[i]), old(off) / BSIZE, Reach(old(off), |src|, mapped))
      ensures ok ==> Valid() && off == old(off) + |Part(src, r)| && |fs.logged| <= maxop
      ensures ok ==> txns == old(txns) + [Txn(fs.logged, fs.blk, fs.ino, fs.o, k + |Part(src, r)|)]
      ensures ok ==> Turn(fs.sb, old(fs.blk), old(fs.ino), i, old(off), src, mapped, txns[|old(txns)|], r)
    {
      hide Owned, NoHoles, Contents, Overlay, OnDisk, Spanned, InodeFits, Room, Paid, Reach, Commits, Synced, After;
      fs.logged := {};   // begin_op: a new transaction
      if Synced(fs.sb, fs.blk, fs.ino) {
        CommitsNothing(fs, i, off);
      }
      ok, r := fs.Writei(i, src, off, mapped);
      if ok {
        ChunkFits(maxop, off, |src|);
        SizeBound(fs);
        assert r == 0 ==> src[..r] == [];
        if r > 0 {
          off := off + r;
        }
        txns := txns + [Txn(fs.logged, fs.blk, fs.ino, fs.o, k + |Part(src, r)|)];   // end_op
      }
    }

    lemma CommitsNothing(fs: FileSystem, i: nat, off: nat)
      requires fs.Sound() && i < |fs.ino| && Synced(fs.sb, fs.blk, fs.ino)
      ensures Commits(fs.sb, fs.blk, fs.ino, fs.blk, fs.ino, fs.o, {}, i, off, []) &&
              After(fs.blk, fs.blk, {}) == fs.blk
    {
      hide Owned, NoHoles, OnDisk, InodeFits, Contents;
      assert After(fs.blk, fs.blk, {}) == fs.blk;
    }

    lemma SoundConsistent(fs: FileSystem)
      requires fs.Sound() && Synced(fs.sb, fs.blk, fs.ino)
      ensures Consistent(fs.sb, fs.blk, fs.ino, fs.o)
    {
      hide Owned, NoHoles, OnDisk, InodeFits;
    }

    lemma SizeBound(fs: FileSystem)
      requires fs.Sound()
      ensures forall j :: 0 <= j < |fs.ino| ==> fs.ino[j].size <= MAXFILE * BSIZE < U32MAX
    {
    }

    /** filewrite on an inode. Every transaction it makes fits MAXOPBLOCKS. If it returns n, the file is the old one
        overlaid with the whole of src and the offset has moved past it; otherwise it returns -1. It never touches
        another file. !ok is a panic: the disk has fewer free blocks than empty slots among those it gets to. If the
        inodes on disk were current, committing its transactions one after another leaves a consistent disk each time,
        with a whole number of pieces more in the file. */
    method Write(src: seq<byte>, n: int, mapped: nat, maxop: nat) returns (ok: bool, ret: int)
      requires Valid() && maxop >= 6 && |src| == (if n > 0 then n else 0) < 0x8000_0000
      modifies fs, this`off, this`txns
      ensures ok ==> old(txns) <= txns && forall t :: |old(txns)| <= t < |txns| ==> |txns[t].logged| <= maxop
      ensures ok ==> Valid() && (ret == n || ret == -1) && OthersKept(old(fs.blk), old(fs.ino), fs.blk, fs.ino, i)
      ensures ok && writable && n >= 0 && ret == n ==> off == old(off) + n
      ensures ok && writable && n > 0 && ret == n ==>
        && old(off) <= old(fs.ino[i].size)
        && Contents(fs.blk, fs.ino[i]) == Overlay(old(Contents(fs.blk, fs.ino[i])), old(off), src)
      ensures ok && writable && n >= 0 ==>
        (ret == n <==> n == 0 || (n <= mapped && old(off) <= old(fs.ino[i].size) && old(off) + n <= MAXFILE * BSIZE))
      ensures var c := Call(fs.sb, old(fs.blk), old(fs.ino), old(fs.o), i, old(off), src, MaxChunk(maxop), mapped);
              && c.Valid() && (ok <==> !writable || c.HasRoom())
              && (ok && Synced(c.sb, c.blk, c.ino) ==>
                  Consistent(c.sb, c.blk, c.ino, c.o) && AllOk(c, txns[|old(txns)|..]))
    {
      hide Owned, NoHoles, Contents, OnDisk, Overlay, InodeFits, Room, Turn, OthersKept, MaxChunk, Piece, Synced, AllOk,
           Underway, Consistent;
      ghost var made: seq<Txn>, c := [], Call(fs.sb, fs.blk, fs.ino, fs.o, i, off, src, MaxChunk(maxop), mapped);
      MaxChunkBound(maxop);
      SizeBound(fs);
      if Synced(fs.sb, fs.blk, fs.ino) {
        SoundConsistent(fs);
      }
      if !writable {
        OthersSelf(fs.blk, fs.ino, i);
        assert txns[|old(txns)|..] == [];
        NoneMade(c);
        return true, -1;
      }
      var max := MaxChunk(maxop);
      var k := 0;
      ok, ret := true, -1;
      UnderwayStart(c);
      while k < n
        invariant ok && Valid() && 0 <= k && (k <= n || k == 0) && off == old(off) + k
        invariant Underway(c, made, fs.blk, fs.ino, k)
        invariant txns == old(txns) + made && forall t :: 0 <= t < |made| ==> |made[t].logged| <= maxop
        decreases n - k
      {
        var n1 := Piece(k, n, max);
        var r;
        ghost var blk1, ino1 := fs.blk, fs.ino;
        UnderwayAt(c, made, blk1, ino1, k);
        ok, r := WriteChunk(src[k..k + n1], mapped - k, maxop, k);
        if !ok {
          UnderwayPanics(c, made, blk1, ino1, k, n1);
          return;
        }
        ghost var x := txns[|txns| - 1];
        UnderwayTurn(c, made, blk1, ino1, k, n1, x, r);
        made := made + [x];
        if r != n1 {
          assert txns[|old(txns)|..] == made;
          return true, -1;
        }
        k := k + n1;
      }
      assert txns[|old(txns)|..] == made;
      UnderwayEnd(c, made, fs.blk, fs.ino);
      return true, if k == n then n else -1;
    }
  }

  lemma UnderwayAt(c: Call, txns: seq<Txn>, blk: Disk, ino: seq<Inode>, k: nat)
    requires Underway(c, txns, blk, ino, k)
    ensures k <= c.mapped && |ino| == |c.ino|
  {
  }

  lemma MaxChunkBound(maxop: nat)
    requires maxop >= 6
    ensures MaxChunk(maxop) > 0
  {
  }

  lemma OthersSelf(blk: Disk, ino: seq<Inode>, i: nat)
    ensures OthersKept(blk, ino, blk, ino, i)
  {
  }

  lemma NoneMade(c: Call)
    requires c.Valid()
    ensures AllOk(c, [])
  {
  }
}
