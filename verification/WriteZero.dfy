/** Zeroing a range of a kernel drive (src/lib/interfaces/drive_interface.cpp): by BLKZEROOUT requests of a bounded
    size, or by vectored writes of one shared buffer of zeros.  What each system call does is the kernel's choice. */
module WriteZero {

  const IOV_MAX: nat := 1024
  const MAX_BUF_SIZE: nat := 1024 * 1024
  const MAX_ZERO_WRITE_SIZE: nat := MAX_BUF_SIZE * IOV_MAX

  type Disk = nat -> nat

  /** The range holds zeros and everything else is as before. */
  ghost predicate Zeroed(before: Disk, now: Disk, offset: nat, size: nat) {
    forall p: nat :: now(p) == if offset <= p < offset + size then 0 else before(p)
  }

  /** The range holds zeros, the stretch after it zeros or old bytes, everything else is as before. */
  ghost predicate ZeroedThen(before: Disk, now: Disk, offset: nat, size: nat, more: nat) {
    forall p: nat ::
      if offset <= p < offset + size then now(p) == 0
      else if offset + size <= p < offset + size + more then now(p) == 0 || now(p) == before(p)
      else now(p) == before(p)
  }

  datatype Chunk = Chunk(offset: nat, size: nat)

  /** The chunks follow each other without gap or overlap, none is empty, and together they are `size` bytes. */
  predicate Tiles(chunks: seq<Chunk>, offset: nat, size: nat)
    decreases |chunks|
  {
    if chunks == [] then size == 0
    else
      var last := chunks[|chunks| - 1];
      0 < last.size <= size && last.offset == offset + size - last.size
              && Tiles(chunks[..|chunks| - 1], offset, size - last.size)
  }

  lemma TilesSnoc(chunks: seq<Chunk>, offset: nat, size: nat, more: nat)
    requires Tiles(chunks, offset, size) && more > 0
    ensures Tiles(chunks + [Chunk(offset + size, more)], offset, size + more)
  {
    var all := chunks + [Chunk(offset + size, more)];
    assert all[..|all| - 1] == chunks;
  }

  /** Every byte of a tiled range is in exactly one chunk, and no chunk reaches outside it. */
  lemma {:induction false} TiledOnce(chunks: seq<Chunk>, offset: nat, size: nat, p: nat)
    requires Tiles(chunks, offset, size)
    ensures |Covering(chunks, p)| == if offset <= p < offset + size then 1 else 0
    decreases |chunks|
  {
    if chunks != [] {
      TiledOnce(chunks[..|chunks| - 1], offset, size - chunks[|chunks| - 1].size, p);
    }
  }

  /** The chunks that contain a byte. */
  function Covering(chunks: seq<Chunk>, p: nat): seq<Chunk>
    decreases |chunks|
  {
    if chunks == [] then []
    else
      var last := chunks[|chunks| - 1];
      Covering(chunks[..|chunks| - 1], p) + if last.offset <= p < last.offset + last.size then [last] else []
  }

  function Sum(lens: seq<nat>): nat {
    if lens == [] then 0 else Sum(lens[..|lens| - 1]) + lens[|lens| - 1]
  }

  lemma {:induction false} SumEqual(lens: seq<nat>, each: nat)
    requires forall i :: 0 <= i < |lens| ==> lens[i] == each
    ensures Sum(lens) == |lens| * each
    decreases |lens|
  {
    if lens != [] { SumEqual(lens[..|lens| - 1], each); }
  }

  /** The scatter list for one vectored write: whole buffers and a remainder, summing to the size, within the kernel's
      limits. */
  method BuildIov(size: nat) returns (iov: array<nat>)
    requires 0 < size <= MAX_ZERO_WRITE_SIZE
    ensures fresh(iov) && 1 <= iov.Length <= IOV_MAX
    ensures Sum(iov[..]) == size
    ensures forall i :: 0 <= i < iov.Length ==> 0 < iov[i] <= MAX_BUF_SIZE
  {
    var iovcnt := (size - 1) / MAX_BUF_SIZE + 1;
    iov := new nat[iovcnt];
    for i := 0 to iovcnt
      invariant forall k :: 0 <= k < i ==> iov[k] == MAX_BUF_SIZE
    {
      iov[i] := MAX_BUF_SIZE;
    }
    iov[iovcnt - 1] := size - MAX_BUF_SIZE * (iovcnt - 1);
    SumEqual(iov[..][..iovcnt - 1], MAX_BUF_SIZE);
  }

  datatype Status = Success | InvalidArgument | IoError

  /** How far a call is: disk, chunks and answers it started with, the chunks it made and the answers it used. */
  datatype Progress = Progress(disk: Disk, chunks: seq<Chunk>, answers: seq<int>, mine: seq<Chunk>, used: nat)

  class KernelDrive {
    var disk: Disk
    var maxWriteZeros: nat           // m_max_write_zeros
    var hasZeroBuf: bool             // m_zero_buf
    var blockNvme: bool              // the device's type
    /** Answers of the coming system calls: for an ioctl its result, for a write the number of bytes written. */
    var answers: seq<int>
    ghost var chunks: seq<Chunk>     // ranges handed to the kernel, in order

    method Answer() returns (a: int)
      modifies this`answers
      ensures a == Nth(old(answers), 0) && answers == After(old(answers), 1)
    {
      if answers == [] {
        a := 0;
      } else {
        a, answers := answers[0], answers[1..];
      }
    }

    /** BLKZEROOUT: on success the whole range, on an error any part `touched` of it. */
    method BlkZeroOut(offset: nat, size: nat, touched: set<nat>) returns (ret: int)
      modifies this`disk, this`answers, this`chunks
      ensures chunks == old(chunks) + [Chunk(offset, size)]
      ensures ret == Nth(old(answers), 0) && answers == After(old(answers), 1)
      ensures ret == 0 ==> Zeroed(old(disk), disk, offset, size)
      ensures ZeroedThen(old(disk), disk, offset, 0, size)
    {
      var before := disk;
      ret := Answer();
      chunks := chunks + [Chunk(offset, size)];
      if ret == 0 {
        disk := (p: nat) => if offset <= p < offset + size then 0 else before(p);
      } else {
        disk := (p: nat) => if offset <= p < offset + size && p in touched then 0 else before(p);
      }
    }

    /** sync_writev of zeros: the whole vector again until the kernel writes all of it or the tries run out; what one
        try writes is a front part of the range. */
    method SyncWritev(ghost iov: seq<nat>, size: nat, offset: nat, maxResubmit: nat)
      returns (ok: bool, ghost tries: nat)
      requires 0 < size < 0x1_0000_0000 && Sum(iov) == size && |iov| <= IOV_MAX
      modifies this`disk, this`answers, this`chunks
      ensures chunks == old(chunks) + [Chunk(offset, size)]
      ensures ok ==> Zeroed(old(disk), disk, offset, size)
      ensures ZeroedThen(old(disk), disk, offset, 0, size)
      ensures 1 <= tries <= maxResubmit + 1 && answers == After(old(answers), tries)
      ensures forall i :: 0 <= i < tries - 1 ==> Nth(old(answers), i) < size
      ensures if ok then Nth(old(answers), tries - 1) >= size
              else tries == maxResubmit + 1 && Nth(old(answers), tries - 1) < size
    {
      chunks := chunks + [Chunk(offset, size)];
      var written, resubmitCnt := 0, 0;
      tries := 0;
      while written != size && resubmitCnt <= maxResubmit
        invariant written == size ==> Zeroed(old(disk), disk, offset, size)
        invariant ZeroedThen(old(disk), disk, offset, 0, size)
        invariant chunks == old(chunks) + [Chunk(offset, size)]
        invariant tries == resubmitCnt <= maxResubmit + 1 && answers == After(old(answers), tries) && written <= size
        invariant forall i :: 0 <= i < tries - 1 ==> Nth(old(answers), i) < size
        invariant tries > 0 ==> (written == size <==> Nth(old(answers), tries - 1) >= size)
        invariant tries == 0 ==> written == 0
        decreases maxResubmit + 1 - resubmitCnt
      {
        AfterNth(old(answers), tries, 0);
        written := WriteOnce(old(disk), size, offset);
        tries := tries + 1;
        resubmitCnt := resubmitCnt + 1;
      }
      ok := written == size;
    }

    /** pwritev: a front part of the range, as long as the kernel says. */
    method WriteOnce(ghost start: Disk, size: nat, offset: nat) returns (written: int)
      requires ZeroedThen(start, disk, offset, 0, size)
      modifies this`disk, this`answers
      ensures written == (if Nth(old(answers), 0) > size then size else Nth(old(answers), 0))
      ensures answers == After(old(answers), 1) && ZeroedThen(start, disk, offset, 0, size)
      ensures written == size ==> Zeroed(start, disk, offset, size)
    {
      written := Answer();
      if written > size { written := size; }
      var before, n := disk, written;
      disk := (p: nat) => if offset <= p < offset + n then 0 else before(p);
    }

    /** On success exactly the range is zero, by disjoint chunks in order; on an error everything before `done` is zero,
        the failing chunk starts there, and nothing else has changed.  It succeeds exactly when every request does. */
    method WriteZeroIoctl(size: nat, offset: nat, touched: set<nat>) returns (status: Status, ghost done: nat)
      requires maxWriteZeros != 0
      modifies this`disk, this`answers, this`chunks
      ensures status != InvalidArgument && done <= size && old(chunks) <= chunks
      ensures status == Success ==>
                done == size && Zeroed(old(disk), disk, offset, size) && Tiles(chunks[|old(chunks)|..], offset, size)
      ensures status == IoError ==> done < size
      ensures ZeroedThen(old(disk), disk, offset, done, Least(size - done, maxWriteZeros))
      ensures status == Success <==> AllGood(old(answers), Pieces(size, maxWriteZeros))
    {
      status, done := Success, 0;
      ghost var so := Progress(disk, chunks, answers, [], 0);
      var left: nat, at: nat := size, offset;
      while left > 0
        invariant left + done == size && at == offset + done && maxWriteZeros == old(maxWriteZeros)
        invariant so.disk == old(disk) && so.chunks == old(chunks) && so.answers == old(answers)
        invariant Progressed(so, offset, done)
        invariant so.used + Pieces(left, maxWriteZeros) == Pieces(size, maxWriteZeros) && AllGood(so.answers, so.used)
      {
        var thisSize := Least(left, maxWriteZeros);
        PieceNext(left, maxWriteZeros);
        GoodNext(so.answers, so.used, Pieces(size, maxWriteZeros));
        var ret;
        ret, so := ZeroNext(so, offset, done, at, thisSize, touched);
        if ret != 0 {
          return IoError, done;
        }
        at, left, done := at + thisSize, left - thisSize, done + thisSize;
      }
      Through(so, disk, chunks, offset, size);
    }

    /** The disk, the chunks and the answers are as far as `so` says, with `done` bytes zeroed. */
    ghost predicate Progressed(so: Progress, offset: nat, done: nat)
      reads this
    {
      && Zeroed(so.disk, disk, offset, done) && Tiles(so.mine, offset, done)
      && chunks == so.chunks + so.mine && answers == After(so.answers, so.used)
    }

    /** One request of the loop above. */
    method ZeroNext(ghost so: Progress, ghost offset: nat, ghost done: nat, at: nat, thisSize: nat, touched: set<nat>)
      returns (ret: int, ghost so': Progress)
      requires at == offset + done && thisSize > 0 && Progressed(so, offset, done)
      modifies this`disk, this`answers, this`chunks
      ensures so' == so.(mine := so.mine + [Chunk(at, thisSize)], used := so.used + 1)
      ensures ret == Nth(so.answers, so.used) && so.chunks <= chunks
      ensures if ret == 0 then Progressed(so', offset, done + thisSize)
              else ZeroedThen(so.disk, disk, offset, done, thisSize)
    {
      ghost var before := disk;
      AfterNth(so.answers, so.used, 0);
      ret := BlkZeroOut(at, thisSize, touched);
      TilesSnoc(so.mine, offset, done, thisSize);
      so' := so.(mine := so.mine + [Chunk(at, thisSize)], used := so.used + 1);
      if ret == 0 {
        ZeroedMore(so.disk, before, disk, offset, done, thisSize);
      } else {
        ZeroedPart(so.disk, before, disk, offset, done, thisSize);
      }
    }

    /** One vectored write of the loop below. */
    method WriteNext(ghost so: Progress, size: nat, offset: nat, total: nat, maxResubmit: nat)
      returns (ok: bool, toWrite: nat, ghost so': Progress)
      requires total < size && Progressed(so, offset, total)
      modifies this`disk, this`answers, this`chunks
      ensures toWrite == Least(size - total, MAX_ZERO_WRITE_SIZE) && so.chunks <= chunks
      ensures so'.disk == so.disk && so'.chunks == so.chunks && so'.answers == so.answers
      ensures if ok then Progressed(so', offset, total + toWrite)
              else ZeroedThen(so.disk, disk, offset, total, toWrite)
                   && AllShort(so.answers, so.used, maxResubmit + 1, toWrite)
      ensures Nth(so.answers, so.used) >= toWrite ==> ok && so'.used == so.used + 1
    {
      toWrite := if size - total > MAX_ZERO_WRITE_SIZE then MAX_ZERO_WRITE_SIZE else size - total;
      var iov := BuildIov(toWrite);
      ghost var before, here := disk, answers;
      ghost var tries;
      ok, tries := SyncWritev(iov[..], toWrite, offset + total, maxResubmit);
      TilesSnoc(so.mine, offset, total, toWrite);
      Consumed(so.answers, here, so.used, tries, maxResubmit + 1, toWrite, ok);
      so' := so.(mine := so.mine + [Chunk(offset + total, toWrite)], used := so.used + tries);
      if ok {
        ZeroedMore(so.disk, before, disk, offset, total, toWrite);
      } else {
        ZeroedPart(so.disk, before, disk, offset, total, toWrite);
      }
    }

    /** The same by vectored writes; unlike the ioctl form it refuses an empty range.  It succeeds if every write is
        full, and gives up only where all tries of one write, the answers from `from` on, were short. */
    method WriteZeroWritev(size: nat, offset: nat, maxResubmit: nat)
      returns (status: Status, ghost done: nat, ghost from: nat)
      modifies this`disk, this`answers, this`chunks
      ensures status == InvalidArgument <==> size == 0 || !hasZeroBuf
      ensures done <= size && old(chunks) <= chunks
      ensures status == Success ==>
                done == size && Zeroed(old(disk), disk, offset, size) && Tiles(chunks[|old(chunks)|..], offset, size)
      ensures status != Success ==> done <= size && (size > 0 ==> done < size)
      ensures status == InvalidArgument ==> disk == old(disk) && done == 0
      ensures status != InvalidArgument ==>
                ZeroedThen(old(disk), disk, offset, done, Least(size - done, MAX_ZERO_WRITE_SIZE))
      ensures AllFull(old(answers), Pieces(size, MAX_ZERO_WRITE_SIZE), Least(size, MAX_ZERO_WRITE_SIZE)) ==>
                status != IoError
      ensures status == IoError ==>
                AllShort(old(answers), from, maxResubmit + 1, Least(size - done, MAX_ZERO_WRITE_SIZE))
    {
      done, from := 0, 0;
      if size == 0 || !hasZeroBuf {
        return InvalidArgument, 0, 0;
      }
      var total := 0;
      status := Success;
      ghost var so, pieces := Progress(disk, chunks, answers, [], 0), 0;
      ghost var all := Pieces(size, MAX_ZERO_WRITE_SIZE);
      ghost var full := AllFull(answers, all, Least(size, MAX_ZERO_WRITE_SIZE));
      while total < size
        invariant total == done <= size && hasZeroBuf == old(hasZeroBuf)
        invariant so.disk == old(disk) && so.chunks == old(chunks) && so.answers == old(answers)
        invariant Progressed(so, offset, done)
        invariant pieces + Pieces(size - total, MAX_ZERO_WRITE_SIZE) == all && (full ==> so.used == pieces)
      {
        PieceNext(size - total, MAX_ZERO_WRITE_SIZE);
        if full { FullAt(so.answers, so.used, all, Least(size, MAX_ZERO_WRITE_SIZE)); }
        from := so.used;
        var ok, toWrite;
        ok, toWrite, so := WriteNext(so, size, offset, total, maxResubmit);
        if !ok {
          return IoError, done, from;
        }
        pieces := pieces + 1;
        total, done := total + toWrite, done + toWrite;
      }
      Through(so, disk, chunks, offset, size);
    }

    /** Whichever strategy is picked, a reported success means the range and nothing else was zeroed. */
    method SyncWriteZero(size: nat, offset: nat, maxResubmit: nat, touched: set<nat>) returns (status: Status)
      modifies this`disk, this`answers, this`chunks
      ensures status == Success ==>
                Zeroed(old(disk), disk, offset, size) && old(chunks) <= chunks
                        && Tiles(chunks[|old(chunks)|..], offset, size)
      ensures ZeroedThen(old(disk), disk, offset, 0, size)
      ensures size == 0 ==> (status == Success <==> blockNvme && maxWriteZeros != 0)
    {
      ghost var done: nat;
      if blockNvme && maxWriteZeros != 0 {
        status, done := WriteZeroIoctl(size, offset, touched);
      } else {
        ghost var from;
        status, done, from := WriteZeroWritev(size, offset, maxResubmit);
      }
    }
  }

  function Least(a: nat, b: nat): nat {
    if a < b then a else b
  }

  /** Answer `i` of those to come; a kernel not told otherwise answers 0. */
  function Nth(answers: seq<int>, i: nat): int {
    if i < |answers| then answers[i] else 0
  }

  function After(answers: seq<int>, n: nat): seq<int> {
    if n <= |answers| then answers[n..] else []
  }

  lemma AfterNth(answers: seq<int>, n: nat, i: nat)
    ensures Nth(After(answers, n), i) == Nth(answers, n + i)
    ensures After(After(answers, n), 1) == After(answers, n + 1)
  {
  }

  lemma AfterAfter(answers: seq<int>, n: nat, k: nat)
    ensures After(After(answers, n), k) == After(answers, n + k)
  {
  }

  /** The number of pieces of at most `max` bytes that `size` bytes are cut into. */
  function Pieces(size: nat, max: nat): nat
    requires max > 0
  {
    if size == 0 then 0 else 1 + Pieces(size - Least(size, max), max)
  }

  lemma PieceNext(size: nat, max: nat)
    requires max > 0 && size > 0
    ensures Pieces(size, max) == 1 + Pieces(size - Least(size, max), max)
  {
  }

  predicate AllFull(answers: seq<int>, n: nat, size: nat) {
    forall i :: 0 <= i < n ==> Nth(answers, i) >= size
  }

  /** `n` answers from `at` on all stay below `size`. */
  predicate AllShort(answers: seq<int>, at: nat, n: nat, size: nat) {
    forall i :: at <= i < at + n ==> Nth(answers, i) < size
  }

  lemma ShortFrom(answers: seq<int>, here: seq<int>, from: nat, n: nat, size: nat)
    requires here == After(answers, from) && AllShort(here, 0, n, size)
    ensures AllShort(answers, from, n, size)
  {
    forall i | from <= i < from + n ensures Nth(answers, i) < size {
      AfterNth(answers, from, i - from);
      assert Nth(here, i - from) < size;
    }
  }

  lemma Consumed(answers: seq<int>, here: seq<int>, from: nat, tries: nat, n: nat, size: nat, ok: bool)
    requires here == After(answers, from) && (!ok ==> AllShort(here, 0, n, size))
    ensures After(here, tries) == After(answers, from + tries) && Nth(here, 0) == Nth(answers, from)
    ensures !ok ==> AllShort(answers, from, n, size)
  {
    AfterNth(answers, from, 0);
    AfterAfter(answers, from, tries);
    if !ok { ShortFrom(answers, here, from, n, size); }
  }

  lemma FullAt(answers: seq<int>, i: nat, n: nat, size: nat)
    requires AllFull(answers, n, size)
    ensures i < n ==> Nth(answers, i) >= size
  {
  }

  /** The first `n` answers report success. */
  predicate AllGood(answers: seq<int>, n: nat) {
    forall i :: 0 <= i < n ==> Nth(answers, i) == 0
  }

  lemma GoodNext(answers: seq<int>, used: nat, n: nat)
    requires AllGood(answers, used) && used < n
    ensures After(After(answers, used), 1) == After(answers, used + 1)
    ensures AllGood(answers, used + 1) <==> Nth(After(answers, used), 0) == 0
    ensures AllGood(answers, n) ==> Nth(After(answers, used), 0) == 0
  {
    AfterNth(answers, used, 0);
  }

  /** A zeroed range and the zeroing of what follows it make up a longer one. */
  lemma ZeroedMore(start: Disk, mid: Disk, now: Disk, offset: nat, done: nat, more: nat)
    requires Zeroed(start, mid, offset, done) && Zeroed(mid, now, offset + done, more)
    ensures Zeroed(start, now, offset, done + more)
  {
  }

  lemma Through(so: Progress, now: Disk, chunks: seq<Chunk>, offset: nat, size: nat)
    requires Zeroed(so.disk, now, offset, size) && Tiles(so.mine, offset, size) && chunks == so.chunks + so.mine
    ensures ZeroedThen(so.disk, now, offset, size, 0) && so.chunks <= chunks
    ensures Tiles(chunks[|so.chunks|..], offset, size)
  {
    assert chunks[|so.chunks|..] == so.mine;
  }

  lemma ZeroedPart(start: Disk, mid: Disk, now: Disk, offset: nat, done: nat, more: nat)
    requires Zeroed(start, mid, offset, done) && ZeroedThen(mid, now, offset + done, 0, more)
    ensures ZeroedThen(start, now, offset, done, more)
  {
  }
}
