/** The I/O control block of a drive request (src/lib/interfaces/drive_iocb.cpp): its scatter list, and the surgery
    that turns a partially filled read into a request for what is still unset. */
module DriveIocb {

  /** One scatter/gather entry: `len` bytes of memory starting at address `base`. */
  datatype Iovec = Iovec(base: nat, len: nat)

  /** A buffer byte together with the disk byte it is exchanged with. */
  datatype Transfer = Transfer(addr: nat, disk: nat)

  /** A vectored request as the kernel sees it. */
  datatype Request = Request(iovs: seq<Iovec>, size: nat, offset: nat)

  /** The number of entries kept inside the control block itself. */
  const INLINED_IOV_COUNT: nat := 4

  function TotalLen(iovs: seq<Iovec>): nat {
    if iovs == [] then 0 else iovs[0].len + TotalLen(iovs[1..])
  }

  /** The addresses of one entry, in order. */
  function Span(v: Iovec): (s: seq<nat>)
    ensures |s| == v.len
  {
    seq(v.len, i requires 0 <= i < v.len => v.base + i)
  }

  /** The buffer addresses a scatter list describes, in transfer order. */
  function Addrs(iovs: seq<Iovec>): (s: seq<nat>)
    ensures |s| == TotalLen(iovs)
  {
    if iovs == [] then [] else Span(iovs[0]) + Addrs(iovs[1..])
  }

  /** A scatter list without its first `n` bytes. */
  function Drop(iovs: seq<Iovec>, n: nat): seq<Iovec>
    requires n < TotalLen(iovs)
  {
    if n < iovs[0].len then [Iovec(iovs[0].base + n, iovs[0].len - n)] + iovs[1..]
    else Drop(iovs[1..], n - iovs[0].len)
  }

  lemma SpanSuffix(v: Iovec, n: nat, more: seq<nat>)
    requires n < v.len
    ensures Span(Iovec(v.base + n, v.len - n)) + more == (Span(v) + more)[n..]
  {
  }

  lemma {:induction false} DropIsSuffix(iovs: seq<Iovec>, n: nat)
    requires n < TotalLen(iovs)
    ensures TotalLen(Drop(iovs, n)) == TotalLen(iovs) - n
    ensures Addrs(Drop(iovs, n)) == Addrs(iovs)[n..]
    decreases |iovs|
  {
    var head, rest := iovs[0], iovs[1..];
    if n < head.len {
      var v := Iovec(head.base + n, head.len - n);
      assert ([v] + rest)[1..] == rest;
      SpanSuffix(head, n, Addrs(rest));
    } else {
      DropIsSuffix(rest, n - head.len);
      assert (Span(head) + Addrs(rest))[n..] == Addrs(rest)[n - head.len..];
    }
  }

  /** Consecutive disk bytes from `offset` on, laid over the given addresses. */
  function Along(addrs: seq<nat>, offset: nat): (s: seq<Transfer>)
    ensures |s| == |addrs|
  {
    seq(|addrs|, i requires 0 <= i < |addrs| => Transfer(addrs[i], offset + i))
  }

  lemma AlongSplits(addrs: seq<nat>, offset: nat, k: nat, whole: seq<Transfer>, rest: seq<Transfer>)
    requires k <= |addrs|
    requires whole == Along(addrs, offset) && rest == Along(addrs[k..], offset + k)
    ensures whole[..k] + rest == whole
  {
  }

  /** What a request exchanges if it runs to its end: pairs in transfer order. */
  function Transfers(r: Request): (s: seq<Transfer>) {
    Along(Addrs(r.iovs), r.offset)
  }

  predicate WellSized(r: Request) {
    TotalLen(r.iovs) == r.size
  }

  /** The request left after the kernel reported `result` bytes: what is missing is counted from the list's end. */
  function Resume(r: Request, result: nat): (r': Request)
    requires result < r.size <= TotalLen(r.iovs) + result
  {
    var unset := r.size - result;
    Request(Drop(r.iovs, TotalLen(r.iovs) - unset), unset, r.offset + result)
  }

  /** One short result: what was transferred and what the next attempt will transfer are the two halves of the old
      request, and the new request is well sized again. */
  lemma {:induction false} ResumeSplitsTransfers(r: Request, result: nat)
    requires WellSized(r) && result < r.size
    ensures WellSized(Resume(r, result))
    ensures Transfers(r)[..result] + Transfers(Resume(r, result)) == Transfers(r)
  {
    var addrs, r' := Addrs(r.iovs), Resume(r, result);
    assert Addrs(r'.iovs) == addrs[result..] && TotalLen(r'.iovs) == r'.size by { DropIsSuffix(r.iovs, result); }
    AlongSplits(addrs, r.offset, result, Transfers(r), Transfers(r'));
  }

  /** A partial-read run: every result but the last is short for the request it answers. */
  predicate ShortRun(r: Request, results: seq<nat>)
    decreases results
  {
    results == [] || (results[0] < r.size <= TotalLen(r.iovs) && ShortRun(Resume(r, results[0]), results[1..]))
  }

  /** Everything the kernel transfers over such a run that is then answered in full. */
  function Transferred(r: Request, results: seq<nat>): (s: seq<Transfer>)
    requires ShortRun(r, results)
    decreases results
  {
    if results == [] then Transfers(r)
    else Transfers(r)[..results[0]] + Transferred(Resume(r, results[0]), results[1..])
  }

  /** Partial-read runs preserve the transfer map: whatever short results the kernel gives, every pair of the original
      request is transferred exactly once, in order, and nothing else is. */
  lemma {:induction false} PartialReadsPreserveTransfers(r: Request, results: seq<nat>)
    requires WellSized(r) && ShortRun(r, results)
    ensures Transferred(r, results) == Transfers(r)
    decreases results
  {
    if results != [] {
      ResumeSplitsTransfers(r, results[0]);
      PartialReadsPreserveTransfers(Resume(r, results[0]), results[1..]);
    }
  }

  /** No buffer byte is listed twice. */
  predicate Distinct(addrs: seq<nat>) {
    forall i, j :: 0 <= i < j < |addrs| ==> addrs[i] != addrs[j]
  }

  /** The buffer bytes still to be filled: those after `result` among the first `size` of the list. */
  function Wanted(r: Request, result: nat): seq<nat>
    requires result <= r.size && result <= TotalLen(r.iovs)
  {
    Addrs(r.iovs)[result..if r.size <= TotalLen(r.iovs) then r.size else TotalLen(r.iovs)]
  }

  /** With buffers that do not overlap, a resumed read fills the bytes it should exactly when the caller's size is the
      sum of the entries.  A longer list passes the debug assertion and resumes at a later byte, a shorter one at an
      earlier byte. */
  lemma ResumeNeedsExactSize(r: Request, result: nat)
    requires result < r.size <= TotalLen(r.iovs) + result && result <= TotalLen(r.iovs)
    requires Distinct(Addrs(r.iovs))
    ensures Addrs(Resume(r, result).iovs) == Wanted(r, result) <==> WellSized(r)
  {
    var addrs, start := Addrs(r.iovs), TotalLen(r.iovs) - (r.size - result);
    DropIsSuffix(r.iovs, start);
    if r.size < TotalLen(r.iovs) {
      assert addrs[start..][0] == addrs[start] != addrs[result] == Wanted(r, result)[0];
    }
  }

  /** One such list: two entries of two bytes, a request for three, one byte read.  Byte 1 of the buffer is skipped and
      byte 11, which the caller did not ask for, is written. */
  lemma LongerListReadsWrongBytes()
    ensures var r := Request([Iovec(0, 2), Iovec(10, 2)], 3, 0);
            && r.size <= TotalLen(r.iovs) && Distinct(Addrs(r.iovs))
            && Wanted(r, 1) == [1, 10] && Addrs(Resume(r, 1).iovs) == [10, 11]
  {
    var r := Request([Iovec(0, 2), Iovec(10, 2)], 3, 0);
    var rest := r.iovs[1..];
    assert rest == [Iovec(10, 2)] && rest[1..] == [];
    assert Span(Iovec(0, 2)) == [0, 1] && Span(Iovec(10, 2)) == [10, 11];
    assert Addrs(rest) == Span(rest[0]) + Addrs(rest[1..]) == [10, 11];
    assert Addrs(r.iovs) == [0, 1] + [10, 11] == [0, 1, 10, 11];
    assert TotalLen(rest) == 2 + TotalLen(rest[1..]) == 2;
    DropIsSuffix(r.iovs, 2);
  }

  /** Where entries overlap, a wrong start can go unnoticed: the size is not the sum, and the same byte is filled. */
  lemma OverlapHidesWrongStart()
    ensures var r := Request([Iovec(0, 1), Iovec(0, 1), Iovec(0, 1)], 2, 0);
            !Distinct(Addrs(r.iovs)) && !WellSized(r) && Addrs(Resume(r, 1).iovs) == Wanted(r, 1)
  {
    var v := Iovec(0, 1);
    var r := Request([v, v, v], 2, 0);
    assert r.iovs[1..] == [v, v] && [v, v][1..] == [v] && [v][1..] == [];
    assert Span(v) == [0];
    assert Addrs([v]) == [0] && Addrs([v, v]) == [0, 0] && Addrs(r.iovs) == [0, 0, 0];
    DropIsSuffix(r.iovs, 2);
    assert Addrs(r.iovs)[0] == Addrs(r.iovs)[1];
  }

  lemma {:induction false} SuffixIsShorter(iovs: seq<Iovec>, i: nat)
    requires i <= |iovs|
    ensures TotalLen(iovs[i..]) <= TotalLen(iovs)
    decreases i
  {
    if i > 0 {
      SuffixIsShorter(iovs[1..], i - 1);
      assert iovs[1..][i - 1..] == iovs[i..];
    } else {
      assert iovs[0..] == iovs;
    }
  }

  lemma SuffixHead(iovs: seq<Iovec>, i: nat)
    requires i < |iovs|
    ensures TotalLen(iovs[i..]) == iovs[i].len + TotalLen(iovs[i + 1..])
  {
    assert iovs[i..][1..] == iovs[i + 1..];
  }

  /** Where the backward scan stops is where the missing bytes begin. */
  lemma {:induction false} ScanFindsDrop(iovs: seq<Iovec>, i: nat, unset: nat)
    requires i < |iovs| && TotalLen(iovs[i + 1..]) < unset <= TotalLen(iovs[i..])
    ensures unset <= TotalLen(iovs) && unset - TotalLen(iovs[i + 1..]) <= iovs[i].len
    ensures var part := unset - TotalLen(iovs[i + 1..]);
            Drop(iovs, TotalLen(iovs) - unset) == [Iovec(iovs[i].base + (iovs[i].len - part), part)] + iovs[i + 1..]
    decreases i
  {
    SuffixHead(iovs, i);
    if i == 0 {
      assert iovs[0..] == iovs;
    } else {
      var rest := iovs[1..];
      assert rest[i - 1..] == iovs[i..] && rest[i..] == iovs[i + 1..];
      ScanFindsDrop(rest, i - 1, unset);
    }
  }

  class Iocb {
    var size: nat
    var offset: nat
    var result: int
    var iovcnt: nat
    /** The inline array of four entries, or the heap array a longer list was copied to. */
    var store: array<Iovec>

    ghost predicate Valid()
      reads this
    {
      iovcnt <= store.Length && INLINED_IOV_COUNT <= store.Length
    }

    ghost function Iovs(): (s: seq<Iovec>)
      requires Valid()
      reads this, store
    {
      store[..iovcnt]
    }

    ghost function Req(): (r: Request)
      requires Valid()
      reads this, store
    {
      Request(Iovs(), size, offset)
    }

    constructor (size: nat, offset: nat)
      ensures Valid() && fresh(store)
      ensures Req() == Request([], size, offset) && result == -1
    {
      this.size, this.offset, result, iovcnt := size, offset, -1, 0;
      store := new Iovec[INLINED_IOV_COUNT](_ => Iovec(0, 0));
    }

    /** Copies the caller's list, moving to the heap only when it does not fit the inline array; an earlier heap array
        is always long enough for a list that fits the inline one. */
    method SetIovs(iovs: seq<Iovec>)
      requires Valid()
      modifies this`iovcnt, this`store, store
      ensures Valid() && Iovs() == iovs
      ensures store == old(store) || fresh(store)
      ensures store != old(store) <==> |iovs| > INLINED_IOV_COUNT
    {
      iovcnt := |iovs|;
      if iovcnt > INLINED_IOV_COUNT {
        store := new Iovec[iovcnt](_ => Iovec(0, 0));
      }
      for i := 0 to iovcnt
        invariant iovcnt == |iovs| <= store.Length && INLINED_IOV_COUNT <= store.Length
        invariant store == old(store) || fresh(store)
        invariant store != old(store) <==> |iovs| > INLINED_IOV_COUNT
        invariant store[..i] == iovs[..i]
      {
        store[i] := iovs[i];
      }
    }

    /** Counts the missing bytes from the last entry backwards: how many entries hold them, and how much of the first of
        these is still missing when it was partly filled (0 when it was not touched). */
    method CountUnset(sizeUnset: nat) returns (numUnset: nat, part: nat)
      requires Valid()
      requires 0 < sizeUnset <= TotalLen(Iovs())
      ensures 1 <= numUnset <= iovcnt
      ensures var i := iovcnt - numUnset;
              && TotalLen(Iovs()[i + 1..]) < sizeUnset <= TotalLen(Iovs()[i..])
              && part == if sizeUnset == TotalLen(Iovs()[i..]) then 0 else sizeUnset - TotalLen(Iovs()[i + 1..])
    {
      numUnset, part := 1, 0;
      ghost var iovs := Iovs();
      assert iovs[iovcnt..] == [] && iovs[0..] == iovs;
      var remaining, i: int := 0, iovcnt - 1;
      while i >= 0
        invariant -1 <= i < iovcnt && numUnset == iovcnt - i
        invariant remaining == TotalLen(iovs[i + 1..]) < sizeUnset && part == 0
        decreases i
      {
        SuffixHead(iovs, i);
        remaining := remaining + store[i].len;
        assert remaining == TotalLen(iovs[i..]);
        if remaining == sizeUnset {
          break;
        } else if remaining > sizeUnset {
          part := store[i].len - (remaining - sizeUnset);
          break;
        }
        i, numUnset := i - 1, numUnset + 1;
      }
    }

    /** The scratch list: the rest of a partly filled entry, then the untouched ones. */
    method CopyUnset(numUnset: nat, part: nat) returns (iovsUnset: array<Iovec>)
      requires Valid() && 1 <= numUnset <= iovcnt && part <= Iovs()[iovcnt - numUnset].len
      ensures fresh(iovsUnset) && iovsUnset.Length == numUnset
      ensures var first := Iovs()[iovcnt - numUnset];
              iovsUnset[0] == if part > 0 then Iovec(first.base + (first.len - part), part) else first
      ensures forall k :: 1 <= k < numUnset ==> iovsUnset[k] == Iovs()[iovcnt - numUnset + k]
    {
      var first := iovcnt - numUnset;
      iovsUnset := new Iovec[numUnset](_ => Iovec(0, 0));
      var start := 0;
      if part > 0 {
        iovsUnset[0] := Iovec(store[first].base + (store[first].len - part), part);
        start := 1;
      }
      for k := start to numUnset
        invariant start == 1 ==> iovsUnset[0] == Iovec(store[first].base + (store[first].len - part), part)
        invariant forall j :: start <= j < k ==> iovsUnset[j] == store[first + j]
      {
        iovsUnset[k] := store[first + k];
      }
    }

    method UnsetIovs(sizeUnset: nat) returns (iovsUnset: array<Iovec>)
      requires Valid() && 0 < sizeUnset <= TotalLen(Iovs())
      ensures fresh(iovsUnset) && iovsUnset[..] == Drop(Iovs(), TotalLen(Iovs()) - sizeUnset)
    {
      var numUnset, part := CountUnset(sizeUnset);
      ghost var iovs, i := Iovs(), iovcnt - numUnset;
      ScanFindsDrop(iovs, i, sizeUnset);
      SuffixHead(iovs, i);
      iovsUnset := CopyUnset(numUnset, part);
      assert iovsUnset[..] == [iovsUnset[0]] + iovs[i + 1..];
    }

    /** The assertion of the source that the entries cover the missing bytes is the precondition. */
    method UpdateIovsOnPartialResult()
      requires Valid()
      requires 0 <= result < size <= TotalLen(Iovs()) + result
      modifies this`iovcnt, this`store, this`size, this`offset, store
      ensures Valid() && result == old(result)
      ensures Req() == Resume(old(Req()), result)
    {
      var sizeUnset := size - result;
      var iovsUnset := UnsetIovs(sizeUnset);
      SetIovs(iovsUnset[..]);
      size := sizeUnset;
      offset := offset + result;
    }
  }
}
