/** The I/O watchdog (src/lib/watchdog.cpp): requests kept in an ordered map by a running id, and a periodic scan that
    stops at the first request young enough. */
module Watchdog {

  /** A map entry: the id it is kept under, the request, and the time the request was created. */
  datatype Entry = Entry(id: nat, iocb: nat, start: nat)

  /** An ordered map, as the sequence of its entries. */
  predicate ById(es: seq<Entry>) {
    forall i, j :: 0 <= i < j < |es| ==> es[i].id < es[j].id
  }

  /** Started long enough ago when the clock shows `now`. */
  predicate TimedOut(e: Entry, now: int, limit: nat) {
    now - e.start >= limit
  }

  /** The clock is read anew for every entry; it does not go back, nor start before any request did. */
  predicate Readings(es: seq<Entry>, clock: seq<int>) {
    && |clock| == |es|
    && (forall i :: 0 <= i < |es| ==> es[i].start <= clock[i])
    && (forall i, j :: 0 <= i < j < |clock| ==> clock[i] <= clock[j])
  }

  /** A full scan with those readings. */
  function AllTimedOut(es: seq<Entry>, clock: seq<int>, limit: nat): seq<Entry>
    requires |clock| == |es|
  {
    if es == [] then []
    else (if TimedOut(es[0], clock[0], limit) then [es[0]] else []) + AllTimedOut(es[1..], clock[1..], limit)
  }

  /** No request found timed out is kept behind one found young. */
  predicate OldestFirst(es: seq<Entry>, clock: seq<int>, limit: nat)
    requires |clock| == |es|
  {
    forall i, j :: 0 <= i < j < |es| && TimedOut(es[j], clock[j], limit) ==> TimedOut(es[i], clock[i], limit)
  }

  lemma {:induction false} FullScanAfterYoung(es: seq<Entry>, clock: seq<int>, k: nat, limit: nat)
    requires |clock| == |es| && k <= |es| && (forall i :: 0 <= i < k ==> TimedOut(es[i], clock[i], limit))
    ensures AllTimedOut(es, clock, limit) == es[..k] + AllTimedOut(es[k..], clock[k..], limit)
    decreases k
  {
    if k == 0 {
      assert es[0..] == es && clock[0..] == clock;
    } else {
      var rest, later := es[1..], clock[1..];
      FullScanAfterYoung(rest, later, k - 1, limit);
      assert AllTimedOut(es, clock, limit) == [es[0]] + AllTimedOut(rest, later, limit);
      assert rest[k - 1..] == es[k..] && later[k - 1..] == clock[k..] && es[..k] == [es[0]] + rest[..k - 1];
    }
  }

  lemma {:induction false} NothingFoundIff(es: seq<Entry>, clock: seq<int>, limit: nat)
    requires |clock| == |es|
    ensures AllTimedOut(es, clock, limit) == [] <==> forall i :: 0 <= i < |es| ==> !TimedOut(es[i], clock[i], limit)
    decreases |es|
  {
    if es != [] {
      NothingFoundIff(es[1..], clock[1..], limit);
      assert forall i :: 1 <= i < |es| ==> es[i] == es[1..][i - 1] && clock[i] == clock[1..][i - 1];
    }
  }

  /** Stopping at entry `k`, the first young one, reports what a full scan reports exactly when no older request sits
      behind a younger one. */
  lemma EarlyExitIff(es: seq<Entry>, clock: seq<int>, k: nat, limit: nat)
    requires |clock| == |es| && k <= |es| && (forall i :: 0 <= i < k ==> TimedOut(es[i], clock[i], limit))
    requires k < |es| ==> !TimedOut(es[k], clock[k], limit)
    ensures es[..k] == AllTimedOut(es, clock, limit) <==> OldestFirst(es, clock, limit)
  {
    FullScanAfterYoung(es, clock, k, limit);
    NothingFoundIff(es[k..], clock[k..], limit);
    assert es[..k] == AllTimedOut(es, clock, limit) <==> AllTimedOut(es[k..], clock[k..], limit) == [];
    if AllTimedOut(es[k..], clock[k..], limit) != [] {
      var i :| 0 <= i < |es[k..]| && TimedOut(es[k..][i], clock[k..][i], limit);
      assert TimedOut(es[k + i], clock[k + i], limit);
    } else {
      forall j | k <= j < |es| ensures !TimedOut(es[j], clock[j], limit) {
        assert es[j] == es[k..][j - k] && clock[j] == clock[k..][j - k];
      }
    }
  }

  /** Under every limit at once that is so exactly when the ages, as read, do not grow along the map.  Start times that
      grow with the ids are not enough, since the clock moves during the scan. */
  lemma OldestFirstIff(es: seq<Entry>, clock: seq<int>)
    requires Readings(es, clock)
    ensures (forall limit :: OldestFirst(es, clock, limit))
            <==> forall i, j :: 0 <= i < j < |es| ==> clock[j] - es[j].start <= clock[i] - es[i].start
  {
    if forall limit :: OldestFirst(es, clock, limit) {
      forall i, j | 0 <= i < j < |es| ensures clock[j] - es[j].start <= clock[i] - es[i].start {
        assert OldestFirst(es, clock, clock[j] - es[j].start);
        assert TimedOut(es[j], clock[j], clock[j] - es[j].start);
      }
    }
  }

  /** Two requests started together: the first is read just before it times out, the second just when it does, and the
      scan has stopped in between. */
  lemma GrowingStartsNotEnough()
    ensures var es, clock := [Entry(1, 0, 10), Entry(2, 1, 10)], [19, 20];
            && ById(es) && Readings(es, clock) && es[0].start <= es[1].start
            && !OldestFirst(es, clock, 10) && TimedOut(es[1], clock[1], 10) && !TimedOut(es[0], clock[0], 10)
  {
    var es, clock := [Entry(1, 0, 10), Entry(2, 1, 10)], [19, 20];
    assert TimedOut(es[1], clock[1], 10) && !TimedOut(es[0], clock[0], 10);
  }

  /** They are enough for this: no request that had timed out when the scan began is missed. */
  lemma NoneMissedSinceStart(es: seq<Entry>, clock: seq<int>, k: nat, j: nat, limit: nat)
    requires Readings(es, clock) && k < |es| && !TimedOut(es[k], clock[k], limit)
    requires forall a, b :: 0 <= a < b < |es| ==> es[a].start <= es[b].start
    requires k <= j < |es|
    ensures !TimedOut(es[j], clock[0], limit)
  {
    assert clock[0] <= clock[k] && es[k].start <= es[j].start;
  }

  class IOWatchDog {
    var outstanding: seq<Entry>      // m_outstanding_ios
    var uniqueId: nat                // m_unique_id

    ghost predicate Valid()
      reads this
    {
      ById(outstanding) && forall i :: 0 <= i < |outstanding| ==> outstanding[i].id <= uniqueId
    }

    constructor ()
      ensures Valid() && outstanding == [] && uniqueId == 0
    {
      outstanding, uniqueId := [], 0;
    }

    /** Ids are new and larger than all before, so the insertion never replaces an entry and goes to the end. */
    method AddIo(iocb: nat, start: nat) returns (id: nat)
      requires Valid()
      modifies this
      ensures Valid() && id == uniqueId == old(uniqueId) + 1
      ensures forall i :: 0 <= i < |old(outstanding)| ==> old(outstanding)[i].id < id
      ensures outstanding == old(outstanding) + [Entry(id, iocb, start)]
    {
      uniqueId := uniqueId + 1;
      id := uniqueId;
      outstanding := outstanding + [Entry(id, iocb, start)];
    }

    /** Erases the entry of that id, and says how many there were: one for a registered request, none otherwise. */
    method CompleteIo(id: nat) returns (erased: nat)
      requires Valid()
      modifies this`outstanding
      ensures Valid() && erased <= 1
      ensures erased == 1 <==> exists i :: 0 <= i < |old(outstanding)| && old(outstanding)[i].id == id
      ensures erased == 0 ==> outstanding == old(outstanding)
      ensures erased == 1 ==> exists i :: 0 <= i < |old(outstanding)| && old(outstanding)[i].id == id
                                          && outstanding == old(outstanding)[..i] + old(outstanding)[i + 1..]
    {
      var i := 0;
      while i < |outstanding| && outstanding[i].id != id
        invariant i <= |outstanding| && forall k :: 0 <= k < i ==> outstanding[k].id != id
      {
        i := i + 1;
      }
      erased := 0;
      if i < |outstanding| {
        outstanding := outstanding[..i] + outstanding[i + 1..];
        erased := 1;
      }
    }

    /** The scan; the caller aborts when it returns anything. */
    method IoTimer(clock: seq<int>, limit: nat) returns (timeouts: seq<Entry>)
      requires Valid() && Readings(outstanding, clock)
      ensures timeouts <= outstanding && forall i :: 0 <= i < |timeouts| ==> clock[i] - timeouts[i].start >= limit
      ensures |timeouts| < |outstanding| ==> clock[|timeouts|] - outstanding[|timeouts|].start < limit
      ensures timeouts == AllTimedOut(outstanding, clock, limit) <==> OldestFirst(outstanding, clock, limit)
    {
      timeouts := [];
      for i := 0 to |outstanding|
        invariant timeouts == outstanding[..i]
        invariant forall k :: 0 <= k < i ==> TimedOut(outstanding[k], clock[k], limit)
      {
        if TimedOut(outstanding[i], clock[i], limit) {
          timeouts := timeouts + [outstanding[i]];
        } else {
          break;
        }
      }
      EarlyExitIff(outstanding, clock, |timeouts|, limit);
    }
  }
}
