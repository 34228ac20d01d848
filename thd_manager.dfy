/**
 * Global_THD_manager: the server's registry of session objects (THDs) and
 * of the thread ids in use. The THD list is kept sorted by the THD's
 * address; the ids in use form a set in which the reserved id 0 stays until
 * the manager is destroyed, so it is never handed out.
 */
module ThdManager {
  import opened Wrappers

  /** my_thread_id: a 32-bit unsigned integer. */
  newtype uint32 = x: int | 0 <= x < 0x1_0000_0000

  const ReservedThreadId: uint32 := 0

  /** `thread_id_counter++` on a 32-bit counter: wraps from 2^32 - 1 to 0. */
  function Next(c: uint32): (r: uint32)
    ensures r as int == (c as int + 1) % 0x1_0000_0000
  {
    if c == 0xFFFF_FFFF then 0 else c + 1
  }

  /** How many increments take the counter from `a` to `b`. */
  function Dist(a: uint32, b: uint32): (d: nat)
    ensures d < 0x1_0000_0000
    ensures d == 0 <==> a == b
    ensures (a as int + d) % 0x1_0000_0000 == b as int
  {
    if b >= a then (b - a) as int else b as int - a as int + 0x1_0000_0000
  }

  /** The id `k` increments after `a`. */
  function Ahead(a: uint32, k: nat): uint32
  {
    ((a as int + k) % 0x1_0000_0000) as uint32
  }

  /** A session as the registry sees it: its address (its identity) and its thread id. */
  datatype Thd = Thd(addr: nat, threadId: uint32)

  /** Sorted by address, no address twice: the shape Prealloced_array::insert_unique keeps. */
  predicate StrictlySorted(s: seq<Thd>)
  {
    forall i, j :: 0 <= i < j < |s| ==> s[i].addr < s[j].addr
  }

  /** Whether some entry of `s` has address `addr`. */
  predicate HasAddr(s: seq<Thd>, addr: nat)
  {
    exists i :: 0 <= i < |s| && s[i].addr == addr
  }

  /** std::lower_bound by address: the first position whose address is not below `addr`. */
  method LowerBound(s: seq<Thd>, addr: nat) returns (pos: nat)
    requires StrictlySorted(s)
    ensures pos <= |s|
    ensures forall i :: 0 <= i < pos ==> s[i].addr < addr
    ensures forall i :: pos <= i < |s| ==> s[i].addr >= addr
  {
    var lo, hi := 0, |s|;
    while lo < hi
      invariant 0 <= lo <= hi <= |s|
      invariant forall i :: 0 <= i < lo ==> s[i].addr < addr
      invariant forall i :: hi <= i < |s| ==> s[i].addr >= addr
    {
      var mid := (lo + hi) / 2;
      if s[mid].addr < addr {
        lo := mid + 1;
      } else {
        hi := mid;
      }
    }
    pos := lo;
  }

  /** The first entry of `s` that satisfies `pred`, as std::find_if finds it. */
  predicate IsFirstMatch(s: seq<Thd>, pred: Thd -> bool, i: nat)
  {
    i < |s| && pred(s[i]) && forall j :: 0 <= j < i ==> !pred(s[j])
  }

  /**
   * std::find_if over a list of THDs, returning the element or NULL.
   */
  method FindFirst(s: seq<Thd>, pred: Thd -> bool) returns (r: Option<Thd>)
    ensures r.None? <==> forall j :: 0 <= j < |s| ==> !pred(s[j])
    ensures r.Some? ==> exists i: nat :: IsFirstMatch(s, pred, i) && s[i] == r.value
  {
    var i := 0;
    while i < |s|
      invariant i <= |s|
      invariant forall j :: 0 <= j < i ==> !pred(s[j])
    {
      if pred(s[i]) {
        assert IsFirstMatch(s, pred, i);
        return Some(s[i]);
      }
      i := i + 1;
    }
    return None;
  }

  class GlobalThdManager {
    /** thd_list: the registered sessions, sorted by address. */
    var thdList: seq<Thd>
    /** thread_ids: the ids in use. */
    var threadIds: set<uint32>
    /** thread_id_counter: where the search for the next free id starts. */
    var threadIdCounter: uint32
    /** global_thd_count: a static counter in the source, kept equal to the length of thd_list. */
    var globalThdCount: int

    /** The invariant every public operation keeps. */
    ghost predicate Valid()
      reads this
    {
      StrictlySorted(thdList) && globalThdCount == |thdList|
    }

    /** The constructor: an empty list, the counter just past the reserved id, the reserved id in use. */
    constructor ()
      ensures Valid()
      ensures thdList == [] && globalThdCount == 0
      ensures threadIdCounter == ReservedThreadId + 1 && threadIds == {ReservedThreadId}
    {
      thdList := [];
      threadIds := {ReservedThreadId};
      threadIdCounter := ReservedThreadId + 1;
      globalThdCount := 0;
    }

    /**
     * The destructor: releases the reserved id, after which both the list
     * and the id set must be empty.
     */
    method Destroy()
      requires thdList == [] && threadIds <= {ReservedThreadId}
      modifies this
      ensures threadIds == {} && thdList == []
      ensures threadIdCounter == old(threadIdCounter) && globalThdCount == old(globalThdCount)
    {
      threadIds := threadIds - {ReservedThreadId};
    }

    /**
     * add_thd: inserts the THD at its place by address unless a THD with the
     * same address is already listed, and counts it only when inserted.
     * Debug builds assert `inserted`.
     */
    method AddThd(thd: Thd) returns (inserted: bool)
      requires thd.threadId != ReservedThreadId
      requires Valid()
      modifies this
      ensures Valid()
      ensures inserted <==> !HasAddr(old(thdList), thd.addr)
      ensures inserted ==> thd in thdList && multiset(thdList) == multiset(old(thdList)) + multiset{thd}
      ensures !inserted ==> thdList == old(thdList)
      ensures globalThdCount == old(globalThdCount) + (if inserted then 1 else 0)
      ensures threadIds == old(threadIds) && threadIdCounter == old(threadIdCounter)
    {
      var pos := LowerBound(thdList, thd.addr);
      inserted := !(pos < |thdList| && thdList[pos].addr == thd.addr);
      if inserted {
        assert !HasAddr(thdList, thd.addr);
        assert thdList == thdList[..pos] + thdList[pos..];
        thdList := thdList[..pos] + [thd] + thdList[pos..];
        globalThdCount := globalThdCount + 1;
      }
    }

    /**
     * remove_thd: erases the THD with this address, if listed, and uncounts
     * it only when one entry was erased. Debug builds assert `erased == 1`.
     */
    method RemoveThd(thd: Thd) returns (erased: nat)
      requires Valid()
      modifies this
      ensures Valid()
      ensures erased == 1 <==> HasAddr(old(thdList), thd.addr)
      ensures erased <= 1
      ensures !HasAddr(thdList, thd.addr)
      ensures erased == 1 ==> exists i :: (0 <= i < |old(thdList)| && old(thdList)[i].addr == thd.addr &&
        thdList == old(thdList)[..i] + old(thdList)[i + 1..])
      ensures erased == 0 ==> thdList == old(thdList)
      ensures globalThdCount == old(globalThdCount) - erased
      ensures threadIds == old(threadIds) && threadIdCounter == old(threadIdCounter)
    {
      var pos := LowerBound(thdList, thd.addr);
      if pos < |thdList| && thdList[pos].addr == thd.addr {
        ghost var before := thdList;
        thdList := thdList[..pos] + thdList[pos + 1..];
        erased := 1;
        globalThdCount := globalThdCount - 1;
        assert forall i :: 0 <= i < |thdList| ==> thdList[i] == (if i < pos then before[i] else before[i + 1]);
      } else {
        erased := 0;
      }
    }

    /**
     * get_new_thread_id: takes ids from the counter, wrapping at 2^32, until
     * one is not in use, marks it in use and returns it. The loop ends only
     * if some id is free.
     */
    method GetNewThreadId() returns (newId: uint32)
      requires exists f: uint32 :: f !in threadIds
      modifies this
      ensures newId !in old(threadIds)
      ensures ReservedThreadId in old(threadIds) ==> newId != ReservedThreadId
      ensures threadIds == old(threadIds) + {newId}
      ensures threadIdCounter == Next(newId)
      ensures forall k :: 0 <= k < Dist(old(threadIdCounter), newId) ==> Ahead(old(threadIdCounter), k) in threadIds
      ensures thdList == old(thdList) && globalThdCount == old(globalThdCount)
    {
      ghost var free: uint32 :| free !in threadIds;
      ghost var start := threadIdCounter;
      newId := threadIdCounter;
      threadIdCounter := Next(threadIdCounter);
      while newId in threadIds
        invariant threadIdCounter == Next(newId)
        invariant threadIds == old(threadIds) && free !in threadIds
        invariant thdList == old(thdList) && globalThdCount == old(globalThdCount)
        invariant Dist(start, newId) <= Dist(start, free)
        invariant forall k :: 0 <= k < Dist(start, newId) ==> Ahead(start, k) in threadIds
        decreases Dist(newId, free)
      {
        assert Ahead(start, Dist(start, newId)) == newId;
        DistStep(start, newId, free);
        newId := threadIdCounter;
        threadIdCounter := Next(threadIdCounter);
      }
      threadIds := threadIds + {newId};
    }

    /** release_thread_id: the reserved id is never released; any other id leaves the set. */
    method ReleaseThreadId(threadId: uint32) returns (erased: nat)
      modifies this
      ensures threadId == ReservedThreadId ==> threadIds == old(threadIds) && erased == 0
      ensures threadId != ReservedThreadId ==> threadIds == old(threadIds) - {threadId}
      ensures threadId != ReservedThreadId ==> (erased == 1 <==> threadId in old(threadIds))
      ensures erased <= 1
      ensures thdList == old(thdList) && globalThdCount == old(globalThdCount)
      ensures threadIdCounter == old(threadIdCounter)
    {
      if threadId == ReservedThreadId {
        return 0;
      }
      erased := if threadId in threadIds then 1 else 0;
      threadIds := threadIds - {threadId};
    }

    /** find_thd: the first registered THD, in list order, that `pred` accepts, or NULL. */
    method FindThd(pred: Thd -> bool) returns (r: Option<Thd>)
      ensures r.None? <==> forall j :: 0 <= j < |thdList| ==> !pred(thdList[j])
      ensures r.Some? ==> exists i: nat :: IsFirstMatch(thdList, pred, i) && thdList[i] == r.value
    {
      r := FindFirst(thdList, pred);
    }
  }

  /** One more increment: the id just taken was in use, so the free id is still ahead. */
  lemma DistStep(start: uint32, cur: uint32, free: uint32)
    requires cur != free
    requires Dist(start, cur) <= Dist(start, free)
    ensures Dist(Next(cur), free) < Dist(cur, free)
    ensures Dist(start, Next(cur)) == Dist(start, cur) + 1 <= Dist(start, free)
  {
  }
}
