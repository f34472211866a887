/** The slot table: slot ids 1..n, each Free or Occupied by a vehicle since
    an entry time, and the quantities the program derives from it (the list
    of Free slot ids and the occupancy counts).
 */
module Slots {

  /** One parking slot. A vehicle and an entry time are present exactly when
      the slot is Occupied, which the variant enforces by construction. */
  datatype Slot = Free | Occupied(vehicle: string, entryTime: nat)

  type Table = map<int, Slot>

  /** The table holds exactly the ids 1..n. */
  ghost predicate HasIds(t: Table, n: nat)
  {
    forall i :: i in t <==> 1 <= i <= n
  }

  predicate IsFree(t: Table, i: int)
  {
    i in t && t[i].Free?
  }

  predicate IsOccupied(t: Table, i: int)
  {
    i in t && t[i].Occupied?
  }

  /** The table the program starts from: ids 1..n, all Free. */
  function InitialTable(n: nat): (t: Table)
    ensures HasIds(t, n)
    ensures forall i :: i in t ==> t[i] == Free
  {
    if n == 0 then map[] else InitialTable(n - 1)[n := Free]
  }

  /** The Free slot ids among 1..n, in ascending order. */
  function FreeIds(t: Table, n: nat): (ids: seq<int>)
    ensures forall k :: 0 <= k < |ids| ==> 1 <= ids[k] <= n && IsFree(t, ids[k])
    ensures forall i :: 1 <= i <= n && IsFree(t, i) ==> i in ids
    ensures forall j, k :: 0 <= j < k < |ids| ==> ids[j] < ids[k]
  {
    if n == 0 then []
    else FreeIds(t, n - 1) + (if IsFree(t, n) then [n] else [])
  }

  /** The number of Free slots among 1..n. */
  function CountFree(t: Table, n: nat): (c: nat)
    ensures c <= n
  {
    if n == 0 then 0 else CountFree(t, n - 1) + (if IsFree(t, n) then 1 else 0)
  }

  /** The number of Occupied slots among 1..n. */
  function CountOccupied(t: Table, n: nat): (c: nat)
    ensures c <= n
  {
    if n == 0 then 0 else CountOccupied(t, n - 1) + (if IsOccupied(t, n) then 1 else 0)
  }

  /** The Free list has one entry per Free slot. */
  lemma {:induction false} CountFreeIsFreeIds(t: Table, n: nat)
    ensures CountFree(t, n) == |FreeIds(t, n)|
  {
    if n > 0 {
      CountFreeIsFreeIds(t, n - 1);
    }
  }

  /** Every slot of the table is either Free or Occupied. */
  lemma {:induction false} CountsAddUp(t: Table, n: nat)
    requires HasIds(t, n)
    ensures CountFree(t, n) + CountOccupied(t, n) == n
  {
    if n > 0 {
      CountsAddUp(t - {n}, n - 1);
      CountFreeIgnoresOutside(t, n - 1, n);
      CountOccupiedIgnoresOutside(t, n - 1, n);
    }
  }

  lemma {:induction false} CountFreeIgnoresOutside(t: Table, m: nat, k: int)
    requires k > m
    ensures CountFree(t - {k}, m) == CountFree(t, m)
  {
    if m > 0 {
      CountFreeIgnoresOutside(t, m - 1, k);
    }
  }

  lemma {:induction false} CountOccupiedIgnoresOutside(t: Table, m: nat, k: int)
    requires k > m
    ensures CountOccupied(t - {k}, m) == CountOccupied(t, m)
  {
    if m > 0 {
      CountOccupiedIgnoresOutside(t, m - 1, k);
    }
  }

  /** Replacing one slot changes the Free count by what the slot gained or lost. */
  lemma {:induction false} CountFreeAfterUpdate(t: Table, n: nat, i: int, s: Slot)
    requires 1 <= i <= n && i in t
    ensures CountFree(t[i := s], n)
         == CountFree(t, n) - (if t[i].Free? then 1 else 0) + (if s.Free? then 1 else 0)
  {
    if n > i {
      CountFreeAfterUpdate(t, n - 1, i, s);
    } else {
      CountFreeUnchangedBelow(t, n - 1, i, s);
    }
  }

  lemma {:induction false} CountFreeUnchangedBelow(t: Table, m: nat, i: int, s: Slot)
    requires m < i
    ensures CountFree(t[i := s], m) == CountFree(t, m)
  {
    if m > 0 {
      CountFreeUnchangedBelow(t, m - 1, i, s);
    }
  }

  /** In the initial table every slot is Free and none is Occupied. */
  lemma {:induction false} InitialCounts(n: nat)
    ensures CountFree(InitialTable(n), n) == n
    ensures CountOccupied(InitialTable(n), n) == 0
  {
    AllFreeCounts(InitialTable(n), n);
  }

  lemma {:induction false} AllFreeCounts(t: Table, m: nat)
    requires forall i :: 1 <= i <= m ==> i in t && t[i] == Free
    ensures CountFree(t, m) == m && CountOccupied(t, m) == 0
  {
    if m > 0 {
      AllFreeCounts(t, m - 1);
    }
  }

  /** The head of the Free list is the lowest-numbered Free slot. */
  lemma FirstFreeIsLowest(t: Table, n: nat)
    requires FreeIds(t, n) != []
    ensures IsFree(t, FreeIds(t, n)[0])
    ensures forall j :: 1 <= j < FreeIds(t, n)[0] ==> !IsFree(t, j)
  {
  }

  /** Slots 1..k are Occupied and slots k+1..n are Free. */
  ghost predicate FilledPrefix(t: Table, n: nat, k: nat)
  {
    k <= n
    && (forall j :: 1 <= j <= k ==> IsOccupied(t, j))
    && (forall j :: k < j <= n ==> IsFree(t, j))
  }

  /** Occupying slot k+1 extends a filled prefix by one. */
  lemma FilledPrefixStep(t: Table, n: nat, k: nat, s: Slot)
    requires FilledPrefix(t, n, k) && k < n && s.Occupied?
    ensures FilledPrefix(t[k + 1 := s], n, k + 1)
  {
    var u := t[k + 1 := s];
    forall j | 1 <= j <= k + 1
      ensures IsOccupied(u, j)
    {
      if j <= k {
        assert IsOccupied(t, j);
      }
    }
    forall j | k + 1 < j <= n
      ensures IsFree(u, j)
    {
      assert IsFree(t, j);
    }
  }

  /** When slots 1..k are Occupied and k+1..n are Free, the Free list is
      k+1..n, so its head is k+1 (or it is empty once k reaches n). */
  lemma {:induction false} FreeIdsOfFilledPrefix(t: Table, n: nat, k: nat)
    requires FilledPrefix(t, n, k)
    ensures k == n <==> FreeIds(t, n) == []
    ensures k < n ==> FreeIds(t, n)[0] == k + 1
  {
    var ids := FreeIds(t, n);
    assert forall p :: 0 <= p < |ids| ==> !IsOccupied(t, ids[p]);
    assert forall p :: 0 <= p < |ids| ==> k < ids[p];
    if k < n {
      assert k + 1 in ids;
      assert forall p :: 0 <= p < |ids| ==> ids[0] <= ids[p];
    }
  }
}
