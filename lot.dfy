/** The admin session's parking lot: the slot table it mutates in place, the
    two append-only logs that stand for the parking-event and billing CSV
    files, and the three actions that change them (manual entry, ANPR
    auto-park, bill and exit).
 */
module Lot {

  import opened Wrappers
  import opened Billing
  import opened Plates
  import opened Slots

  /** Number of slots in the lot; ids run from 1 to TotalSlots. */
  const TotalSlots: nat := 5

  /** A row of the parking-event log: the slot became Occupied by `vehicle`. */
  datatype ParkingEvent = ParkingEvent(slot: int, vehicle: string, entryTime: nat)

  /** A row of the billing log. */
  datatype BillingRecord = BillingRecord(
    vehicle: string, slot: int, entryTime: nat, exitTime: nat, minutes: nat, amount: nat)

  /** The dashboard's three figures. */
  datatype Occupancy = Occupancy(total: nat, free: nat, occupied: nat)

  datatype EntryOutcome = Parked(slot: int) | ParkingFull

  datatype AnprOutcome = AutoParked(plate: string, slot: int) | Full

  /** `InvoiceFailed`: the billing row was written, then writing the PDF
      invoice failed, so the request stopped before the slot was freed. */
  datatype BillOutcome = Billed(record: BillingRecord) | InvoiceFailed(record: BillingRecord) | AlreadyFree

  /** The record for a vehicle leaving `slot` at `exit`; the charge follows
      the billing rule for the whole minutes it stayed. */
  function BillFor(slot: int, vehicle: string, entry: nat, exit: nat): (r: BillingRecord)
    requires entry <= exit
    ensures r.vehicle == vehicle && r.slot == slot && r.entryTime == entry && r.exitTime == exit
    ensures r.minutes * 60 <= exit - entry < r.minutes * 60 + 60
    ensures r.amount >= RatePerHour && r.amount % RatePerHour == 0
    ensures r.amount == Hours(r.minutes) * RatePerHour
  {
    var minutes := Minutes(exit - entry);
    BillingRecord(vehicle, slot, entry, exit, minutes, Fee(minutes))
  }

  class ParkingLot {
    /** Slot id to slot state; the keys never change after creation. */
    var slots: Table
    /** Rows appended to the parking-event log, oldest first. */
    ghost var parkingLog: seq<ParkingEvent>
    /** Rows appended to the billing log, oldest first. */
    ghost var billingLog: seq<BillingRecord>

    ghost predicate Valid()
      reads this
    {
      HasIds(slots, TotalSlots)
    }

    /** A new session: every slot Free, nothing logged. */
    constructor ()
      ensures Valid()
      ensures forall i :: i in slots ==> slots[i] == Free
      ensures CountFree(slots, TotalSlots) == TotalSlots
      ensures parkingLog == [] && billingLog == []
    {
      slots := InitialTable(TotalSlots);
      parkingLog := [];
      billingLog := [];
      InitialCounts(TotalSlots);
    }

    /** The Free slot ids in ascending order, as offered by the slot pickers. */
    function FreeSlots(): (ids: seq<int>)
      reads this
      ensures forall k :: 0 <= k < |ids| ==> 1 <= ids[k] <= TotalSlots && IsFree(slots, ids[k])
      ensures forall i :: 1 <= i <= TotalSlots && IsFree(slots, i) ==> i in ids
      ensures forall j, k :: 0 <= j < k < |ids| ==> ids[j] < ids[k]
      ensures |ids| == CountFree(slots, TotalSlots)
    {
      CountFreeIsFreeIds(slots, TotalSlots);
      FreeIds(slots, TotalSlots)
    }

    /** Total, Free and Occupied counts shown on the dashboard. */
    function Counts(): (c: Occupancy)
      reads this
      requires Valid()
      ensures c.total == TotalSlots
      ensures c.free + c.occupied == c.total
      ensures c.free == |FreeIds(slots, TotalSlots)|
      ensures c.occupied == CountOccupied(slots, TotalSlots)
    {
      var free := CountFree(slots, TotalSlots);
      CountFreeIsFreeIds(slots, TotalSlots);
      CountsAddUp(slots, TotalSlots);
      Occupancy(TotalSlots, free, TotalSlots - free)
    }

    /** Whole minutes a slot has been occupied at `now`, as the dashboard
        shows it; None for a Free slot. */
    function ParkedMinutes(slot: int, now: nat): (m: Option<nat>)
      reads this
      requires slot in slots
      requires slots[slot].Occupied? ==> slots[slot].entryTime <= now
      ensures m.None? <==> slots[slot].Free?
      ensures m.Some? ==> m.value * 60 <= now - slots[slot].entryTime < m.value * 60 + 60
    {
      match slots[slot]
      case Free => None
      case Occupied(_, entry) => Some(Minutes(now - entry))
    }

    /** Manual entry: park `vehicle` in the chosen slot at `now`. The slot
        picker offers only Free slots, so the chosen slot is Free unless
        there is none, in which case the lot is full and nothing happens. */
    method ParkManual(slot: int, vehicle: string, now: nat) returns (r: EntryOutcome)
      requires Valid()
      requires IsFree(slots, slot) || FreeSlots() == []
      modifies this
      ensures Valid()
      ensures old(FreeSlots()) == [] ==>
        r == ParkingFull && unchanged(this)
      ensures old(FreeSlots()) != [] ==>
        && r == Parked(slot)
        && slots == old(slots)[slot := Occupied(vehicle, now)]
        && parkingLog == old(parkingLog) + [ParkingEvent(slot, vehicle, now)]
        && billingLog == old(billingLog)
        && CountFree(slots, TotalSlots) == old(CountFree(slots, TotalSlots)) - 1
    {
      var free := FreeSlots();
      if free == [] {
        r := ParkingFull;
        return;
      }
      CountFreeAfterUpdate(slots, TotalSlots, slot, Occupied(vehicle, now));
      slots := slots[slot := Occupied(vehicle, now)];
      parkingLog := parkingLog + [ParkingEvent(slot, vehicle, now)];
      r := Parked(slot);
    }

    /** ANPR simulation: read a plate built from the two random draws and
        park it in the lowest-numbered Free slot, or report the lot full.
        No parking-event row is written. */
    method AutoPark(district: int, serial: int, now: nat) returns (r: AnprOutcome)
      requires Valid()
      requires 10 <= district <= 99 && 1000 <= serial <= 9999
      modifies this
      ensures Valid()
      ensures old(FreeSlots()) == [] <==> r == Full
      ensures r == Full ==> unchanged(this)
      ensures r.AutoParked? ==>
        && r.plate == Plate(district, serial)
        && r.slot == old(FreeSlots())[0]
        && old(IsFree(slots, r.slot))
        && (forall j :: 1 <= j < r.slot ==> !old(IsFree(slots, j)))
        && slots == old(slots)[r.slot := Occupied(r.plate, now)]
        && parkingLog == old(parkingLog) && billingLog == old(billingLog)
        && CountFree(slots, TotalSlots) == old(CountFree(slots, TotalSlots)) - 1
    {
      var plate := Plate(district, serial);
      var free := FreeSlots();
      if free == [] {
        r := Full;
        return;
      }
      var slot := free[0];
      FirstFreeIsLowest(slots, TotalSlots);
      CountFreeAfterUpdate(slots, TotalSlots, slot, Occupied(plate, now));
      slots := slots[slot := Occupied(plate, now)];
      r := AutoParked(plate, slot);
    }

    /** Bill and exit: for an Occupied slot, log the billing record and free
        the slot; for a Free slot, change nothing. Whether the PDF invoice
        can be written (it cannot when the vehicle number makes its file
        path invalid) is the parameter `invoiceWritten`; when it cannot, the
        row is already logged and the slot stays Occupied. */
    method GenerateBill(slot: int, now: nat, invoiceWritten: bool) returns (r: BillOutcome)
      requires Valid()
      requires slot in slots
      requires slots[slot].Occupied? ==> slots[slot].entryTime <= now
      modifies this
      ensures Valid()
      ensures old(slots[slot]).Free? <==> r == AlreadyFree
      ensures r == AlreadyFree ==> unchanged(this)
      ensures r.Billed? <==> (old(slots[slot]).Occupied? && invoiceWritten)
      ensures r.InvoiceFailed? ==>
        && r.record == BillFor(slot, old(slots[slot]).vehicle, old(slots[slot]).entryTime, now)
        && slots == old(slots)
        && billingLog == old(billingLog) + [r.record]
        && parkingLog == old(parkingLog)
      ensures r.Billed? ==>
        && r.record == BillFor(slot, old(slots[slot]).vehicle, old(slots[slot]).entryTime, now)
        && slots == old(slots)[slot := Free]
        && billingLog == old(billingLog) + [r.record]
        && parkingLog == old(parkingLog)
        && CountFree(slots, TotalSlots) == old(CountFree(slots, TotalSlots)) + 1
    {
      match slots[slot]
      case Free =>
        r := AlreadyFree;
      case Occupied(vehicle, entry) =>
        var record := BillFor(slot, vehicle, entry, now);
        billingLog := billingLog + [record];
        if !invoiceWritten {
          r := InvoiceFailed(record);
          return;
        }
        CountFreeAfterUpdate(slots, TotalSlots, slot, Free);
        slots := slots[slot := Free];
        r := Billed(record);
    }
  }
}
