/** Whole-session runs of the lot, proved from the methods' contracts alone. */
module Scenarios {

  import opened Billing
  import opened Plates
  import opened Slots
  import opened Lot

  /** Both random draws of a scan are in the ranges the program draws from. */
  predicate DrawsInRange(draws: seq<(int, int)>)
  {
    forall k :: 0 <= k < |draws| ==>
      10 <= draws[k].0 <= 99 && 1000 <= draws[k].1 <= 9999
  }

  /** From a new session, TotalSlots ANPR scans, each with its own draws,
      fill slots 1, 2, ... in order, and the next scan finds the lot full. */
  method FillByAnpr(draws: seq<(int, int)>, now: nat)
    returns (outcomes: seq<AnprOutcome>, overflow: AnprOutcome, counts: Occupancy)
    requires |draws| == TotalSlots + 1 && DrawsInRange(draws)
    ensures |outcomes| == TotalSlots
    ensures forall k :: 0 <= k < TotalSlots ==>
      outcomes[k] == AutoParked(Plate(draws[k].0, draws[k].1), k + 1)
    ensures overflow == Full
    ensures counts == Occupancy(TotalSlots, 0, TotalSlots)
  {
    var lot := new ParkingLot();
    outcomes := [];
    var k := 0;
    while k < TotalSlots
      invariant lot.Valid()
      invariant FilledPrefix(lot.slots, TotalSlots, k)
      invariant |outcomes| == k
      invariant forall i :: 0 <= i < k ==> outcomes[i] == AutoParked(Plate(draws[i].0, draws[i].1), i + 1)
    {
      FreeIdsOfFilledPrefix(lot.slots, TotalSlots, k);
      assert lot.FreeSlots() != [] && lot.FreeSlots()[0] == k + 1;
      var (district, serial) := draws[k];
      ghost var before := lot.slots;
      var r := lot.AutoPark(district, serial, now);
      assert r == AutoParked(Plate(district, serial), k + 1);
      FilledPrefixStep(before, TotalSlots, k, Occupied(r.plate, now));
      outcomes := outcomes + [r];
      k := k + 1;
    }
    FreeIdsOfFilledPrefix(lot.slots, TotalSlots, k);
    assert lot.FreeSlots() == [];
    overflow := lot.AutoPark(draws[TotalSlots].0, draws[TotalSlots].1, now);
    counts := lot.Counts();
  }

  /** A vehicle parked by hand in slot 3 and billed 125 minutes (and a few
      seconds) later pays for two hours, and slot 3 is Free again. */
  method ParkThenBill(entry: nat, extraSeconds: nat)
    returns (bill: BillOutcome, freeAfter: bool)
    requires extraSeconds < 60
    ensures bill == Billed(BillingRecord("KA01AB1234", 3, entry, entry + 125 * 60 + extraSeconds, 125, 40))
    ensures freeAfter
  {
    var lot := new ParkingLot();
    var parked := lot.ParkManual(3, "KA01AB1234", entry);
    bill := lot.GenerateBill(3, entry + 125 * 60 + extraSeconds, true);
    freeAfter := IsFree(lot.slots, 3);
  }

  /** Billing the same slot twice: the second request finds it Free and
      neither logs a record nor changes the table. */
  method BillTwice(entry: nat, exit: nat)
    returns (first: BillOutcome, second: BillOutcome)
    requires entry <= exit
    ensures first.Billed? && first.record.amount >= RatePerHour
    ensures second == AlreadyFree
  {
    var lot := new ParkingLot();
    var _ := lot.ParkManual(1, "", entry);
    first := lot.GenerateBill(1, exit, true);
    second := lot.GenerateBill(1, exit, true);
  }

  /** When the invoice cannot be written, each billing attempt logs one more
      row while the vehicle stays in its slot. */
  method BillWithFailingInvoice(vehicle: string, entry: nat, exit: nat)
    returns (first: BillOutcome, second: BillOutcome, stillOccupied: bool, ghost rows: nat)
    requires entry <= exit
    ensures first.InvoiceFailed? && second.InvoiceFailed? && first.record == second.record
    ensures first.record.vehicle == vehicle && first.record.slot == 1
    ensures stillOccupied
    ensures rows == 2
  {
    var lot := new ParkingLot();
    var _ := lot.ParkManual(1, vehicle, entry);
    first := lot.GenerateBill(1, exit, false);
    second := lot.GenerateBill(1, exit, false);
    stillOccupied := IsOccupied(lot.slots, 1);
    rows := |lot.billingLog|;
  }
}
