# Smart parking admin: slot table and exit billing

A Dafny model of the logic inside the Streamlit admin panel `app.py` of the
smart-parking-system repository. The panel keeps a per-session table of
`TOTAL_SLOTS = 5` parking slots, each Free or Occupied by a vehicle since an
entry time, and lets the administrator

- park a vehicle by hand in a Free slot chosen from a picker (manual entry),
- "scan" a plate with the simulated ANPR camera, which parks a synthetic
  plate `MH<10..99>AB<1000..9999>` in the lowest-numbered Free slot,
- generate a bill for a slot: the whole minutes since entry are billed at
  `RATE_PER_HOUR = 20` per hour, hours rounded down but never fewer than one;
  a billing row is logged, a PDF invoice is written, and the slot is freed
  (if writing the invoice fails, the row stays logged and the slot stays
  Occupied),

and shows total, Free and Occupied counts on a dashboard.

Files and modules:

- `billing.dfy` (`Billing`): minutes, billed hours and the fee, as functions,
  with monotonicity and the exact relation to an "every started hour" charge.
- `plates.dfy` (`Plates`): the synthetic plate and the decimal rendering of
  its two numbers, with a reader that recovers the numbers from the plate.
- `slots.dfy` (`Slots`): the `Slot` variant (`Free | Occupied(vehicle,
  entryTime)`), the initial table, the ascending list of Free ids and the
  Free/Occupied counts, with the lemmas relating them.
- `lot.dfy` (`Lot`): the `ParkingLot` class. Its `slots` map is updated in
  place by `ParkManual`, `AutoPark` and `GenerateBill`; the parking-event and
  billing CSV files are the ghost sequences `parkingLog` and `billingLog`,
  appended to exactly where the program writes a row.
- `scenarios.dfy` (`Scenarios`): client methods proved from the class
  contracts only: filling the lot by ANPR, a 125-minute stay, billing twice,
  billing while the invoice cannot be written.
- `wrappers.dfy` (`Wrappers`): the `Option` type.

Time is a natural number of seconds, and every clock reading is a parameter
`now`. The model takes the stay (exit minus entry) as a whole number of
seconds, namely the program's exact difference rounded down; whole minutes
are then the same as the program's. The two random draws of the ANPR
simulation are parameters `district` (10..99) and `serial` (1000..9999).

Billing rounds the hours beyond the first DOWN, as `app.py:183` does with
`max(1, minutes // 60)`: 119 minutes bill one hour and 125 minutes bill two.
A rule that bills every started hour would charge more for stays between
61 and 119 minutes, and for any stay over an hour that is not a whole number
of hours. The model follows the code. For a stay of at least one minute,
`FeeVersusStartedHours` proves the charge never exceeds the started-hours
charge and equals it exactly when the stay is at most an hour or a whole
number of hours. A stay under one minute is billed one rate, where the
started-hours rule would charge nothing.

The slot picker of the manual entry page lists only Free slots, and it is
shown only while one exists (`app.py:136-139`); `ParkManual` therefore
requires the chosen slot to be Free unless the lot is full. The billing page
picks among all slot ids (`app.py:175`), so `GenerateBill` requires only an
existing id. The program does not check the vehicle number: an empty string
can be parked.

## Model

| member | source | states |
|---|---|---|
| `Billing.Minutes` | app.py:182 | the result is the elapsed seconds divided by 60 rounded down: `m*60 <= elapsed < m*60 + 60` |
| `Billing.Hours` | app.py:183 | at least one hour; exactly one below 120 minutes; from 60 minutes on, the whole hours in the stay |
| `Billing.Fee` | app.py:184 | the amount is at least the hourly rate, a multiple of it, and exactly the rate for stays under 120 minutes |
| `Billing.FeeForStay` | app.py:182-184 | the same bounds for a stay measured in seconds; one rate for under 7200 seconds |
| `Billing.HoursMonotone` | app.py:183 | billed hours never decrease as the stay grows |
| `Billing.FeeMonotone` | app.py:182-184 | a longer stay in minutes never costs less |
| `Billing.FeeForStayMonotone` | app.py:182-184 | a longer stay in seconds never costs less |
| `Billing.FeeNextHour` | app.py:183-184 | from 60 minutes on, 60 more minutes cost exactly one more rate |
| `Billing.FeeVersusStartedHours` | app.py:183 | for a stay of at least one minute, the fee never exceeds the "every started hour" charge and equals it iff the stay is at most 60 minutes or a whole number of hours |
| `Billing.FeeExamples` | app.py:182-184 | 0 and 119 minutes cost 20, 125 minutes cost 40 |
| `Plates.Decimal` | app.py:157 | the rendering of a number is non-empty, all digits, and one character long exactly for numbers below 10 |
| `Plates.ParseDecimalOfDecimal` | app.py:157 | reading a rendered number back gives the number |
| `Plates.Plate` | app.py:157 | the plate is 10 characters: "MH", two digits, "AB", four digits |
| `Plates.ParsePlateOfPlate` | app.py:157 | the two draws can be read back from the plate |
| `Plates.PlateInjective` | app.py:157 | different draws give different plates |
| `Slots.InitialTable` | app.py:76-80 | the initial table has exactly the ids 1..n and every slot is Free |
| `Slots.FreeIds` | app.py:158 | the Free-slot list holds only Free ids in 1..n, every one of them, strictly ascending |
| `Slots.CountFree` | app.py:115 | the Free count of n slots is at most n |
| `Slots.CountOccupied` | app.py:116 | the Occupied count of n slots is at most n |
| `Slots.CountFreeIsFreeIds` | app.py:115 | the Free count equals the length of the Free-slot list |
| `Slots.CountsAddUp` | app.py:114-116 | in a table with ids 1..n, Free count plus Occupied count is n |
| `Slots.CountFreeAfterUpdate` | app.py:115 | replacing one slot changes the Free count by exactly what that slot gained or lost |
| `Slots.InitialCounts` | app.py:76-80 | initially n slots are Free and none is Occupied |
| `Slots.FirstFreeIsLowest` | app.py:158-160 | the head of the Free-slot list is Free and no lower id is Free |
| `Slots.FreeIdsOfFilledPrefix` | app.py:158-160 | with slots 1..k Occupied and the rest Free, the list is empty iff k = n, and otherwise starts at k+1 |
| `Slots.FilledPrefixStep` | app.py:162-166 | occupying slot k+1 of such a table extends the Occupied prefix to k+1 |
| `Lot.BillFor` | app.py:180-191 | the billing record carries the vehicle, slot, entry and exit, the whole minutes stayed, and an amount of max(1, minutes div 60) times the rate |
| `Lot.ParkingLot.constructor` | app.py:76-80 | a new session has every slot Free, Free count TotalSlots, and empty logs |
| `Lot.ParkingLot.FreeSlots` | app.py:136 | the picker's list holds only Free ids in 1..TotalSlots, every one of them, strictly ascending, and its length is the Free count |
| `Lot.ParkingLot.Counts` | app.py:114-116 | total is TotalSlots, free + occupied = total, free is the length of the Free list, occupied the Occupied count |
| `Lot.ParkingLot.ParkedMinutes` | app.py:125-130 | None exactly for a Free slot; otherwise the whole minutes since entry |
| `Lot.ParkingLot.ParkManual` | app.py:133-151 | with no Free slot: full, nothing changes; otherwise the chosen slot becomes Occupied(vehicle, now), one parking event is logged, no other slot changes, the Free count drops by one |
| `Lot.ParkingLot.AutoPark` | app.py:156-170 | full iff no slot is Free, and then nothing changes; otherwise the plate is built from the draws, the lowest-numbered Free slot is occupied by it, nothing else changes, no log row is written, the Free count drops by one |
| `Lot.ParkingLot.GenerateBill` | app.py:175-208 | "already free" iff the slot is Free, and then nothing changes; otherwise one billing record for that stay is logged; if the invoice is written the slot becomes Free, no other slot changes and the Free count rises by one; if it is not, the table is unchanged |
| `Scenarios.FillByAnpr` | app.py:156-170 | from a new session, TotalSlots scans, each with its own draws, park their plates in slots 1..TotalSlots in order, the next scan reports full, and the counts read total 5, free 0, occupied 5 |
| `Scenarios.ParkThenBill` | app.py:140-206 | parking in slot 3 and billing 125 minutes later records 125 minutes and 40, and slot 3 is Free afterwards |
| `Scenarios.BillTwice` | app.py:177-208 | a second bill on the same slot finds it already free |
| `Scenarios.BillWithFailingInvoice` | app.py:186-206 | when the invoice cannot be written, two attempts log the same record twice and the slot stays Occupied |

## Left out

- Page configuration, CSS, sidebar navigation and the metric and column widgets (app.py:11, 24-61, 104-130): presentation only; the dashboard's per-slot minutes are kept as `ParkedMinutes`.
- Login and logout against the hard-coded credentials (app.py:13-14, 73-74, 83-101): a string comparison and a session flag.
- Creating the CSV files with their header rows and appending to them (app.py:64-70, 147-148, 186-191): file I/O; the rows are the ghost logs `parkingLog` and `billingLog`.
- The PDF invoice and its download button (app.py:193-204): a foreign library and file I/O; only whether the invoice file is written is kept, as the `invoiceWritten` parameter of `GenerateBill`.
- Lot.ParkingLot.GenerateBill: the model does not decide when the invoice fails (a vehicle number such as `MH12/AB` names a directory that does not exist); the caller says so through `invoiceWritten`, and the failed request then logs the row and leaves the slot Occupied, as the exception after app.py:191 does.
- The revenue charts (app.py:211-227): they parse the billing CSV file with pandas and group by date and month; the file is not in-memory state.
- `datetime.now()` and `random.randint`: clock readings and random draws are parameters.
- Billing.Minutes: the program divides a floating-point number of seconds (with microseconds) by 60 and truncates; the model takes the stay as whole seconds, rounded down from that exact difference (two readings rounded separately can differ: entry 0.9 s and exit 60.1 s is 0 minutes, readings 0 and 60 give 1).
- Lot.BillFor, Lot.ParkingLot.ParkedMinutes and Lot.ParkingLot.GenerateBill require the exit (or dashboard) reading not to be earlier than the entry time; `datetime.now()` is naive local time, so at a daylight-saving change it can go back, and the program then shows or logs negative minutes and charges one rate. That case is not modelled.
- The status messages shown by `st.success`, `st.warning` and `st.error`: they are the outcome values (`Parked`, `ParkingFull`, `AutoParked`, `Full`, `Billed`, `InvoiceFailed`, `AlreadyFree`).
- Payment confirmation, payment cancellation, a pending-payment state and checks rejecting an empty vehicle number or an Occupied slot do not exist in app.py and are not modelled.
