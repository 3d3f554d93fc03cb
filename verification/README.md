# Verified model of the ticketing backend

This project models the state machines of an event-ticketing backend in Dafny 4.11 and proves what they keep.
`dafny verify dfyconfig.toml` checks everything.

## What is modelled

* **Booking.** Seats, reservations, payments, tickets and processed provider events as one database (`Tables`, `Booking`).
  `Protocol` has the steps: reserve, checkout, cancel, timed sweep, the five webhook kinds in any order and number, door
  scans, seat creation and removal, catalogue changes and the clock. `Agreement` and `Invariant` hold the centrepiece: seat
  and reservation statuses are changed by separate guarded updates, the seat update never checks the holder, and still the
  two tables agree in every reachable state. `SeatGrants`, `Outcomes`, `Tickets`, `LateTickets`, `Admissions`,
  `Money`, `Refunds` and `Checkouts` are facts about whole runs on top of it.
* **Steps taken apart.** `Transactions` splits reservation calls into lock, check, writes, insert and commit; `Sweeps` splits
  the expiry sweep into its read and its stale write; `Deliveries` splits webhook deliveries; `SplitPayments` splits a payment
  from its tickets, `TicketRaces` the tickets from each other; `ScanRaces` splits door scans.
* **Services.** `Services` has the services as classes over mutable tables (`Store`); each method is proved equal to its
  function in `Booking`, and states its answers and its writes outright, with the cache keys it drops (`Availability`).
* **One-time codes and limiter.** `KeyValue` (Redis commands), `OtpStore`, `OtpBounds`, `RateLimiter`, `FixedWindow`,
  `OtpGate`: the two scripts command by command, and bounds over timed traces.
* **Caches.** `EventsKey`, `EventsCache`, `EventsStale`, `EventsService`: the versioned events list. `SeatCounts`, `SeatFills`,
  `SeatsService`: the cached seat counts.

Time is integer seconds; a key with deadline d is live while now < d. Amounts are integer minor units.

## Assumptions of the runs

* The payment provider sends only metadata minted by a checkout, or none; event kinds, amounts, order and repetition are free.
* Generated identifiers are fresh. Accounts and events are never deleted; everything else about the catalogue may change.
* A webhook handler with its ticket generation is one step of the protocol; `Deliveries` treats the look-up and the marker
  apart, `SplitPayments` and `TicketRaces` the ticket generation.
* Venue rows are fixed while the events list is cached (`VenuesService.update` does not bump the cache version).

## Where code and documentation differ

* The README calls the limiter a fixed window (README.md:178). Every call extends the key's life, so the counter restarts
  only after a silence of a whole window (`RateLimiter.CountIsBurst`). Where the two differ: `FixedWindow.DifferIff`.
* The README gives a maximum of 5 attempts per code (README.md:178). The store alone ensures 2 * 5 - 1
  (`OtpBounds.GuessesPerShortCode`), and exceeds 5 exactly under `OtpBounds.MoreThanMaxIff`; it is 5 behind the limiter
  (`OtpGate.GuessesPerGatedCode`).
* A released seat shows AVAILABLE but is never sold again: the unique index on `reservations.seat_id` keeps the old row
  (`SeatGrants.ReleasedSeatNeverResold`). The same index is what makes agreement true (`SeatGrants.IndexIsNeeded`).
* A refund returns all successful payments of its user, not only its order's: `Refunds.RefundReturnsBoth` is a run,
  `Refunds.RefundStaysInOrderIff` the exact condition.
* A late payment on expired reservations is recorded, ticketed and admitted at the door: `LateTickets.LatePaymentIsAdmitted`
  is a run, `LateTickets.LateTicketIff` the exact condition.
* A sweep that reads before and writes after a payment undoes the booking: `Sweeps.PaidBetweenReadAndWrite` is a run,
  `Sweeps.TwoPhaseSweepIsAtomicIff` the exact condition.
* A refund between a payment's transaction and its ticket generation leaves a valid ticket: `SplitPayments.RefundBetweenHalves`
  is a run, `SplitPayments.UnrefundedIff` the exact condition.
* Two payments of one order can stop each other's ticket generation: `TicketRaces.TwoGenerationsStopEachOther` is a run,
  `TicketRaces.StrandsIff` the exact condition.
* The events list goes stale beside rows with an empty Redis: `EventsStale.StaleAfterFirstBump` is a run,
  `EventsStale.GoesStaleIff` the exact condition; and at a first bump with another writer halfway:
  `EventsStale.StaleWhileCreatePends` is a run, `EventsStale.BumpCompletesWrite` and `EventsStale.ReadsFromNowIff` the condition.
* A seat count stored across a commit stays wrong: `SeatFills.StoredAcrossCommit` is a run, `SeatFills.StaleIff` the exact
  condition.
* Overlapping scans admit one ticket twice: `ScanRaces.TwoAdmissions` is a run, `ScanRaces.AdmitsIff` the exact condition.

## Model

| member | source | states |
|---|---|---|
| `Services.ReservationsService.Create` | backend/src/modules/reservations/reservations.service.ts:22-64 | Every answer told from the old tables: NotFound iff a wanted seat has no row, Conflict iff all exist and one is not AVAILABLE or of an unpublished event, Rejected iff the guards hold and a row already points to a seat or the user is missing, and no other; a success inserts one PENDING row per distinct seat for the caller with 600 seconds to live, reserves exactly those seats and drops exactly their counts; an error changes nothing |
| `Services.ReservationsService.CheckSeats` | backend/src/modules/reservations/reservations.service.ts:26-48 | Which error the guards give, both ways: NotFound for a missing seat, Conflict when all exist and one is taken or not on sale; when they pass the found rows are exactly the wanted seats |
| `Services.ReserveAnswers` | backend/src/modules/reservations/reservations.service.ts:26-63 | The answers of a reservation as a function of the tables: exactly when each of its three errors comes |
| `Services.ReservationsService.MarkReserved` | backend/src/modules/reservations/reservations.service.ts:49-52 | The loop over the locked seats reserves exactly those seats and nothing else |
| `Services.ReservationsService.BuildReservations` | backend/src/modules/reservations/reservations.service.ts:53-61 | One PENDING row per seat, for the caller, expiring ten minutes after the call |
| `Services.ReservationsService.Cancel` | backend/src/modules/reservations/reservations.service.ts:75-111 | NotFound iff there is no such row, Forbidden iff it is another user's, Conflict iff it is not PENDING; otherwise exactly that row expires, its seat is AVAILABLE again if it was RESERVED, its section's count is dropped, and nothing else changes |
| `Services.ReservationsService.CancelTransaction` | backend/src/modules/reservations/reservations.service.ts:89-106 | The transaction alone, on the row read again under its lock: Conflict if it is no longer pending |
| `Outcomes.SplitCancelIsWhole` | backend/src/modules/reservations/reservations.service.ts:75-111 | With any steps between look-up and transaction a cancellation does and answers what the whole call would at the moment of the transaction; a refused look-up is the whole call at its own moment |
| `Services.ReservationsService.ExpireRows` | backend/src/modules/reservations/reservations.service.ts:122-131 | Saving the stale rows one by one, in any order, is the single simultaneous write of the snapshot |
| `Services.ReservationsService.ExpireOverdue` | backend/src/modules/reservations/reservations.service.ts:113-133 | Exactly the PENDING rows past their deadline expire, exactly their RESERVED seats become AVAILABLE, nothing else changes, and exactly the counts of the swept sections are dropped |
| `Services.FreshSnapshotIsSweep` | backend/src/modules/reservations/reservations.service.ts:113-131 | A snapshot applied at once equals the sweep stated as two guarded updates |
| `Services.ReservationsService.MyReservations` | backend/src/modules/reservations/reservations.service.ts:66-73 | After the sweep, lists each of the caller's reservations once, newest first, none of them pending past its deadline |
| `Services.TicketsService.GenerateForReservations` | backend/src/modules/tickets/tickets.service.ts:24-84 | The first n rows get one fresh ticket each, for the user, the event and the seat of the row, and no other ticket is written or changed; it ends after the last row, or with a rejected insert at the first row whose reservation, seat or id already has a ticket |
| `Services.TicketsService.MyTicketEvents` | backend/src/modules/tickets/tickets.service.ts:94-112 | One group per existing event the caller has a ticket for, with the number of those tickets, each event once, and before another iff its first ticket in the query's order comes first |
| `Services.FirstSeenIs` | backend/src/modules/tickets/tickets.service.ts:101-111 | What that order is: each event once, and before every event that occurs only later |
| `Services.TicketsService.Validate` | backend/src/modules/tickets/tickets.service.ts:140-177 | Exactly when each answer comes: admitted iff correctly signed, of the scanner's own event, unrefunded and unused; already used iff the same but used; Unauthorized iff forged or refunded, used or not; Forbidden, NotFound and Invalid likewise. An admission marks that ticket alone, every other answer changes nothing |
| `Services.WebhooksService.HandleBachsWebhook` | backend/src/modules/payments/webhooks.service.ts:31-62 | Marker first, then the handler of the kind with its invalidation; a marked event changes nothing; exact counts stay exact |
| `Services.WebhooksService.PaymentSucceeded` | backend/src/modules/payments/webhooks.service.ts:64-117 | Without both lists, or with a payment row the key or the user refuses, nothing changes; otherwise the listed PENDING reservations are CONFIRMED, the listed RESERVED seats BOOKED, one SUCCESSFUL payment of the amount sent (0 if none) is appended, and tickets are generated for a known event; a second call would be refused; agreement is kept when the listed seats are those of the listed reservations |
| `Services.WebhooksService.CommitPayment` | backend/src/modules/payments/webhooks.service.ts:77-97 | The transaction alone: what it does to each reservation and seat, and the payment row with the amount sent or 0 |
| `Services.WebhooksService.ReleaseOrder` | backend/src/modules/payments/webhooks.service.ts:209-226 | Exactly the listed PENDING reservations expire and the listed RESERVED seats become AVAILABLE, with both lists there; releasing again changes nothing; agreement is kept when the listed seats are those of the listed reservations; exactly the counts of the listed seats' sections are dropped |
| `Services.WebhooksService.RefundPaid` | backend/src/modules/payments/webhooks.service.ts:160-196 | Exactly the listed CONFIRMED reservations are REFUNDED, the listed BOOKED seats AVAILABLE, the SUCCESSFUL payments of the named user returned, and the tickets of the listed reservations refunded, used or not; refunding again changes nothing; agreement is kept as for a release; exactly the counts of the listed seats' sections are dropped |
| `Services.PaymentsService.CreateCheckoutSession` | backend/src/modules/payments/payments.service.ts:26-83 | Guards, the call to create, and the order handed to the provider, equal to the checkout function on every path, with exactly the counts of the reserved sections dropped |
| `Checkouts.SplitCheckoutIsWholeIff` | backend/src/modules/payments/payments.service.ts:27-57 | With any steps between its guards and its call to create: a failure changes nothing, and a success is what a whole checkout would do at the later moment if and only if the section is still offered then, with the seats in it |
| `Agreement.SettleAgreesIff` | backend/src/modules/payments/webhooks.service.ts:77-87 | A guarded pair of updates keeps seats and reservations in agreement if and only if the seats it names among those in the source status are exactly the seats of the reservations it names |
| `Agreement.AgreementBySeat` | backend/src/modules/payments/webhooks.service.ts:77-98 | What agreement means seat by seat: RESERVED iff its reservation is PENDING, BOOKED iff CONFIRMED, AVAILABLE iff none or EXPIRED or REFUNDED |
| `Agreement.CancelIsSettle` | backend/src/modules/reservations/reservations.service.ts:94-105 | A cancellation is a guarded pair of updates for one reservation and its seat |
| `Agreement.InsertHoldsAgrees` | backend/src/modules/reservations/reservations.service.ts:49-61 | Inserting holds keeps agreement when no reservation row points to the seats |
| `Invariant.EchoedLists` | backend/src/modules/payments/webhooks.service.ts:69-75 | For echoed metadata the parsed reservation ids are those of one order and the parsed seats are exactly their seats |
| `Invariant.DeliverSettles` | backend/src/modules/payments/webhooks.service.ts:64-226 | Every effective delivery is one guarded pair of updates with the transition of its kind, plus payments and tickets; every other delivery leaves all but the marker |
| `Invariant.DeliverRows` | backend/src/modules/payments/webhooks.service.ts:77-226 | The seat update, which never looks at the holder, hits exactly the seats of the reservations the event names |
| `Invariant.CheckoutMints` | backend/src/modules/payments/payments.service.ts:51-72 | A successful checkout mints an order whose reservations hold exactly its seats |
| `Invariant.StepKeeps` | backend/src/modules/payments/webhooks.service.ts:31-226 | Every step of the protocol keeps the whole-system invariant, and no reservation row ever loses its seat, user or deadline |
| `Invariant.InvariantOverRuns` | backend/src/modules/reservations/reservations.service.ts:22-134 | The invariant holds after any interleaving, reordering and duplication of steps |
| `Invariant.TablesAlwaysAgree` | backend/src/modules/payments/webhooks.service.ts:77-98 | From a fresh installation, in every reachable state: the three equivalences between a seat's status and its reservation's, and at most one reservation per seat |
| `SeatGrants.GrantTakesSeat` | backend/src/modules/reservations/reservations.service.ts:34-61 | A seat is granted only if no reservation row ever pointed to it, and exactly the granting step makes one point to it |
| `SeatGrants.FailedCheckoutKeepsRows` | backend/src/modules/payments/payments.service.ts:29-54 | A checkout that fails leaves the whole state unchanged |
| `SeatGrants.SeatGrantedOnce` | backend/src/migrations/1784936694189-InitSchema.ts:12 | Over any run the number of grants of a seat is 1 if it changed from never held to held, else 0 |
| `SeatGrants.ReleasedSeatNeverResold` | backend/src/modules/reservations/reservation.entity.ts:25-27 | Once held, a seat can never be reserved again, by anyone, after any further steps |
| `SeatGrants.StaleReleaseBreaksSecondHold` | backend/src/modules/payments/webhooks.service.ts:209-224 | Without the unique index, any stale release of the first order breaks agreement for a second hold of the seat |
| `SeatGrants.IndexIsNeeded` | backend/src/migrations/1784936694189-InitSchema.ts:12 | The witness run: all guards pass, only the index refuses, and with the insert let through the late expiry event leaves a PENDING hold on an AVAILABLE seat |
| `Outcomes.StepAdvances` | backend/src/modules/payments/webhooks.service.ts:77-87 | One step moves a reservation exactly as the signal it sends to it says |
| `Outcomes.FirstOutcomeWins` | backend/src/modules/payments/webhooks.service.ts:78-87 | The final status of a hold and of its seat in closed form over the signals of the whole run: the first payment or release decides, a refund counts only after a confirmation |
| `Outcomes.SettledStaysSettled` | backend/src/modules/payments/webhooks.service.ts:170-179 | EXPIRED and REFUNDED are final; a CONFIRMED reservation changes exactly when a refund settles, and then to REFUNDED; the seat follows |
| `Tickets.IssueToAll` | backend/src/modules/tickets/tickets.service.ts:47-81 | Generation for rows without tickets, whose seats have none and differ, gives each its ticket with the right seat, user and event |
| `Tickets.PaymentTicketsOrder` | backend/src/modules/tickets/tickets.service.ts:47-81 | A payment leaves its whole order ticketed once each whatever the reservation statuses, a late payment on expired reservations included |
| `Tickets.TicketInvOverRuns` | backend/src/modules/tickets/tickets.service.ts:35-81 | The ticket invariant holds after any run |
| `Tickets.SeatTicketUnique` | backend/src/migrations/1784936694189-InitSchema.ts:13 | Two tickets never share a seat |
| `Tickets.TicketsMatchReservations` | backend/src/modules/payments/webhooks.service.ts:103-116 | In every reachable state: a confirmed reservation has exactly one ticket and it is valid, a refunded one exactly one and it is refunded, a pending one none, no seat two; for expired ones see LateTickets.LateTicketIff |
| `LateTickets.TicketFate` | backend/src/modules/tickets/tickets.service.ts:35-53 | Over any run a reservation has a ticket if and only if it had one or a payment reached it, whatever its status, and the ticket is refunded if and only if it was or a refund came after |
| `LateTickets.StatusOverHistory` | backend/src/modules/payments/webhooks.service.ts:78-87 | The status of a reservation made during a run in closed form over the run's signals |
| `LateTickets.LateTicketIff` | backend/src/modules/tickets/tickets.service.ts:35-53 | From a fresh installation: a reservation is EXPIRED with a ticket if and only if a payment came after its release, and its ticket is refunded if and only if a refund came after a payment |
| `LateTickets.TicketsPaidInTimeIff` | backend/src/modules/tickets/tickets.service.ts:35-53 | Every ticket belongs to a reservation paid in time if and only if no reservation was paid after its release |
| `LateTickets.LatePaymentIsAdmitted` | backend/src/modules/payments/webhooks.service.ts:77-116 | The input: a swept hold, its late payment, and a scan that admits the EXPIRED reservation's ticket while its seat shows AVAILABLE |
| `SplitPayments.HalvesMakeDelivery` | backend/src/modules/payments/webhooks.service.ts:77-116 | The payment transaction and ticket generation with nothing in between make the whole delivery |
| `SplitPayments.CommittedBase` | backend/src/modules/payments/webhooks.service.ts:77-98 | Between the two the tables agree and every ticket is founded |
| `SplitPayments.UnrefundedIff` | backend/src/modules/payments/webhooks.service.ts:77-116 | For any reservation of the order, late payments and second payments included, with any steps between transaction and generation: exactly when its ticket ends unrefunded, and its status in closed form |
| `SplitPayments.RefundMissesTicketIff` | backend/src/modules/payments/webhooks.service.ts:77-116 | For a hold the payment confirmed: it ends REFUNDED with an unrefunded ticket if and only if a refund settled in between before any other payment of the order wrote the tickets |
| `SplitPayments.RefundBetweenHalves` | backend/src/modules/payments/webhooks.service.ts:103-116 | A run in which that happens |
| `TicketRaces.RefundedIff` | backend/src/modules/tickets/tickets.service.ts:47-81 | With tickets saved one at a time and refunds in between, a ticket ends refunded if and only if a refund came after that ticket's own save |
| `TicketRaces.TicketedIff` | backend/src/modules/tickets/tickets.service.ts:47-63 | With any number of payments of one order generating at once, a reservation has a ticket if and only if some generation got past it |
| `TicketRaces.OneOrderTicketsAll` | backend/src/modules/tickets/tickets.service.ts:35-53 | If the rows come in one order to every generation, all reservations of the order have tickets once all generations have ended |
| `TicketRaces.StrandsIff` | backend/src/modules/tickets/tickets.service.ts:35-63 | The exact condition on the row orders under which generations can stop each other and leave a reservation without a ticket |
| `TicketRaces.TwoGenerationsStopEachOther` | backend/src/modules/tickets/tickets.service.ts:35-63 | A run with three reservations and two payments in which that happens |
| `Admissions.AdmittedTicketWasValid` | backend/src/modules/tickets/tickets.service.ts:151-176 | An admission needs an unused, unrefunded ticket of the scanner's own event and marks it used |
| `Admissions.FlagsKeptOverRuns` | backend/src/modules/payments/webhooks.service.ts:189-193 | Use and refund flags are never cleared and no ticket changes seat, holder or event |
| `Admissions.SpentTicketNeverAdmitted` | backend/src/modules/tickets/tickets.service.ts:159-167 | A used or refunded ticket is admitted by no later scan after any run |
| `Admissions.SeatAdmittedOnce` | backend/src/modules/tickets/tickets.service.ts:159-172 | Over any run the admissions of a seat number 1 if it turned from unused to used, else 0 |
| `ScanRaces.AdmitsIff` | backend/src/modules/tickets/tickets.service.ts:147-172 | With read and write of a scan apart, a finished scan admits if and only if no refund came before its read and every scan that ended before its read had itself read a refund |
| `ScanRaces.DecideIsValidate` | backend/src/modules/tickets/tickets.service.ts:159-176 | The decision of a split scan is the answer of the whole call for the flags it read: refused if refunded, reported used if used, else admitted |
| `ScanRaces.BothAdmitIff` | backend/src/modules/tickets/tickets.service.ts:147-172 | Two given scans both admit the ticket if and only if both read it unrefunded and no such scan ended before the later read |
| `ScanRaces.OverlappingBothAdmitIff` | backend/src/modules/tickets/tickets.service.ts:147-172 | Without a refund, two overlapping scans both admit it exactly when no third scan ended before the later of their reads |
| `ScanRaces.AdmissionsOverlap` | backend/src/modules/tickets/tickets.service.ts:147-172 | So two admissions of one ticket only come from scans that overlap |
| `ScanRaces.TwoAdmissions` | backend/src/modules/tickets/tickets.service.ts:162-172 | Overlapping scans do admit one ticket twice |
| `ScanRaces.RefundedBeforeRead` | backend/src/modules/tickets/tickets.service.ts:159-161 | A scan that reads after the refund never admits, finished or not |
| `Money.LedgerIsCollected` | backend/src/modules/payments/webhooks.service.ts:88-97 | The payment table is the list of first deliveries of successful collections with metadata: same ids, users and amounts, in delivery order, nothing else |
| `Money.MoneyConserved` | backend/src/modules/payments/webhooks.service.ts:88-97 | The table's total grows by exactly the total of the amounts sent with the first deliveries of successful collections |
| `Money.EveryCollectionPaidOnce` | backend/src/modules/payments/payment.entity.ts:43-44 | From a fresh installation the ledger is the collected list and idempotency keys are distinct |
| `Money.PaymentFate` | backend/src/modules/payments/webhooks.service.ts:180-187 | A payment changes only in status, from SUCCESSFUL to REFUNDED, exactly when a refund naming its user settles later |
| `Refunds.PaymentSources` | backend/src/modules/payments/webhooks.service.ts:88-97 | Every payment of a reachable state with the metadata of the order it was collected for, known to the provider and of the same user |
| `Refunds.RefundStaysInOrderIff` | backend/src/modules/payments/webhooks.service.ts:180-187 | A refund leaves the payments of every other order as they were if and only if its user has no successful payment for another order |
| `Refunds.RefundReachesOtherOrders` | backend/src/modules/payments/webhooks.service.ts:180-193 | Otherwise that payment is returned, while the other order's reservations, all of the same user, and their tickets stay exactly as they were |
| `Refunds.RefundReturnsBoth` | backend/src/modules/payments/webhooks.service.ts:160-196 | The input: two paid orders of one user from a fresh installation, the first refunded; the second's payment is RETURNED, its reservation CONFIRMED, its ticket valid |
| `Deliveries.WebhookMarks` | backend/src/modules/payments/webhooks.service.ts:34-39 | A delivery leaves exactly its marker added, and a marked event changes nothing |
| `Deliveries.HandlerIgnoresMarkers` | backend/src/modules/payments/webhooks.service.ts:43-61 | A handler neither reads nor writes the markers |
| `Deliveries.DuplicatesChangeNothing` | backend/src/modules/payments/webhooks.service.ts:31-62 | A delivery list ends in the state of its first-occurrence deduplication |
| `Deliveries.HandledExactlyOnce` | backend/src/modules/payments/processed-event.entity.ts:10-11 | With look-up, marker insert and handling apart and interleaved, at most one delivery per event id gets past the marker, and once all are settled a new id was handled by exactly one |
| `Deliveries.InterleavingIsSequential` | backend/src/modules/payments/webhooks.service.ts:34-61 | Any interleaving leaves the tables of delivering the handled events one by one in handling order |
| `Sweeps.TwoPhaseSweepIsAtomicIff` | backend/src/modules/reservations/reservations.service.ts:113-131 | Read at one moment and written after any further steps, the sweep equals an atomic sweep for its reading time if and only if none of the read reservations was confirmed in between |
| `Sweeps.SplitSweepIsAtomicIff` | backend/src/modules/reservations/reservations.service.ts:113-131 | The same condition with any number of other split sweeps reading and writing in between |
| `Sweeps.ConfirmedInBetweenIff` | backend/src/modules/reservations/reservations.service.ts:114-131 | That condition in terms of the steps in between: no read reservation had a payment as its first settlement |
| `Sweeps.LateSweepUndoesPaidBooking` | backend/src/modules/reservations/reservations.service.ts:123-130 | Otherwise a paid booking is expired, its seat shows AVAILABLE, payment and ticket stay, and no atomic sweep of any time gives that state |
| `Sweeps.PaidBetweenReadAndWrite` | backend/src/modules/reservations/reservations.service.ts:113-131 | A reachable run in which that happens |
| `Sweeps.StaleWriteAgrees` | backend/src/modules/reservations/reservations.service.ts:123-131 | Writing stale rows never makes seats and reservations disagree |
| `Sweeps.TablesAgreeDespiteSplitSweeps` | backend/src/modules/reservations/reservations.service.ts:113-131 | Agreement in every reachable state also with any number of split sweeps in flight |
| `Sweeps.HoldTimeBound` | backend/src/server.ts:11-17 | With a sweep at least every `period` seconds no hold is pending longer than 600 + period seconds |
| `Sweeps.NoHoldOutlives660Seconds` | backend/src/server.ts:11-17 | From a fresh installation, with the service's period: 660 seconds |
| `Sweeps.SweepSparesYoungHolds` | backend/src/modules/reservations/reservations.service.ts:114-116 | A sweep ends a pending hold if and only if it is older than 600 seconds |
| `Sweeps.HoldStartsNow` | backend/src/modules/reservations/reservations.service.ts:24 | A hold's creation time, read back from its deadline, is the moment of the step that made it |
| `Transactions.CheckRowsIsReserveCheck` | backend/src/modules/reservations/reservations.service.ts:27-48 | The guards over the locked rows are the guards over the tables |
| `Transactions.CommitIsCreate` | backend/src/modules/reservations/reservations.service.ts:49-62 | Committing the buffered writes is what the whole call does |
| `Transactions.InterleavedCallsAreSerial` | backend/src/modules/reservations/reservations.service.ts:26-62 | Under any interleaving of lock, check, seat writes, insert and commit of any number of calls with each other and with other writers that wait for the locks, the committed tables and every result are those of running the finished calls whole between the writers, in the order they finished |
| `Transactions.BookingStepIsOtherWrite` | backend/src/modules/payments/webhooks.service.ts:77-226 | Cancellations, sweeps, deliveries, scans and seat changes are such writers: they insert, drop and move no reservation |
| `Transactions.AllOrNothing` | backend/src/modules/reservations/reservations.service.ts:26-62 | A call takes all its seats, each AVAILABLE before and RESERVED after, or changes nothing |
| `Transactions.InterleavedCallsNeverShareSeat` | backend/src/modules/reservations/reservations.service.ts:27-38 | Two successful interleaved calls have disjoint seats |
| `Checkouts.CheckoutSucceedsIff` | backend/src/modules/payments/payments.service.ts:27-57 | A checkout succeeds exactly for a non-empty list of distinct, never-held, available seats of one published section with a product, for a known user |
| `Checkouts.CheckoutAnswers` | backend/src/modules/payments/payments.service.ts:27-57 | Exactly when a checkout gives each of its five errors, the empty choice of seats included, and the order a success hands over |
| `Checkouts.DuplicateSeatsRefused` | backend/src/modules/payments/payments.service.ts:38-41 | A list with a repeated seat is refused as not found and changes nothing |
| `Checkouts.MetadataMeansOrder` | backend/src/modules/payments/payments.service.ts:58-72 | In any later state the metadata parses back to the minted ids, selects exactly the order's reservations and their seats, and the billed quantity is the number of reservations |
| `Checkouts.OrdersAreDistinct` | backend/src/modules/payments/payments.service.ts:56-72 | Distinct checkouts have disjoint reservations and seats and different references |
| `Text.SplitUndoesJoin` | backend/src/modules/payments/payments.service.ts:70-71 | Parsing undoes printing on every non-empty list of comma-free ids |
| `Text.JoinUndoesSplit` | backend/src/modules/payments/webhooks.service.ts:74-75 | Printing undoes parsing on every text, and no parsed part has a comma |
| `OtpStore.KeysDistinct` | backend/src/providers/otp/redis-otp.store.ts:38-44 | Two accounts share a key only with the same scope and the same email in lower case, for any lower-casing; code keys and counter keys never collide |
| `OtpStore.RedisOtpStore.Save` | backend/src/providers/otp/redis-otp.store.ts:46-48 | Sets the code and its deadline, keeps the live counter, leaves every other account as it was |
| `OtpStore.RedisOtpStore.Claim` | backend/src/providers/otp/redis-otp.store.ts:5-35 | The script, command by command, equals the claim function on the account's two keys and leaves every other account as it was |
| `OtpBounds.ClaimFindsIff` | backend/src/providers/otp/redis-otp.store.ts:12-15 | A claim finds a code exactly while the last one saved has been neither accepted nor locked out and its lifetime has not run out |
| `OtpBounds.AcceptedOnce` | backend/src/providers/otp/redis-otp.store.ts:28-32 | An accepted guess equals that code, and every later claim finds none until the next save |
| `OtpBounds.AnswersIff` | backend/src/providers/otp/redis-otp.store.ts:14-34 | Over every trace: a claim is accepted iff a code stands and lives, the guess is that code and fewer than maxAttempts wrong claims are on the live counter; wrong iff the guess is another; locked out iff maxAttempts or more are; the counter lives 900 seconds from its first claim, whatever is saved meanwhile |
| `OtpBounds.CounterIs` | backend/src/providers/otp/redis-otp.store.ts:19-27 | The stored counter is the number of wrong claims since the one that started it, with the deadline of that one |
| `OtpBounds.GuessesPerCode` | backend/src/providers/otp/redis-otp.store.ts:17-26 | For every trace and every lifetime: comparisons per code are at most the maximum given by the counter at the save (what is left of a live counter and maxAttempts per 900 seconds after it, or maxAttempts per 900 seconds) |
| `OtpBounds.MostGuessesReached` | backend/src/providers/otp/redis-otp.store.ts:17-26 | That bound is the maximum: after any trace ending in a save some claims meet it and none exceed it |
| `OtpBounds.FullIs` | backend/src/providers/otp/redis-otp.store.ts:17-20 | That number in closed form, rounded up |
| `OtpBounds.GuessesPerShortCode` | backend/src/providers/otp/redis-otp.store.ts:46-59 | For lifetimes up to 900 seconds: at most 2 * maxAttempts - 1, and at most maxAttempts when no counter was live at the save |
| `OtpBounds.MoreThanMaxIff` | backend/src/providers/otp/redis-otp.store.ts:46-59 | The exact condition, at the save: more than maxAttempts comparisons are possible if and only if a counter c with 1 <= c < maxAttempts is live and runs out before the code |
| `OtpBounds.BoundIsTight` | backend/src/providers/otp/redis-otp.store.ts:17-26 | For every maximum of at least 1 a trace meets 2 * maxAttempts - 1 |
| `RateLimiter.Limiter.IsRateLimited` | backend/src/common/utils/rate-limit.util.ts:3-24 | The script, command by command: the counter it leaves, the verdict, and no other key changed |
| `RateLimiter.CountIsBurst` | backend/src/common/utils/rate-limit.util.ts:8-14 | The count is the number of calls since the last silence of a whole window |
| `RateLimiter.AllowedIff` | backend/src/common/utils/rate-limit.util.ts:8-19 | A call is allowed exactly when fewer than `limit` calls came before it since that silence |
| `RateLimiter.SlidingWindow` | backend/src/common/utils/rate-limit.util.ts:3-24 | Every half-open interval of one window holds at most `limit` allowed calls |
| `RateLimiter.RefusedUntilSilence` | backend/src/common/utils/rate-limit.util.ts:13-18 | Between a refusal and a later allowed call lies a silence of at least the window |
| `RateLimiter.StricterThanLog` | backend/src/common/utils/rate-limit.util.ts:3-24 | Every call it allows a sliding-window log of the same limit allows too |
| `RateLimiter.SteadyCallerStarves` | backend/src/common/utils/rate-limit.util.ts:12-15 | A caller that never pauses for a whole window gets exactly its first `limit` calls |
| `FixedWindow.StricterThanFixed` | backend/src/common/utils/rate-limit.util.ts:3-24 | Every call it allows a fixed-window counter of the same limit allows too |
| `FixedWindow.DifferIff` | backend/src/common/utils/rate-limit.util.ts:8-15 | The two decide a call differently if and only if the call and the `limit` calls before it have no silence between them and a fixed window opened after the first of them |
| `FixedWindow.RetryDiffers` | backend/src/common/utils/rate-limit.util.ts:8-15 | For every limit of at least 1 and window of at least 2 a trace whose last call a fixed window allows and the limiter refuses |
| `OtpGate.OtpRateLimit.Check` | backend/src/modules/auth/otp-rate-limit.middleware.ts:9-40 | Passes iff the address is within 10 calls and the given non-empty email within 5, in windows of 900 seconds; the address is counted first, the email only if it passes; the counters of every other address and every other email, and all other keys, stay as they were |
| `OtpGate.GateKeysDistinct` | backend/src/modules/auth/otp-rate-limit.middleware.ts:13-26 | One counter per address and one per email: keys are equal only for equal texts, and no address shares one with an email |
| `OtpGate.AdmitIsCheck` | backend/src/modules/auth/otp-rate-limit.middleware.ts:9-40 | The limiters of the request model answer and count as the middleware does, and a request about another email counts its address alone |
| `OtpGate.ServeSpends` | backend/src/modules/auth/otp-rate-limit.middleware.ts:27-35 | A counted request costs one of the comparisons still possible, whether it makes it or not |
| `OtpGate.GuessesPerGatedCode` | backend/src/modules/auth/auth.router.ts:23-31 | Behind the limiters a code of either scope meets at most 5 guesses in its whole life, and at most 4 if the request that saved it was counted itself, from any addresses, with the counter shared by all four endpoints |
| `OtpGate.GatedBoundsAreMet` | backend/src/modules/auth/otp-rate-limit.middleware.ts:27-35 | Traces that reach 5 for a registration code and 4 for a resent one |
| `EventsKey.KeyInjective` | backend/src/modules/events/events.service.ts:184-196 | Two keys are equal if and only if version, filters, page and limit are, defaults filled in; filter texts may hold lone surrogates |
| `EventsKey.Base64UrlInjective` | backend/src/modules/events/events.service.ts:194 | Unpadded base64url (RFC 4648, section 5) is injective on byte sequences of any length |
| `EventsKey.Utf8Injective` | backend/src/modules/events/events.service.ts:194 | UTF-8 is injective |
| `EventsKey.QuotedPrefix` | backend/src/modules/events/events.service.ts:187-193 | JSON strings (RFC 8259, section 7) can be read off the front of a text, so their escaping is injective |
| `EventsKey.MembersInjective` | backend/src/modules/events/events.service.ts:187-193 | The object text tells which filters are present and their values |
| `EventsCache.PagesCoverListing` | backend/src/modules/events/events.service.ts:119-164 | The items answered to a client that asks for pages 1 to totalPages, one after the other, are the whole listing, and without the last page they are not |
| `EventsCache.PageHolds` | backend/src/modules/events/events.service.ts:120-122 | A page names the page and limit asked for, else 1 and 20, and its j-th item is entry (page - 1) * limit + j of the listing, up to limit of them |
| `EventsCache.TotalPagesIs` | backend/src/modules/events/events.service.ts:155-161 | totalPages is the least number of pages, at least one, with room for the total |
| `EventsCache.StepKeeps` | backend/src/modules/events/events.service.ts:46-47 | Every reader and writer step keeps the invariant: no version yet to come is in use, and with no writer halfway everything under the current version is fresh |
| `EventsCache.BumpMakesFresh` | backend/src/modules/events/events.service.ts:180-186 | The last pending bump makes nothing stale: it starts an unused version, or it is the first one and only a draft was ever saved |
| `EventsCache.FreshWhenQuiet` | backend/src/modules/events/events.service.ts:119-186 | From empty database and empty Redis: whenever no writer is between save and bump, a page under the current version is what the query gives |
| `EventsCache.ReadsAreLinearizable` | backend/src/modules/events/events.service.ts:119-165 | A read begun at such a moment answers with the listing of some moment between its beginning and its end, however the rest interleaves |
| `EventsCache.CompletedWritesVisible` | backend/src/modules/events/events.service.ts:180-186 | Even with writers halfway: a read that sees version v >= 2 answers with the listing of some moment since the bump to v |
| `EventsStale.FreshButAfterFirstBump` | backend/src/modules/events/events.service.ts:180-186 | From any rows beside an empty Redis, whenever no writer is halfway and not exactly one has bumped, a page under the current version is what the query gives |
| `EventsStale.BeforeOrAfterFirstSave` | backend/src/modules/events/events.service.ts:180-186 | After exactly one bump there was exactly one save, and a page under version 1 is of the rows before it or after it |
| `EventsStale.GoesStaleIff` | backend/src/modules/events/events.service.ts:180-186 | The exact condition on the rows found: some quiet run leaves a live stale page for a query if and only if saving some existing event anew can change what the query gives |
| `EventsStale.StaleAfterFirstBump` | backend/src/modules/events/events.service.ts:180-186 | Beside a non-empty table with an empty Redis: a run that leaves a live stale page, for every write that changes the query's answer |
| `EventsStale.StaleWhileCreatePends` | backend/src/modules/events/events.service.ts:46-47 | A run in which a published event stays unlisted after its own bump while its create has yet to bump |
| `EventsStale.BumpCompletesWrite` | backend/src/modules/events/events.service.ts:180-182 | But for the first bump with another writer still halfway, every read begun after a bump that sees its version answers with the listing of some moment since the bump |
| `EventsStale.LaterBumpCompletesWrite` | backend/src/modules/events/events.service.ts:180-182 | The same beside any rows, for every bump but the first |
| `EventsStale.ReadsFromNowIff` | backend/src/modules/events/events.service.ts:119-186 | In every state, later reads of the current version all answer with listings from then on if and only if every live page and every reader's page under it is what the query gives |
| `EventsService.EventsService.Create` | backend/src/modules/events/events.service.ts:29-49 | A draft under a fresh id and a bump, or NotFound for a missing venue |
| `EventsService.EventsService.UploadBanner` | backend/src/modules/events/events.service.ts:51-73 | NotFound iff the event is missing, Forbidden iff it is another organizer's; else changes its banner alone and bumps |
| `EventsService.EventsService.Publish` | backend/src/modules/events/events.service.ts:75-99 | NotFound iff missing, Forbidden iff another organizer's or not a DRAFT; else the list gains exactly that event |
| `EventsService.EventsService.Cancel` | backend/src/modules/events/events.service.ts:101-117 | NotFound iff missing, Forbidden iff another organizer's; else the list loses exactly that event, whatever its status was |
| `EventsService.EventsService.ListPublished` | backend/src/modules/events/events.service.ts:119-166 | Cached or not, answers what a direct query gives now; stores under the current version for 600 seconds |
| `EventsService.WriteKeepsValid` | backend/src/modules/events/events.service.ts:180-186 | A whole write with its bump keeps every current page fresh |
| `SeatCounts.DropsSuffice` | backend/src/modules/seats/seats.service.ts:17-30 | Every booking step invalidates every section whose number of available seats it changes |
| `SeatCounts.AvailableCountExact` | backend/src/modules/seats/seats.service.ts:73-88 | With commit and invalidation as one step and whole fills, availableCount is exact in every reachable state |
| `SeatCounts.AvailableBesideActive` | backend/src/modules/seats/seats.service.ts:83-85 | A section's available seats and its pending and confirmed reservations add up to its seats |
| `SeatCounts.AvailableCountAddsUp` | backend/src/modules/seats/seats.service.ts:73-88 | From a fresh installation availableCount answers, in every reachable state, the number of the section's seats less its pending and confirmed reservations |
| `SeatFills.BookingCommits` | backend/src/modules/reservations/reservations.service.ts:62 | Every step of the booking protocol is a commit in the sense of the split model |
| `SeatFills.StaleBound` | backend/src/modules/seats/seats.service.ts:73-88 | With all steps apart, an answer at t was exact at its count instant c, and t - c is less than 60 seconds plus the count-to-store gap |
| `SeatFills.StaleOnlyIf` | backend/src/modules/seats/seats.service.ts:17-30 | The next answer is wrong only while an invalidation is due or if the count was stored across a commit |
| `SeatFills.StaleIff` | backend/src/modules/seats/seats.service.ts:17-30 | Once a section's invalidations have been carried out its cached count is wrong if and only if it was wrong when stored, which takes a commit between counting and storing |
| `SeatFills.StoredAcrossCommit` | backend/src/modules/seats/seats.service.ts:83-86 | The second case happens, and leaves a wrong count with no invalidation due |
| `SeatsService.SeatsService.AvailableCount` | backend/src/modules/seats/seats.service.ts:73-88 | Cached or counted, the exact number; NotFound for a missing section; no other key changed |
| `Availability.InvalidateSeatAvailability` | backend/src/modules/seats/seats.service.ts:17-21 | Deletes exactly the keys of the given sections, each once, skipping missing ids |
| `Availability.InvalidateSeatAvailabilityBySeatIds` | backend/src/modules/seats/seats.service.ts:23-30 | Deletes exactly the keys of the sections of the seats that exist |
| `SeatsService.SeatsService.BulkCreate` | backend/src/modules/seats/seats.service.ts:41-60 | Errors in the order of the code, a taken or repeated number rejected; a success adds exactly the numbered new seats within the capacity, keeps numbers unique in the section, drops its count and keeps every live count exact |
| `SeatsService.SeatsService.Remove` | backend/src/modules/seats/seats.service.ts:112-122 | NotFound iff there is no such seat, Forbidden iff it is another organizer's, Rejected iff a reservation or ticket points to it; else exactly that seat is gone, and every live count stays exact |
| `SeatsService.AddedSeats` | backend/src/modules/seats/seats.service.ts:55-58 | The created rows are AVAILABLE seats of the section, and every other seat row stays; the capacity counts the rows of that section |
| `SeatsService.ClashIff` | backend/src/migrations/1784936694189-InitSchema.ts:12 | New numbers are refused iff two of them are the same or one is that of an existing seat of the same section, under any collation |
| `Availability.DroppedKeepsExact` | backend/src/modules/seats/seats.service.ts:17-30 | Dropping the counts of the sections a write touched keeps all others exact |
| `Availability.KeysDiffer` | backend/src/modules/seats/seats.service.ts:13-15 | Different sections have different keys |

## Left out

- Identifiers: numbers with their decimal text in place of UUIDs; only comma-freeness, non-emptiness and injectivity are used.
- Foreign calls: the Bachs client, storage, mail, queue, PDF and QR images never fail here; a provider failure after `create`, which leaves the holds to the sweep, is not modelled.
- HMAC, JWT and bcrypt: a scanned text is unreadable, wrongly signed, or correctly signed for a ticket id; webhook signatures and the 300-second tolerance are plumbing.
- Columns no property reads: currency, provider, ticket QR text and URL, `usedAt`, `refundedAt`, timestamps of rows.
- Lock order and deadlocks of MySQL, and TypeORM's save by difference: a reservation call locks all its rows at once, and a saved row is written with the statuses the code sets.
- Transactions.InterleavedCallsAreSerial: the catalogue does not change while a call runs (its events are read without a lock), and no seat is created or removed under an id it asks for.
- Deliveries.InterleavingIsSequential: a handler with its ticket generation is one step there; `SplitPayments` and `TicketRaces` take it apart.
- OtpGate.GuessesPerGatedCode: a request's limiter check and its claim are one instant (without that, the bound of `OtpBounds.GuessesPerShortCode` is left); the resend cooldown only removes saves and is covered by requests that do nothing.
- EventsStale.GoesStaleIff: a flush of Redis while list requests are in flight is not a step; a start has none.
- EventsCache.FreshWhenQuiet: the list query is any function of the published rows and filters, its items and count read at one instant; SQL matching and full-text search are not spelled out. Pages are values, not JSON text.
- Section capacity: `SectionsService.update` may lower it below the number of seats, so it is no invariant.
- `SeatsService.update`: renaming a seat changes no count; its race with status changes is TypeORM's save by difference.
- Venues, sections, favourites, users, sessions, notifications, payout entities, routing and validation: no state machine of interest.
