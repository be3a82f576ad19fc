# SeatRush, modelled and proved in Dafny

This project models the transactional core of the SeatRush backend and proves what its services keep
in every reachable state. `dafny verify dfyconfig.toml` checks all of it.

The booking system is a transition system (`System.Apply`): one step per committed transaction. Its
transition functions are also carried out statement by statement, as methods that update tables in place
(`Database.Tables`), and each method ends in exactly the state its transition function gives. What the
functions mean is said a second time, without their branches: `HoldOutcomes` says what a hold promises, and
`RowTables` gives one table per kind of row (bookings, payments, seats, waitlist entries) and `EventLog` one for
the outbox; every transaction follows them in every state that keeps the ownership invariant. The other
components are the lock protocol of concurrent holds, the idempotency-key protocol, the token bucket,
the waiting room, the outbox worker, the hall layout and the document ranking.

## Files

| file | content |
|---|---|
| `Commons.dfy`, `Records.dfy` | shared vocabulary; the rows of the database |
| `Holds.dfy`, `Waitlist.dfy`, `Bookings.dfy`, `Expiry.dfy`, `System.dfy`, `Scenarios.dfy` | the services as transition functions, the runs they make, and steps that the example runs share |
| `Database.dfy`, `Service.dfy` | the same services as methods over tables, and whole runs of them |
| `HoldOutcomes.dfy`, `RowTables.dfy`, `Deadlines.dfy`, `Releases.dfy`, `EventLog.dfy` | what each transaction does to each row, when payments start, who gets given-up seats, what the outbox reports |
| `Ownership.dfy`, `StatusHistory.dfy`, `Transitions.dfy`, `Money.dfy`, `Webhooks.dfy`, `LateSuccess.dfy`, `Sweeps.dfy` | invariants and laws of every run of bookings |
| `WaitlistOffers.dfy`, `WaitlistLedger.dfy`, `WaitlistClaims.dfy`, `WaitlistOrder.dfy` | who is offered what, in which order, and what a claim means |
| `HoldConcurrency.dfy`, `HoldRefusals.dfy`, `LockOrder.dfy`, `LockProgress.dfy` | interleaved holds, what refused holds are told, the order of UUIDs, freedom from deadlock |
| `Idempotency.dfy` | any number of clients sharing one key |
| `TokenBucket.dfy`, `WaitingRoom.dfy`, `Admissions.dfy`, `Outbox.dfy` | the limiter, the queue and who it admits, at-least-once delivery |
| `SeatLayout.dfy`, `Retrieval.dfy`, `TermWeights.dfy` | row labels and seat geometry; TF-IDF ranking and its weights |

## How the model reads the program

- Bookings, waitlist entries, queue tickets and events live in append-only sequences; an id is a position.
- `show_seats` is split into a fixed catalog (show, section, price) and the mutable columns (status, owner,
  deadline). The `version` column is written and never read, so it is not kept.
- A hold request names rows of `show_seats` directly instead of going through `seat_id`, which is unique
  within a show. The ids of a booking's seats are listed in ascending order.
- `ORDER BY position` leaves ties to the database. Every transaction that makes offers takes a `Ties` map, so
  the theorems hold for whichever of the least entries is picked.
- Times are integers, prices are integers (cents), the clock is a parameter of each transaction. An offer reads
  the clock once instead of twice, so the entry and the seat carry the same deadline.
- A ticket code is a flag: it was issued or it was not. Codes are assumed distinct.
- A payment is always charged the total of its booking (`backend/app/routers/bookings.py:65-66`), and a delivery
  names the payment's own booking, as both come from one charge (`backend/app/mock_payment_provider.py:45-50`).
- `initiate_payment`, `cancel_booking`, `join_waitlist` and `join_queue` are single steps. The code takes no row lock
  there, so this is an assumption and not something that is proved.
- After an exception the caller's transaction is discarded. A hold of no seats is one such case: the total of no
  prices raises (`backend/app/services/pricing.py:4-7`).
- Concurrent holds follow READ COMMITTED row locks: an UPDATE that matches locks its row until the end of the
  transaction, an UPDATE of a locked row waits and then checks its predicate on the committed row. Whether a failed
  check leaves the row locked is left open, and both cases are covered. A booking gets its id when its hold commits.
- Shows turn hot one way, by `mark_hot`; the shows hot from the start are those seeded hot.
- The outbox query, the sweep query and the batch query may return equal rows in any order; each theorem holds for whatever
  they return. They always return something (`Outbox.SomeBatchExists`, `Sweeps.SomeSweepExists`, and `WaitingRoom.QueueTable.AdmitOne`
  computes an answer), so no theorem is about runs that cannot happen.
- Row locks: a conditional UPDATE that finds its seat taken keeps no lock on it in `LockProgress`; `HoldConcurrency` covers both cases.
- The bucket, the cosine and the seat geometry are over exact reals. Logarithm, square root and rounding are
  parameters with the facts that are needed. Over exact reals the section shares of a hall add up to all rows
  (`SeatLayout.SharesCoverAllRows`), so the fallback section after the loop is never used.
- The idempotency wait counts polls: 100 waits of 0.1 s. Adding 0.1 in binary floating point reaches 10.0 one poll
  later; no theorem depends on the number.

## Where the code differs from what is written about it

Each of these is stated exactly, with the condition under which the promise does hold.

- **Late success can sell part of a booking.** `docs/design.md` section 6 and the property test ("Every SOLD seat has a
  confirmed booking behind it", `backend/tests/property/test_invariants.py:111`) describe an all-or-nothing
  re-acquisition. `_try_reacquire_seats` returns False after it may have sold a prefix, and its caller commits.
  `LateSuccess.SoldWithoutConfirmedBooking` gives the run, in any database with two seats of one show;
  `LateSuccess.AllOrNothingIff` gives the condition: the first seat in id order is taken, or all are FREE.
  `LateSuccess.StrandsExactly` and `LateSuccess.StrandedForever` say which seats are stranded and that they stay so.
- **The transition table is not the whole relation.** The docstring says that any other transition is rejected.
  `Transitions.InTableIff`: a change is in the table exactly when it is not the cancellation of a CONFIRMED booking, and
  `Transitions.ConfirmedIsCancelled` is a run that makes that one. Cancelling a PAYMENT_PENDING booking passes the first guard
  and is refused by the table: `Transitions.CancelAcceptedIff`.
- **A late waitlist joiner can overtake.** Positions are COUNT(WAITING) + 1. `WaitlistOrder.LateJoinOvertakes` is a run in which
  the last to join is next. `WaitlistOrder.OrderKeptIff` gives the condition, which can be looked up before each join: nobody
  waits, or position 1 still does. `WaitlistOrder.FirstComeFirstServed` is what then holds.
- **CLAIMED does not mean that this user's booking was confirmed.** `mark_claimed_if_applicable` matches on the seat alone.
  `WaitlistClaims.ClaimedWithoutBooking` is a run that claims the entry of a user who gave the offer up. `WaitlistClaims.OwnClaimIff`
  gives the condition, and `WaitlistClaims.LapsedButOpenWereGivenUp` where its exceptions come from.
- **An idempotency key can get stuck.** A waiter that claims a vanished key raises without running the handler
  (`backend/app/services/idempotency_service.py:122-127`): `Idempotency.WaiterAbandonsKey` is the run. So does a crash of the
  responsible client. `Idempotency.HowKeysGetStuck` says these are the only ways; `Idempotency.StuckForever` says there is no way out.
- **The outbox is ordered by the start of transactions, not by their commits.** `created_at` is the start
  (`backend/app/models.py:272`), so the rows of one transaction tie, and one that commits late is overtaken
  (`Outbox.LateCommitIsOvertaken`). `Outbox.OrderKeptIff` gives the condition over whole runs, and `Outbox.CommitKeepsOrderIff` for
  one commit; it can be looked up at each commit: it writes no row with a channel, or no row already sent, and no channelled row the
  worker has in hand, is newer than its start. `Outbox.SentInOrder` is the corollary for commits that become visible in order of start.
- **The list of a refused hold may never have been true at once.** `docs/failure-modes.md` promises a 409 that lists exactly which
  of the requested seats were unavailable. Each listed seat was unavailable at its own UPDATE, and no other was
  (`HoldRefusals.ListsExactlyWhatItFound`). As the answer to the whole request the list is right when the hold ends exactly when none
  of the listed seats has become FREE since (`HoldRefusals.ListIsCurrentIff`); so it is if refused rows stay locked
  (`HoldRefusals.ListIsCurrentUnderLocks`). Otherwise `HoldRefusals.ListNeverTrueAtOnce` is a run in which at every moment one of the
  two listed seats was FREE.
- **Not every transaction locks in the one global order.** `docs/design.md` rules out deadlock by that order. Holds, deliveries and
  sweeps follow it (`LockProgress.PlansRise`, `LockProgress.SomeoneCanStep`). A cancellation, and the expiry at pay time, update the seats
  before the booking. `LockProgress.CancelDeadlocksIff`: it can deadlock with another transaction exactly when that one locks the booking and
  asks for rows of it; `LockProgress.CancelAgainstEach`: those are the deliveries and sweeps of the same booking.
- **The 120 s key expiry of the limiter is harmless only for some settings.** `TokenBucket.ExpiryNeverMattersIff`: exactly when
  the capacity is at most what 120 s accrue. All callers pass a capacity equal to the per-minute rate, which is half of that.

## Model

| member | source | states |
|---|---|---|
| Database.Tables.constructor | backend/app/models.py:166-174 | A new database has every seat FREE without owner or deadline and every other table empty |
| Database.Tables.CreateHold | backend/app/services/hold_service.py:41-119 | The loop of conditional UPDATEs with its rollback ends in the committed hold, or in the untouched database with the reason: no such show, missing ids, unavailable ids, no seats |
| Database.Tables.AcquireRows | backend/app/services/hold_service.py:79-97 | The loop collects exactly the ids that are not FREE, in order; when there are none it has taken every row and summed all prices |
| Database.Tables.FreeHeldSeats | backend/app/services/hold_service.py:122-137 | Frees exactly the booking's rows that still name it as owner |
| Database.Tables.ReleaseHold | backend/app/services/hold_service.py:140-152 | Frees, retires the booking as EXPIRED or CANCELLED, and writes the one event of that reason |
| Database.Tables.JoinWaitlist | backend/app/services/waitlist_service.py:23-39 | The counted position is one more than the number of waiters of the section |
| Database.Tables.OfferSeatToNextWaiter | backend/app/services/waitlist_service.py:61-122 | Claims the next entry, holds the seat for a new one-seat booking and logs the offer; puts the entry back when the seat is not FREE |
| Database.Tables.TryOfferFreedSeats | backend/app/services/waitlist_service.py:42-58 | Offers each seat that is known and still FREE, in order |
| Database.Tables.MarkClaimedIfApplicable | backend/app/services/waitlist_service.py:125-135 | Claims exactly the OFFERED entries whose seat is among the booking's |
| Database.Tables.ExpireStaleOffers | backend/app/services/waitlist_service.py:138-150 | Expires exactly the OFFERED entries past their deadline and returns their number |
| Database.Tables.ExpireBooking | backend/app/services/booking_service.py:216-224 | A booking that is not live is left alone; a live one is released and its seats are offered |
| Database.Tables.InitiatePayment | backend/app/services/booking_service.py:58-71 | Past the deadline it expires the booking and refuses; otherwise the table decides |
| Database.Tables.RecordPaymentPending | backend/app/services/booking_service.py:74-76 | Records a PENDING payment for the booking's total, unless the reference exists |
| Database.Tables.ConfirmBooking | backend/app/services/booking_service.py:171-193 | Sells the owned seats unless already sold, tickets the booking, claims offers and logs the confirmation |
| Database.Tables.TryReacquireSeats | backend/app/services/booking_service.py:196-213 | Sells seats in id order and stops at the first that is not FREE, keeping what it has sold |
| Database.Tables.HandleWebhook | backend/app/services/booking_service.py:79-168 | All eight outcomes, with the state each leaves |
| Database.Tables.CancelBooking | backend/app/services/booking_service.py:227-253 | The unguarded and the guarded branch, the refusals, and the offers that follow |
| Database.Tables.SweepOnce | backend/app/workers/expiry_worker.py:29-68 | Expires each candidate that is still overdue, then the stale offers, and returns how many bookings it expired |
| HoldOutcomes.HoldsAllOrNothing | backend/app/services/hold_service.py:41-119 | For every database and request: a hold is created exactly when the show exists, something is requested and every id requested is a FREE seat of it; then it is one HELD booking of exactly the seats requested, each HELD by it until the deadline, and nothing else changes; otherwise nothing changes |
| HoldOutcomes.RefusalNamesTheCulprits | backend/app/services/hold_service.py:47-102 | Each refusal exactly in its case: no such show; the requested ids that are no seat of the show, as often as they were requested; the requested seats that are not FREE, in id order; nothing requested |
| RowTables.BookingIs | backend/app/services/booking_service.py:58-253 | Every transaction changes the row of every existing booking exactly as its table of (transaction, status, deadline, FREE seats) says, tickets included |
| RowTables.PaymentIs | backend/app/services/booking_service.py:74-168 | The same for payments: recorded once for the booking's total; a first delivery makes it SUCCEEDED exactly when it confirms the booking, FAILED when it is one of failure, and REFUNDED for a FAILED, CANCELLED, HELD or CONFIRMED booking, or an EXPIRED one whose seats are not all FREE |
| RowTables.SeatIs | backend/app/services/hold_service.py:79-152 | The same for seats: HELD by the hold that requested it, SOLD to the booking that is confirmed or re-acquires, FREE or offered on when its booking gives it up, and otherwise as it was |
| RowTables.EntryIs | backend/app/services/waitlist_service.py:61-150 | The same for waitlist entries: claimed by the confirmation of a booking with the offered seat, expired past their deadline, offered a given-up seat of their show and section, and otherwise as they were |
| RowTables.JoinAddsOne | backend/app/services/waitlist_service.py:23-39 | Only a join adds an entry: for that user, show and section, at one more than the number waiting there |
| RowTables.AnswerIs | backend/app/services/booking_service.py:84-168 | What `handle_webhook` answers, by a table of the payment, the booking and its seats |
| RowTables.PutBackIsIdentity | backend/app/services/waitlist_service.py:93-100 | Putting a claimed entry back because its seat is not FREE leaves any reachable database as it was |
| Deadlines.PaymentStartsIff | backend/app/services/booking_service.py:58-71 | Payment starts exactly for a HELD booking whose deadline has not passed; after the deadline it is refused, and a booking still live is EXPIRED by that call and owns no seat |
| Deadlines.NobodyPaysLate | backend/app/services/booking_service.py:58-71 | In any run whose clock does not go back, once it has passed a booking's deadline that booking does not enter PAYMENT_PENDING |
| Releases.GivenUpSeatsGoToTheFirst | backend/app/services/booking_service.py:106-253 | Whichever transaction makes a booking give up its seats (failed delivery, sweep, late payment, cancellation): of k seats in a section with w waiters exactly min(k, w) are offered, to waiters none of whom stands behind one left out, and a seat stays FREE only when nobody is left waiting |
| Releases.NewBookingsAreOffers | backend/app/services/waitlist_service.py:102-122 | Such a transaction creates one booking per entry that stops waiting; apart from holds no other creates any |
| EventLog.LogIs | backend/app/services/outbox_service.py:5-15 | Each transaction writes the one row of what it did to its booking, payment or entry, and then the rows of its offers; nothing when it is refused |
| EventLog.ChangesReachTheirShow | backend/app/workers/outbox_worker.py:60-64 | In every reachable state each row that reports a status change of a booking has the channel of that booking's show, the start of a payment none |
| EventLog.OtherRowsReachTheirShow | backend/app/workers/outbox_worker.py:60-64 | Every other row reports a refund, which has no channel, or the join of an entry, which has the channel of that entry's show |
| EventLog.RefundsAreReported | backend/app/services/booking_service.py:133-168 | In every reachable state the log reports a refund once for each REFUNDED payment and for no other |
| EventLog.JoinsAreReported | backend/app/services/waitlist_service.py:32-36 | In every reachable state the joins reported are those of the entries, in order, with user, show and position |
| Service.Execute | backend/app/services/booking_service.py:58-253 | Whatever the transaction, the statements of the services reach the state of the transition system |
| Service.ExecuteAll | backend/app/services/hold_service.py:41-152 | Any sequence of transactions on a seeded database reaches the state of the same run of the transition system, and seat ownership holds there |
| Waitlist.NextWaiter | backend/app/services/waitlist_service.py:67-73 | The chosen entry waits for that section and no waiter has a smaller position; none is chosen exactly when nobody waits; any least entry can be the choice |
| Ownership.Reachable | backend/app/services/booking_service.py:171-253 | In every reachable state a live booking has all its seats HELD by it with its own deadline, a CONFIRMED one has all of them SOLD to it, a FREE seat has no owner or deadline, and every taken seat belongs to such a booking or is stranded |
| Ownership.NoDoubleBooking | backend/app/services/hold_service.py:8-16 | No seat is in two bookings that are live or CONFIRMED, in any reachable state |
| Ownership.SeatCensus | backend/app/models.py:158-174 | FREE, claimed and stranded seats are disjoint and together number all seats, in every reachable state |
| Ownership.UnguardedCancelIsGuarded | backend/app/services/booking_service.py:231-239 | Cancelling a CONFIRMED booking without an owner guard frees exactly the rows the guard would have selected, all SOLD to it |
| Ownership.ConfirmUpdatesEverySeat | backend/app/services/booking_service.py:177-183 | The row count that confirmation does not check is always the number of the booking's seats |
| Ownership.ReacquireSellsPrefix | backend/app/services/booking_service.py:201-213 | Re-acquisition sells exactly the leading FREE seats and succeeds exactly when that is all of them |
| StatusHistory.Reachable | backend/app/services/booking_service.py:26-46 | The log reports, for every booking and in order, a walk along the allowed status changes that ends in its current status |
| StatusHistory.ReplayReconstructsStatuses | backend/app/services/outbox_service.py:5-15 | Reading the log alone yields exactly the existing bookings and the current status of each, in every reachable state |
| StatusHistory.LivesAreShort | backend/app/services/booking_service.py:3-12 | A booking changes status at most four times and never returns to a status it has left |
| Transitions.InTableIff | backend/app/services/booking_service.py:12-46 | For every database, transaction and booking whose status it changes: the change is in the table exactly when it is not the cancellation of a CONFIRMED booking |
| Transitions.ConfirmedIsCancelled | backend/app/services/booking_service.py:231-240 | That change happens: hold, pay, succeed, cancel |
| Transitions.CancelAcceptedIff | backend/app/services/booking_service.py:227-253 | A cancellation is accepted exactly for HELD and CONFIRMED bookings, changes no other booking's status, and refuses without a trace |
| Money.MoneyIsConserved | backend/app/services/booking_service.py:106-168 | Over every run, with any number of payments per booking, the SUCCEEDED payments add up to the totals of all bookings that ever got a ticket |
| Money.RevenueIsConserved | backend/app/services/booking_service.py:171-185 | The same law on the price list: kept payments equal the prices of the seats of all ticketed bookings |
| Webhooks.OnlyFirstDeliveriesMatter | backend/app/services/booking_service.py:79-168 | Duplicated, reordered and contradictory deliveries reach the same state as the run with only the first delivery per recorded payment |
| Webhooks.KeptDeliveriesAreDistinct | backend/app/services/booking_service.py:79-168 | The reduced run delivers each payment at most once |
| Webhooks.SettledForever | backend/app/services/booking_service.py:98-99 | A settled payment is the same in every later state |
| LateSuccess.LateSuccessExactly | backend/app/services/booking_service.py:127-143 | A late success sells exactly the seats before the first that is not FREE; all of them confirms the booking and keeps the payment, fewer refunds it and moves nothing else |
| LateSuccess.StrandsExactly | backend/app/services/booking_service.py:127-143 | Every transaction leaves stranded seats as they are, and only a partial late success adds any, namely the seats it sold |
| LateSuccess.AllOrNothingIff | backend/app/services/booking_service.py:196-213 | A late success strands no seat exactly when its first seat is taken or all its seats are FREE |
| LateSuccess.OneSeatIsAllOrNothing | backend/app/services/booking_service.py:196-213 | A one-seat booking never strands its seat |
| LateSuccess.StrandedForever | backend/app/services/booking_service.py:127-143 | A stranded seat never changes again, and the booking it is sold to stays EXPIRED |
| LateSuccess.SoldWithoutConfirmedBooking | backend/app/services/booking_service.py:196-213 | In any database with two seats of a show, a run of six transactions leaves a seat SOLD with no confirmed booking behind it |
| WaitlistOffers.FreedSeatsGoToTheFirst | backend/app/services/waitlist_service.py:42-122 | Releasing k FREE seats of a section with w waiters makes exactly min(k, w) offers there, to waiters no later in position than any left; a seat stays FREE only when nobody is left waiting |
| WaitlistLedger.ApplySound | backend/app/services/waitlist_service.py:61-150 | Every transaction moves entries only from WAITING to OFFERED and from there to CLAIMED or EXPIRED, keeps the terms of bookings, and keeps the ledger of offers |
| WaitlistLedger.OffersMatchEntries | backend/app/services/waitlist_service.py:102-122 | In every reachable state the offers in the log number exactly the entries no longer WAITING, each with one one-seat booking for that entry's user at that seat's price, for the same seat and deadline as the entry |
| WaitlistOrder.OrderKeptIff | backend/app/services/waitlist_service.py:24-31 | Over every run: the waiters of a section stand in the order of joining throughout, exactly when each join was made with nobody waiting there or with position 1 still waiting |
| WaitlistOrder.JoinGoesLastIff | backend/app/services/waitlist_service.py:24-31 | On a line whose positions run k + 1 .. k + W, a join goes behind everyone exactly when nobody waits or position 1 still does; then the line keeps running in order, otherwise its order is broken |
| WaitlistOrder.FirstComeFirstServed | backend/app/services/waitlist_service.py:1-10 | While the joins fit that guard: whoever has been offered a seat of the section, so has everyone who joined it earlier; its offers, also those within one release, were made in the order of joining; the next goes to the earliest still waiting |
| WaitlistOrder.JoinsBeforeOffersFit | backend/app/services/waitlist_service.py:1-10 | The guard holds for every run whose joins of the section all precede its first offer, wherever else people join meanwhile |
| WaitlistOrder.LateJoinOvertakes | backend/app/services/waitlist_service.py:24-31 | In any database with two seats of a section: hold them, let three join, cancel, let a fourth join; the fourth is next and the third, who joined before, is not |
| WaitlistClaims.ClaimedOwnOrLapsed | backend/app/services/waitlist_service.py:125-135 | In every reachable state, an entry that a successful payment marks CLAIMED was offered the very booking that is confirmed, or the booking it was offered has lapsed |
| WaitlistClaims.ForeignClaim | backend/app/services/waitlist_service.py:129-133 | Whenever two open offers name one seat, confirming the booking of one marks both CLAIMED, although the other's booking has lapsed |
| WaitlistClaims.ClaimedWithoutBooking | backend/app/services/waitlist_service.py:125-135 | In any database with a seat, a run of eight transactions ends with both entries CLAIMED and one of their users without a booking; that user's booking was cancelled, or expired with the stale-offer step still to come |
| WaitlistClaims.OwnClaimIff | backend/app/services/waitlist_service.py:125-135 | In every reachable state, a confirming success marks only the entry that was offered its own booking, exactly when no lapsed booking that was offered one of its seats still has an OFFERED entry |
| WaitlistClaims.LapsedButOpenWereGivenUp | backend/app/services/waitlist_service.py:138-150 | Right after a stale-offer step, an OFFERED entry whose booking has lapsed is one whose booking was cancelled or failed before its deadline |
| Sweeps.SweepShrinks | backend/app/workers/expiry_worker.py:29-68 | A sweep expires min(500, n) of n overdue bookings, adds none and leaves no stale offer |
| Sweeps.SweepsConverge | backend/app/workers/expiry_worker.py:3-10 | With the clock held fixed, after k sweeps with 500 k at least n, no seat is HELD past its deadline and a further sweep changes nothing |
| HoldConcurrency.AlwaysConsistent | backend/app/services/hold_service.py:51-117 | Under every interleaving, the committed table is the serial run so far, locks are exclusive, the rows a transaction took are its own, and each transaction that is committed or refused has had exactly one turn |
| HoldConcurrency.HoldsAreSerializable | backend/app/services/hold_service.py:51-117 | Any interleaving of any number of multi-seat holds, one conditional UPDATE at a time, ends in the state of running the committed holds whole in commit order; holds that are rolled back for a refused seat, or aborted at any point, leave nothing |
| HoldConcurrency.FinishedHoldsTookOneTurn | backend/app/services/hold_service.py:79-117 | A finished hold has one point in the serial order where the whole hold gives its outcome: all seats if it committed, refused for a taken seat if an UPDATE was refused; aborted before any refusal, it has none |
| HoldConcurrency.InterleavedHoldsKeepOwnership | backend/app/services/hold_service.py:3-16 | Seat ownership holds under every interleaving |
| HoldConcurrency.SomeHoldCanStep | backend/app/services/hold_service.py:11-14 | While a hold is unfinished, some hold can update its next row or finish |
| LockOrder.SortingByTextIsSortingByBytes | backend/app/services/booking_service.py:201 | Comparing the canonical text of two UUIDs (section 4 of RFC 9562) is comparing their octets, so sorting by `str` gives the database's order |
| HoldRefusals.BeginsIff | backend/app/services/hold_service.py:47-64 | An interleaved hold gets to its UPDATEs exactly when the show exists, something is requested and all of it are seats of the show |
| HoldRefusals.ListsExactlyWhatItFound | backend/app/services/hold_service.py:79-102 | In every interleaving the list of a hold is in id order and names exactly those of its rows that were not FREE at their own UPDATE; a hold that is rolled back has updated all its rows |
| HoldRefusals.ListIsCurrentIff | backend/app/services/hold_service.py:99-102 | When a refused hold ends, its list is what the whole request would be refused with at that moment, exactly when no listed seat has become FREE since |
| HoldRefusals.ListNeverTrueAtOnce | backend/app/services/hold_service.py:79-102 | In any database with two seats of one show there is a run whose hold is refused with both, although one of them was FREE at every moment |
| LockProgress.PlansRise | backend/app/services/booking_service.py:84-103 | Holds, late re-acquires, deliveries that settle a booking and sweeps ask for payment, booking, single seats and the booking's rows in one common order, though holds sort octets and re-acquires text; cancellations do not |
| LockProgress.SomeoneCanStep | backend/app/services/booking_service.py:84-103 | Transactions that ask for locks in that order cannot deadlock, however many, also when a single-seat UPDATE waits for the UPDATE of a booking's rows: while one is unfinished, some transaction can take its next lock or end |
| LockProgress.CancelDeadlocksIff | backend/app/services/booking_service.py:227-253 | A cancellation and a transaction that follows the order can deadlock exactly when the other locks the same booking and asks for rows that belong to it |
| Idempotency.OneHandlerAtATime | backend/app/services/idempotency_service.py:50-61 | At most one handler is in flight for a key, and none once one has completed |
| Idempotency.OneCompletionEver | backend/app/services/idempotency_service.py:3-9 | At most one handler ever completes for a key |
| Idempotency.ReturnsTheOneResponse | backend/app/services/idempotency_service.py:71-89 | Every normal return carries the response of the one completed handler, and only to requests with the same body hash |
| Idempotency.PublishedForever | backend/app/services/idempotency_service.py:71-87 | A published row never changes again |
| Idempotency.HowKeysGetStuck | backend/app/services/idempotency_service.py:122-127 | A key gets stuck exactly when the client responsible for it crashes, or a waiter claims a vanished key and raises |
| Idempotency.WaiterAbandonsKey | backend/app/services/idempotency_service.py:122-127 | The second way happens without any crash: two requests, the first one's handler raises, and the waiter leaves the key in progress |
| Idempotency.StuckForever | backend/app/services/idempotency_service.py:108-141 | A stuck key stays stuck: no handler runs for it and nobody new returns |
| Idempotency.SoloIsProtocolRun | backend/app/services/idempotency_service.py:44-141 | A request that nobody interrupts is one run of the protocol, with the same outcome and the same row left |
| Idempotency.RepeatsReplay | backend/app/services/idempotency_service.py:1-10 | Of any series of such requests with one body, all raise up to the first whose handler succeeds, and all from there on return its response, whatever their own handlers would do |
| Idempotency.KeyTable.TryClaim | backend/app/services/idempotency_service.py:92-105 | Claims exactly when there is no row, and only then writes one |
| Idempotency.KeyTable.WaitForResult | backend/app/services/idempotency_service.py:108-141 | Polls a row that nobody changes to its answer or to the timeout; a missing key is claimed and left in progress |
| Idempotency.KeyTable.RunIdempotent | backend/app/services/idempotency_service.py:44-89 | Runs the handler only on a fresh key; a raising handler leaves no row, a returning one leaves its response |
| TokenBucket.AllowsIffEveryWindowFits | backend/app/core/rate_limit.py:23-35 | A call is allowed exactly when no window from an earlier call would hold more than capacity plus rate times elapsed allowed calls |
| TokenBucket.BucketIsHistoryLimiter | backend/app/core/rate_limit.py:12-41 | For calls in time order the constant-space bucket answers like the limiter that remembers every call |
| TokenBucket.ExpiryNeverMattersIff | backend/app/core/rate_limit.py:37-38 | The 120 s key expiry never changes an answer exactly when the capacity is at most what 120 s accrue |
| TokenBucket.LimiterIsHistoryLimiter | backend/app/core/rate_limit.py:44-51 | With capacity equal to the per-minute rate, the limiter with expiry answers like the history limiter |
| TokenBucket.RateLimiter.Check | backend/app/core/rate_limit.py:12-51 | Refills, takes a token if there is one, and writes back only this key's bucket |
| WaitingRoom.QueueTable.JoinQueue | backend/app/services/queue_service.py:24-54 | Returns the waiting ticket the user already has; otherwise appends one, admitted at once for a show that is not hot and behind MAX(position) for a hot one |
| Admissions.JoiningAHotShowMeansWaiting | backend/app/services/queue_service.py:24-54 | A user who waits keeps that ticket and nothing changes; anybody else gets one new ticket: for a hot show it waits, with everyone who waits ahead of it, and for any other show it is admitted |
| Admissions.TickAdmits | backend/app/services/queue_service.py:91-113 | A tick admits exactly min(rate, number waiting) of a hot show and nobody of another |
| Admissions.HotShowIsMetered | backend/app/services/queue_service.py:91-113 | In every run a show that is hot from the start has at most ticks times rate tickets admitted, and all others still wait |
| Admissions.PositionsAreConsecutive | backend/app/services/queue_service.py:45-49 | In every run such a show hands out the positions 1, 2, 3 and so on |
| WaitingRoom.QueueTable.MarkShowHot | backend/app/routers/admin.py:119-127 | The hot shows are those that were hot, and this one, counted once however often it is marked; the queue stays in join order; it is the event of that name in the runs below |
| WaitingRoom.QueueTable.AdmitNextBatch | backend/app/services/queue_service.py:91-113 | Admits one batch per hot show, un-admits nobody, and returns how many it admitted |
| WaitingRoom.QueueTable.AdmitOne | backend/app/services/queue_service.py:96-110 | Admits exactly a result of the query: as many waiting tickets as the limit and the queue allow, none of them behind one left out |
| WaitingRoom.BatchIsUnique | backend/app/services/queue_service.py:96-105 | In every state that keeps join order the query has one result only, so ties never decide who is admitted |
| WaitingRoom.ReachableInOrder | backend/app/services/queue_service.py:24-50 | In every run of joins, batches and shows turning hot: a waiting ticket's position exceeds those of all earlier tickets of its show, only hot shows have waiters, and nobody is admitted before an earlier joiner |
| WaitingRoom.AdmittedOnSchedule | backend/app/services/queue_service.py:91-110 | Whatever joins are interleaved and whichever shows turn hot meanwhile, k batches move a waiting ticket up by k times the rate, and admit it exactly when that exceeds the number in front |
| WaitingRoom.PredictionIsExact | backend/app/services/queue_service.py:79-88 | From every reachable state, a ticket is admitted by batch ahead / rate + 1 from now and not before: the batches `get_status` counts are exact, unless batches are empty |
| WaitingRoom.EarlierJoinersFirst | backend/app/services/queue_service.py:91-110 | Admission follows the order of joining |
| Outbox.OutboxWorker.DrainOnce | backend/app/workers/outbox_worker.py:28-57 | An uninterrupted drain sends the channelled rows of whatever batch the query returned, in its order, marks the whole batch and returns its size |
| Outbox.DrainIsReadSendCommit | backend/app/workers/outbox_worker.py:28-49 | That drain is one run of the crash-prone protocol: read, send each row, commit |
| Outbox.PublishedWasSent | backend/app/workers/outbox_worker.py:3-9 | Wherever the worker crashes and in whatever order commits become visible, every row marked published that has a channel was sent |
| Outbox.OrderKeptIff | backend/app/workers/outbox_worker.py:28-64 | Over every run, crashes included: with repeats ignored, the sends stay a prefix of the channelled rows by `created_at`, in every state and whatever the worker does next, exactly when each commit, when it is made, writes no channelled row or has nothing newer than its start sent or in the worker's hand |
| Outbox.CommitKeepsOrderIff | backend/app/workers/outbox_worker.py:28-64 | The same for one commit, in any state whose order the worker alone cannot break |
| Outbox.SentInOrder | backend/app/workers/outbox_worker.py:28-64 | When commits with a channelled row become visible in order of start: with repeats ignored, the sends are a prefix of the channelled rows by `created_at`, none skipped, however the database orders the rows of one transaction |
| Outbox.SentIsPrefix | backend/app/workers/outbox_worker.py:28-64 | Without equal times among channelled rows it is exactly a prefix of them in log order |
| Outbox.DrainsConverge | backend/app/workers/outbox_worker.py:28-54 | A drain marks and sends min(500, n) of n unmarked rows and no other; k drains leave nothing of a backlog of 500 k |
| Outbox.EverythingIsDelivered | backend/app/workers/outbox_worker.py:28-54 | Whatever happened before, after a crash that many drains have sent every row with a channel that was ever committed |
| Outbox.LateCommitIsOvertaken | backend/app/models.py:272 | A transaction that starts first and commits last is delivered after a newer row |
| SeatLayout.RowLabel | backend/scripts/seed.py:47-54 | The loop writes the bijective base-26 numeral of the index plus one |
| SeatLayout.DecodeOfBijective | backend/scripts/seed.py:47-54 | Decoding a label gives its number back, for every natural number |
| SeatLayout.BijectiveOfDecode | backend/scripts/seed.py:47-54 | Every string of capital letters is the label of the number it decodes to |
| SeatLayout.HallShape | backend/scripts/seed.py:68-80 | Rows are the estimate made even within 20 and 100, the side blocks have at least five seats, the centre about twice as many, and the blocks fill the row |
| SeatLayout.AislesShiftSeats | backend/scripts/seed.py:83-92 | Seats of a row stand 14 apart, and 22 further at each of the two block ends |
| SeatLayout.RowsFit | backend/scripts/seed.py:105-123 | The number of rows is that of the last seat's row: none is empty and none is missing |
| SeatLayout.XForSeatInRow | backend/scripts/seed.py:83-92 | The x of a seat is its index in pitches plus one aisle per whole block before it; the overflow branch is taken exactly beyond the blocks |
| SeatLayout.SectionIndexForRow | backend/scripts/seed.py:95-102 | The section is the first whose boundary lies beyond the row |
| SeatLayout.MakeSeats | backend/scripts/seed.py:105-123 | Exactly n seats, each with the label, number, section and x of its row and column, the overflow branch never taken; no two share label and number, rows run left to right in one section each, and sections never step back |
| Retrieval.CountDocuments | backend/app/services/ai/rag.py:64-71 | The counting loops count every term once per document that contains it |
| Retrieval.RarerWeighsMore | backend/app/services/ai/rag.py:74-76 | A term in fewer documents weighs at least as much, for any monotone logarithm |
| TermWeights.StrictlyRarerWeighsMore | backend/app/services/ai/rag.py:74-76 | For a strictly rising logarithm a term in strictly fewer documents weighs strictly more |
| TermWeights.CommonTermWeighsOne | backend/app/services/ai/rag.py:74-76 | A term in every document has the weight 1 |
| TermWeights.OneMoreOccurrence | backend/app/services/ai/rag.py:78-80 | One more occurrence of a term, wherever it stands, adds its idf to its weight, from nothing when it was absent, and leaves all other weights alone |
| TermWeights.MoreOccurrencesScoreHigher | backend/app/services/ai/rag.py:82-96 | With a query of one term, of two chunks with equally many of every other term the one with more of it scores at least as high, and strictly higher exactly unless both consist of that term alone |
| Retrieval.SelfScoreIsOne | backend/app/services/ai/rag.py:83-90 | A chunk scores exactly 1 against itself |
| Retrieval.CosineSymmetric | backend/app/services/ai/rag.py:83-90 | The score does not depend on the order of its arguments |
| Retrieval.CosineInUnitInterval | backend/app/services/ai/rag.py:83-90 | Every score lies in [0, 1], with the dot product over common terms and the norms over all |
| Retrieval.ScoreSigns | backend/app/services/ai/rag.py:92-94 | The score of a chunk for a query lies in [0, 1], and is positive exactly when they share a term |
| Retrieval.QueryFindsTheBest | backend/app/services/ai/rag.py:92-96 | For a query and the documents: every hit shares a term with the query and scores in (0, 1], and a chunk that shares a term is left out only behind `top_k` better ones |

## Left out

- HoldConcurrency.HoldsAreSerializable: transactions other than holds are single steps that leave locked rows alone; their own interleavings at statement level are not modelled.
- LockProgress.SomeoneCanStep: the rows that one UPDATE locks for a booking are one lock; the row locks of waitlist entries and of foreign keys are not modelled.
- LockProgress.CancelDeadlocksIff: about a cancellation and one other transaction.
- Sweeps.SweepsConverge: the clock stands still and one worker sweeps; candidates skipped because another worker holds their lock are not modelled.
- Outbox.OrderKeptIff: one worker.
- WaitingRoom.ReachableInOrder: joins are serialized; the race on MAX(position) that the service accepts is not modelled.
- Retrieval.QueryFindsTheBest: the ranking is a stable insertion on the list of scores; the library sort and tokenisation are not part of this model.
- TokenBucket.BucketIsHistoryLimiter: over exact reals and for calls in time order; clocks that run backwards are only covered by `TokenBucket.RateLimiter.Check`.
- Idempotency.ReturnsTheOneResponse: equal hashes stand for equal requests; hash collisions are an assumption.
- Liveness of the idempotency protocol: keys can get stuck, so only safety is stated.
- Status codes and bodies are one response value; JSON encoding is left out.
- Seat y coordinates and the curve of the rows: cosmetic.
- Admission tokens, JWT, authentication, routers, serializers and metrics: no state property of their own.
- Catalog reads, admin analytics, the agent loop and the provider's timing.
- Redis pub/sub, websockets and the frontend: delivery beyond the publish call is outside the services.
- The identity map, migrations and query plans of the libraries below the services.
