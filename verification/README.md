# TurfSync: a verified model of its booking core

TurfSync rents out hourly slots of sports turfs. Users, Stripe webhooks, cron jobs and admins work
on the same PostgreSQL rows at the same time, and a Redis cache and lock sit in front of them. This
project models that core in Dafny and proves what the code can promise about it, and exactly where
it promises less than it seems to.

## The parts

**Bookings and payments.** `Rows` holds the tables (slots, bookings, payments, webhook events).
`Steps` says which committed changes exist, in which database each may be committed (`Guard`) and
what it leaves (`Effect`), and proves that each keeps the database `Consistent`: keys hold, no slot
has two PENDING or CONFIRMED bookings, an active booking keeps its slot booked and a booked slot has
a booking that is not cancelled, and whoever was confirmed has paid. `Runs` is about whole runs of
such steps. Two models of the code refine the steps:

- *One call at a time.* `Operations` gives every call as one atomic operation with its error
  answers, and `Services` gives the service classes that update the tables in place, each method
  proved equal to its operation and, row by row, to what it promises. `Operations.OpsRefine` turns any
  run of calls into a run of steps. `Lifecycle` tells from the rows alone what each call does to each
  booking, payment, event and slot, and what that comes to over time.
- *Row lock by row lock.* `Transactions` splits every call into its unlocked first read, its row
  locks, its checks and its commit, under Read Committed: a read sees the latest committed rows, a
  transaction's own writes appear when it commits, and it waits for rows that others hold. Any
  number of transactions interleave, and any may abort at any point.
  `Transactions.InterleavingRefines` turns every interleaving into a run of steps. `LockOrder`,
  `CleanupDeadlock` and `CleanupRings` are about deadlock, `Interleavings` about what survives
  concurrency, `Races` has concrete runs in which something does not, and `Alone` ties the two models
  together: a transaction that runs alone does what the atomic call does.

Two choices are parameters of both models. The schema has a unique key on `Booking.slotId`
(prisma/schema.prisma:131), while the services are written for several bookings per slot over time
(src/booking/booking.service.ts:147, src/booking/booking.service.ts:325-331). With `Unique` the
INSERT of a booking fails on a slot that has a booking row of any status; with `NotUnique` the row
locks alone have to carry safety. The refund is `AsWritten`, with its check for other active bookings
and its release of the slot as two steps and no slot lock in between, or `OneStep`. The program as
deployed is `DEPLOYED`, that is `AsWritten` and `Unique`. Neither model uses the Redis lock.

A refund *tramples* when it releases a slot that was booked anew since its check, and a run is *calm*
when no refund in it tramples. With the key every run is calm (`Transactions.KeyedRunIsCalm`), with
the refund in one step as well. Results that need a calm run ask for it only for `AsWritten` without
the key; the predicate `Sound` says so. Results stated "for any run at all" ask for nothing.

**Calendar and analytics.** `Calendar` is the UTC calendar of section 21.4.1 of ECMA-262 over all
integers, with the five date helpers as methods on a mutable `JsDate`; `Labels` the text keys;
`Analytics` the grouped-map revenue report against filtering row by row.

**Slots.** `SlotGeneration` has the generation loops and the weekly cleanup on the booking tables;
`SlotCache` the cached slot list with generation on demand, `SlotLists` which hours it offers.

**Coupons, logins, tokens, locks.** `Coupons` (discounts over exact rationals, usage counters, the
apply transaction under concurrent admin changes), `Lockout`, `RefreshTokens` and `RedisLock`. The
clock is an input that does not run backwards.

## What does not hold as intended

Each of these is a theorem below: an exact condition, a concrete run, or both.

- A cancelled slot cannot be booked again. `cancel` clears the flag, but the cancelled row keeps its
  slot, so the unique key refuses the next INSERT and `create` answers with a conflict
  (src/common/filters/prisma-exception.filter.ts:26). Exactly: booking succeeds if and only if the
  slot exists, is free, belongs to an active turf and has no booking row of any status
  (`Services.BookingService.Create`, `Operations.CancelFreesSlot`, `Operations.BookedOnlyOnce`).
- Nothing but the unique key keeps the refund from releasing a slot under a new booking. If the key
  were dropped to cure the point above, a refund could trample, and the slot could be booked twice
  (`Races.RefundRaceDoubleBooks`); that would be the only way the invariants break
  (`Interleavings.SafeIffCalm`). With the key in place it cannot happen (`Transactions.DeployedIsSafe`).
- Two overlapping refunds both commit, and a payment with one success is refunded twice, if Stripe
  accepts the second (`Races.SecondRefundGoesThrough`). Exactly: refunds stay within successes if and
  only if the late ones, committed when the payment no longer read PAID, stay within the times it was
  PAID and used up without a refund (`Interleavings.RefundsConservedInAnyOrder`); for a payment with
  one success that nothing overwrites, if and only if none is late (`Interleavings.OneRefundInAnyOrder`).
- A completion job that read its booking before a cancellation turns it from CANCELLED into
  COMPLETED (`Races.CompletionUndoesCancel`); nothing else moves a status back
  (`Interleavings.StepClimbsIff`).
- Failed and processing events, and a late payment intent, overwrite a payment that reads PAID
  (`Runs.ConfirmedReadsPaidIff`). `paidAt` survives, so provenance is stated with `paidAt`.
- Two overlapping stale cleanups can deadlock whenever two bookings are stale
  (`CleanupDeadlock.TwoCleanupsCanDeadlock`). The query that locks the candidates
  (src/booking/booking.service.ts:403-411) has no ORDER BY. Whatever else runs beside them, two
  cleanups can come to wait for each other if and only if they lock some two PENDING bookings in
  opposite orders (`CleanupDeadlock.TwoCleanupsBlockIff`), and some of any number of cleanups can come
  to wait in a ring if and only if their orders on PENDING bookings close one
  (`CleanupRings.CleanupsBlockIff`). If nobody else commits meanwhile, it takes
  that their first shared booking differs (`CleanupDeadlock.AloneBlockIff`). Locking in any one fixed
  order rules it out for any number of cleanups (`LockOrder.OrderedRunsDoNotDeadlock`).
- A confirmed booking of a 23:00 slot is completed on the morning of its own date, before it starts
  (`Operations.CompletedBeforeStart`, `Operations.CompletesEarlyIff`).
- Overlapping logins count as one: any number of wrong passwords at one moment can leave the counter
  at one and lock nothing (`Lockout.OverlapsCountOnce`). Every failure is counted throughout if and
  only if no failed check finds another counter than its login has read, and no success that read a
  clean row finds a counter above zero (`Lockout.CountedIff`).
- A refresh that is half done when reuse is detected still stores its new token
  (`RefreshTokens.RevivesIff`).
- A list that a slow request stores after a write and its invalidation is the old one
  (`SlotCache.OvertakenFromEmptyCache`), and a refund, the slot generation and the weekly cleanup
  write without invalidating anything. The cache is current throughout if and only if no request
  stores a list made old since it was found, none generates a missing slot of a day whose list is
  cached, and no write without invalidation changes a day whose list is cached
  (`SlotCache.OverlapsCurrentIff`).
- A booking can keep a discount without a usage row, because it is priced and stored before its coupon
  is applied (src/booking/booking.service.ts:95-199). Of several such bookings every one gets its row
  if and only if the coupon is active, has uses left for all of them, and each user may use it as
  often as that user's bookings ask (`Coupons.EveryDiscountHasItsRowIff`). So one user who books two
  slots at once with a once-per-user coupon, the default (prisma/schema.prisma:229), gets both at the
  discount and leaves one row (`Coupons.SameUserLosesRow`).
- The weekly slot cleanup deletes nothing at all as long as any booking, even a cancelled one,
  refers to an old free slot (`Operations.CleanupOldSlotsIff`), because the foreign key
  (prisma/schema.prisma:141) restricts the single DELETE.
- Slots generated on demand past midnight leave the cached list of the next day stale
  (`SlotCache.CurrentIffNoBlindRead`); looking at the next day and then at the day itself is enough
  (`SlotCache.OvernightReadIsBlind`).
- A read tops a day up by the number of its rows, not by what is missing (`SlotLists.FilledIff`). For
  rows at the turf's own hours that is enough (`SlotLists.OpenHoursAreListed`), but after a turf has
  changed its hours a day that was generated for the old ones goes on offering those and none of the
  new, until a generation covers it (`SlotLists.NewHoursAreNotOffered`).
- `addUTCMonths` takes February of the year 0 to have 28 days, because `Date.UTC` reads the years 0
  to 99 as 1900 to 1999 (`Calendar.AddMonthsLands`). In all other months of all years it is exact.

## Model

| member | source | states |
|---|---|---|
| Steps.NoDoubleBookingKept | src/booking/booking.service.ts:138-179 | no committed step gives a slot a second PENDING or CONFIRMED booking |
| Steps.SandwichKept | src/booking/booking.service.ts:156-179 | after every step an active booking has its slot booked, and every booked slot has a booking that is not cancelled: no slot leaks |
| Steps.PaidKept | src/payment/payment.service.ts:236-262 | after every step CONFIRMED and COMPLETED bookings, and payments that read PAID, have `paidAt` |
| Steps.UniqueIntentsKept | prisma/schema.prisma:160 | no step gives two payments the same Stripe intent |
| Steps.OnePerSlotKept | prisma/schema.prisma:131 | a step that inserts no booking on a slot with a row keeps the unique key |
| Steps.ConsistentKept | src/booking/booking.service.ts:117-182 | all invariants together survive every committed step |
| Runs.RunConsistent | src/booking/booking.service.ts:333-338 | the invariants hold after every run of steps |
| Runs.RecordedForever | src/payment/payment.service.ts:224-226 | an event id, once recorded, stays recorded over every run |
| Runs.WebhookAtMostOnce | src/payment/payment.service.ts:149-185 | no two state-changing deliveries of a run have the same event id |
| Runs.ConfirmedWasPaid | src/payment/payment.service.ts:236-262 | from an empty start, a booking that is CONFIRMED or COMPLETED has `paidAt` and a recorded success event of its own, even with failed and processing events out of order |
| Runs.RefundsConserved | src/payment/payment.service.ts:420-463 | with check and write as one step, refunds of a payment never outnumber the successes applied to it, and while it reads PAID at least one success is unspent; any run, calm or not |
| Runs.RefundsAccounted | src/payment/payment.service.ts:444-463 | in any run of commits refunds outnumber successes by no more than the refunds committed when the payment no longer read PAID |
| Runs.RefundsBalance | src/payment/payment.service.ts:321-327 | the account of a payment over any run: refunds, times it was PAID and used up otherwise, and a payment still PAID add up to successes and late refunds |
| Runs.RefundsConservedIff | src/payment/payment.service.ts:444-463 | refunds stay within successes if and only if the late ones stay within the times the payment was PAID and used up otherwise, counting one that still reads PAID |
| Runs.OneSuccessOneRefund | src/payment/payment.service.ts:420-463 | with at most one success, refunds only after it and nothing overwriting PAID: refunds stay within successes if and only if none is late, and all but the first are |
| Runs.ClimbsIff | src/admin/admin.service.ts:475-481 | a step lets every booking status climb PENDING < CONFIRMED < COMPLETED < CANCELLED if and only if it is not a completion of a cancelled booking |
| Runs.StatusOnlyClimbs | src/booking/booking.service.ts:310-317 | over runs of atomic steps a booking changes status at most three times and CANCELLED is final |
| Runs.ConfirmedReadsPaidIff | src/payment/payment.service.ts:321-327 | "the payment of a CONFIRMED booking reads PAID" survives a step if and only if the step does not overwrite the payment of a booking that is CONFIRMED at that moment |
| Operations.BatchIsOneAtATime | src/booking/booking.service.ts:417-464 | cancelling a batch and releasing slots by set difference leaves the same database as cancelling its bookings one by one, in any order and with any number of bookings per slot |
| Operations.AutoCompleteRefines | src/booking/booking-complete.job.ts:31-49 | the auto-complete loop is a legal run of single atomic completions, whatever the order |
| Operations.OpRefines | src/payment/payment.service.ts:149-171 | every service call, whatever it answers, is a legal run of atomic steps with the same final database |
| Operations.OpsRefine | src/payment/payment.service.ts:149-171 | and so is every run of service calls |
| Operations.OpsConsistent | src/payment/payment.service.ts:473-478 | no double booking, no leaked slot and no unpaid confirmation over every run of calls, refunds, slot generation and slot cleanup included |
| Operations.RedeliveryIsNoOp | src/payment/payment.service.ts:172-181 | after any further calls, delivering a recorded event id again changes nothing, whatever its kind and payload |
| Operations.CleanupOldSlotsIff | src/slot/slot.service.ts:134-141 | the weekly cleanup gets through if and only if no booking refers to an old free slot, and it never deletes a slot with an active booking |
| Operations.CancelFreesSlot | src/booking/booking.service.ts:325-338 | cancelling an active booking always clears its slot's flag; booking the slot next, by a user without a live booking on it, succeeds if and only if the unique key is not there |
| Operations.BookedOnlyOnce | prisma/schema.prisma:131 | with the unique key, after any further calls, no `create` on a slot that ever had a booking succeeds |
| Operations.AlwaysOnePerSlot | prisma/schema.prisma:131 | the unique key holds over every run of calls |
| Operations.CompletesEarlyIff | src/booking/booking-complete.job.ts:17-42 | at a given clock value the job picks a booking whose slot is not over, if and only if a CONFIRMED booking is on a 23:00 slot whose date has begun and whose end has not passed |
| Operations.AutoCompleteWaitsIff | src/booking/booking-complete.job.ts:17-42 | at every clock value the job picks only bookings whose slot is over, if and only if no CONFIRMED booking is on a 23:00 slot |
| Operations.CompletedBeforeStart | src/booking/booking-complete.job.ts:32-42 | at any time of its date before 23:00 the job completes a CONFIRMED booking of a 23:00 slot, which has not started |
| Operations.AutoCompleteMissesNone | src/booking/booking-complete.job.ts:17-42 | every CONFIRMED booking whose slot is over is completed |
| Lifecycle.BookingMoves | src/booking/booking.service.ts:283-467 | everything a call can do to a booking, told from the rows: the owner's cancellation, a timely refund, fifteen unpaid minutes, a new success event, a completion; owner, slot and creation time never change |
| Lifecycle.BookingBorn | src/booking/booking.service.ts:117-179 | a booking row comes into being if and only if a `create` meets a free slot of an active turf, with the key one without any booking row, and it starts PENDING at the time of the call |
| Lifecycle.PaymentMoves | src/payment/payment.service.ts:87-124 | everything a call can do to a payment, in the same way: stored, PAID, FAILED, PROCESSING, REFUNDED, or as it was |
| Lifecycle.EventMoves | src/payment/payment.service.ts:224-226 | an event id is recorded exactly by a delivery that has something to do |
| Lifecycle.SlotMoves | src/booking/booking.service.ts:417-464 | everything a call can do to a slot: added, deleted, booked by a new booking, or freed because a booking on it is cancelled and no other PENDING or CONFIRMED one is left |
| Lifecycle.CancelledIff | src/booking/booking.service.ts:283-479 | over every run of calls a booking ends up CANCELLED if and only if at some point its owner cancels it or gets a timely refund, or a cleanup finds it unpaid for fifteen minutes |
| Lifecycle.PaidIsKept | src/booking/booking.service.ts:403-411 | over every run a CONFIRMED or COMPLETED booking stays one of these until its owner cancels or gets a refund: no cleanup takes a paid booking |
| Lifecycle.SafeForFifteenMinutes | src/booking/booking.service.ts:383-387 | over every run no cleanup cancels a booking in its first fifteen minutes |
| Lifecycle.GivenUpAfterTwentyMinutes | src/booking/booking.service.ts:381-387 | over every run with cleanups at most five minutes apart no booking waits for its payment for more than twenty minutes |
| Services.BookingService.Create | src/booking/booking.service.ts:117-182 | the transaction of `create`: each answer if and only if its condition on the rows holds; it succeeds exactly on an existing free slot of an active turf on which the user has no live booking and, with the unique key, nobody has a booking row of any status; then writes exactly that slot and the new PENDING row |
| Services.BookingService.Cancel | src/booking/booking.service.ts:283-339 | each answer if and only if its condition holds; on success exactly that booking is CANCELLED and its slot is free unless another PENDING or CONFIRMED booking is on it; any other answer changes nothing |
| Services.BookingService.CleanupStalePendingBookings | src/booking/booking.service.ts:381-479 | a booking is cancelled if and only if it is PENDING and was made more than fifteen minutes ago, all other booking rows stay; exactly the slots of the cancelled ones are freed; it names their turfs |
| Services.BookingService.CancelCandidates | src/booking/booking.service.ts:402-467 | of any candidate list it cancels exactly those that still read PENDING, and equals the batch operation on those |
| Services.PaymentService.CreatePaymentIntent | src/payment/payment.service.ts:42-124 | succeeds if and only if the booking is the user's and its payment is waiting already, or is not PAID and no other payment has the intent; then exactly that payment row is stored, `paidAt` kept |
| Services.PaymentService.HandleWebhook | src/payment/payment.service.ts:149-184 | a delivery takes effect if and only if its event id is new and it finds its payment, for a success one that does not read PAID; then every payment and booking row reads what the kind of event says; otherwise nothing changes |
| Services.PaymentService.HandlePaymentSuccess | src/payment/payment.service.ts:187-262 | takes effect if and only if the event is new and some payment of the intent does not read PAID, FAILED ones included; then that payment reads PAID as of now, the event is recorded, and a PENDING booking is CONFIRMED; all other rows stay |
| Services.PaymentService.HandlePaymentFailed | src/payment/payment.service.ts:293-328 | takes effect if and only if the event is new and the intent has a payment, which then reads FAILED; bookings and slots stay |
| Services.PaymentService.HandlePaymentProcessing | src/payment/payment.service.ts:356-371 | takes effect if and only if the event is new; every payment of the intent then reads PROCESSING; bookings and slots stay |
| Services.PaymentService.Refund | src/payment/payment.service.ts:402-478 | each answer if and only if its condition holds; refunds exactly the owner's PAID payment of a slot that has not started, cancels the booking and frees the slot unless another PENDING or CONFIRMED booking is on it; any other answer changes nothing |
| Services.BookingCompleteJob.AutoCompleteBookings | src/booking/booking-complete.job.ts:12-53 | completes exactly the CONFIRMED bookings whose date has begun and whose slot's end hour has passed on that date, and counts them |
| Services.BookingCompleteJob.CompleteBooking | src/admin/admin.service.ts:468-481 | succeeds if and only if the booking is CONFIRMED, and completes exactly it |
| Transactions.CommitGuard | src/booking/booking.service.ts:301-338 | when a transaction commits, what it checked under its locks still holds, unless it is a refund that tramples |
| Transactions.KnowledgeKept | src/booking/booking.service.ts:402-434 | what a transaction knows about its locked rows survives every commit that writes none of them |
| Transactions.HolderEnds | src/payment/payment.service.ts:465-478 | a booked slot loses the booking it is booked for only to a step that has the slot locked, and which frees it or saw another holder |
| Transactions.StepKeepsInv | src/booking/booking.service.ts:402-467 | every step of every transaction keeps all invariants, the exclusion of locks and everyone's knowledge |
| Transactions.InterleavingRefines | src/booking/booking.service.ts:117-182 | linearisation: the commits of any calm interleaving, in commit order, are a legal run of atomic steps to the same database |
| Transactions.LogReaches | src/payment/payment.service.ts:228-262 | in any run at all the database is what the committed changes, in commit order, make of the first one |
| Transactions.KeyedRunIsCalm | prisma/schema.prisma:131 | with the unique key every interleaving is calm and keeps the key |
| Transactions.NeverDoubleBooked | src/booking/booking.service.ts:119-179 | in every reachable state of every interleaving of create, cancel, stale cleanup, webhooks, completion jobs, slot maintenance and refund: no double booking, no leaked slot, no unpaid confirmation; with the unique key always, without it on calm runs |
| Transactions.DeployedIsSafe | src/payment/payment.service.ts:444-478 | for the program and schema as deployed, with nothing asked of the run: all invariants and the unique key hold in every reachable state, and no refund ever tramples |
| Alone.AloneIsAtomic | src/booking/booking.service.ts:300-339 | every call's lock-by-lock steps, run alone, leave exactly what its atomic operation leaves, error answers and rollbacks included, in both schedules of the refund |
| Alone.CallRuns | src/payment/payment.service.ts:444-478 | every atomic call that opens a transaction is one of the interleavings |
| LockOrder.WaitingClimbs | src/booking/booking.service.ts:301-322 | whoever waits, waits for a transaction that is further along the order event < booking < payment < slot, or for a cleanup further along the common order of their bookings |
| LockOrder.NoWaitCycle | src/payment/payment.service.ts:222-262 | the wait-for graph has no cycle, with one cleanup in any state, and with any number of cleanups that follow one order in any state the invariants allow |
| LockOrder.OrderedRunsDoNotDeadlock | src/booking/booking.service.ts:403-434 | in no reachable state of a run whose cleanups lock their bookings in one order does anybody wait in a cycle, however many cleanups overlap |
| LockOrder.SomeoneProceeds | src/payment/payment.service.ts:444-477 | in all these states, as long as a transaction is in flight, one of them can take its next step |
| LockOrder.AllCanFinish | src/booking/booking.service.ts:402-467 | everything in flight can run to its end without an abort, with one cleanup in any state, and with any number in one order wherever no refund can trample |
| CleanupDeadlock.TwoCleanupsCanDeadlock | src/booking/booking.service.ts:384-411 | for any two stale bookings, in any database, two overlapping cleanups reach a state in which nobody can move |
| CleanupDeadlock.TwoCleanupsBlockIff | src/booking/booking.service.ts:403-434 | two overlapping cleanups can come to wait for each other, in some run in which anything else may happen beside them, if and only if they lock some two PENDING bookings in opposite orders |
| CleanupRings.CleanupsBlockIff | src/booking/booking.service.ts:403-434 | any number of overlapping cleanups: some can come to wait for each other in a ring, in some run in which anything else may happen beside them, if and only if the orders in which different cleanups lock PENDING bookings close a ring |
| CleanupDeadlock.SameCandidatesBlockIff | src/booking/booking.service.ts:384-411 | so for cleanups that have read the same candidates: if and only if they lock them in different orders |
| CleanupDeadlock.DeadlockLasts | src/booking/booking.service.ts:403-411 | and nothing but an abort of one of the two ends the wait |
| CleanupDeadlock.AloneBlockIff | src/booking/booking.service.ts:403-434 | the case in which nobody else commits: if and only if the first PENDING booking of the one list that is on the other is not the same both ways |
| Interleavings.CleanupCancelsOnlyPending | src/booking/booking.service.ts:384-426 | in any run at all, a cleanup that commits cancels only bookings that read PENDING at that moment, and touches no other booking and no slot but theirs |
| Interleavings.CleanupCancelsOnlyStale | src/booking/booking.service.ts:383-411 | and only bookings that were PENDING and older than its cutoff when it looked, whatever commits in between |
| Interleavings.CleanupFreesItsSlots | src/booking/booking.service.ts:429-464 | and it frees every one of their slots |
| Interleavings.WebhookConfirmsOnlyPending | src/payment/payment.service.ts:228-262 | in any run at all, a success webhook that commits records the money and never revives a cancelled booking |
| Interleavings.EachEventOnce | src/payment/payment.service.ts:214-226 | in every interleaving of duplicated, reordered and overlapping deliveries each event id changes rows at most once, in both schedules of the refund and without any condition |
| Interleavings.ConfirmedWasPaidInAnyOrder | src/payment/payment.service.ts:236-262 | in every interleaving from an empty start, calm if the key is dropped, a CONFIRMED or COMPLETED booking was paid for by a recorded success event |
| Interleavings.RefundsAccountedInAnyOrder | src/payment/payment.service.ts:420-463 | in any run from an empty start refunds outnumber successes by no more than the refunds that commit when the payment no longer reads PAID |
| Interleavings.RefundsFollowSuccess | src/payment/payment.service.ts:420-422 | in any run from an empty start every refund, in flight or committed, comes after a success of its payment |
| Interleavings.RefundsConservedInAnyOrder | src/payment/payment.service.ts:420-463 | in any run from an empty start refunds stay within successes if and only if the late ones stay within the times the payment was PAID and used up otherwise, counting one that still reads PAID |
| Interleavings.OneRefundInAnyOrder | src/payment/payment.service.ts:420-463 | in any run in which a payment has at most one success and nothing overwrites it while PAID: refunds stay within successes if and only if none is late, and all but the first are |
| Interleavings.StepClimbsIff | src/booking/booking-complete.job.ts:17-42 | in any run at all, a step moves no booking back if and only if it is not a completion that was overtaken by a cancellation |
| Interleavings.StatusChangesBounded | src/booking/booking.service.ts:384-426 | in any run at all without an overtaken completion every booking changes status at most three times and CANCELLED is final |
| Races.CompletionUndoesCancel | src/admin/admin.service.ts:469-481 | a run from an empty start, in every mode, in which a completion overwrites a cancellation |
| Races.SecondRefundGoesThrough | src/payment/payment.service.ts:402-463 | a run from an empty start, in every mode, with two refunds committed for one success, if Stripe accepts the second |
| Interleavings.TramplingBreaks | src/payment/payment.service.ts:465-478 | releasing a slot that was booked anew since the check always leaves the database inconsistent |
| Interleavings.SafeIffCalm | src/payment/payment.service.ts:465-478 | with the refund as written, an interleaving stays consistent throughout if and only if no refund in it tramples; with the unique key none does |
| Races.RefundRaceDoubleBooks | src/payment/payment.service.ts:465-478 | were the unique key dropped: a run from an empty start that ends with two active bookings on one slot |
| Calendar.DayRoundTrip | src/common/utils/date.util.ts:24-28 | every day number is a valid civil date, and that date is the day |
| Calendar.CivilRoundTrip | src/common/utils/date.util.ts:30-46 | every valid civil date is read back from its day number |
| Calendar.StartOfUTCDay | src/common/utils/date.util.ts:1-5 | the in-place helper yields the midnight of the day |
| Calendar.StartOfUTCWeek | src/common/utils/date.util.ts:7-15 | the in-place helper, with its Sunday case, yields the Monday of the week |
| Calendar.StartOfUTCMonth | src/common/utils/date.util.ts:17-22 | the in-place helper yields the first midnight of the month |
| Calendar.AddUTCDays | src/common/utils/date.util.ts:24-28 | setting the date to any offset moves the time by exactly that many days |
| Calendar.AddUTCMonths | src/common/utils/date.util.ts:30-46 | the three mutations amount to the closed form whose properties follow |
| Calendar.WeekStartsMonday | src/common/utils/date.util.ts:7-15 | the start of a week is a Monday midnight, and the week holds the time |
| Calendar.MonthHolds | src/common/utils/date.util.ts:17-22 | every time lies between the start of its month and that of the next |
| Calendar.AddMonthsLands | src/common/utils/date.util.ts:30-46 | any offset, positive or negative, lands in exactly the target month at the same time of day; the date is min(original, month length) if and only if it is not a 29th or later going to February of the year 0 |
| Calendar.AddMonthsComposes | src/common/utils/date.util.ts:30-46 | for dates up to the 28th, a months and then b months are a + b months |
| Calendar.AddMonthsMonotone | src/common/utils/date.util.ts:30-46 | a later day never has an earlier image |
| Labels.DateLabelInjective | src/admin/admin.service.ts:174-175 | different days have different ISO date keys |
| Labels.MonthLabelInjective | src/admin/admin.service.ts:177-179 | different months have different `YYYY-MM` keys |
| Labels.DateLabelReads | src/admin/admin.service.ts:206-211 | an ISO date text reads back as year, month and date, January being 01, with a four-digit year from 0 to 9999 |
| Labels.MonthLabelReads | src/admin/admin.service.ts:215-217 | a `YYYY-MM` text reads back as year and month, January being 01 |
| Analytics.InPeriodIff | src/admin/admin.service.ts:153-157 | a time truncates to a period start if and only if it lies in that period |
| Analytics.GroupIsFilter | src/admin/admin.service.ts:152-157 | the sum of a group is the filtered sum of its period |
| Analytics.KeyGroups | src/admin/admin.service.ts:169-197 | the map keyed by text answers every period start with its group, in whatever order the groups come |
| Analytics.BoundsTile | src/admin/admin.service.ts:136-145 | the bucket boundaries are period starts, one period apart |
| Analytics.BucketHoldsIff | src/admin/admin.service.ts:200-215 | a time lies within the bounds of the n-th bucket back if and only if it falls on that day, into that Monday's week or into that month |
| Analytics.GetRevenueAnalytics | src/admin/admin.service.ts:127-234 | for every clock value, period, payments, bookings and order of groups: 30 days or 12 weeks or months, oldest first, each text showing its day, Monday or month counted back from today's, its revenue the PAID amounts and its count the bookings of exactly that day, week or month; bucket by bucket the row-by-row filter |
| Analytics.BucketsSumToRange | src/admin/admin.service.ts:200-228 | the revenues and counts of the returned buckets add up to the totals of the range |
| Analytics.BucketsApart | src/admin/admin.service.ts:200-228 | no two buckets share a label or a moment |
| Analytics.OneBucketPerMoment | src/admin/admin.service.ts:200-228 | every moment of the range lies in exactly one bucket |
| SlotGeneration.SlotService.GenerateTurfSlots | src/slot/slot.service.ts:64-104 | the hour loop with its wrap past midnight inserts exactly the day's keys, skipping existing ones |
| SlotGeneration.SlotService.GenerateForTurfs | src/slot/slot.service.ts:49-62 | and so for every active turf of a date |
| SlotGeneration.SlotService.GenerateSlotsForNextDays | src/slot/slot.service.ts:24-47 | and so for every turf on each of the next days; with one turf it is `generateForTurf` |
| SlotGeneration.SlotService.CleanupOldSlots | src/slot/slot.service.ts:127-143 | keeps exactly the slots that are booked or at most thirty days old, or changes nothing because a booking refers to an old free one |
| SlotGeneration.InsertsMissing | src/slot/slot.service.ts:99-103 | generation adds exactly the missing rows, unbooked, and changes no existing row, its `isBooked` included |
| SlotGeneration.GenerationIdempotent | src/slot/slot.service.ts:99-103 | generating again changes nothing, and generations commute, for any hours |
| SlotGeneration.GenerationIsAddSlots | src/slot/slot.service.ts:99-103 | in the booking model a generation is one slot-adding operation, so the run theorems cover it |
| SlotGeneration.DayTiles | src/slot/slot.service.ts:64-97 | a day has close - open slots, plus 24 if that is not positive, each starting where the one before ends, from opening to closing time |
| SlotGeneration.TurfsDistinct | src/slot/slot.service.ts:58-61 | the keys of all turfs on a date are distinct and their number is the sum of the daily counts |
| SlotGeneration.DaysKeysAre | src/slot/slot.service.ts:36-44 | a generation over days covers a slot if and only if one of its turfs is open then on one of these days, hours past midnight included |
| SlotGeneration.DaysDistinct | src/slot/slot.service.ts:38-44 | N days give N times as many distinct keys, with no collision across midnight |
| SlotGeneration.SlotsDisjoint | prisma/schema.prisma:121 | two different slots of a turf share no moment |
| SlotGeneration.GeneratedIsWellTimed | src/slot/slot.service.ts:75-97 | the rows of any generation, for any turfs with valid hours and any days, are one-hour slots of their keys |
| SlotGeneration.AlwaysWellTimed | src/slot/slot.service.ts:75-97 | over every run of calls, with different turfs and opening hours at every generation, each slot stays the one hour of its key |
| SlotCache.TurfService.GetAvailableSlots | src/turf/turf.service.ts:193-237 | a live cached list is answered and nothing changes; otherwise a day with fewer rows than open hours gets every slot it misses and no other row changes, and the answer, cached for sixty seconds, has exactly the rows of the day by their hours |
| SlotCache.TurfService.DelByPattern | src/redis/redis-lock.service.ts:120-147 | the scan loop removes exactly the lists of one turf |
| SlotLists.FilledIff | src/turf/turf.service.ts:214-233 | past the cache the table has every slot of the day after a read if and only if the day had fewer rows than open hours, or missed none |
| SlotLists.OpenHoursAreListed | src/turf/turf.service.ts:209-236 | as long as the rows of a day are at the turf's own hours, those left from the day before included, a read past the cache lists every hour from opening to closing time or midnight |
| SlotLists.FirstLookListsTheDay | src/turf/turf.service.ts:209-236 | the first look at a day of a turf that closes by midnight lists exactly its open hours in order, all free |
| SlotLists.NewHoursAreNotOffered | src/turf/turf.service.ts:138-152 | after a turf has changed to other hours, no more of them than before, a read of a day generated for the old hours generates nothing and lists exactly the old ones |
| SlotCache.AloneIsAtomic | src/turf/turf.service.ts:198-236 | a request that nothing overlaps, taken call by call, leaves what the atomic read leaves |
| SlotCache.BoundedStaleness | src/turf/turf.service.ts:198-237 | with requests overlapping at each of their calls and no invalidation needed, every list answered at time t was the true view when some request found it, and that request is this one or stored the list within [t - 60 s, t] |
| SlotCache.StaleAtMost | src/turf/turf.service.ts:198-237 | so it was the true view at some moment of [t - 60 s - d, t], d bounding how far apart a request's calls are; with atomic fills, 60 s |
| SlotCache.OverlapsCurrentIff | src/turf/turf.service.ts:198-237 | over every run of overlapping requests, of writes with successful invalidation and of writes without any, the cached lists are current throughout if and only if no request stores a list that was made old since it was found, none generates a missing slot of a day whose list is cached, and no write without invalidation changes a cached day |
| SlotCache.OvertakenStoreAnswersOld | src/turf/turf.service.ts:216-236 | when a write and its invalidation have overtaken a store, so that its list is no longer the view, the next request is still answered with that list, and the cache is not current |
| SlotCache.OvertakenFromEmptyCache | src/turf/turf.service.ts:198-236 | from an empty cache one request and one write get there: for any full day and any change of one of its rows the answer differs from the view |
| SlotCache.CallsTouchOwnTurfs | src/booking/booking.service.ts:469-473 | create, cancel and cleanup change no slot outside the turfs whose lists they drop |
| SlotCache.WriteAndDropKeepsCurrent | src/booking/booking.service.ts:342-342 | a write whose invalidation succeeds leaves every cached list current |
| SlotCache.ReadKeepsCurrentIff | src/turf/turf.service.ts:224-236 | a read keeps every cached list current if and only if it does not generate a missing slot of the next day while that day's list is cached |
| SlotCache.CurrentIffNoBlindRead | src/turf/turf.service.ts:195-237 | over every run of writes with successful invalidation and of reads, the cache is current throughout if and only if no such read occurs |
| SlotCache.OvernightReadIsBlind | src/turf/turf.service.ts:195-237 | for every turf that closes past midnight and has no slots yet, looking at one day and then at the day before leaves a cached list that is not current |
| SlotCache.DaytimeReadsAreCurrent | src/turf/turf.service.ts:195-237 | so when turfs close by midnight, 00:00 included, every atomic read answers with the view of its moment |
| Coupons.FinalInRange | src/coupon/coupon.service.ts:59-85 | for every coupon the final amount lies in [0, original] |
| Coupons.DiscountIsMost | src/coupon/coupon.service.ts:59-73 | the discount is the most its bounds allow: the percentage and, if there is one, the cap; or the fixed value and the amount |
| Coupons.FinalMonotone | src/coupon/coupon.service.ts:59-85 | booking for more never costs less |
| Coupons.StoredPartsAddUp | src/coupon/coupon.service.ts:83-84 | when the discount is at most the amount, stored discount plus stored final amount is the original in cents, plus exactly one cent when the discount falls on a half cent |
| Coupons.CouponService.ValidateAndCalculate | src/coupon/coupon.service.ts:17-86 | gives a quote if and only if the coupon is active, in its dates, not used up in all or by the user, and the amount reaches its minimum; the final amount is the rest after the discount, at least zero, and the stored discount is it to the cent |
| Coupons.CouponService.ApplyCoupon | src/coupon/coupon.service.ts:88-143 | succeeds if and only if the coupon is active and not used up in all or by the user, and the booking has no usage row; then adds exactly one row and one to the counter, within the coupon's limits |
| Coupons.CouponService.ToggleActive | src/coupon/coupon.service.ts:203-211 | flips the flag of that coupon only and keeps the counters conserved |
| Coupons.CouponService.Delete | src/coupon/coupon.service.ts:213-227 | succeeds if and only if the coupon was never used |
| Coupons.CountIsSumByUser | src/coupon/coupon.service.ts:125-141 | the counter is the sum of the per-user counts |
| Coupons.ValidatedApplies | src/booking/booking.service.ts:192-199 | if nothing touches the coupon between validation and apply, apply succeeds and the discounted booking has its usage row |
| Coupons.AloneIsAtomic | src/coupon/coupon.service.ts:94-142 | an apply that nothing overlaps does in its steps what the one step does |
| Coupons.EveryDiscountHasItsRowIff | src/booking/booking.service.ts:95-199 | of several new bookings, of the same or of different users, priced before any of them applies the coupon and applied in any order, every one gets its usage row if and only if the coupon is active, has uses left for all, and the uses of each user so far plus that user's bookings stay within the limit per user |
| Coupons.DifferentUsersIff | src/booking/booking.service.ts:95-199 | so with valid quotes for different users: if and only if the coupon had enough uses left for all |
| Coupons.SameUserLosesRow | src/coupon/coupon.service.ts:124-131 | two bookings of one user with a coupon that may be used once per user: both quotes are valid, the second booking has no usage row |
| Coupons.AlwaysConserved | src/coupon/coupon.service.ts:94-142 | in every interleaving of applies and admin changes `usedCount` is the number of usage rows |
| Coupons.CommitsWithinLimits | src/coupon/coupon.service.ts:94-142 | every apply that commits ends within the limits the coupon carries at that step |
| Lockout.Account.Login | src/auth/auth.service.ts:103-159 | each answer if and only if its condition on lock, password and counter holds, and what it leaves in the row |
| Lockout.AloneIsAtomic | src/auth/auth.service.ts:95-159 | a login that no other overlaps, as read and later write, is the atomic one |
| Lockout.OverlapsCountOnce | src/auth/auth.service.ts:95-131 | for every n, n failed checks that overlap can leave the counter at one and lock nothing |
| Lockout.CountedIff | src/auth/auth.service.ts:95-159 | in every interleaving, resets and successes included, the counter is the number of failed checks since the last of them throughout, if and only if every failed check finds the counter its login has read and no success that read a clean row finds a counter above zero |
| Lockout.CountedInTheEndIff | src/auth/auth.service.ts:95-131 | from a clean row and without successes and resets, every failed check is in the counter in the end if and only if each found the counter its login had read |
| Lockout.UndisturbedIsAtomic | src/auth/auth.service.ts:95-159 | overlapping logins that find the row they have read do what they would do one after the other |
| Lockout.UndisturbedChecksAreBounded | src/auth/auth.service.ts:103-137 | so for them, too, the n-th failed check comes at least (n - 5) * 15 minutes after the fifth |
| Lockout.LockStopsNewLogins | src/auth/auth.service.ts:103-131 | in every interleaving, until a lock ends only the logins that were past its check when it was written still check a password, unless one succeeds or the row is reset |
| Lockout.RowTellsFailures | src/auth/auth.service.ts:117-131 | over every run the row counts the failed checks since the last success or reset, and `lockoutUntil` is set if and only if they are at least five |
| Lockout.FailedChecksAreBounded | src/auth/auth.service.ts:103-137 | the n-th failed check comes at least (n - 5) * 15 minutes after the fifth |
| Lockout.TurnedAwayIff | src/auth/auth.service.ts:103-165 | over every run a login is turned away unchecked if and only if five or more checks failed and the last one was less than fifteen minutes ago; otherwise the right password gets in, and a wrong one locks if and only if it is at least the fifth |
| RefreshTokens.TokenStore.Validate | src/auth/strategies/jwt-refresh.strategy.ts:64-94 | accepts exactly a stored, unexpired token; revokes all of the user's on reuse; deletes an expired row |
| RefreshTokens.TokenStore.RefreshTokens | src/auth/auth.service.ts:169-186 | exchanges exactly a stored, unexpired token for the new one with its expiry; otherwise revokes, removes or changes nothing, as validation says |
| RefreshTokens.StaysIff | src/auth/auth.service.ts:189-203 | over every run a stored token stays, with its expiry, if and only if it is not presented, its user presents no consumed one and does not log out, and no cleanup finds it expired |
| RefreshTokens.GoodUntilEnded | src/auth/auth.service.ts:276-318 | so a token just issued is exchanged at any later time if and only if it has not expired and nothing has ended it |
| RefreshTokens.AloneIsAtomic | src/auth/auth.service.ts:169-186 | a refresh that nothing overlaps does in its separate calls what the one step does |
| RefreshTokens.RotationKeepsCount | src/auth/auth.service.ts:179-186 | a rotation keeps the number of the user's live tokens, touches nobody else's, and the old token is gone |
| RefreshTokens.ReuseRevokesForGood | src/auth/strategies/jwt-refresh.strategy.ts:70-84 | presenting a consumed, unexpired token empties the user's tokens, and over any later run no token issued before is accepted again |
| RefreshTokens.RevokedForGood | src/auth/strategies/jwt-refresh.strategy.ts:70-84 | the same in every interleaving: no token issued to the user before the revocation is ever stored or exchanged again |
| RefreshTokens.RevivedBy | src/auth/auth.service.ts:179-185 | a user without tokens gets one again only by logging in or from a rotation that was half done |
| RefreshTokens.RevivesIff | src/auth/auth.service.ts:179-185 | without a login that can happen if and only if a rotation of one of the user's tokens was half done at that moment |
| RefreshTokens.ExchangedOnce | src/auth/auth.service.ts:173-180 | in every interleaving of lookups and deletes, and of logins, logouts and cleanups between them, each token is exchanged at most once |
| RedisLock.RedisLockService.AcquireLock | src/redis/redis-lock.service.ts:31-44 | succeeds exactly when no live value stands under the key |
| RedisLock.RedisLockService.ReleaseLock | src/redis/redis-lock.service.ts:47-56 | deletes exactly the caller's own live value |
| RedisLock.RedisLockService.ExtendLock | src/redis/redis-lock.service.ts:58-72 | prolongs exactly the caller's own live value |
| RedisLock.OneHolderAtATime | src/redis/redis-lock.service.ts:15-44 | after a won acquire no other acquire of the key wins before a release or the end of the lease, extensions included |
| RedisLock.StaleHolderIsPowerless | src/redis/redis-lock.service.ts:47-72 | a holder that was succeeded can neither release nor extend its successor's lock |

## Left out

- Transactions.NeverDoubleBooked: without the unique key and with the refund as written it asks for a calm run (`Interleavings.SafeIffCalm` gives the exact condition); as deployed it asks for nothing (`Transactions.DeployedIsSafe`).
- Runs.RefundsConserved: asks that a refund still finds its payment PAID (`Runs.RefundsConservedIff` has the exact condition without that). Stripe's own refusal of a second refund is not modelled.
- Interleavings.StatusChangesBounded: asks for a run without an overtaken completion (`Races.CompletionUndoesCancel` is one with).
- LockOrder.NoWaitCycle: share locks that foreign keys take on parent rows are not modelled, nor is the check of the weekly slot DELETE on referring bookings while it holds slot rows (slot before booking); a webhook's lock on its payment row is taken and held for its commit only.
- Lockout.RowTellsFailures: logins do not overlap, and neither do they in Lockout.FailedChecksAreBounded; `Lockout.UndisturbedIsAtomic` carries both over to logins that overlap undisturbed, `Lockout.CountedIff` says when failures are counted at all.
- Lockout.FailedChecksAreBounded: as above; it fails for disturbed logins (`Lockout.OverlapsCountOnce`).
- SlotCache.CurrentIffNoBlindRead: a read is one step here, and so is a write with its invalidation; `SlotCache.OverlapsCurrentIff` has the calls of a request apart.
- Coupons.StoredPartsAddUp: exact rationals, not IEEE floating point.
- Transactions: cancel and refund check the owner before they open their transaction; the model lets anyone start them. The unlocked read is the first step of the webhooks, the payment intent, the refund and the jobs.
- Stripe: an intent id is an arbitrary input, so its idempotency key is not used, and a clash with another booking's intent fails on the unique key; events come in any number and order. A payment that reads INITIATED is taken to have its client secret.
- Times of day: "HH:00" texts are hours, and a slot is named by its key (turf, date, hour) instead of its UUID.
- Dates: the range limit of Date (8.64e15 ms) and the invalid-date answer of the slot list.
- `create`'s date window (it checks the requested date, not the slot's), its coupon, its Redis lock and its notification, which lie outside its transaction.
- Argon2, SHA-256 and JWT signatures: a password is right or wrong, a token stands for its hash, and every issued token is new.
- The coupon code lookup, the create and update validation of coupons, and price columns.
- The turf row inside a cached slot list, and its own cache.
- Controllers, DTOs, guards, mail, queues, metrics, logs, uploads, reviews, admin lists and counts: they add no state the properties speak of.
