# Invoicing back end: a verified model

This project models the parts of a multi-tenant invoicing service where several
handlers, workers and Stripe deliveries act on the same rows and keys, and proves
what they keep together.

* **Ledger** (`Ledger`, `LedgerSteps`, `LedgerEffects`, `LedgerRuns`, `LedgerHistory`,
  `LedgerExamples`, `Handlers`, `HandlersAlone`, `HandlerEffects`).
  The invoice and payment tables, every SQL statement on them as a function, and the
  handlers as small programs: a program counter, the locals captured so far, one
  statement or one dispatched event a step. Any number of handlers interleave.
  `SELECT ... FOR UPDATE` locks a row until the handler that selected it commits;
  a statement that writes a locked row waits. The same handlers appear once more as
  methods of a `Service` object, and their steps, uninterrupted, are proved to do what
  those methods do.
* **Money** (`Money`). Totals as exact decimals, rounded to the nearest hundredth
  (rates: ten-thousandth) by the columns that store them.
* **Recurring schedule** (`Calendar`, `Cadence`, `Schedule`). Gregorian dates with the
  month lengths of section 5.7 and the leap rule of Appendix C of RFC 3339, the chain
  of field replacements that adds months, and the loop that looks for the next run.
* **Recurring templates** (`Recurring`, `RecurringSteps`, `RecurringEffects`,
  `RecurringAlone`, `RecurringSerial`). The template endpoints, the scan and the job: as methods, as
  interleaved steps that do what the methods do when uninterrupted, and, for one
  template at a time, the interleaved runs in which its queued job finishes before the
  template is scanned again or edited.
* **Circuit breaker** (`CircuitBreaker`). Two critical sections around an unlocked
  call, proved against a machine that has no counters and only remembers finishes.
* **Keys in Redis** (`CacheStore`, `RateLimit`, `WebhookDedup`, `Idempotency`, `KeySpace`) and
  **invoice numbers** (`Digits`, `Numbering`).

What is assumed: SQL statements and Redis commands are atomic; the row lock, the
unique constraint and the foreign key from payments to invoices hold; columns round to
nearest; all parties read one clock that does not go back. The clock reading, Stripe's
answers and the failure of a statement are parameters. Dispatching a webhook appends
to a log.

Where the code and its comments disagree, the model follows the code:

* `src/modules/recurring_invoice/mod.rs:113` promises a clamp to the month's last day.
  The year and month are replaced before the day, so the chain fails exactly when there
  is something to clamp, the date comes back unchanged, and the loop above it never
  ends (`Schedule.ClampMetExactly`, `Schedule.HangsExactly`); the clamp itself is dead
  code (`Schedule.ClampIsDead`).
* `src/jobs/recurring.rs:58-60` says a second job for one due date does nothing. The
  job re-tests only the status, so it makes a second invoice
  (`Recurring.SecondAttemptExactly`, `RecurringAlone.SecondJobMakesInvoice`).
* `src/modules/payment/webhook.rs:233-235` says invoice.paid is emitted exactly once.
  It is emitted once per handler that read the invoice before it was paid
  (`LedgerRuns.PaidDispatchExactly`, `LedgerExamples.OverlapDispatchesTwice`).
* `src/modules/payment/webhook.rs:60` relies on Stripe's retries. The key is claimed
  before the handler runs and is not released when it errors, so an event is handled to
  its end if and only if some delivery that claims the key does not fail, and all
  retries within 48 hours of a failed one are lost (`WebhookDedup.TakesFullEffect`,
  `WebhookDedup.RetryIsLost`).
* `src/modules/invoice/mod.rs:158-159` says a caller that got a conflict can retry. That
  holds unless a manual number takes the prefix (`Numbering.RetryExactly`,
  `Numbering.ManualNumberBlocks`).
* `src/circuit_breaker/mod.rs:168` is marked unreachable. It is reached if and only if
  two calls may be in flight at once, whatever the thresholds
  (`CircuitBreaker.OpenArmIsReached`).

Two properties one might expect fail and are replaced by their exact form. Two payment
rows of one Idempotency-Key need not be 24 hours apart: the distance runs from the
earlier row's claim (`Idempotency.SerialRowsApart`, `Idempotency.RowsApartExactly`).
The limiter's window bound holds of all runs if and only if no time passes between a
key and its INCR: a single INCR that misses the minute its key names can break it, and
only such a one can (`RateLimit.LateBreaksExactly`, `RateLimit.AnyLagBreaks`).

## Model

| member | source | states |
|---|---|---|
| LedgerSteps.PaidIsWholeTotals | src/modules/payment/webhook.rs:246-250 | Whatever was refunded or failed, the succeeded payments of an invoice sum to a whole, non-negative number of its totals |
| LedgerSteps.NeverPartial | src/modules/payment/webhook.rs:257-264 | With such payments the decision is paid or nothing, never partially_paid, for a total of any sign |
| LedgerSteps.PaysDecides | src/modules/payment/webhook.rs:246-259 | While one payment of an invoice with a nonnegative total stands succeeded, the decision is paid |
| LedgerSteps.DecidesIffSucceeded | src/modules/payment/webhook.rs:246-264 | For a positive total the decision is paid if and only if some payment of the invoice stands succeeded, and otherwise there is none |
| LedgerEffects.InvoiceExactly | src/modules/invoice/mod.rs:333-549 | In every reachable state each step leaves each invoice, all fields, as a transition table written out on its own says |
| LedgerEffects.PaymentExactly | src/modules/payment/webhook.rs:104-230 | Each step leaves each payment, all fields, as the payment table says; linking touches only the session's payments, success and failure only the intent's |
| LedgerEffects.RowsAdded | src/modules/payment/mod.rs:164-177 | Only creation adds invoices, as drafts, and only a checkout adds payments, pending, for the present total and currency of the invoice |
| LedgerEffects.OverdueExactly | src/jobs/overdue.rs:27-34 | After the scan an invoice is overdue if and only if it was, or was sent or viewed with its due date before now |
| LedgerSteps.LockProtects | src/modules/invoice/mod.rs:342-405 | The row an editor selected FOR UPDATE is what it captured until that editor commits, whatever other handlers do |
| LedgerSteps.StepGrows | src/modules/payment/webhook.rs:266-278 | Each single step of any handler only climbs the status order, leaves money out of draft alone and never rewrites a timestamp |
| LedgerSteps.StepPaymentsOk | src/modules/payment/mod.rs:126-177 | Each step keeps every payment equal to its invoice's organisation, total and currency, with the invoice out of draft |
| LedgerSteps.StepHandlersOk | src/modules/payment/webhook.rs:241-264 | Each step keeps what handlers captured true: loaded amounts still match, decided transitions are to paid and backed by a paid payment |
| LedgerSteps.StepPaidHavePayments | src/modules/payment/webhook.rs:131-143 | Each step keeps a paid payment behind every paid invoice |
| LedgerSteps.StepKeepsInv | src/modules/payment/webhook.rs:122-281 | Every step of every handler keeps the whole ledger invariant |
| LedgerRuns.RunInv | src/modules/payment/webhook.rs:122-281 | The ledger invariant holds in every reachable state of every interleaving |
| LedgerRuns.PaymentsMatchInvoices | src/modules/payment/mod.rs:126-177 | In every reachable state each payment, and each checkout past its status check, has its invoice's organisation, total and currency, and that invoice is not draft |
| LedgerRuns.PartiallyPaidIsDead | src/modules/payment/webhook.rs:241-264 | No reachable invoice is partially_paid, no snapshot decides it, and the paid sum is a natural multiple of the total |
| LedgerRuns.StoredTotalsAgree | src/modules/invoice/mod.rs:370-405 | In every reachable state, after any edits, each invoice's total is within a cent of its subtotal plus tax |
| LedgerRuns.PaidIsBacked | src/modules/payment/webhook.rs:131-143 | Every reachable paid invoice has sent_at and paid_at and a payment of its own with paid_at |
| LedgerRuns.RunGrows | src/modules/payment/webhook.rs:266-278 | Between any two moments of a run statuses only climb, money out of draft is frozen, sent_at, viewed_at and both paid_at columns are written once |
| LedgerRuns.StatusWritesClimb | src/modules/invoice/mod.rs:428-546 | A step that changes a status strictly raises its rank: draft, sent, viewed, overdue, cancelled, paid |
| LedgerRuns.ChangesBoundedByRank | src/modules/invoice/mod.rs:428-546 | An invoice has changed status no more often than the rank of its present status |
| LedgerRuns.AtMostFiveChanges | src/modules/payment/webhook.rs:257-278 | No invoice changes status more than five times in any run |
| LedgerRuns.OverdueEventsOnce | src/jobs/overdue.rs:24-36 | The overdue update announces each invoice it flips exactly once and no other invoice |
| LedgerRuns.StepOwes | src/modules/payment/webhook.rs:155-179 | Conservation of events: a step adds to what is dispatched or still owed exactly the events its statement causes, and only an ended handler loses any |
| LedgerRuns.DispatchedAtMostOnce | src/jobs/overdue.rs:24-60 | invoice.sent, invoice.overdue and invoice.cancelled are each dispatched at most once per invoice in every run, and only after that status was reached |
| LedgerRuns.BecomesPaid | src/modules/payment/webhook.rs:266-280 | An invoice becomes paid exactly by the status write of a handler whose snapshot read it unpaid, and never ceases to be |
| LedgerRuns.StepPaidCounts | src/modules/payment/webhook.rs:241-280 | Each step keeps the account of early snapshots against invoice.paid events dispatched, owed and still to be decided |
| LedgerRuns.PaidDispatchBounded | src/modules/payment/webhook.rs:168-179 | In every run invoice.paid goes out at most as often as handlers read the invoice before it was paid, and only for a paid invoice |
| LedgerRuns.PaidDispatchExactly | src/modules/payment/webhook.rs:233-280 | Once the success handlers of an invoice finished, none of them early: exactly one dispatch per early snapshot, and at least one if and only if it is paid; other invoices' handlers play no part |
| LedgerRuns.PaidDispatchedOnce | src/modules/payment/webhook.rs:233-280 | If no two success handlers overlap on that invoice: exactly one invoice.paid if it is paid, none otherwise |
| LedgerRuns.DecidesPaidExactly | src/modules/payment/webhook.rs:257-264 | In every reachable state, for a total of any sign, the number of succeeded payments for which the decision is paid; two of them decide nothing on a negative total |
| LedgerRuns.StepPaysSettle | src/modules/payment/webhook.rs:131-179 | Each step keeps: an invoice with a succeeded payment is paid or has a handler on its way to pay it |
| LedgerRuns.SucceededMeansPaid | src/modules/payment/webhook.rs:233-281 | Once an invoice's success handlers finished, none early, a nonnegative total with a succeeded payment is paid, where no intent is shared by two invoices |
| LedgerHistory.SessionWasStored | src/modules/payment/mod.rs:223-230 | In every run a payment's session was stored on it by a checkout |
| LedgerHistory.IntentWasLinked | src/modules/payment/webhook.rs:103-115 | In every run a payment's intent is not empty and was linked from a session stored on that payment |
| LedgerHistory.IntentsUnique | src/modules/payment/webhook.rs:103-115 | Where no session is stored on two payments and no intent is linked from two sessions, no two payments ever carry one intent |
| LedgerHistory.SucceededMeansPaidWithStripe | src/modules/payment/webhook.rs:233-281 | There, once an invoice's success handlers finished, none early, a nonnegative total with a succeeded payment is paid |
| LedgerHistory.PaidGetsNoNewPayment | src/modules/payment/mod.rs:138-146 | Once an invoice is paid and no checkout that found it payable is underway, no payment of it is ever added |
| LedgerHistory.AddsExactly | src/jobs/overdue.rs:24-36 | A step causes invoice.sent, invoice.overdue or invoice.cancelled if and only if it takes the invoice into that status |
| LedgerHistory.AnnouncedExactly | src/jobs/overdue.rs:24-60 | Where no handler that owed the event ended early and none owes it still, each of these went out exactly once if the invoice ever had the status and never otherwise |
| LedgerHistory.CreatedExactly | src/modules/invoice/mod.rs:139-151 | There, invoice.created went out exactly once for each invoice |
| LedgerExamples.OverlapDispatchesTwice | src/modules/payment/webhook.rs:233-235 | A run from empty tables in which two overlapping success handlers dispatch invoice.paid twice |
| Handlers.Chosen | src/modules/payment/webhook.rs:131-143 | The row the update returns carries the intent and may be any that does; none is returned exactly when no row carries it |
| HandlersAlone.CallAlone | src/modules/invoice/mod.rs:333-549 | From any reachable state in which no editor holds the row, the uninterrupted steps of every endpoint and of the overdue cron reach the tables and log its method reaches, and a refused call takes no step |
| HandlersAlone.SuccessAlone | src/modules/payment/webhook.rs:122-181 | The same for the success handler, run to its end or stopped after any number of steps |
| HandlersAlone.EventAlone | src/modules/payment/webhook.rs:68-87 | The same for every Stripe event, whichever row is returned and whichever statement fails |
| HandlersAlone.SuccessIsIdempotent | src/modules/payment/webhook.rs:233-281 | A second success event for an intent leaves the tables as they are and announces payment.succeeded but never invoice.paid again |
| HandlersAlone.StoppedHalfway | src/modules/payment/webhook.rs:143-169 | A success handler that fails after its first write and before its last leaves a succeeded payment and an unchanged invoice, which it would have left paid |
| HandlersAlone.UnlockedAfterDraft | src/modules/invoice/mod.rs:342-362 | No reachable invoice out of draft is ever locked, so status writes of success handlers never wait |
| HandlerEffects.AcceptedExactly | src/modules/invoice/mod.rs:428-497 | Over reachable tables: a cancel is refused exactly for cancelled and paid invoices, a checkout exactly for drafts and those, and a refund never for want of an intent |
| HandlerEffects.StatusCallsExactly | src/modules/invoice/mod.rs:428-546 | Send, cancel and view replace one row in the named fields and dispatch their one event, or none |
| HandlerEffects.ViewedHasTime | src/modules/invoice/mod.rs:531-546 | After a view the invoice has its first viewing time and only sent has turned viewed |
| HandlerEffects.CreateExactly | src/modules/invoice/mod.rs:203-240 | A creation appends one draft with the columns of its items and rate and dispatches invoice.created for it |
| HandlerEffects.UpdateExactly | src/modules/invoice/mod.rs:364-405 | An edit stores the columns of the items and rate it ends with, absent ones taken from the row |
| HandlerEffects.CheckoutExactly | src/modules/payment/mod.rs:154-230 | A checkout appends one pending payment of the whole total and currency, with the session if Stripe gave one |
| HandlerEffects.RefundExactly | src/modules/payment/mod.rs:368-378 | A refund changes its payment's status only; the invoices stay as they are |
| HandlerEffects.OverdueTickExactly | src/jobs/overdue.rs:27-60 | The cron turns overdue and announces exactly the sent and viewed invoices due before now |
| HandlerEffects.LinkExactly | src/modules/payment/webhook.rs:103-115 | A completed checkout changes a payment only if its session is the event's and the intent not empty, and then only its intent |
| HandlerEffects.FailExactly | src/modules/payment/webhook.rs:196-229 | After a failure event exactly the intent's payments are failed, the returned one is announced, and no invoice changes |
| HandlerEffects.SucceedExactly | src/modules/payment/webhook.rs:131-181 | After a success event exactly the intent's payments stand succeeded with their first time, the invoice is paid with its first time, and invoice.paid goes out if it was not paid before |
| HandlerEffects.UnknownChangesNothing | src/modules/payment/webhook.rs:84-148 | An event of another type, or about an intent no payment carries, changes nothing |
| Handlers.Service.CreateInvoice | src/modules/invoice/mod.rs:187-240 | Bad request for an unknown client, internal error for a column overflow, conflict for a used number; otherwise a draft row with its computed columns and invoice.created |
| Handlers.Service.UpdateInvoice | src/modules/invoice/mod.rs:333-407 | Only an owned draft; items and rate left absent come from the row, and the columns are recomputed from them |
| Handlers.Service.SendInvoice | src/modules/invoice/mod.rs:421-463 | Succeeds exactly on an owned draft, then dispatches invoice.sent; otherwise tables and log are untouched |
| Handlers.Service.CancelInvoice | src/modules/invoice/mod.rs:477-511 | Succeeds exactly from draft, sent, viewed or overdue, then dispatches invoice.cancelled |
| Handlers.Service.ViewInvoice | src/modules/invoice/mod.rs:525-549 | Any owned invoice can be viewed; only sent turns viewed and the first viewing time stays |
| Handlers.Service.RunOverdue | src/jobs/overdue.rs:19-64 | The bulk transition followed by one invoice.overdue per row it changed, in order |
| Handlers.Service.CreateCheckout | src/modules/payment/mod.rs:125-240 | A pending payment of the full total exactly for a payable invoice in a known currency; it stays without a session when Stripe fails |
| Handlers.Service.RefundPayment | src/modules/payment/mod.rs:304-385 | Only a succeeded payment with an intent is refunded; partial exactly for a positive amount; a Stripe failure changes nothing |
| Handlers.Service.TransitionInvoice | src/modules/payment/webhook.rs:236-281 | Run alone it does what the transition function says, and reports whether it flipped the invoice to paid |
| Handlers.Service.HandleStripe | src/modules/payment/webhook.rs:68-231 | Every kind of event does to tables and log what the event function says, for any returned row and any early stop; an unknown intent does nothing |
| Money.RoundsToOne | migrations/20260423000001_init.sql:61-64 | Every amount rounds to exactly one integer number of column units |
| Money.SubtotalExactly | src/modules/invoice/mod.rs:90-93 | The subtotal of no items is zero, of one item quantity times unit price, of two lists the sum of theirs |
| Money.StoredExactly | src/modules/invoice/mod.rs:89-97 | The columns hold, rounded to nearest, the sum, the rate, rate times sum and their total, and nothing is stored exactly when one does not fit its digits |
| Money.StoredWithinHalfACent | migrations/20260423000001_init.sql:61-64 | Subtotal, tax and total are each stored within half a cent of what the items and the rate come to |
| Money.StoredWithinACent | src/modules/invoice/mod.rs:89-97 | The stored total differs from stored subtotal plus stored tax by at most one cent, for all items and rates |
| Money.CentIsReached | src/modules/invoice/mod.rs:89-97 | The cent is reached: half a cent of goods at a rate of one |
| Money.RestoreIdempotent | src/modules/invoice/mod.rs:364-405 | An update that leaves items and rate absent changes nothing the second time and never the subtotal |
| Money.RestoreIdentity | src/modules/invoice/mod.rs:364-405 | It changes no money column at all when the rate has at most four decimals |
| Money.RestoreDrift | src/modules/invoice/mod.rs:364-405 | Otherwise it moves the total by at most 0.00005 of the unrounded subtotal plus one cent |
| Money.StripeCentsExact | src/modules/payment/mod.rs:154-158 | The cents sent to Stripe are the stored total exactly and fit a signed 64-bit integer |
| Calendar.TableSums | src/modules/recurring_invoice/mod.rs:131-138 | The month lengths add up to the year's length, leap or not |
| Calendar.YearStep | src/modules/recurring_invoice/mod.rs:131-138 | The closed form of days before a year grows by exactly that year's length, leap rule included |
| Calendar.SuccNumber | src/modules/recurring_invoice/mod.rs:131-138 | The next date has the next day number across month and year ends |
| Calendar.PredNumber | src/modules/recurring_invoice/mod.rs:134-135 | The previous date has the previous day number across month and year ends |
| Calendar.DayNumberOrders | src/modules/recurring_invoice/mod.rs:95 | Dates compare as their day numbers do |
| Calendar.DayNumberBijective | src/modules/recurring_invoice/mod.rs:131-138 | Every integer is the day number of exactly one date |
| Calendar.PlusDaysAdds | src/modules/recurring_invoice/mod.rs:103-107 | Adding n days moves the day number by n |
| Calendar.FourCenturies | src/modules/recurring_invoice/mod.rs:131-138 | The same date 400 years on exists and is 146097 days later |
| Calendar.KnownDates | src/modules/recurring_invoice/mod.rs:131-138 | February has 28 days in 1900 and 2023 and 29 in 2000 and 2024, and the Unix epoch is day 719163 |
| Schedule.LastDayIsMonthLength | src/modules/recurring_invoice/mod.rs:131-138 | The last day is the Gregorian month length for all years and months, and the only date one day before the next first |
| Schedule.AddMonths | src/modules/recurring_invoice/mod.rs:111-129 | The two carry loops and the chain compute what month-index arithmetic says, for any number of months |
| Schedule.MonthStepExactly | src/modules/recurring_invoice/mod.rs:124-128 | For any number of months: the target month with the day kept if the day exists there and in the starting month of the target year, else the input unchanged |
| Schedule.FrequencyStepExactly | src/modules/recurring_invoice/mod.rs:104-128 | For 1, 3 and 12 months: the day kept in the target month exactly when it exists there, else the input unchanged |
| Schedule.ClampMetExactly | src/modules/recurring_invoice/mod.rs:113 | The code agrees with the promised clamp if and only if there is nothing to clamp |
| Schedule.ClampIsDead | src/modules/recurring_invoice/mod.rs:124-128 | For every date and number of months the minimum with the month's last day changes nothing |
| Schedule.DayAdvanceExactly | src/modules/recurring_invoice/mod.rs:103-107 | A weekly advance is seven days, an unknown frequency's thirty, at the same time of day |
| Schedule.MonthAdvanceExactly | src/modules/recurring_invoice/mod.rs:104-106 | A monthly, quarterly or yearly advance is 1, 3 or 12 months on at the same day and time if that month has the day, and otherwise none |
| Schedule.AdvanceMovesOrSticks | src/modules/recurring_invoice/mod.rs:101-109 | An advance moves strictly forward or not at all; it always moves by days, and by months exactly when the target month has the day |
| Schedule.AdvanceOnce | src/modules/recurring_invoice/mod.rs:101-109 | The dispatch on frequency over the looping month addition computes the advance function |
| Schedule.ComputeNextRunAt | src/modules/recurring_invoice/mod.rs:92-99 | The loop returns the first cadence point after now, or reports the step that will repeat for ever |
| Schedule.NextRunIsLeast | src/modules/recurring_invoice/mod.rs:89-99 | A result is strictly after now, all earlier cadence points are at or before now, and it is the least point after now |
| Schedule.WeeklyPoint | src/modules/recurring_invoice/mod.rs:95-103 | The k-th weekly point is k times seven days after the start, to the nanosecond |
| Schedule.WeeklyNextRun | src/modules/recurring_invoice/mod.rs:92-103 | A weekly start not in the future next runs within seven days after now, a whole number of weeks after the start |
| Schedule.FutureStart | src/modules/recurring_invoice/mod.rs:92-99 | The next run is the start itself if and only if the start is in the future |
| Cadence.NoneExactlyWhenDiverging | src/modules/recurring_invoice/mod.rs:95-97 | The loop never ends if and only if no cadence point is after now, if and only if it sticks at one at or before now |
| Schedule.PointWhileFits | src/modules/recurring_invoice/mod.rs:95-97 | Until the first month that lacks the day, the k-th point is the start's day in the k-th month on |
| Schedule.SticksExactly | src/modules/recurring_invoice/mod.rs:111-129 | A point so reached sticks if and only if the next month lacks the day |
| Schedule.HangsExactly | src/modules/recurring_invoice/mod.rs:92-109 | For every start, frequency and now: the loop hangs if and only if it reaches a point at or before now whose next month lacks the start's day |
| Schedule.SafeStarts | src/modules/recurring_invoice/mod.rs:92-109 | Day-based frequencies, days up to 28, yearly starts other than 29 February, and quarterly starts up to the 30th that never meet a February always get a next run |
| Schedule.SafeExactly | src/modules/recurring_invoice/mod.rs:92-109 | A start has a next run at every moment if and only if it is one of these |
| Schedule.HangsAtOnce | src/modules/recurring_invoice/mod.rs:92-109 | A start whose next month lacks its day hangs exactly once it is not in the future |
| Schedule.LeapDayHangs | src/modules/recurring_invoice/mod.rs:106 | No yearly start on 29 February ever gets a second run |
| Schedule.MonthEndStartsHang | src/modules/recurring_invoice/mod.rs:104 | Every monthly start after the 28th stalls within two years and hangs at every moment from then on |
| Recurring.DueIds | src/jobs/recurring.rs:61-71 | The scan selects exactly the active templates whose next run has come |
| Recurring.Scheduler.CreateTemplate | src/modules/recurring_invoice/mod.rs:152-204 | An unknown frequency or client is refused, a schedule with no next run hangs, otherwise an active template is appended at its least future point |
| Recurring.Scheduler.UpdateTemplate | src/modules/recurring_invoice/mod.rs:295-374 | Never a cancelled template; next_run_at is recomputed from the start exactly when the frequency differs |
| Recurring.Scheduler.PauseTemplate | src/modules/recurring_invoice/mod.rs:388-411 | Succeeds exactly from active and keeps next_run_at |
| Recurring.Scheduler.ResumeTemplate | src/modules/recurring_invoice/mod.rs:426-474 | Succeeds exactly from paused when a next run exists, and sets that run |
| Recurring.Scheduler.CancelTemplate | src/modules/recurring_invoice/mod.rs:488-512 | Succeeds exactly when not yet cancelled and clears next_run_at |
| Recurring.Scheduler.Scan | src/jobs/recurring.rs:53-94 | One queue entry per due template, in order, but for the pushes that fail |
| Recurring.Scheduler.Work | src/jobs/recurring.rs:96-191 | The head of the queue is taken; the invoice is made before the next run is computed; an expired template is cancelled without an invoice |
| Recurring.SecondAttemptExactly | src/jobs/recurring.rs:58-60 | Right after a job a second one makes no second invoice if and only if the template has expired meanwhile |
| Recurring.HungForever | src/jobs/recurring.rs:157-167 | A job that hangs leaves its template due and unchanged and hangs again at every later attempt |
| RecurringSteps.StepTemplate | src/modules/recurring_invoice/mod.rs:343-370 | Each step of any worker or endpoint keeps start dates, never revives a cancelled template and never leaves a live one without a next run |
| RecurringSteps.LockProtects | src/modules/recurring_invoice/mod.rs:433-472 | A template locked by an edit or resume stays as captured until that handler commits |
| RecurringSteps.RunInv | src/jobs/recurring.rs:96-167 | The template invariant holds in every reachable state of every interleaving |
| RecurringSteps.CancelledForever | src/modules/recurring_invoice/mod.rs:494-507 | In every interleaving a cancelled template stays cancelled |
| RecurringSteps.LiveHasNextRun | src/jobs/recurring.rs:123-167 | In every interleaving active and paused templates have a next run |
| RecurringEffects.TemplateExactly | src/modules/recurring_invoice/mod.rs:343-507 | In every reachable state each step leaves each template, all fields, as a transition table written out on its own says |
| RecurringEffects.TemplateAdded | src/modules/recurring_invoice/mod.rs:178-201 | Only creation adds templates: active, never run, at their first point after now |
| RecurringEffects.AcceptedExactly | src/modules/recurring_invoice/mod.rs:302-511 | In which statuses, and for which frequencies and schedules, each template call succeeds |
| RecurringEffects.ScanExactly | src/jobs/recurring.rs:61-71 | A scan takes up, once each, exactly the active templates whose next run is at or before now |
| RecurringEffects.JobExactly | src/jobs/recurring.rs:101-167 | What becomes of a job and of its template, case by case, the end passed only strictly after it |
| RecurringEffects.MadeBeforeEnd | src/jobs/recurring.rs:101-135 | In every interleaving an invoice is made only of a template its job loaded active, at a clock reading not after the end it had then |
| RecurringEffects.NoInvoiceUntilResume | src/jobs/recurring.rs:101-120 | In every interleaving, from a pause, cancellation or expiry until the next resume, invoices of the template come only from jobs that had loaded it before |
| RecurringAlone.CallAlone | src/modules/recurring_invoice/mod.rs:295-512 | The uninterrupted steps of every template endpoint, on an unlocked row, leave the templates its method leaves |
| RecurringAlone.ScanAlone | src/jobs/recurring.rs:53-94 | The uninterrupted steps of the scan queue what its method queues, whichever pushes fail |
| RecurringAlone.JobAlone | src/jobs/recurring.rs:96-167 | For any table, queue entry and outcome the uninterrupted steps of the job leave what the job as one operation leaves; one that hangs stands between invoice and next run |
| RecurringAlone.SecondJobMakesInvoice | src/jobs/recurring.rs:58-71 | A run from empty tables in which two scans of one due date make two invoices, the second before the template is due again |
| RecurringSerial.StepJobs | src/jobs/recurring.rs:61-91 | A step adds a job of a template only as a scan that finds it due, one at most, and the job's last write removes it |
| RecurringSerial.StepKeepsSerialInv | src/jobs/recurring.rs:96-167 | Each interleaved step of a run serial for the template keeps one job at most, on a due template, and the next run on the cadence and past everything consumed |
| RecurringSerial.ConsumedIncrease | src/jobs/recurring.rs:157-167 | In interleaved runs serial for a template the due dates its invoices consume strictly increase and had come, across pauses, resumes and frequency changes |
| RecurringSerial.NextRunOnCadence | src/modules/recurring_invoice/mod.rs:329-333 | In such runs the next run of a live template is a point of the cadence of its start and present frequency, later than all consumed unless its job is just being finished |
| RecurringSerial.FixedFrequency | src/jobs/recurring.rs:157-159 | In such runs, with the frequency kept, every due date consumed is a point of the one cadence |
| RecurringSerial.InvoicesBoundedByPoints | src/jobs/recurring.rs:157-159 | In such runs, with the frequency kept, no more invoices of the template exist than cadence points have come |
| CircuitBreaker.CircuitBreaker.constructor | src/circuit_breaker/mod.rs:96-106 | A new breaker is closed with no counts |
| CircuitBreaker.CircuitBreaker.PreCall | src/circuit_breaker/mod.rs:125-139 | The first critical section changes the fields and admits the call as its step function says |
| CircuitBreaker.CircuitBreaker.PostCall | src/circuit_breaker/mod.rs:143-180 | The second critical section changes the fields as its step function says |
| CircuitBreaker.StepRefines | src/circuit_breaker/mod.rs:125-180 | Each step of the counters matches a step of the counter-free reference machine |
| CircuitBreaker.RunRefines | src/circuit_breaker/mod.rs:143-180 | Every run, with any overlap and any clock, refines the reference machine over the finish log |
| CircuitBreaker.AdmittedExactly | src/circuit_breaker/mod.rs:126-141 | In every run a call is admitted if and only if the breaker is not open or its cooldown has passed; a half-open breaker admits every call |
| CircuitBreaker.FailuresExactly | src/circuit_breaker/mod.rs:145-163 | In every run the failure counter is the failing tail of the finishes remembered, while open too, and in half-open the successes are all finishes of the phase |
| CircuitBreaker.TransitionsExactly | src/circuit_breaker/mod.rs:143-180 | It opens from closed exactly when the last failure_threshold finishes since closing all failed, closes from half-open exactly when success_threshold finishes all succeeded, and makes no other move |
| CircuitBreaker.FieldsAgree | src/circuit_breaker/mod.rs:82-87 | opened_at is absent exactly when closed; successes only in half-open; half-open holds no failures |
| CircuitBreaker.OpeningHolds | src/circuit_breaker/mod.rs:126-139 | After an opening the breaker stays open with that opened_at until the cooldown has passed |
| CircuitBreaker.NoCallDuringCooldown | src/circuit_breaker/mod.rs:126-139 | No inner call begins between an opening and its cooldown, however calls overlap |
| CircuitBreaker.OpeningsApart | src/circuit_breaker/mod.rs:170-178 | Two openings are at least a cooldown apart |
| CircuitBreaker.LateFinishKeepsOpening | src/circuit_breaker/mod.rs:165-178 | A finish that arrives while open moves neither phase nor opened_at |
| CircuitBreaker.FailuresBoundedFrom | src/circuit_breaker/mod.rs:161-163 | At each moment of an open phase failures plus calls in flight stay within the threshold plus those in flight at its opening |
| CircuitBreaker.FailuresBounded | src/circuit_breaker/mod.rs:161-178 | In every reachable state: under the threshold unless open, and while open bounded from the opening of that phase |
| CircuitBreaker.NoneInFlightWhileOpen | src/circuit_breaker/mod.rs:141-144 | With one call at a time no call is in flight while the breaker is open |
| CircuitBreaker.OpenArmIsReached | src/circuit_breaker/mod.rs:168 | For every configuration: a run with at most m calls in flight takes the arm marked unreachable if and only if m is two or more |
| CacheStore.Cache.SetNxEx | src/cache/mod.rs:21-33 | Sets and reports true exactly when the key is absent or expired, always with an expiry |
| CacheStore.Cache.Get | src/cache/mod.rs:35-42 | The value of a live key, nothing for an absent or expired one |
| CacheStore.Cache.SetEx | src/cache/mod.rs:44-54 | Overwrites value and expiry |
| CacheStore.Cache.IncrWithTtl | src/cache/mod.rs:58-73 | Counts from one on a missing key, never extends an expiry already set, fails on text |
| CacheStore.ClaimLasts | src/cache/mod.rs:17-33 | In any command sequence, after a successful claim nothing finds the key missing for a whole time-to-live, short of a plain SET with a smaller one |
| KeySpace.KeysApart | src/cache/mod.rs:17-73 | Counters, claimed events and stored responses never share a key |
| RateLimit.BucketKeyInjective | src/middleware/rate_limit.rs:71-89 | Distinct clients or minutes never share a counter, whatever characters names hold |
| RateLimit.Limit | src/middleware/rate_limit.rs:29-68 | Lets a request through exactly when exempt, without a cache, disabled, on a Redis error, or while the count is within the limit |
| RateLimit.CounterExact | src/middleware/rate_limit.rs:48-63 | A bucket whose own INCRs are on time: its counter equals the requests made in it, cannot expire inside its minute, and exactly the first limit of them pass, whatever happens elsewhere |
| RateLimit.WindowBounded | src/middleware/rate_limit.rs:11-14 | If every INCR of a client runs in the minute its key names, any half-open window of k minutes lets at most (k+1) limits through for it |
| RateLimit.BurstReachesBound | src/middleware/rate_limit.rs:11-14 | For k = 1 and every limit a run reaches the bound |
| RateLimit.LateIncrEscapes | src/middleware/rate_limit.rs:71-73 | For every limit and every INCR that misses its key's minute, a run otherwise prompt in which one more than the bound passes |
| RateLimit.LateBreaksExactly | src/middleware/rate_limit.rs:48-73 | One request can break the bound in a run where all others are on time if and only if its INCR misses the minute its key names |
| RateLimit.AnyLagBreaks | src/middleware/rate_limit.rs:48-73 | For every limit, runs with INCRs at most some lag after their keys can break the bound if and only if the lag is not zero |
| Digits.PrintedReadsBack | src/modules/invoice/mod.rs:170 | Printed numbers, zero-padded or not, read back to themselves |
| Digits.FourDigits | src/modules/invoice/mod.rs:170 | Padded numbers have four digits, more exactly from ten thousand on |
| Numbering.AutoNumberInjective | src/modules/invoice/mod.rs:160-171 | Distinct counts give distinct invoice numbers |
| Numbering.YearsApart | src/modules/invoice/mod.rs:161-170 | A year's automatic numbers match that year's prefix and no other year's |
| Numbering.NumbersUnique | migrations/20260423000001_init.sql:73 | In every run no number is used twice, automatic or manual |
| Numbering.FreeExactly | src/modules/invoice/mod.rs:163-170 | The number after a caller's count is free if and only if no row was added since |
| Numbering.NumbersAreContiguous | src/modules/invoice/mod.rs:160-171 | Over all interleavings the numbers with the prefix are exactly 1 to n, n their count, if no manual number uses the prefix |
| Numbering.InsertAddsNextOrConflicts | src/modules/invoice/mod.rs:207-237 | Each insert adds number n+1 or conflicts, the latter exactly when another caller inserted since the count |
| Numbering.RetryExactly | src/modules/invoice/mod.rs:158-159 | A retry alone succeeds if and only if the number after the count is not in use |
| Numbering.RetrySucceeds | src/modules/invoice/mod.rs:158-159 | In every reachable state with the prefix reserved a retry alone adds the next number |
| Numbering.BlockedForever | src/modules/invoice/mod.rs:156-171 | Once the number after the count is taken no sequence of retries adds a row |
| Numbering.ManualNumberBlocks | src/modules/invoice/mod.rs:125 | A manual 0002 in the prefix blocks automatic numbers for ever |
| WebhookDedup.StripeWebhook | src/modules/payment/webhook.rs:60-89 | Answers deduplicated exactly when the key is live, else runs the handler, to its end or to the statement that fails; an error leaves the key claimed and the steps taken |
| WebhookDedup.ProcessExactly | src/modules/payment/webhook.rs:60-87 | Every stream of deliveries, retries and failures leaves the books of handling exactly those that enter: the first of an event, or 48 hours or more after its last entry |
| WebhookDedup.TakesFullEffect | src/modules/payment/webhook.rs:60 | In every stream an event is handled to its end if and only if some delivery of it that enters does not fail |
| WebhookDedup.RetryIsLost | src/modules/payment/webhook.rs:60-66 | In every stream a delivery less than 48 hours after one of its event entered, failed or not, changes nothing |
| WebhookDedup.RedeliveriesChangeNothing | src/modules/payment/webhook.rs:60-87 | A stream with redeliveries inside 48 hours leaves the tables and log of its first occurrences alone, failing ones included |
| WebhookDedup.FailedEventRetry | src/modules/payment/webhook.rs:60-72 | In every stream an event whose first delivery fails is never handled to its end by retries within 48 hours |
| WebhookDedup.RetryIsSwallowed | src/modules/payment/webhook.rs:143-169 | A success handler that fails between its writes, and its retry, leave a succeeded payment with the invoice as it was, where one unfailing delivery pays it |
| WebhookDedup.EntersOncePerWindow | src/modules/payment/webhook.rs:61-66 | Under any overlap two deliveries of one event enter a handler at least 48 hours apart |
| Idempotency.Check | src/modules/payment/idempotency.rs:14-28 | A stored response is replayed, a placeholder conflicts, a miss claims the key and proceeds even when another request claimed it first |
| Idempotency.StoreResult | src/modules/payment/idempotency.rs:30-40 | The response replaces whatever the key held for another 24 hours |
| Idempotency.RedisKeyInjective | src/modules/payment/idempotency.rs:42-44 | Distinct keys of one endpoint never share an entry |
| Idempotency.LookupExactly | src/modules/payment/idempotency.rs:14-28 | Every lookup of every interleaving, from the history alone: within 24 hours of a stored response it replays that response, within 24 hours of a claim it refuses, otherwise it misses |
| Idempotency.ClaimExactly | src/modules/payment/idempotency.rs:26-27 | Every SET NX claims the key exactly when nothing was claimed or stored in the last 24 hours, and the request goes on either way |
| Idempotency.ReplayIsLastStored | src/modules/payment/idempotency.rs:14-40 | Over all interleavings every replay is the response stored by the last completed request |
| Idempotency.RowsUnderOverlap | src/modules/payment/mod.rs:119-177 | Under any overlap, within 24 hours of a successful claim no more payment rows exist than requests whose lookup came before it |
| Idempotency.SerialRowsApart | src/modules/payment/mod.rs:119-240 | In serial runs, failures included, a row comes 24 hours after the claim of every earlier row, and after the row itself if its request completed in between |
| Idempotency.SlowFailureComesCloser | src/modules/payment/mod.rs:164-230 | For every lag between claim and insert, a serial run in which that request fails and a second row comes closer than 24 hours |
| Idempotency.RowsApartExactly | src/modules/payment/mod.rs:119-240 | Rows of serial runs are always 24 hours apart if and only if a request inserts at the moment it claims |

## Left out

- HTTP routing, request validation, JWT, signatures, metrics, tracing, audit log, pagination and analytics: plumbing or single queries.
- The Stripe client, e-mail and webhook delivery: Stripe's answer is a parameter, delivery an entry in the log; fan-out to subscriptions is not modelled.
- Clients and currencies: whether the client is known, the number free and the currency parsed are parameters of the calls.
- Notes are left out, and line items are re-read as they were written: their decimals are stored as JSON strings, which keep every digit.
- Ranges of the libraries: chrono's years, the 28 digits of the decimal type, the 32-bit counters of the breaker and the 64-bit counters of Redis are unbounded here.
- Templates carry no organisation, client, items, rate or currency: every endpoint filters by organisation in the same way, and the rest is copied into the invoice.
- Apalis: a queue is a sequence, jobs may be taken in any order, and a failed or crashed job may be put back or dropped; its retry schedule is not modelled.
- Limiter: the retry-after header only decorates the refusal; the default limit of 200 is a parameter.
- Idempotency cache: a stored text that is not JSON gives an internal error in the source; responses are opaque texts here.
- Schedule.ComputeNextRunAt: a loop that never ends cannot be a terminating method, so it reports the first step that does not move; that this is exactly non-termination is `Cadence.NoneExactlyWhenDiverging`.
- RateLimit.WindowBounded: assumes the INCRs of the client run in the minute their keys name, because any one that does not can break the bound (`RateLimit.LateBreaksExactly`).
- Idempotency.SerialRowsApart: measures from the claim and not from the earlier row where that row's request failed, because the other form is false for every lag between the two (`Idempotency.RowsApartExactly`).
- RecurringSerial.ConsumedIncrease: only for runs in which a queued job of the template ends, and not between its invoice and its next run, before that template is scanned or edited again, because with two jobs it is materialised early (`RecurringAlone.SecondJobMakesInvoice`).
- Handlers.Service.CreateCheckout: is the call without an Idempotency-Key; the key is modelled on its own in `Idempotency`.
- Handlers.Service.CreateInvoice: takes whether its number is free as a parameter; automatic numbers are modelled on their own in `Numbering`.
