# Business assistant: verified models

Dafny models of the parts of the business assistant whose correctness spans several functions, with
proofs about them. `dafny verify dfyconfig.toml` checks the whole project.

- **Schedules and business time** (`Schedule`, `OpenTime`, `BusinessTime`): opening hours with breaks
  and overrides, the next opening, and deadlines in opening time. The measure is the number of open
  seconds between two instants of an infinite timeline; deadlines are exact, least, unique, additive
  and monotone.
- **Appointment booking** (`Availability`, `Booking*`): the slot planner and the store of drafts,
  holds, bookings, history rows and outbox events. `BookingStore` is the store as an object, method by
  method; `BookingSteps` gives each call as a function of the tables, and every method is proved equal
  to its function. The invariant is kept by all ten calls, so no run overbooks, identities keep one
  draft and one hold, and the stored history refines the booking of `BookingDomain`; `BookingService`
  drives the store object through such runs, and `Contact` is how names and phone numbers are stored.
  A live hold is a guarantee on resources that take one booking at a time. `BookingScenario` builds
  concrete runs from empty tables, `BookingPlanned` says which services rows can name, and with them
  `BookingLimits` decides exactly where the guarantee and the windowed query stop being safe.
  `BookingPlan` states the plan over the rows, `BookingAdmission`, `BookingDrafts` and
  `BookingEffects` what each call changes and leaves, and `BookingErrors` which error it raises.
- **Leased processing** (`Retry`, `UpdateLedger`, `Delivery`, `DeliveryStore`, `DeliveryWorkers`,
  `DeliveryAddress`): the Telegram update ledger, the outbox and the notification deliveries under any
  interleaving of workers.
- **Callback tokens** (`Encodings`, `Callbacks`): base 36, base64url (section 5 of RFC 4648), Python's
  own parsers, and the signed token built from them.
- **Qualification sessions** (`Qualification`, `QualificationRuns`, `QualificationEffects`): consent,
  answers, review, submission and idempotent update keys.
- **Knowledge chunking** (`Text`, `Chunking`): normalization, sections and overlapping windows.

Loops of the source are loops here, with invariants, and are proved equal to a function; what the
source promises is proved about the functions.

## Hypotheses

- One tenant. A row's identifier is its position, which stands for fresh identifiers; ties that the
  source breaks by identifier are broken by insertion order.
- A call of a store is one atomic step at an instant the caller gives; instants of a run do not
  decrease where it matters (bookings), and a call that raises leaves the tables as they were.
- Instants are whole seconds and a zone is a fixed offset.
- The busy query drops a booking at its end, before its cleanup, so the booking runs assume that the
  minimum notice covers every service's buffer. Between calls the configuration may change, except for
  the number of services and resources, durations, buffers and capacities.
- That assumption is not quite necessary. With policy and services fixed and opening hours free to
  change, `BookingLimits.RunsSafeIff` and `BookingLimits.WindowHarmlessIff` give the exact condition over
  runs from empty tables: the notice covers the buffer of every service that can be planned, that is,
  one on sale, shorter than a day with its buffer, under a notice within the horizon.
  `BookingLimits.OverbookedWithoutNotice` is the run that overbooks otherwise. With opening hours that
  never change the grid can make a shorter notice harmless: hourly starts, half-hour appointments,
  a buffer of twenty minutes and a notice of ten.
- The exclusion constraint on bookings ignores capacity. On larger resources it can refuse a live
  hold, so the guarantee is stated for capacity one; `BookingLimits.HoldsHonouredIff` is the exact line
  over legal runs, and `BookingLimits.HoldRefused` the run for every larger capacity.
- The lease results assume that a worker that ends does so within its lease, since neither a completion
  nor a settlement checks the attempt number. Delivery workers may be lost at any time, and each loss
  allows one more attempt. `UpdateLedger.LateRunsOverlap`, `DeliveryWorkers.LateWorkersOverrun` and
  `DeliveryWorkers.OverrunReached` show what happens when a worker is late.

## Where the code surprises

- The outbox status for an event in progress is never visible outside its transaction, and with a
  positive attempt limit no event is ever buried (`Delivery.DispatchCovers`).
- A claim of a delivery does not look at the attempt limit; only a worker that lives to settle it does.
- A qualification session edited before consent can never be consented to or completed
  (`QualificationRuns.EditBeforeConsentIsADeadEnd`).
- A start can be listed on a second resource only because the customer's own hold takes the first;
  asking for it frees the first and is refused (`BookingRepick.RepickRefused`).
- A heading with no body lines before the next heading leaves no trace in the chunks.

## Model

| member | source | states |
|---|---|---|
| `Schedule.RevisePieces` | src/business_assistant/application/scheduling/engine.py:32-41 | The inner loop over pieces is the cut of every piece by one break |
| `Schedule.SubtractBreaks` | src/business_assistant/application/scheduling/engine.py:25-47 | The nested loops compute the specified subtraction, error included |
| `Schedule.Ordered` | src/business_assistant/application/scheduling/engine.py:43-47 | The pairwise check accepts the sorted pieces exactly when no neighbours overlap |
| `Schedule.DepthCut` | src/business_assistant/application/scheduling/engine.py:33-40 | After a break is cut, an instant is covered as often as before, or not at all inside the break |
| `Schedule.DepthRemains` | src/business_assistant/application/scheduling/engine.py:29-42 | The pieces cover an instant once for every opening that holds it, and never inside a break |
| `Schedule.NoOverlapIffDepth` | src/business_assistant/application/scheduling/engine.py:44-46 | Checking neighbours of the sorted pieces is the same as no instant being covered twice |
| `Schedule.SubtractMeaning` | src/business_assistant/application/scheduling/engine.py:25-47 | The result is the pointwise set difference, sorted and pairwise disjoint; it fails exactly when two openings share an instant outside all breaks |
| `Schedule.SubtractHolds` | src/business_assistant/application/scheduling/engine.py:25-47 | A stretch lies in one piece of the result exactly when it lies in one opening and meets no break; touching pieces stay apart |
| `Schedule.Calendar` | src/business_assistant/application/scheduling/engine.py:62 | Weekdays run from 0 for Monday to 6 and over again, day 0 is a Thursday, and the weekday agrees with the one of the Python ordinal |
| `BusinessTime.ComputeEffectiveDay` | src/business_assistant/application/scheduling/engine.py:50-67 | The method computes the specified day: an override, closed or not, replaces the weekly hours |
| `BusinessTime.EffectiveDayFails` | src/business_assistant/application/scheduling/engine.py:50-67 | A day fails exactly for two applicable overrides or for hours that are double booked outside breaks |
| `BusinessTime.AcceptedNeverFails` | src/business_assistant/domain/scheduling/model.py:71-94 | A schedule its constructor accepts never raises the overlap error on a day without an override |
| `BusinessTime.OpenMeaning` | src/business_assistant/application/scheduling/engine.py:50-87 | The timeline behind `is_open` and every deadline: an instant is open exactly when its date is usable, no override closes it, and the local time lies in an opening and in no break in effect: those of an override that applies, or else the weekly ones whose weekday the date falls on |
| `BusinessTime.FitsMeaning` | src/business_assistant/application/bookings/engine.py:57-79 | A stretch lies in one span of the effective day exactly when it lies in one opening in effect and meets no break in effect |
| `BusinessTime.FirstOpeningOn` | src/business_assistant/application/scheduling/engine.py:120-129 | The first later opening of one day, or proof that the rest of the day is closed |
| `BusinessTime.FindNextOpening` | src/business_assistant/application/scheduling/engine.py:107-130 | When closed: the first later open instant with everything before it closed, or nothing open through the last searched day; the exact error condition |
| `BusinessTime.ConsumeDay` | src/business_assistant/application/scheduling/engine.py:150-164 | Loop invariant of one day: remaining time plus open time consumed is the service time; a returned instant is the deadline |
| `BusinessTime.BusinessDueAt` | src/business_assistant/application/scheduling/engine.py:133-165 | The least instant by which exactly the service time has been open; it raises exactly when the time is not positive, a day needed is unusable, or the horizon holds less |
| `OpenTime.OpenSecondsSplit` | src/business_assistant/application/scheduling/engine.py:158-164 | Open time is additive over adjacent stretches of the timeline |
| `OpenTime.DeadlineInWindow` | src/business_assistant/application/scheduling/engine.py:157-162 | Ending the wait inside an interval gives the deadline for all the time waited |
| `OpenTime.DeadlineUnique` | src/business_assistant/application/scheduling/engine.py:133-165 | There is one deadline |
| `OpenTime.DeadlineFollowsOpen` | src/business_assistant/application/scheduling/engine.py:157-162 | The second before a deadline is open |
| `OpenTime.DeadlinesAdd` | src/business_assistant/application/scheduling/engine.py:144-165 | On any timeline, waiting for a + b is waiting for a and then for b |
| `OpenTime.DeadlinesMonotone` | src/business_assistant/application/scheduling/engine.py:144-165 | On any timeline, a later start or a longer wait never ends earlier |
| `BusinessTime.DueTimesAdd` | src/business_assistant/application/scheduling/engine.py:144-165 | Due times are additive, with the exact role of the search horizon |
| `BusinessTime.DueTimesMonotone` | src/business_assistant/application/scheduling/engine.py:144-165 | Due times are monotone in the start and in the service time, whatever the horizons |
| `Availability.FirstResourceMeaning` | src/business_assistant/application/bookings/engine.py:52-79 | The chosen resource is the smallest eligible identifier, and none is chosen only if none is eligible |
| `Availability.SlotsBetweenSorted` | src/business_assistant/application/bookings/engine.py:92 | The reference plan is in strictly increasing order of start |
| `Availability.AvailabilityMeaning` | src/business_assistant/application/bookings/engine.py:41-92 | The plan holds exactly the eligible grid starts, each once, on the smallest-id resource with room, in strictly increasing order; the exact error condition |
| `Availability.TryCandidate` | src/business_assistant/application/bookings/engine.py:64-90 | One candidate is a slot exactly when it meets notice, horizon, closing time and capacity |
| `Availability.WalkSpan` | src/business_assistant/application/bookings/engine.py:57-91 | The cursor loop over one interval visits every grid start of it |
| `Availability.WalkResource` | src/business_assistant/application/bookings/engine.py:52-91 | The loops over one resource add exactly its eligible starts that were not seen before |
| `Availability.CalculateAvailability` | src/business_assistant/application/bookings/engine.py:35-92 | The nested loops with their accumulated lists and sets equal the reference plan |
| `BookingDomain.Booking.TransitionTo` | src/business_assistant/domain/bookings/model.py:73-78 | A step in the transition table is taken and recorded, any other is refused and changes nothing |
| `BookingDomain.EnteredFrom` | src/business_assistant/domain/bookings/model.py:31-47 | The transition table read from its targets: from where each status is entered |
| `BookingDomain.EndsForGood` | src/business_assistant/domain/bookings/model.py:43-46 | A history never goes on after a cancellation, a completion, a missed appointment or an expiry |
| `BookingStore.Store.LoadContext` | src/business_assistant/infrastructure/persistence/booking.py:151-325 | The queries and loops of the context load compute the windowed context |
| `BookingStore.Store.FileHolds` | src/business_assistant/infrastructure/persistence/booking.py:256-295 | Live holds in the window are filed under their resource, in row order |
| `BookingStore.Store.FileUnavailability` | src/business_assistant/infrastructure/persistence/booking.py:270-303 | Active unavailability in the window is filed with the whole capacity of its resource |
| `BookingPlan.ContextMeaning` | src/business_assistant/infrastructure/persistence/booking.py:151-325 | For every shop, tables and window: every resource linked to the service reaches the planner, once, in order, with the schedule, capacity and activity of its row, and no other does; the context has the service's times and flags and the policy |
| `BookingPlan.BookingsCounted` | src/business_assistant/infrastructure/persistence/booking.py:237-294 | The use from bookings is the number of bookings in force that meet the stretch, cleanup included |
| `BookingPlan.HoldsCounted` | src/business_assistant/infrastructure/persistence/booking.py:256-296 | The use from holds is the number of live holds that meet the stretch |
| `BookingPlan.WithdrawnCounted` | src/business_assistant/infrastructure/persistence/booking.py:270-303 | One active unavailability that meets the stretch fills the resource, and without one nothing is taken |
| `BookingPlan.PlanOverRows` | src/business_assistant/infrastructure/persistence/booking.py:151-325 | The plan over rows, for every window: each start that some linked, active resource has on its grid, in its hours, within notice and horizon, with fewer bookings and live holds than its capacity and no unavailability, on the smallest such resource; and no other; with the exact error condition |
| `BookingPlan.OfferedIff` | src/business_assistant/application/bookings/engine.py:35-92 | With a notice that covers the bookings in force, a start is offered exactly when some resource offers it by all rows |
| `BookingWindow.BookingsInWindow` | src/business_assistant/infrastructure/persistence/booking.py:237-255 | Dropping ended and far bookings leaves the use of any reachable stretch |
| `BookingWindow.HoldsInWindow` | src/business_assistant/infrastructure/persistence/booking.py:256-269 | The same for holds |
| `BookingWindow.UnavailableInWindow` | src/business_assistant/infrastructure/persistence/booking.py:270-282 | The same for unavailability periods |
| `BookingWindow.WindowComplete` | src/business_assistant/infrastructure/persistence/booking.py:235-303 | When the notice covers the buffer of every booking in force, the plan from the windowed rows equals the plan from the whole tables |
| `BookingPlanned.PlanNeedsPlannable` | src/business_assistant/application/bookings/engine.py:47-79 | A plan is never offered for a service that is off sale, takes a day or more with its buffer, or has a notice beyond the horizon |
| `BookingPlanned.CarriedRunsKeep` | src/business_assistant/infrastructure/persistence/booking.py:351-1097 | With a notice that covers what can be planned, runs from empty tables keep the whole invariant and name only such services, whatever opening hours do |
| `BookingScenario.Reserve` | src/business_assistant/infrastructure/persistence/booking.py:351-649 | Start, date, hold and contact: four calls that give a new customer the opening slot while there is room |
| `BookingLimits.CleanupForgotten` | src/business_assistant/infrastructure/persistence/booking.py:246-252 | For every service that can be planned with a buffer beyond the notice: at the end of a booking that a run has made, the windowed rows leave the next start free while its cleanup still occupies it |
| `BookingLimits.PlansDiffer` | src/business_assistant/infrastructure/persistence/booking.py:235-303 | After that run the windowed plan and the plan from all rows are different |
| `BookingLimits.WindowHarmlessIff` | src/business_assistant/infrastructure/persistence/booking.py:235-303 | For every policy and service list: after every run from empty tables the windowed plan is the plan from all rows, exactly when the notice covers the buffer of every service that can be planned |
| `BookingStore.Store.StartDraft` | src/business_assistant/infrastructure/persistence/booking.py:351-426 | New draft; earlier active drafts of the identity cancelled, its active holds released; errors change nothing |
| `BookingStore.Store.GetActiveDraft` | src/business_assistant/infrastructure/persistence/booking.py:428-463 | The latest active draft, or the expiry of it and of its hold |
| `BookingStore.Store.SelectDate` | src/business_assistant/infrastructure/persistence/booking.py:489-518 | The date is stored exactly when it lies in the booking horizon of an owned live draft |
| `BookingStore.Store.CreateHold` | src/business_assistant/infrastructure/persistence/booking.py:520-611 | Repeats return the first hold; otherwise a new hold is admitted against the plan, or nothing changes |
| `BookingStore.Store.AdmitHold` | src/business_assistant/infrastructure/persistence/booking.py:546-602 | Both plans are taken, the draft's old hold is released in between, and the new hold is linked both ways |
| `BookingAdmission.AdmittedIff` | src/business_assistant/infrastructure/persistence/booking.py:543-602 | A listed start is admitted exactly when no smaller resource comes free for it by letting the draft's old hold go; then the old hold is released, the new one has the listed start and resource, and nothing else changes |
| `BookingAdmission.FirstHoldAdmitted` | src/business_assistant/infrastructure/persistence/booking.py:543-602 | A draft without a hold gets every listed start |
| `BookingAdmission.CreateHoldMeaning` | src/business_assistant/infrastructure/persistence/booking.py:530-545 | A known key answers with its hold, to the same customer only; a new one needs an own live draft with a date and an admitted start; a refusal changes nothing |
| `BookingRepick.RepickRefused` | src/business_assistant/infrastructure/persistence/booking.py:565-587 | For every scene, three calls from empty tables after which the plan lists a start on the second resource and asking for it is refused, because the customer's own hold stood on the first |
| `BookingStore.Store.UpdateContact` | src/business_assistant/infrastructure/persistence/booking.py:613-649 | Name, phone and note are checked, normalized and stored together, or nothing changes |
| `Contact.PhoneIsStable` | src/business_assistant/domain/shared/value_objects.py:45-56 | A stored phone number has five digits or more and at most 32 characters, and storing it again keeps it |
| `Contact.PhoneKeepsDigits` | src/business_assistant/domain/shared/value_objects.py:45-56 | Which numbers are stored, exactly; a stored number has the digits given, and an international one nothing else but a plus sign |
| `Contact.NameIsStable` | src/business_assistant/infrastructure/persistence/booking.py:629-636 | A stored name has the words of the name given, in order, and storing it again keeps it |
| `BookingStore.Store.CancelDraft` | src/business_assistant/infrastructure/persistence/booking.py:690-737 | All active drafts of the identity are cancelled and their active holds released |
| `BookingStore.Store.GetHold` | src/business_assistant/infrastructure/persistence/booking.py:666-688 | The draft's active hold, or the expiry of it |
| `BookingStore.Store.Confirm` | src/business_assistant/infrastructure/persistence/booking.py:759-975 | Repeats return the first booking; otherwise the hold is booked or the booking moved, or nothing changes |
| `BookingStore.Store.Insert` | src/business_assistant/infrastructure/persistence/booking.py:895-963 | A new booking with its two history rows and its event, or a conflict that changes nothing |
| `BookingStore.Store.Move` | src/business_assistant/infrastructure/persistence/booking.py:831-893 | A moved booking with its two history rows and its event, or an error that changes nothing |
| `BookingStore.Store.CancelBooking` | src/business_assistant/infrastructure/persistence/booking.py:1016-1067 | A cancelled booking with its history row and its event, or an error that changes nothing |
| `BookingStore.Store.ExpireHolds` | src/business_assistant/infrastructure/persistence/booking.py:1069-1097 | The earliest due holds, up to the limit, are expired and counted |
| `BookingDrafts.StartMeaning` | src/business_assistant/infrastructure/persistence/booking.py:351-426 | A draft starts exactly for a service on sale with a linked resource, a booking of the customer and service to move if one is named, and the customer's own conversation; what the identity had is let go, and nothing else changes |
| `BookingDrafts.ActiveMeaning` | src/business_assistant/infrastructure/persistence/booking.py:428-463 | The identity's active draft is answered while it lasts; past its expiry it expires with its hold |
| `BookingDrafts.DateMeaning` | src/business_assistant/infrastructure/persistence/booking.py:489-518 | Only the date of the draft changes, exactly on an own live draft and within the horizon |
| `BookingDrafts.ContactMeaning` | src/business_assistant/infrastructure/persistence/booking.py:613-649 | Given fields are stored with the words and digits given, within the limits; fields not given stay |
| `BookingDrafts.HoldMeaning` | src/business_assistant/infrastructure/persistence/booking.py:666-688 | The draft's active hold is answered while it lasts; past its expiry it expires |
| `BookingDrafts.AbandonMeaning` | src/business_assistant/infrastructure/persistence/booking.py:690-737 | Exactly the identity's active drafts end cancelled and its active holds released |
| `BookingDrafts.SweepMeaning` | src/business_assistant/infrastructure/persistence/booking.py:1069-1097 | A sweep expires due holds only, as many as there are up to the limit, and none that is left ran out earlier |
| `BookingEffects.ConfirmMeaning` | src/business_assistant/infrastructure/persistence/booking.py:759-975 | A successful confirmation repeats an earlier one and changes nothing, or makes one booking with the draft's identity and contact, the hold's service, place and time, and the key and reference given, or moves one booking to the hold's place and time and leaves its terms; exactly one draft, one hold, two history rows and one event change |
| `BookingEffects.CancelMeaning` | src/business_assistant/infrastructure/persistence/booking.py:1016-1067 | After a cancellation that succeeds the booking is cancelled; one that was confirmed gives up exactly its use at every instant, with one history change and one event, and nothing else changes |
| `BookingEffects.BookingsKeepTheirTerms` | src/business_assistant/infrastructure/persistence/booking.py:871-875 | Over any run under any configuration a booking keeps its reference, key, customer, conversation, service and contact, and a cancelled booking keeps everything |
| `BookingEffects.ReferencesAreUnique` | migrations/versions/0004_phase5_booking_engine.py:342-349 | After any run no two bookings share a public reference or a key |
| `BookingEffects.HoldsKeepTheirTerms` | src/business_assistant/infrastructure/persistence/booking.py:520-602 | Over any run under any configuration a hold keeps its owner, place, time, expiry and key, and one that is closed stays closed; no two holds share a key |
| `BookingErrors.StartErrors` | src/business_assistant/infrastructure/persistence/booking.py:364-426 | Which error a refused start raises, exactly |
| `BookingErrors.DateErrors` | src/business_assistant/infrastructure/persistence/booking.py:465-518 | Which error a refused date raises, exactly |
| `BookingErrors.HoldErrors` | src/business_assistant/infrastructure/persistence/booking.py:530-587 | Which error a refused hold request raises, exactly: its arguments, its draft, a broken schedule, or a start that is gone |
| `BookingErrors.ConfirmErrors` | src/business_assistant/infrastructure/persistence/booking.py:801-975 | Which error a refused confirmation of a live hold raises, exactly: its key, its draft, its contact, its service, its move, or a collision |
| `BookingErrors.CancelErrors` | src/business_assistant/infrastructure/persistence/booking.py:1027-1044 | Which error a refused cancellation raises, exactly |
| `BookingInvariant.StartDraftKeeps` | src/business_assistant/infrastructure/persistence/booking.py:351-426 | A new draft keeps the invariant |
| `BookingInvariant.GetActiveDraftKeeps` | src/business_assistant/infrastructure/persistence/booking.py:450-463 | Expiring a draft with its hold keeps the invariant |
| `BookingInvariant.CancelDraftKeeps` | src/business_assistant/infrastructure/persistence/booking.py:715-728 | Cancelling drafts with their holds keeps the invariant |
| `BookingInvariant.ExpireHoldsKeeps` | src/business_assistant/infrastructure/persistence/booking.py:1095-1096 | Expiring holds keeps the invariant |
| `BookingCapacity.BookingsBound` | src/business_assistant/application/bookings/engine.py:26-32 | The sum over overlapping bookings bounds their use at every instant of the stretch |
| `BookingCapacity.HoldsBound` | src/business_assistant/application/bookings/engine.py:26-32 | The sum over overlapping holds bounds their use at every instant of the stretch |
| `BookingCapacity.UnavailableBound` | src/business_assistant/infrastructure/persistence/booking.py:297-303 | One overlapping active unavailability fills the capacity |
| `BookingCapacity.SlotHasRoom` | src/business_assistant/application/bookings/engine.py:26-32 | A planned slot has room at every instant it occupies and meets no active unavailability |
| `BookingCapacity.NewHoldKeeps` | src/business_assistant/infrastructure/persistence/booking.py:543-602 | A new hold is admitted only where there is room once the old one is gone, and keeps the invariant |
| `BookingCapacity.CreateHoldKeeps` | src/business_assistant/infrastructure/persistence/booking.py:520-611 | Any hold request keeps the invariant |
| `BookingConfirm.BookConserves` | src/business_assistant/infrastructure/persistence/booking.py:897-963 | A new booking uses exactly what its hold used, everywhere and at every instant |
| `BookingConfirm.RescheduleConserves` | src/business_assistant/infrastructure/persistence/booking.py:871-875 | A moved booking takes over its hold's use and gives its old place up |
| `BookingConfirm.BookRecords` | src/business_assistant/infrastructure/persistence/booking.py:930-961 | The two first history rows and the event of a booking keep the records in order |
| `BookingConfirm.RescheduleRecords` | src/business_assistant/infrastructure/persistence/booking.py:846-893 | The rows and the event of a move keep the records in order |
| `BookingConfirm.ConfirmKeeps` | src/business_assistant/infrastructure/persistence/booking.py:801-975 | Any confirmation keeps the invariant |
| `BookingConfirm.CancelBookingKeeps` | src/business_assistant/infrastructure/persistence/booking.py:1045-1065 | Any cancellation keeps the invariant |
| `BookingRuns.EveryRunIsSafe` | src/business_assistant/infrastructure/persistence/booking.py:351-1097 | Every run of all ten calls by any customers, from empty tables, ends in the invariant and stays in it as time passes |
| `BookingRuns.NeverOverbooked` | src/business_assistant/infrastructure/persistence/booking.py:543-611 | After any run, confirmed bookings with their cleanup plus live holds are within the capacity at every instant of every resource |
| `BookingRuns.OneDraftOneHold` | src/business_assistant/infrastructure/persistence/booking.py:556-602 | After any run an identity has at most one active hold, linked both ways with an active draft |
| `BookingRuns.OneActiveDraft` | src/business_assistant/infrastructure/persistence/booking.py:382-414 | After any run an identity has at most one active draft |
| `BookingRuns.BookingsKeepTheirHolds` | src/business_assistant/infrastructure/persistence/booking.py:962-963 | After any run a booking's hold is consumed and no other booking has it |
| `BookingRuns.HistoryRefinesDomain` | src/business_assistant/infrastructure/persistence/booking.py:1008-1066 | After any run a booking's history is numbered from 1 without gaps, chains, follows the transition table and ends in its status |
| `BookingGuarantee.NewBookingIsUnique` | migrations/versions/0004_phase5_booking_engine.py:342-348 | Hold, event and sequence keys of a new booking are never taken |
| `BookingGuarantee.MovedBookingIsUnique` | migrations/versions/0001_phase2_initial_phase_2_schema.py:766-768 | Hold, event and sequence keys of a moved booking are never taken |
| `BookingGuarantee.ExclusionNeverFires` | migrations/versions/0001_phase2_initial_phase_2_schema.py:611-620 | On capacity one, no active booking meets a live hold's appointment, so the exclusion constraint lets it pass |
| `BookingGuarantee.ConfirmSucceedsIff` | src/business_assistant/infrastructure/persistence/booking.py:801-975 | With a live hold and a fresh key, a confirmation succeeds exactly when its own conditions hold and no booking collides |
| `BookingGuarantee.HoldIsHonoured` | src/business_assistant/infrastructure/persistence/booking.py:801-975 | On capacity one, nothing but the caller's own conditions decides |
| `BookingGuarantee.HoldStandsThroughRun` | src/business_assistant/infrastructure/persistence/booking.py:351-1097 | Whatever other calls do, a live hold and its draft stand until they run out |
| `BookingGuarantee.LiveHoldGuarantee` | src/business_assistant/infrastructure/persistence/booking.py:801-975 | After any run of calls that leave the hold alone, its owner's confirmation succeeds exactly when the owner's own conditions hold, and books the held service and resource at the held time with the draft's contact |
| `BookingGuarantee.CancelSucceedsIff` | src/business_assistant/infrastructure/persistence/booking.py:1035-1044 | A cancellation succeeds exactly for an own booking that is cancelled already or confirmed before the cutoff |
| `BookingGuarantee.ConfirmRetry` | src/business_assistant/infrastructure/persistence/booking.py:772-800 | Repeating a successful confirmation gives the same answer and changes nothing, whatever changed in the configuration |
| `BookingGuarantee.HoldRetry` | src/business_assistant/infrastructure/persistence/booking.py:533-542 | Repeating a successful hold request gives the same answer and changes nothing |
| `BookingGuarantee.OneEventPerChange` | src/business_assistant/infrastructure/persistence/booking.py:66-96 | A confirmation or cancellation either changes nothing or succeeds with exactly one event under a new key about the booking it answers with, telling that booking's reference and start; no other call touches bookings, history or events |
| `BookingContacts.RunsAreClean` | src/business_assistant/infrastructure/persistence/booking.py:351-1097 | After any run under any configuration, every booking has a valid key, a name and a phone number in stored form, and every draft with a hold has a date |
| `BookingService.Serve` | src/business_assistant/infrastructure/persistence/booking.py:351-1097 | A new store object, driven through its methods by any legal run, holds what the run makes of empty tables and satisfies the invariant from then on |
| `BookingLimits.OverbookedWithoutNotice` | src/business_assistant/infrastructure/persistence/booking.py:246-252 | For every service that can be planned with a buffer beyond the notice: the nine calls from empty tables that overbook a resource |
| `BookingLimits.RunsSafeIff` | src/business_assistant/infrastructure/persistence/booking.py:235-303 | For every policy and service list: no run from empty tables ever overbooks, exactly when the notice covers the buffer of every service that can be planned |
| `BookingLimits.HoldRefused` | migrations/versions/0001_phase2_initial_phase_2_schema.py:611-620 | For every capacity above one: nine calls after which the owner of a live hold, with everything in order, is refused |
| `BookingLimits.HoldsHonouredIff` | migrations/versions/0001_phase2_initial_phase_2_schema.py:611-620 | After every legal run every owner of a live hold who asks with everything in order is answered with a booking, exactly on resources that take one booking at a time |
| `Retry.BackoffDoubles` | src/business_assistant/application/background/models.py:64-66 | One more attempt doubles the delay before jitter, up to the cap |
| `Retry.DelayBounded` | src/business_assistant/application/background/models.py:64-69 | For every claim the delay is at least a second and at most the cap |
| `Retry.DelayGrows` | src/business_assistant/application/background/models.py:64-69 | The delay never shrinks with attempts, and grows while the doubled delay is within the cap |
| `Retry.DelayMonotone` | src/business_assistant/application/background/models.py:64-69 | Delays of all attempts are in order |
| `Retry.DelayRange` | src/business_assistant/application/background/models.py:64-69 | The first delay before jitter is the base delay, and jitter adds at most 16 seconds |
| `Retry.JitterSpreads` | src/business_assistant/application/background/models.py:67-69 | Away from the cap two claims wait the same exactly when their numbers agree modulo the jitter's span |
| `UpdateLedger.UpdateStore.Claim` | src/business_assistant/infrastructure/persistence/telegram.py:126-179 | A first claim inserts, a completed or fresh one is refused, a stale or failed one is granted again with a higher count |
| `UpdateLedger.UpdateStore.Complete` | src/business_assistant/infrastructure/persistence/telegram.py:181-199 | Only a row being processed is completed |
| `UpdateLedger.UpdateStore.Fail` | src/business_assistant/infrastructure/persistence/telegram.py:201-223 | Only a row being processed is failed, with a bounded error code |
| `UpdateLedger.HandleUpdate` | src/business_assistant/presentation/telegram/middleware.py:103-170 | The handler runs exactly when the claim is granted, and the ledger records how it ended |
| `UpdateLedger.LedgerExclusion` | src/business_assistant/infrastructure/persistence/telegram.py:126-223 | Under any interleaving whose runs end within the stale period: no two runs of an update overlap, at most one ends well, and then it is never handed out again |
| `UpdateLedger.CompletedIsFinal` | src/business_assistant/infrastructure/persistence/telegram.py:165-168 | A completed update stays as it is, timely or not |
| `UpdateLedger.LedgerCounts` | src/business_assistant/infrastructure/persistence/telegram.py:126-223 | Over any interleaving, timely or not: an update has a row exactly once a run of it was started, its attempts are the runs started, and its times and error fit its status |
| `UpdateLedger.EndMeaning` | src/business_assistant/infrastructure/persistence/telegram.py:181-223 | Ending a run well or badly marks its row with the instant and the bounded error, and no other row |
| `UpdateLedger.OverlapIff` | src/business_assistant/infrastructure/persistence/telegram.py:169-173 | An update in progress is granted again exactly from the end of its stale period on |
| `UpdateLedger.LateRunsOverlap` | src/business_assistant/infrastructure/persistence/telegram.py:169-179 | A run that lasts the stale period is overlapped by a second one |
| `Delivery.ProjectMeaning` | src/business_assistant/infrastructure/persistence/background.py:112-143 | Projection covers every matching subscription and keeps one delivery per pair |
| `Delivery.DispatchCovers` | src/business_assistant/infrastructure/persistence/background.py:103-147 | Every event taken is published on its first attempt with a delivery for every subscription enabled and matching then; nothing is buried |
| `DeliveryStore.BackgroundStore.DispatchOutbox` | src/business_assistant/infrastructure/persistence/background.py:71-148 | The nested loops compute the specified dispatch and its three counts |
| `DeliveryStore.BackgroundStore.ProjectEvent` | src/business_assistant/infrastructure/persistence/background.py:121-143 | The insert loop adds exactly the missing pairs and counts them |
| `DeliveryStore.BackgroundStore.ClaimNotifications` | src/business_assistant/infrastructure/persistence/background.py:150-190 | The due rows, up to the limit in order, are locked once each and returned with their new attempt numbers |
| `DeliveryStore.BackgroundStore.MarkDelivered` | src/business_assistant/infrastructure/persistence/background.py:192-227 | Only a row being processed becomes sent |
| `DeliveryStore.BackgroundStore.RetryDelivery` | src/business_assistant/infrastructure/persistence/background.py:195-227 | Only a row being processed goes back to the queue, for a given instant |
| `DeliveryStore.BackgroundStore.MoveToDeadLetter` | src/business_assistant/infrastructure/persistence/background.py:198-227 | Only a row being processed is buried |
| `DeliveryStore.AttemptOne` | src/business_assistant/application/background/service.py:124-158 | The handler's arms ask the store for exactly what the policy decides |
| `DeliveryStore.DeliverNotifications` | src/business_assistant/application/background/service.py:111-159 | Each claimed row ends as the policy decides, every other row is untouched, and the counts add up |
| `DeliveryStore.AllSettled` | src/business_assistant/application/background/service.py:122-158 | A worker call leaves none of its claims open |
| `DeliveryWorkers.EveryRunIsSound` | src/business_assistant/infrastructure/persistence/background.py:71-227 | Over any run: one delivery per event and subscription, and events wait untouched until published |
| `DeliveryWorkers.TerminalIsAbsorbing` | src/business_assistant/infrastructure/persistence/background.py:201-227 | Sent and dead-lettered rows never change again, and rows keep their pair, whatever workers do |
| `DeliveryWorkers.CoverageLasts` | src/business_assistant/infrastructure/persistence/background.py:112-147 | What a dispatch projects is there for good after any later run |
| `DeliveryAddress.EveryDeliveryIsAddressed` | src/business_assistant/infrastructure/persistence/background.py:119-143 | Over any run every delivery has its subscription's recipient and its event's kind |
| `DeliveryAddress.DispatchMeaning` | src/business_assistant/infrastructure/persistence/background.py:103-147 | A dispatch marks exactly the events it takes as published now; its new deliveries are wanted, addressed, pending and due from now, and every subscription that wants an event taken has one |
| `DeliveryAddress.OneEventMeaning` | src/business_assistant/infrastructure/persistence/background.py:104-147 | An event out of attempts is buried with its error and projected to nobody; any other is published with its deliveries |
| `DeliveryAddress.EventBatchMeaning` | src/business_assistant/infrastructure/persistence/background.py:82-102 | A dispatch takes due events only, as many as there are up to the limit, the earliest first |
| `DeliveryAddress.ClaimBatchMeaning` | src/business_assistant/infrastructure/persistence/background.py:157-184 | A claim takes due deliveries only, as many as there are up to the limit, the earliest first |
| `DeliveryAddress.ClaimsAreAddressed` | src/business_assistant/infrastructure/persistence/background.py:185-190 | After any run every claim carries the subscription's recipient, the event's kind and the next attempt number |
| `DeliveryAddress.SettleMeaning` | src/business_assistant/application/background/service.py:124-158 | A success is marked sent; a failure that may be tried again is due again exactly after the policy's delay; any other is buried; the error is kept and the address never changes |
| `DeliveryAddress.SettlesItsOwn` | src/business_assistant/infrastructure/persistence/background.py:192-227 | In a timely run a settlement does this to the worker's own delivery and leaves every other alone |
| `DeliveryWorkers.SendsAreBounded` | src/business_assistant/application/background/service.py:118-158 | When live workers end within their lease: at most the policy's number of sends and one more for every worker lost, at most one success and one more for every loss, at least one for a sent row, and one holder at a time |
| `DeliveryWorkers.BudgetDecreases` | src/business_assistant/infrastructure/persistence/background.py:185-190 | The attempts left are a termination measure: each grant takes one, the loss of a holder gives one back, nothing else touches them, and they never go below zero |
| `DeliveryWorkers.ReclaimIff` | src/business_assistant/infrastructure/persistence/background.py:168-173 | A delivery in flight is due again exactly from the end of its lease on |
| `DeliveryWorkers.LateWorkersOverrun` | src/business_assistant/infrastructure/persistence/background.py:185-190 | From any due delivery, workers that outlive their leases claim and send it any number of times, whatever the limit |
| `DeliveryWorkers.OverrunReached` | src/business_assistant/infrastructure/persistence/background.py:71-190 | A run from the empty system does so |
| `Encodings.PrintBase36` | src/business_assistant/presentation/telegram/callbacks.py:57-65 | The printing loop gives the numeral |
| `Encodings.NumeralLength` | src/business_assistant/presentation/telegram/callbacks.py:57-65 | A numeral has at most n digits exactly below the nth power of its base |
| `Encodings.ParsePrinted` | src/business_assistant/presentation/telegram/callbacks.py:68-72 | Python's integer parser reads a printed numeral back |
| `Encodings.Base64RoundTrip` | src/business_assistant/presentation/telegram/callbacks.py:75-86 | For bytes of every length: strip the padding, add two marks, decode, and nothing has changed |
| `Encodings.UnpaddedInjective` | src/business_assistant/presentation/telegram/callbacks.py:196-199 | Different bytes have different encodings |
| `Callbacks.CodeShape` | src/business_assistant/presentation/telegram/callbacks.py:20-43 | Every action is found under its own code |
| `Callbacks.UuidBack` | src/business_assistant/presentation/telegram/callbacks.py:75-86 | An encoded identifier decodes to itself and is never the mark for none |
| `Callbacks.SplitsBack` | src/business_assistant/presentation/telegram/callbacks.py:136-149 | A token splits back into its five fields |
| `Callbacks.ShapeBack` | src/business_assistant/presentation/telegram/callbacks.py:161-194 | Entity and page text read back, or the error naming what does not fit the action |
| `Callbacks.RoundTrip` | src/business_assistant/presentation/telegram/callbacks.py:123-194 | Decoding an encoded token: the same action, entity and page exactly when they fit the action and the token has not expired, and otherwise the exact error |
| `Callbacks.TenantBound` | src/business_assistant/presentation/telegram/callbacks.py:152-154 | Another tenant's decode fails on the signature exactly when the digests differ |
| `Callbacks.LimitNeverHit` | src/business_assistant/presentation/telegram/callbacks.py:123-141 | For versions 1 to 99 exactly the pages of up to three base-36 digits encode, within 64 bytes |
| `Callbacks.AcceptedShape` | src/business_assistant/presentation/telegram/callbacks.py:143-194 | An accepted token names an entity exactly for the actions about one, has a page only for the paged ones and in range, is signed for its tenant and has not expired |
| `Callbacks.AcceptedCanBeReissued` | src/business_assistant/presentation/telegram/callbacks.py:143-194 | Any accepted text, printed by the codec or not, can be issued again and decodes to the same token |
| `Qualification.FirstMissing` | src/business_assistant/application/leads/engine.py:154-159 | Nothing is missing exactly when every required field is answered; otherwise a required unanswered field |
| `QualificationEffects.FirstMissingIsFirst` | src/business_assistant/application/leads/engine.py:154-159 | The next question is about the first required field, in the schema's order, that has no answer |
| `Qualification.QualificationStore.FindActiveSession` | src/business_assistant/infrastructure/persistence/qualification.py:393-419 | The identity's active session, or the expiry of it |
| `Qualification.QualificationStore.StartSession` | src/business_assistant/infrastructure/persistence/qualification.py:421-471 | The active session, or a new one after expiring the old, or an error that changes nothing |
| `Qualification.QualificationStore.SaveConsent` | src/business_assistant/infrastructure/persistence/qualification.py:473-521 | Consent is decided once, filed and recorded under its key |
| `Qualification.QualificationStore.SaveAnswer` | src/business_assistant/infrastructure/persistence/qualification.py:523-555 | Only the expected answer is stored, and the session moves to the next missing field or to review |
| `Qualification.QualificationStore.ReviewSession` | src/business_assistant/infrastructure/persistence/qualification.py:557-577 | An edit reopens the session at a field; a plain review moves on only when nothing is missing |
| `Qualification.QualificationStore.CompleteSession` | src/business_assistant/infrastructure/persistence/qualification.py:579-687 | Only a session in review is completed, with one event and its key |
| `Qualification.QualificationStore.CancelSession` | src/business_assistant/infrastructure/persistence/qualification.py:689-711 | The active session is cancelled |
| `QualificationEffects.ActiveMeaning` | src/business_assistant/infrastructure/persistence/qualification.py:393-419 | The active session is answered while it lasts; past its time it is expired and nothing else changes |
| `QualificationEffects.StartMeaning` | src/business_assistant/infrastructure/persistence/qualification.py:421-471 | A session that lasts is answered again; else a new one awaits consent for the schema's time, and only one that has run out changes |
| `QualificationEffects.ConsentMeaning` | src/business_assistant/infrastructure/persistence/qualification.py:473-521 | The decision and its time are stored and filed once; a refusal ends the session, an acceptance goes to the first required field or to review |
| `QualificationEffects.AnswerMeaning` | src/business_assistant/infrastructure/persistence/qualification.py:523-555 | Exactly the expected field's answer is taken, its text is stored as given, and the session expects the next missing field or is in review |
| `QualificationEffects.EditMeaning` | src/business_assistant/application/leads/service.py:88-101 | An edit succeeds exactly on a field of the active session, asks for it again and keeps every answer |
| `QualificationEffects.CompleteMeaning` | src/business_assistant/infrastructure/persistence/qualification.py:579-687 | Exactly a session in review is completed, with its lead, one event and its key; a completed one is answered again |
| `QualificationEffects.CancelMeaning` | src/business_assistant/infrastructure/persistence/qualification.py:689-711 | Exactly the identity's active session is cancelled |
| `Qualification.QualificationApplication.GiveAnswer` | src/business_assistant/application/leads/service.py:70-86 | The active check, the current field, its validation and the store call, with each error |
| `Qualification.QualificationApplication.EditField` | src/business_assistant/application/leads/service.py:88-101 | The active check and the review of one field |
| `Qualification.QualificationApplication.SubmitLead` | src/business_assistant/application/leads/service.py:103-153 | The active check, completeness, the consent assertion and the store call |
| `QualificationEffects.AnswerStored` | src/business_assistant/application/leads/service.py:70-86 | An answer that succeeds stores what validation makes of the text, for the field the active session asks about |
| `QualificationEffects.AnswerRefused` | src/business_assistant/application/leads/service.py:70-86 | One that fails changes nothing but a session that has run out |
| `QualificationEffects.SubmitMeaning` | src/business_assistant/application/leads/service.py:103-153 | A submission succeeds exactly for the active session with every required answer and a consent time, if its key repeats or it is in review |
| `QualificationEffects.AnswersWereGiven` | src/business_assistant/infrastructure/persistence/qualification.py:523-555 | After any run every stored answer was given, word for word, by an answer call about that session and field |
| `QualificationEffects.AnswersLast` | src/business_assistant/infrastructure/persistence/qualification.py:523-577 | Over any run an answer stays until another answer about the same session and field |
| `QualificationRuns.RunKeeps` | src/business_assistant/infrastructure/persistence/qualification.py:393-711 | Every interleaving of the store's transactions, with an edit as one step, keeps the invariant and leaves terminal sessions alone |
| `QualificationRuns.EveryRunIsSound` | src/business_assistant/infrastructure/persistence/qualification.py:473-687 | In review nothing required is missing; completed means consent on file and exactly one lead event; one active session per identity |
| `QualificationRuns.TerminalForever` | src/business_assistant/infrastructure/persistence/qualification.py:594-597 | A terminal session never changes again |
| `QualificationRuns.RepeatedKeyChangesNothing` | src/business_assistant/infrastructure/persistence/qualification.py:297-308 | Once a key is on record, any later call under it changes nothing |
| `QualificationRuns.AnswersNeeded` | src/business_assistant/application/leads/service.py:70-86 | Without edits: answers and missing fields add up to the required fields, and review is reached after exactly one answer each |
| `QualificationRuns.AnswerAdvances` | src/business_assistant/infrastructure/persistence/qualification.py:542-555 | Without edits: the next answer under a new key is taken and is one step towards review |
| `QualificationRuns.EditSkipsConsentIff` | src/business_assistant/application/leads/service.py:88-101 | An edit leaves a session without consent exactly when none had been decided |
| `QualificationRuns.EditBeforeConsentIsADeadEnd` | src/business_assistant/application/leads/service.py:88-101 | Such a session can never get consent and never be completed, whatever is called |
| `QualificationRuns.ReachUnconsented` | src/business_assistant/application/leads/service.py:88-101 | For every schema and field of it, two calls from the empty store end there, and nothing later leads out |
| `QualificationRuns.ReviewReopensIff` | src/business_assistant/infrastructure/persistence/qualification.py:557-577 | The store's review alone reopens a terminal session, and exactly when |
| `QualificationRuns.ReachReopened` | src/business_assistant/infrastructure/persistence/qualification.py:557-577 | Two calls from the empty store end a session that the review of a field puts in progress again |
| `QualificationRuns.Serve` | src/business_assistant/infrastructure/persistence/qualification.py:393-711 | A new store object, driven through its methods by any calls, holds what the run makes of the empty state and satisfies the invariant |
| `Text.WordsOfLines` | src/business_assistant/application/knowledge/chunking.py:118 | Splitting a text into lines keeps its words |
| `Text.WordsSquash` | src/business_assistant/application/knowledge/chunking.py:23 | Squeezing spaces and tabs keeps the words |
| `Text.SquashMeaning` | src/business_assistant/application/knowledge/chunking.py:23 | Squeezing keeps every other character, leaves no tab, and no two spaces together |
| `Chunking.NormalizeSource` | src/business_assistant/application/knowledge/chunking.py:21-28 | The normalizing loop computes the specified text |
| `Chunking.NormalizeKeepsWords` | src/business_assistant/application/knowledge/chunking.py:21-28 | Normalization drops no word, adds none and keeps their order |
| `Chunking.CollapseMeaning` | src/business_assistant/application/knowledge/chunking.py:24-28 | Collapsing keeps every line with text, in order, starts with one, and leaves no two blank lines together |
| `Chunking.BlankKeptIff` | src/business_assistant/application/knowledge/chunking.py:24-27 | A blank line is dropped exactly when it comes first or right after another |
| `Chunking.Sections` | src/business_assistant/application/knowledge/chunking.py:113-128 | The loop over lines computes the specified sections |
| `Chunking.HeadingMeaning` | src/business_assistant/application/knowledge/chunking.py:12 | A line is a heading exactly when it reads as one to six marks, white space and a title; the title is the one reading without white space around it |
| `Chunking.SectionsMeaning` | src/business_assistant/application/knowledge/chunking.py:113-128 | Sections hold exactly the lines that are not headings, in order, each under its nearest heading, and none is empty |
| `Chunking.SectionsBreakAtHeadings` | src/business_assistant/application/knowledge/chunking.py:119-123 | A heading closes the section before it, and the lines up to the next one are one section under it |
| `Chunking.WindowsRebuild` | src/business_assistant/application/knowledge/chunking.py:60-77 | The first window and the later ones without their overlap rebuild the tokens |
| `Chunking.WindowsShape` | src/business_assistant/application/knowledge/chunking.py:60-77 | Every window is within the limit; each later one repeats the overlap and adds a token |
| `Chunking.AddSection` | src/business_assistant/application/knowledge/chunking.py:57-77 | The sliding loop appends the chunks of the section's windows |
| `Chunking.ChunkMarkdown` | src/business_assistant/application/knowledge/chunking.py:50-80 | The nested loops compute the specified chunks and errors |
| `Chunking.WindowBack` | src/business_assistant/application/knowledge/chunking.py:62-64 | A chunk's text is its heading's words and then its window |
| `Chunking.MarkdownLosesNothing` | src/business_assistant/application/knowledge/chunking.py:50-80 | Told where each section's chunks end, a reader of the chunks gets back every word of every line that is not a heading, in order; ordinals have no gaps; it is refused as empty exactly when the source has no word, and as without content exactly when only headings have some |

## Left out

- Locks, isolation levels and interleavings finer than one call: the clock is read before the transaction starts, so the results are about atomic calls.
- Daylight-saving folds and gaps: with them `is_open` and `business_due_at` differ on a transition day.
- Several tenants, tenant status and entitlements in the worker queries.
- Deletion of rows: privacy updates, retention of completed updates.
- Display and snapshot fields: local time texts, service and customer snapshots, conversation workflow labels, outbox payloads, correlation identifiers.
- `required_capacity`, which the planner never reads.
- Reads without a decision: latest and single booking, history, lists, health counts.
- Answer validation, scoring and handoff rules.
- Schema publication: a session carries its immutable schema version.
- HMAC, SHA-256 and identifiers derived by hashing: uninterpreted functions and keys compared as values.
- Unicode compatibility normalization is a parameter; the instruction-risk patterns, checksums and FAQ chunks are not part of this model.
- Callback tokens that would expire before 1970, for which the printing loop does not end.
- Booking dates and slot times as callback pages.
- Qualification.QualificationStore.CompleteSession: the lead, score and handoff rows of a submission are a number and a flag; only the session, its event and its key are modelled.
- Qualification.QualificationApplication.GiveAnswer: the validation of an answer is a parameter.
- Qualification.QualificationApplication.SubmitLead: scoring and the building of the lead are a parameter.
- Chunking.ChunkMarkdown: a chunk's checksum and instruction-risk flag are left out; both are functions of its text.
- Chunking.MarkdownLosesNothing: the reader is given the number of chunks of each section, because neighbouring sections under equal headings look alike in the chunks.
- QualificationRuns.RunKeeps: the store's review occurs only as the end of an edit, because on its own it would reopen terminal sessions (`QualificationRuns.ReviewReopensIff`).
- HTTP routes, rendering, settings, adapters, metrics and logging.
