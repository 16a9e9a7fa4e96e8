# CarCare scheduling core in Dafny

CarCare is a Flask service through which customers book car-service
appointments with providers. This project models the core of its
controllers: booking, viewing, updating and cancelling appointments; the
conflict detector; the available-slot generator; the request validators;
provider weekly availability; the service catalogue; customer vehicles; and
registration, login and profile update.

Each controller call that writes is modelled in two parts:

- a pure decision function over the tables as they were, such as
  `Appointments.Book`, `Vehicles.NewVehicle` or `Auth.NewUser`. It runs the
  check chain in the controller's order; the first failing check decides the error.
- a method on the shared `Store.Database` object that commits the decision or
  leaves every table as it was.

The database is a class with one `seq` field per table and the next
autoincrement key of each. Its invariant `Valid()` holds:

- unique keys below the next key;
- unique emails (registration stores them lower case, and `Auth.Register` keeps
  them all lower case when they were);
- unique non-NULL VINs;
- at most one availability record per provider and weekday.

Every committing method preserves `Valid()`. The read-only calls are
functions. The slot generator's `while` loop stays a loop (`Slots.CollectSlots`).

Time is whole minutes since a midnight that fell on a Monday. `Clock.HourOf`
and `Clock.Weekday` are what Python reads from a `datetime`. The business
configuration (`BUSINESS_HOURS_START` 8, `BUSINESS_HOURS_END` 18,
`CANCELLATION_WINDOW_HOURS` 24) is the parameter `Clock.Config`, with the
shipped values in `Clock.Shipped`. The current time and the current year are
parameters.

Properties proved beyond the per-call contracts:

- conflict checking:
  - only pending, confirmed and in-progress appointments block;
  - the three-case overlap test is the half-open overlap;
  - back-to-back bookings are free;
  - provider scope and id exclusion behave as the query says;
- an accepted booking never double-books a provider, and neither do a
  cancellation or a customer's update;
- a provider's update can double-book, because updates bypass the detector;
- the slot list is sound, complete and strictly increasing;
- phone validation decides exactly the language of `^\+?1?\d{9,15}$`;
- the listings and single reads agree;
- soft deletion of a service is idempotent;
- email uniqueness ignores case and surrounding blanks;
- a VIN stays unique across create, update and delete;
- the delete guard keeps every appointment pointing at a vehicle on file.

Where the code and its documented intent differ, the model follows the code:

- `validate_phone` also accepts a final newline, because Python's `$` matches
  before one.
- Slot and time-slot checks compare only the hour of the end time.
- A customer can cancel inside the window through an update.

Lemmas named after these behaviours exhibit them.

## Model

| member | source | states |
|---|---|---|
| Clock.HourOf | app/utils/validators.py:53-54 | the hour read from an instant is in 0..23 and is the hour of the day the instant falls in |
| Clock.Weekday | app/utils/validators.py:60 | the weekday read from an instant is in 0..6 |
| Clock.WeekdayFollowsCalendar | app/utils/validators.py:60 | the epoch's first day is Monday (0), each next day is the next weekday, wrapping from Sunday (6) to Monday, and every minute of a day has its midnight's weekday |
| Clock.DayStart | app/controllers/appointment_controller.py:286-287 | midnight of an instant's day is the last whole-day boundary at or before it |
| Text.StripLeft | app/controllers/vehicle_controller.py:11-17 | leading whitespace, and only that, is removed: the result is a suffix, everything dropped is whitespace, and it does not start with whitespace |
| Text.StripRight | app/controllers/vehicle_controller.py:11-17 | trailing whitespace, and only that, is removed: the result is a prefix, everything dropped is whitespace, and it does not end with whitespace |
| Text.Strip | app/controllers/auth_controller.py:11-15 | the result is the input less its leading and trailing whitespace: a contiguous slice, everything cut away is whitespace, and it neither starts nor ends with whitespace |
| Text.StripIdempotent | app/controllers/auth_controller.py:112-117 | stripping a stripped value changes nothing |
| Text.LowerChar | app/controllers/auth_controller.py:11 | lower-casing maps A-Z to a-z and leaves every other character alone |
| Text.Lower | app/controllers/auth_controller.py:11 | lower-casing keeps the length and lower-cases each character |
| Text.LowerIdempotent | app/controllers/auth_controller.py:63 | lower-casing twice is lower-casing once |
| Text.LexLeTotal | app/controllers/service_controller.py:14 | any two strings are ordered one way or the other |
| Text.LexLeAntisymmetric | app/controllers/service_controller.py:14 | strings ordered both ways are equal |
| Text.LexLeTransitive | app/controllers/service_controller.py:14 | string order is transitive |
| Queries.FirstIndex | app/controllers/provider_controller.py:84-87 | `filter(...).first()` finds the earliest matching row, or reports that no row matches |
| Queries.Filter | app/controllers/provider_controller.py:120-122 | `filter(...).all()` keeps every matching row as often as it occurs and no other row |
| Queries.Insert | app/controllers/appointment_controller.py:139 | inserting into a sorted list keeps it sorted and adds exactly that element |
| Queries.SortBy | app/controllers/appointment_controller.py:139 | `order_by` returns a permutation of the rows sorted by the key |
| Queries.RemoveAt | app/controllers/provider_controller.py:143 | `session.delete` removes exactly one row and keeps the order of the rest |
| Queries.KeysBelowAppend | app/controllers/service_controller.py:83-84 | inserting under the next autoincrement key keeps keys unique and below the next one |
| Queries.KeysBelowReplace | app/controllers/service_controller.py:104-122 | rewriting a row in place keeps keys unique |
| Queries.KeysBelowRemove | app/controllers/provider_controller.py:143-144 | deleting a row keeps keys unique |
| Records.ParseStatus | app/models/appointment.py:16-17 | a status string reads back as a status whose text is that string; only the five known names get their own constructors |
| Records.StatusRoundTrip | app/models/appointment.py:16-17 | writing a status and reading it back yields it again |
| Records.ParseRole | app/controllers/auth_controller.py:31-32 | only customer, provider and admin are accepted roles |
| Store.UserIndex | app/controllers/auth_controller.py:108-110 | `User.query.get` finds the row with that key or reports none has it |
| Store.ServiceIndex | app/controllers/service_controller.py:99-102 | `Service.query.get` finds the row with that key or reports none has it |
| Store.VehicleIndex | app/controllers/appointment_controller.py:41 | `Vehicle.query.get` finds the row with that key or reports none has it |
| Store.AppointmentIndex | app/controllers/appointment_controller.py:152 | `Appointment.query.get` finds the row with that key or reports none has it |
| Store.FindService | app/controllers/appointment_controller.py:36 | the service found is a stored row with that key; none is found exactly when no row has the key |
| Store.FindVehicle | app/controllers/appointment_controller.py:41 | the vehicle found is a stored row with that key; none is found exactly when no row has the key |
| Store.FindUser | app/controllers/auth_controller.py:95-97 | the user found is a stored row with that key; none is found exactly when no row has the key |
| Store.FindAppointment | app/controllers/appointment_controller.py:152-155 | the appointment found is a stored row with that key; none is found exactly when no row has the key |
| Store.AppointmentIndexAfterReplace | app/controllers/appointment_controller.py:242-245 | after an in-place rewrite that keeps the key, the lookup finds the rewritten row at the same position |
| Store.Database.constructor | app/models/user.py:8-17 | an empty database satisfies every table invariant and hands out key 1 first |
| Validators.ValidateTimeSlot | app/utils/validators.py:37-63 | a window passes exactly when it is non-empty, not in the past, starts at or after the opening hour, ends in an hour no later than the closing hour, and starts on a weekday; the first broken rule in that order is the one reported |
| Validators.EndHourIsTruncated | app/utils/validators.py:53-57 | with hours 8-18, a window ending 18:59 passes, an overnight window from 17:30 passes, and a window ending 19:00 is refused |
| Validators.ValidatePassword | app/utils/validators.py:15-35 | a password passes exactly when it has at least 8 characters, an upper-case letter, a lower-case letter and an ASCII digit; failures are reported in that order |
| Validators.Compact | app/utils/validators.py:69 | removing dashes and spaces leaves no dash or space |
| Validators.CompactChar | app/utils/validators.py:69 | a dash or space is removed and any other character kept |
| Validators.CompactAppend | app/utils/validators.py:69 | removal works piecewise, so the other characters keep their order |
| Validators.ValidatePhone | app/utils/validators.py:65-69 | a phone number passes exactly when, with dashes and spaces removed, it matches `^\+?1?\d{9,15}$` |
| Validators.PhoneShapeIsPattern | app/utils/validators.py:68 | the pattern is decided without backtracking: an optional plus, then 9-15 digits or 16 digits starting with 1, then an optional final newline |
| Validators.ShapeToPattern | app/utils/validators.py:68 | every string of that shape matches the pattern |
| Validators.PatternWitness | app/utils/validators.py:68 | two cut points that split the string into prefix, digit run and line end make it match |
| Validators.PatternToShape | app/utils/validators.py:68 | every string that matches the pattern has that shape |
| Validators.CompactWithoutSeparators | app/utils/validators.py:69 | a string with no dash or space is left as it is |
| Validators.PhoneAcceptsTrailingNewline | app/utils/validators.py:68-69 | any run of 9-15 digits passes, with or without a final newline |
| Validators.DigitsAreShaped | app/utils/validators.py:68-69 | a string without separators that has the shape passes |
| Validators.ValidateVehicleYear | app/utils/validators.py:71-76 | a year passes exactly when it is between 1900 and next year inclusive; the message names next year |
| Conflicts.OccupyingRows | app/controllers/appointment_controller.py:100-101 | the rows a conflict query considers are exactly the pending, confirmed and in-progress ones |
| Conflicts.Overlaps | app/controllers/appointment_controller.py:102-106 | the three-case test catches every half-open overlap and, for non-empty windows, nothing else |
| Conflicts.Blocks | app/controllers/appointment_controller.py:98-115 | definition: a row blocks a window when it is occupying, overlaps it, belongs to the provider if one is given and is not the excluded appointment |
| Conflicts.HasConflict | app/controllers/appointment_controller.py:98-115 | a conflict is found exactly when some row is occupying, overlaps and is in the provider and exclusion scope |
| Conflicts.OnlyOccupyingRowsCount | app/controllers/appointment_controller.py:100-101 | completed, cancelled and unlisted appointments never change the answer |
| Conflicts.BlockerIsOccupying | app/controllers/appointment_controller.py:100-101 | a row that blocks is still found among the occupying rows |
| Conflicts.OccupyingBlockerIsRow | app/controllers/appointment_controller.py:100-101 | a blocking occupying row is a blocking row of the table |
| Conflicts.ConflictIsHalfOpenOverlap | app/controllers/appointment_controller.py:102-106 | for non-empty windows a conflict is an in-scope occupying row with `start < end'` and `start' < end` |
| Conflicts.BackToBackIsFree | app/controllers/appointment_controller.py:102-106 | a window starting when an appointment ends, or ending when it starts, does not conflict with it |
| Conflicts.ProviderRows | app/controllers/appointment_controller.py:109-110 | the provider's rows are exactly the stored rows assigned to that provider |
| Conflicts.ProviderScope | app/controllers/appointment_controller.py:109-110 | with a truthy provider id the answer is the answer over that provider's rows alone |
| Conflicts.ProviderRowConflict | app/controllers/appointment_controller.py:109-110 | a conflict among the provider's rows is a conflict in the provider-scoped query |
| Conflicts.ScopedBlock | app/controllers/appointment_controller.py:109-110 | a row blocks a provider-scoped query exactly when it is that provider's and blocks the unscoped one |
| Conflicts.FalsyProviderChecksAll | app/controllers/appointment_controller.py:109-110 | an absent or zero provider id checks every provider's appointments together |
| Conflicts.ExcludedNeverCounts | app/controllers/appointment_controller.py:112-113 | inserting the excluded appointment at any position of the table leaves the verdict unchanged |
| Conflicts.ClearedInsertKeepsNoDoubleBooking | app/controllers/appointment_controller.py:54-73 | inserting an appointment the detector cleared keeps every provider free of overlapping occupying appointments |
| Conflicts.ReplaceKeepsNoDoubleBooking | app/controllers/appointment_controller.py:242-243 | rewriting a row that releases its slot, or keeps the same one, keeps providers free of double bookings |
| Slots.SlotsFrom | app/controllers/appointment_controller.py:289-304 | definition: the generator's slots from a grid point up to the stop, one per 30-minute step whose end hour is within closing, each flagged by the conflict verdict |
| Slots.UnfoldSlotsFrom | app/controllers/appointment_controller.py:289-304 | one turn of the generator: the slot at the current grid point comes first when its end hour is within closing, otherwise it is skipped |
| Slots.SlotsFromSound | app/controllers/appointment_controller.py:289-304 | every generated slot starts on the 30-minute grid before the stop, lasts one duration, ends within the closing hour, and is available exactly when free |
| Slots.SlotsFromStartLater | app/controllers/appointment_controller.py:289-304 | no slot starts before the grid point the generator starts from |
| Slots.SlotsFromIncreasing | app/controllers/appointment_controller.py:304 | later slots start at least 30 minutes after earlier ones |
| Slots.GridShift | app/controllers/appointment_controller.py:304 | a point on the grid from the next step is on the grid from the current one |
| Slots.SlotsFromComplete | app/controllers/appointment_controller.py:289-292 | every grid start before the stop whose end hour is within closing gets a slot |
| Slots.GridNext | app/controllers/appointment_controller.py:304 | a grid point after the current one is on the grid from the next step |
| Slots.DaySlotsSound | app/controllers/appointment_controller.py:286-304 | each of a day's slots starts on the 30-minute grid from opening and before closing, ends one duration later in an hour no later than closing, and is available exactly when the detector finds no conflict |
| Slots.DaySlotsIncreasing | app/controllers/appointment_controller.py:286-304 | a day's slot starts strictly increase |
| Slots.DaySlotsComplete | app/controllers/appointment_controller.py:286-304 | no grid start of the business day whose end hour is within closing is missing |
| Slots.LastSlotEndsAfterClosing | app/controllers/appointment_controller.py:292 | with hours 8-18, an hour-long service on a free Monday is offered 17:30-18:30 |
| Slots.NoLateStartForLongService | app/controllers/appointment_controller.py:292 | with hours 8-18, a 90-minute service gets no 17:30 slot |
| Slots.AvailableSlots | app/controllers/appointment_controller.py:271-309 | 404 for an unknown service, 500 for a date that does not parse, otherwise the day's slots for the service's duration |
| Slots.CollectSlots | app/controllers/appointment_controller.py:285-304 | the loop appends exactly the generator's slots, in order |
| Slots.AppendStep | app/controllers/appointment_controller.py:292-304 | appending the current slot, if kept, and stepping on leaves the slots still to come unchanged |
| Appointments.Book | app/controllers/appointment_controller.py:16-73 | a booking succeeds exactly when all fields are given, the start parses, the service is active, the vehicle is the customer's, the window is bookable and no conflict exists; the new row is pending, under the next key, and ends one service duration after its start |
| Appointments.BookErrorOrder | app/controllers/appointment_controller.py:26-58 | failures in order: missing field 400, bad start 400, missing or inactive service 404, vehicle not owned 404, rejected window 400 with the validator's reason, conflict 409 |
| Appointments.BookKeepsNoDoubleBooking | app/controllers/appointment_controller.py:54-73 | an accepted booking never double-books a provider |
| Appointments.MayAccess | app/controllers/appointment_controller.py:158-161 | definition: a customer may reach only their own appointments, a provider only those assigned to them, any other role all |
| Appointments.GetAppointment | app/controllers/appointment_controller.py:149-166 | 404 for an unknown id; a customer sees only their own and a provider only their assigned appointments (else 403); any other role sees all |
| Appointments.LaterFirstIsTotalPreorder | app/controllers/appointment_controller.py:139 | ordering by start time, latest first, is a total preorder |
| Appointments.ListAppointments | app/controllers/appointment_controller.py:118-146 | the listing holds every visible row within the status and date filters, each once, latest start first; a date that does not parse fails with 500 |
| Appointments.FetchableIffListed | app/controllers/appointment_controller.py:121-126 | with unique ids an appointment can be fetched by id exactly when the unfiltered listing holds it |
| Appointments.FetchableIsListed | app/controllers/appointment_controller.py:121-126 | an appointment the caller can fetch is in the caller's listing |
| Appointments.ListedIsFetchable | app/controllers/appointment_controller.py:157-161 | an appointment in the caller's listing can be fetched by its id |
| Appointments.Cancel | app/controllers/appointment_controller.py:216-243 | 404 exactly for an unknown id; 403 exactly when the caller may not access it; 400 exactly when it is already cancelled; 400 exactly when a customer cancels less than the window before the start; success exactly in every other case, and then it becomes cancelled with the reason stored |
| Appointments.StaffCancelIgnoresWindow | app/controllers/appointment_controller.py:225-243 | a provider or any other non-customer role cancels any appointment not yet cancelled, completed ones included, however close its start |
| Appointments.CancelIsNotRepeatable | app/controllers/appointment_controller.py:231-232 | cancelling an appointment twice fails the second time with 400 |
| Appointments.CancelKeepsNoDoubleBooking | app/controllers/appointment_controller.py:242-245 | a cancellation never double-books a provider |
| Appointments.MayRevise | app/controllers/appointment_controller.py:178-202 | definition: the owning customer, the assigned provider or an admin may update |
| Appointments.CustomerRevision | app/controllers/appointment_controller.py:181-187 | a customer's update changes only status, cancellation reason and notes, and the status only to cancelled |
| Appointments.ProviderRevision | app/controllers/appointment_controller.py:189-194 | a provider's update changes only status and notes |
| Appointments.AdminRevision | app/controllers/appointment_controller.py:196-200 | an admin's update never changes the id or the creation time |
| Appointments.Revise | app/controllers/appointment_controller.py:169-204 | 404 exactly for an unknown id; the update succeeds exactly for the owning customer, the assigned provider or an admin, else 403; a customer can only cancel (storing the given reason, or the empty one) or set notes, and any other status is ignored; a provider sets the status if given and notes, and keeps the cancellation reason; an admin sets every attribute given and keeps the others; id and creation time never change |
| Appointments.UpdateBypassesCancellationWindow | app/controllers/appointment_controller.py:182-187 | a customer refused by the cancellation window can still cancel through an update |
| Appointments.CustomerUpdateKeepsNoDoubleBooking | app/controllers/appointment_controller.py:182-187 | a customer's update never double-books a provider |
| Appointments.ProviderReopenCanDoubleBook | app/controllers/appointment_controller.py:190-194 | a provider who sets a cancelled appointment back to pending can double-book themself |
| Appointments.CreateAppointment | app/controllers/appointment_controller.py:16-95 | the booking decision is committed by appending the row under the next key, or nothing changes; no provider becomes double-booked |
| Appointments.AddAppointment | app/controllers/appointment_controller.py:72-73 | the insert appends the row and advances the key, keeping the table invariant |
| Appointments.UpdateAppointment | app/controllers/appointment_controller.py:169-213 | the revision replaces the row in place, or nothing changes |
| Appointments.CancelAppointment | app/controllers/appointment_controller.py:216-268 | the cancellation replaces the row in place, or nothing changes; no provider becomes double-booked |
| ProviderAvailability.HasProviderRow | app/controllers/provider_controller.py:53-59 | the provider check passes exactly when a user with that id has the provider role |
| ProviderAvailability.RequestError | app/controllers/provider_controller.py:53-81 | a request passes exactly when the provider exists, day, start and end are given, the day is 0-6, both times parse and the start is before the end; failures are 404, then 400 in that order |
| ProviderAvailability.DayIndex | app/controllers/provider_controller.py:84-87 | finds the record for the provider's weekday, or reports none exists |
| ProviderAvailability.Upserted | app/controllers/provider_controller.py:84-105 | afterwards a record of the provider's weekday holds the new window; one record per provider and weekday is preserved; records of other days and providers are untouched |
| ProviderAvailability.UpsertLeavesExactlyOne | app/controllers/provider_controller.py:84-105 | with one record per provider and weekday, every record of that weekday afterwards holds the new window |
| ProviderAvailability.UpsertOthersUntouched | app/controllers/provider_controller.py:89-93 | rewriting the weekday's record in place leaves every other record as it was |
| ProviderAvailability.SetAvailability | app/controllers/provider_controller.py:50-114 | on any failed check the table is unchanged; otherwise it becomes the upsert, `is_available` defaulting to true, and the returned record is stored |
| ProviderAvailability.Upsert | app/controllers/provider_controller.py:84-105 | the write rewrites the weekday's record or inserts a new one, and the result is stored |
| ProviderAvailability.ReplaceAvailability | app/controllers/provider_controller.py:91-93 | the in-place write keeps the table invariant |
| ProviderAvailability.AddAvailability | app/controllers/provider_controller.py:96-103 | the insert appends under the next key and keeps the table invariant |
| ProviderAvailability.EarlierDayIsTotalPreorder | app/controllers/provider_controller.py:122 | ordering by weekday is a total preorder |
| ProviderAvailability.GetAvailability | app/controllers/provider_controller.py:117-129 | exactly the provider's records, each once, sorted by weekday |
| ProviderAvailability.GetAllProviders | app/controllers/provider_controller.py:8-22 | exactly the active users with the provider role, each once |
| ProviderAvailability.GetProvider | app/controllers/provider_controller.py:24-47 | 404 unless a user with the key has the provider role, active or not; otherwise that user with exactly their availability records |
| ProviderAvailability.ProviderPageShowsSchedule | app/controllers/provider_controller.py:37-42 | the provider page and the schedule listing hold the same records |
| ProviderAvailability.OwnedIndex | app/controllers/provider_controller.py:135-138 | finds a record matching both key and provider, or reports none does |
| ProviderAvailability.RemoveKeepsOnePerProviderDay | app/controllers/provider_controller.py:143 | deleting a record keeps one record per provider and weekday |
| ProviderAvailability.DeleteAvailability | app/controllers/provider_controller.py:132-150 | 404 exactly when no record matches both key and provider, with the table unchanged; otherwise exactly that record is removed |
| Services.NewService | app/controllers/service_controller.py:55-81 | creation succeeds exactly when name, duration and price are present and truthy and duration and price are positive; a zero duration or price is reported as missing; the row holds the stripped texts under the next key and is active |
| Services.ReviseService | app/controllers/service_controller.py:104-120 | a present duration must be positive, then a present price (400 each); absent fields keep their values; present text fields are stripped |
| Services.EmptyPatchKeepsService | app/controllers/service_controller.py:104-120 | an update with no fields changes nothing |
| Services.Deactivated | app/controllers/service_controller.py:137-143 | 404 for an unknown key; otherwise only that row changes, and only in becoming inactive |
| Services.DeactivateIsIdempotent | app/controllers/service_controller.py:141-146 | deleting a service twice is deleting it once |
| Services.GetService | app/controllers/service_controller.py:23-35 | the service with the key, active or not, or 404 exactly when no row has it |
| Services.DeactivatedStaysFetchable | app/controllers/service_controller.py:142-143 | a deleted service is still read by key, as inactive |
| Services.CategoryThenNameIsTotalPreorder | app/controllers/service_controller.py:14 | ordering by category and then name is a total preorder |
| Services.GetAllServices | app/controllers/service_controller.py:7-21 | the active services, or all of them, each once, sorted by category then name |
| Services.GetServicesByCategory | app/controllers/service_controller.py:38-52 | exactly the active services of that category, each once |
| Services.CreateService | app/controllers/service_controller.py:55-93 | the creation decision is committed by appending under the next key, or nothing changes |
| Services.AddService | app/controllers/service_controller.py:83-84 | the insert appends and advances the key, keeping the table invariant |
| Services.UpdateService | app/controllers/service_controller.py:96-131 | 404 for an unknown key; otherwise the revision replaces the row in place, or nothing changes |
| Services.DeleteService | app/controllers/service_controller.py:134-150 | the soft delete is committed, or 404 with nothing changed |
| Vehicles.NewVehicle | app/controllers/vehicle_controller.py:8-47 | creation succeeds exactly when make, model and year are present, the year is valid and a non-empty VIN is not on file; each failure answers its own error in that order (400, 400, 409); fields stored stripped and an empty VIN stored as NULL |
| Vehicles.AppendKeepsVinsDistinct | app/controllers/vehicle_controller.py:29-32 | adding a vehicle whose VIN is NULL or not on file keeps VINs unique |
| Vehicles.OwnedIndex | app/controllers/vehicle_controller.py:78-81 | finds a vehicle matching both key and owner, or reports none does |
| Vehicles.GetVehicle | app/controllers/vehicle_controller.py:75-89 | a vehicle is returned only to its owner; any other key or owner gets 404 |
| Vehicles.CreatedVehicleIsFetchable | app/controllers/vehicle_controller.py:46-51 | a vehicle just inserted under the next key is found by its owner |
| Vehicles.NewestFirstIsTotalPreorder | app/controllers/vehicle_controller.py:62-64 | ordering by creation time, newest first, is a total preorder |
| Vehicles.GetUserVehicles | app/controllers/vehicle_controller.py:59-72 | exactly the user's vehicles, each once, newest first |
| Vehicles.ListedIffFetchable | app/controllers/vehicle_controller.py:62-84 | with unique keys a vehicle is listed for a user exactly when that user can fetch it |
| Vehicles.VinInUse | app/controllers/vehicle_controller.py:29-31 | definition: some vehicle of the table already carries this VIN |
| Vehicles.ChangesVin | app/controllers/vehicle_controller.py:117-120 | definition: the update carries a non-empty stripped VIN different from the stored one |
| Vehicles.ReviseVehicle | app/controllers/vehicle_controller.py:104-126 | an invalid present year is 400, then a change to a VIN on file is 409; otherwise present fields replace the old ones, stripped, with an empty VIN stored as NULL |
| Vehicles.SameVinIsNotTaken | app/controllers/vehicle_controller.py:120 | resubmitting a vehicle's own VIN is never a conflict |
| Vehicles.ReplaceKeepsVinsDistinct | app/controllers/vehicle_controller.py:117-124 | rewriting a row with a NULL, unchanged or unused VIN keeps VINs unique |
| Vehicles.ReviseKeepsVinsDistinct | app/controllers/vehicle_controller.py:117-124 | a successful revision keeps VINs unique |
| Vehicles.RemoveKeepsVinsDistinct | app/controllers/vehicle_controller.py:162 | deleting a vehicle keeps VINs unique |
| Vehicles.GuardedRemoveKeepsReferences | app/controllers/vehicle_controller.py:152-163 | deleting a vehicle no appointment refers to keeps every appointment pointing at a vehicle on file |
| Vehicles.GetVehicleAppointments | app/controllers/vehicle_controller.py:171-192 | 404 unless key and owner match; otherwise the vehicle with exactly the appointments for it, of any status |
| Vehicles.DeletableIffNoAppointments | app/controllers/vehicle_controller.py:153-160 | the owner's appointment list for a vehicle is empty exactly when the delete guard lets it go |
| Vehicles.CreateVehicle | app/controllers/vehicle_controller.py:8-56 | the creation decision is committed by appending under the next key, or nothing changes |
| Vehicles.AddVehicle | app/controllers/vehicle_controller.py:46-47 | the insert appends and advances the key, keeping keys and VINs unique |
| Vehicles.UpdateVehicle | app/controllers/vehicle_controller.py:92-137 | 404 unless key and owner match; otherwise the revision replaces the row in place, or nothing changes |
| Vehicles.ReplaceVehicle | app/controllers/vehicle_controller.py:128 | the in-place write keeps the table invariant |
| Vehicles.DeleteVehicle | app/controllers/vehicle_controller.py:140-169 | 404 unless key and owner match; 400 while any appointment of any status refers to the vehicle; otherwise exactly that row is removed; every appointment still refers to a vehicle on file |
| Auth.NormalEmail | app/controllers/auth_controller.py:11 | the normalised email is the stripped input with each character lowered, and so is in lower case |
| Auth.EmailIndex | app/controllers/auth_controller.py:28 | finds the user with exactly that email, or reports none has it |
| Auth.NewUser | app/controllers/auth_controller.py:9-44 | registration succeeds exactly when the fields are present, the email is valid, the password is strong, the normalised email is not on file and the role is known; each failure answers its own error, in order 400, 400, 400, 409, 400; the user is active, with stripped names and phone and the normalised email |
| Auth.RoleDefaultsToCustomer | app/controllers/auth_controller.py:16 | a registration without a role registers a customer |
| Auth.AppendKeepsEmails | app/controllers/auth_controller.py:28-44 | adding a user whose email is not on file keeps emails unique and lower case |
| Auth.ReregisteringInAnyCaseFails | app/controllers/auth_controller.py:11-29 | once an address is registered, registering it again in any case or padding fails, as a duplicate whenever it reaches that check |
| Auth.LogIn | app/controllers/auth_controller.py:61-76 | 400 without email or password; success exactly when the normalised email is on file, the password matches and the account is active; 401 for an unknown email or a wrong password; 403 for a deactivated account with the right password |
| Auth.WrongPasswordLooksLikeUnknownEmail | app/controllers/auth_controller.py:72-73 | an unknown email and a wrong password get the same 401, active account or not |
| Auth.LoginIgnoresEmailCase | app/controllers/auth_controller.py:63 | login does not depend on the case of the email or the blanks around it |
| Auth.ReviseProfile | app/controllers/auth_controller.py:112-117 | only first name, last name and phone change, each stripped when present; every other field is unchanged |
| Auth.ReviseProfileIsIdempotent | app/controllers/auth_controller.py:112-117 | applying the same profile update twice is applying it once |
| Auth.GetUserProfile | app/controllers/auth_controller.py:91-102 | the user with the key, or 404 exactly when no row has it |
| Auth.UpdatedProfileIsRead | app/controllers/auth_controller.py:105-117 | with unique keys, the profile read after an update returns the updated row |
| Auth.Register | app/controllers/auth_controller.py:9-58 | the registration decision is committed by appending under the next key, or nothing changes; stored emails stay lower case |
| Auth.AddUser | app/controllers/auth_controller.py:43-44 | the insert appends and advances the key, keeping emails unique |
| Auth.UpdateProfile | app/controllers/auth_controller.py:105-128 | 404 for an unknown key; otherwise the revised row replaces the old one in place |
| Auth.ReplaceUser | app/controllers/auth_controller.py:119 | the in-place write keeps the table invariant |

## Left out

- Notifications (`app/utils/notifications.py`) and Socket.IO events are left out: they are I/O after the commit, so they are a no-op here.
- Flask routing, JWT token creation and the role gates of the views are left out. The controllers are called with an already authenticated user id and role.
- `datetime.fromisoformat` and `time.fromisoformat` are not modelled. A request carries a `Records.Parsed` value, either `Unparseable` or an instant in whole minutes.
- Seconds and time zones are not modelled. The float-hours cancellation window becomes a comparison in minutes.
- The `except Exception` paths that answer 500 are left out, except the 500 for a listing or slot date that does not parse. Every call is one atomic update of in-memory tables.
- The race between the conflict check and the insert is a concurrency matter and is not modelled.
- `email_validator` is a predicate parameter of `Auth.NewUser`.
- bcrypt (`set_password`, `check_password` at `app/models/user.py:27-37`) is modelled as a given hash and a matching-predicate parameter.
- Text is modelled this way:
  - `str.lower()` is modelled on ASCII letters only.
  - The `\d` of the phone pattern is modelled as ASCII digits only.
  - `ORDER BY` on text is code-point order.
  - The order among equal sort keys is left open by the database; the model uses insertion order.
- Auth.NewUser: a JSON `null` role is read like an absent key, so the model registers a customer. The controller's `data.get('role', 'customer')` yields `None` there, which fails the role check with 400 "Invalid role". The request type does not tell an absent key from a null one.
- Appointments.Cancel: the reason is a `string`, so a JSON `null` reason (stored as NULL by the controller) is not modelled; the model always stores a text reason.
- ProviderAvailability.SetAvailability: a JSON `null` for `is_available` is read like an absent key and stored as true. The controller writes NULL into the existing record of that weekday. The model's flag is a `bool` and has no NULL.
- Appointments.Book: a JSON `null` for an optional text field is read like an absent key: `notes: null` is stored as NULL by the controller and as the empty string by the model. The same holds for `notes` in `Appointments.Revise`.
- Validators.ValidatePassword: the `\d` of the password rule is read as ASCII `0`-`9`. Python's `re` also accepts other Unicode decimal digits (Arabic-Indic `٣`, say), which the model rejects; Unicode digit classes are not modelled.
- `updated_at` columns and `to_dict` serialisation are not modelled.
- Appointments.Revise: the administrator's `setattr` loop is modelled as a patch over the columns of the appointment table. Relationship attributes and `updated_at` are not in it.
- Slots.AvailableSlots requires `Clock.Config.WellFormed()`: `datetime.replace(hour=...)` raises outside 0-23, and that 500 path is not modelled.
- A vehicle year that is not an integer in the request is not modelled; the year field is an `int`.
- `BOOKING_BUFFER_MINUTES` is never read by the code, so no buffer is modelled.
- The relationship order of `vehicle.appointments` and of the provider page's records is unspecified; the model keeps table order.
- app/models/service.py is not part of this model. The service row's fields are taken from the controller's use of them, and `is_active` is taken to default to true.
