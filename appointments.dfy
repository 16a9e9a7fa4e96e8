/** The appointment lifecycle: booking, what each role may see and change,
    cancellation, and the listing. Each controller call is a decision function
    over the tables as they were (the check chain, first failure wins) and a
    method on the database that commits the decision or leaves it untouched. */
module Appointments {
  import opened Wrappers
  import opened Clock
  import opened Records
  import opened Queries
  import opened Validators
  import opened Conflicts
  import opened Store

  // ------------------------------------------------------------------ booking

  /** The body of a booking request. An absent key and JSON `null` are both
      `None`; `startTime` is `None` also for the empty string. */
  datatype BookingRequest = BookingRequest(
    serviceId: Option<int>,
    vehicleId: Option<int>,
    startTime: Option<Parsed>,
    providerId: Option<int>,
    notes: Option<string>)

  /** `all([service_id, vehicle_id, start_time_str])`. */
  predicate HasRequiredFields(req: BookingRequest) {
    Truthy(req.serviceId) && Truthy(req.vehicleId) && req.startTime.Some?
  }

  predicate ActiveService(s: Option<Service>) {
    s.Some? && s.value.isActive
  }

  predicate OwnedVehicle(v: Option<Vehicle>, customerId: int) {
    v.Some? && v.value.userId == customerId
  }

  /** Everything a booking needs: the fields, a parsed start, an active service,
      the customer's own vehicle, a bookable window one service long, and no
      conflicting appointment for the requested provider. */
  ghost predicate Accepted(services: seq<Service>, vehicles: seq<Vehicle>, appointments: seq<Appointment>,
                           customerId: int, req: BookingRequest, now: int, cfg: Config)
  {
    && HasRequiredFields(req)
    && req.startTime.value.At?
    && ActiveService(FindService(services, req.serviceId.value))
    && OwnedVehicle(FindVehicle(vehicles, req.vehicleId.value), customerId)
    && var start := req.startTime.value.minutes;
       var end := start + FindService(services, req.serviceId.value).value.durationMinutes;
       && Bookable(start, end, now, cfg)
       && !HasConflict(appointments, req.providerId, start, end, None)
  }

  /** `create_appointment`, up to the insert: the row it would add under key
      `nextId`, or the first check that fails. */
  function Book(services: seq<Service>, vehicles: seq<Vehicle>, appointments: seq<Appointment>,
                customerId: int, req: BookingRequest, now: int, cfg: Config, nextId: int): (r: Result<Appointment, Error>)
    ensures r.Ok? <==> Accepted(services, vehicles, appointments, customerId, req, now, cfg)
    ensures r.Ok? ==>
      && r.value.id == nextId && r.value.customerId == customerId
      && r.value.serviceId == req.serviceId.value && r.value.vehicleId == req.vehicleId.value
      && r.value.providerId == req.providerId
      && r.value.status == Pending && r.value.cancellationReason.None?
      && r.value.startTime == req.startTime.value.minutes
      && r.value.endTime == r.value.startTime + FindService(services, r.value.serviceId).value.durationMinutes
      && r.value.notes == req.notes.GetOr("") && r.value.createdAt == now
  {
    if !HasRequiredFields(req) then Err(Error(400, MissingFields))
    else if req.startTime.value.Unparseable? then Err(Error(400, InvalidStartTime))
    else
      var service := FindService(services, req.serviceId.value);
      if !ActiveService(service) then Err(Error(404, ServiceNotFoundOrInactive))
      else
        var vehicle := FindVehicle(vehicles, req.vehicleId.value);
        if !OwnedVehicle(vehicle, customerId) then Err(Error(404, VehicleNotOwned))
        else
          var start := req.startTime.value.minutes;
          var end := start + service.value.durationMinutes;
          match ValidateTimeSlot(start, end, now, cfg)
          case Fail(e) => Err(Error(400, TimeSlotRejected(e)))
          case Pass =>
            if HasConflict(appointments, req.providerId, start, end, None) then Err(Error(409, SlotTaken))
            else Ok(Appointment(nextId, customerId, req.providerId, req.serviceId.value, req.vehicleId.value,
                                start, end, Pending, req.notes.GetOr(""), None, now))
  }

  /** The checks fail in order: missing field, unparseable start, missing or
      inactive service, vehicle not the customer's, rejected window, conflict. */
  lemma BookErrorOrder(services: seq<Service>, vehicles: seq<Vehicle>, appointments: seq<Appointment>,
                       customerId: int, req: BookingRequest, now: int, cfg: Config, nextId: int)
    ensures var r := Book(services, vehicles, appointments, customerId, req, now, cfg, nextId);
      && (!HasRequiredFields(req) ==> r == Err(Error(400, MissingFields)))
      && (HasRequiredFields(req) && req.startTime.value.Unparseable? ==> r == Err(Error(400, InvalidStartTime)))
      && (HasRequiredFields(req) && req.startTime.value.At? ==>
          var service := FindService(services, req.serviceId.value);
          var vehicle := FindVehicle(vehicles, req.vehicleId.value);
          var start := req.startTime.value.minutes;
          && (!ActiveService(service) ==> r == Err(Error(404, ServiceNotFoundOrInactive)))
          && (ActiveService(service) && !OwnedVehicle(vehicle, customerId) ==> r == Err(Error(404, VehicleNotOwned)))
          && (ActiveService(service) && OwnedVehicle(vehicle, customerId) ==>
              var end := start + service.value.durationMinutes;
              && (!Bookable(start, end, now, cfg) ==>
                  r.Err? && r.error.code == 400 && r.error.reason.TimeSlotRejected? &&
                  Fail(r.error.reason.slot) == ValidateTimeSlot(start, end, now, cfg))
              && (Bookable(start, end, now, cfg) && HasConflict(appointments, req.providerId, start, end, None) ==>
                  r == Err(Error(409, SlotTaken)))))
  {
  }

  /** A booking the checks accept never double-books a provider. */
  lemma BookKeepsNoDoubleBooking(services: seq<Service>, vehicles: seq<Vehicle>, appointments: seq<Appointment>,
                                 customerId: int, req: BookingRequest, now: int, cfg: Config, nextId: int)
    requires NoDoubleBooking(appointments)
    requires Book(services, vehicles, appointments, customerId, req, now, cfg, nextId).Ok?
    ensures NoDoubleBooking(appointments + [Book(services, vehicles, appointments, customerId, req, now, cfg, nextId).value])
  {
    var a := Book(services, vehicles, appointments, customerId, req, now, cfg, nextId).value;
    ClearedInsertKeepsNoDoubleBooking(appointments, a);
  }

  // ------------------------------------------------------------ who sees what

  /** The ownership rule of the read, update-authorisation and cancel paths: a
      customer only their own, a provider only those assigned to them, any other
      role everything. */
  predicate MayAccess(a: Appointment, userId: int, role: Role) {
    && (role == Customer ==> a.customerId == userId)
    && (role == Provider ==> a.providerId == Some(userId))
  }

  /** `get_appointment_by_id`. */
  function GetAppointment(rows: seq<Appointment>, id: int, userId: int, role: Role): (r: Result<Appointment, Error>)
    ensures FindAppointment(rows, id).None? <==> r == Err(Error(404, AppointmentNotFound))
    ensures r.Ok? <==> FindAppointment(rows, id).Some? && MayAccess(FindAppointment(rows, id).value, userId, role)
    ensures r.Ok? ==> r.value == FindAppointment(rows, id).value
    ensures r.Err? ==> r.error == Error(404, AppointmentNotFound) || r.error == Error(403, Unauthorized)
  {
    match FindAppointment(rows, id)
    case None => Err(Error(404, AppointmentNotFound))
    case Some(a) => if MayAccess(a, userId, role) then Ok(a) else Err(Error(403, Unauthorized))
  }

  /** The query-string filters of the listing; a date that is given but does
      not parse is `Unparseable`. */
  datatype ListFilters = ListFilters(status: Option<string>, startDate: Option<Parsed>, endDate: Option<Parsed>)

  predicate FiltersParse(f: ListFilters) {
    (f.startDate.Some? ==> f.startDate.value.At?) && (f.endDate.Some? ==> f.endDate.value.At?)
  }

  /** A row the listing returns: visible to the caller and within every filter. */
  predicate Listed(a: Appointment, userId: int, role: Role, f: ListFilters)
    requires FiltersParse(f)
  {
    && MayAccess(a, userId, role)
    && (f.status.Some? ==> StatusName(a.status) == f.status.value)
    && (f.startDate.Some? ==> a.startTime >= f.startDate.value.minutes)
    && (f.endDate.Some? ==> a.startTime <= f.endDate.value.minutes)
  }

  /** `order_by(start_time.desc())`. */
  predicate LaterFirst(a: Appointment, b: Appointment) {
    a.startTime >= b.startTime
  }

  lemma LaterFirstIsTotalPreorder()
    ensures TotalPreorder(LaterFirst)
  {
  }

  /** `get_appointments`: every visible row within the filters, each once, latest
      start first; an unparseable date fails the request. */
  function ListAppointments(rows: seq<Appointment>, userId: int, role: Role, f: ListFilters): (r: Result<seq<Appointment>, Error>)
    ensures r.Err? <==> !FiltersParse(f)
    ensures r.Err? ==> r.error == Error(500, MalformedDate)
    ensures r.Ok? ==> forall a :: multiset(r.value)[a] == if Listed(a, userId, role, f) then multiset(rows)[a] else 0
    ensures r.Ok? ==> SortedBy(r.value, LaterFirst)
  {
    if !FiltersParse(f) then Err(Error(500, MalformedDate))
    else
      LaterFirstIsTotalPreorder();
      Ok(SortBy(Filter(rows, (a: Appointment) => Listed(a, userId, role, f)), LaterFirst))
  }

  /** The single read and the listing agree: with ids distinct, an appointment
      can be fetched by id exactly when the unfiltered listing holds it. */
  lemma {:induction false} FetchableIffListed(rows: seq<Appointment>, next: int, id: int, userId: int, role: Role)
    requires KeysBelow(rows, AppointmentId, next)
    ensures GetAppointment(rows, id, userId, role).Ok? <==>
      exists a :: a in ListAppointments(rows, userId, role, ListFilters(None, None, None)).value && a.id == id
  {
    if GetAppointment(rows, id, userId, role).Ok? {
      FetchableIsListed(rows, id, userId, role);
    }
    var listed := ListAppointments(rows, userId, role, ListFilters(None, None, None)).value;
    if exists a :: a in listed && a.id == id {
      var a :| a in listed && a.id == id;
      ListedIsFetchable(rows, next, a, userId, role);
    }
  }

  lemma FetchableIsListed(rows: seq<Appointment>, id: int, userId: int, role: Role)
    requires GetAppointment(rows, id, userId, role).Ok?
    ensures FindAppointment(rows, id).value in ListAppointments(rows, userId, role, ListFilters(None, None, None)).value
  {
    var listed := ListAppointments(rows, userId, role, ListFilters(None, None, None)).value;
    var a := FindAppointment(rows, id).value;
    assert multiset(listed)[a] == multiset(rows)[a];
  }

  lemma ListedIsFetchable(rows: seq<Appointment>, next: int, a: Appointment, userId: int, role: Role)
    requires KeysBelow(rows, AppointmentId, next)
    requires a in ListAppointments(rows, userId, role, ListFilters(None, None, None)).value
    ensures GetAppointment(rows, a.id, userId, role).Ok?
  {
    var listed := ListAppointments(rows, userId, role, ListFilters(None, None, None)).value;
    assert multiset(listed)[a] > 0;
    assert a in rows && MayAccess(a, userId, role);
    var b := FindAppointment(rows, a.id).value;
    var i :| 0 <= i < |rows| && rows[i] == a;
    var j :| 0 <= j < |rows| && rows[j] == b;
    assert i == j;
  }

  // ------------------------------------------------------------- cancellation

  /** `cancel_appointment`, up to the commit: the row as cancelled, or the first
      check that fails. The window is whole minutes: the hours until the start,
      as a fraction, are below the window exactly when the minutes are below
      sixty times it. */
  function Cancel(rows: seq<Appointment>, id: int, userId: int, role: Role, reason: string, now: int, cfg: Config): (r: Result<Appointment, Error>)
    ensures FindAppointment(rows, id).None? <==> r == Err(Error(404, AppointmentNotFound))
    ensures FindAppointment(rows, id).Some? ==>
      var a := FindAppointment(rows, id).value;
      && (r.Ok? <==>
          MayAccess(a, userId, role) && StatusName(a.status) != "cancelled" &&
          !(role == Customer && a.startTime - now < MinutesPerHour * cfg.cancellationWindowHours))
      && (!MayAccess(a, userId, role) <==> r == Err(Error(403, Unauthorized)))
      && (MayAccess(a, userId, role) && StatusName(a.status) == "cancelled" <==> r == Err(Error(400, AlreadyCancelled)))
      && (r == Err(Error(400, InsideCancellationWindow(cfg.cancellationWindowHours))) <==>
          MayAccess(a, userId, role) && StatusName(a.status) != "cancelled" && role == Customer &&
          a.startTime - now < MinutesPerHour * cfg.cancellationWindowHours)
      && (r.Ok? ==> r.value == a.(status := Cancelled, cancellationReason := Some(reason)))
  {
    match FindAppointment(rows, id)
    case None => Err(Error(404, AppointmentNotFound))
    case Some(a) =>
      if !MayAccess(a, userId, role) then Err(Error(403, Unauthorized))
      else if StatusName(a.status) == "cancelled" then Err(Error(400, AlreadyCancelled))
      else if a.startTime - now < MinutesPerHour * cfg.cancellationWindowHours && role == Customer then
        Err(Error(400, InsideCancellationWindow(cfg.cancellationWindowHours)))
      else Ok(a.(status := Cancelled, cancellationReason := Some(reason)))
  }

  /** Staff are not held to the window: an assigned provider or any non-customer,
      non-provider role cancels any appointment that is not already cancelled,
      however close its start, and a completed appointment is no exception. */
  lemma StaffCancelIgnoresWindow(rows: seq<Appointment>, id: int, userId: int, role: Role, reason: string, now: int, cfg: Config)
    requires FindAppointment(rows, id).Some?
    requires role != Customer && MayAccess(FindAppointment(rows, id).value, userId, role)
    requires StatusName(FindAppointment(rows, id).value.status) != "cancelled"
    ensures Cancel(rows, id, userId, role, reason, now, cfg).Ok?
  {
  }

  /** Cancelling twice fails the second time, whoever asks. */
  lemma CancelIsNotRepeatable(rows: seq<Appointment>, id: int, userId: int, role: Role, reason: string, now: int, cfg: Config,
                              userId2: int, role2: Role, reason2: string, now2: int)
    requires Cancel(rows, id, userId, role, reason, now, cfg).Ok?
    requires MayAccess(Cancel(rows, id, userId, role, reason, now, cfg).value, userId2, role2)
    ensures var b := Cancel(rows, id, userId, role, reason, now, cfg).value;
      Cancel(rows[AppointmentIndex(rows, id).value := b], id, userId2, role2, reason2, now2, cfg) ==
      Err(Error(400, AlreadyCancelled))
  {
    var b := Cancel(rows, id, userId, role, reason, now, cfg).value;
    AppointmentIndexAfterReplace(rows, id, b);
  }

  /** A cancellation releases the slot, so no provider becomes double-booked. */
  lemma CancelKeepsNoDoubleBooking(rows: seq<Appointment>, id: int, userId: int, role: Role, reason: string, now: int, cfg: Config)
    requires NoDoubleBooking(rows)
    requires Cancel(rows, id, userId, role, reason, now, cfg).Ok?
    ensures NoDoubleBooking(rows[AppointmentIndex(rows, id).value := Cancel(rows, id, userId, role, reason, now, cfg).value])
  {
    ReplaceKeepsNoDoubleBooking(rows, AppointmentIndex(rows, id).value, Cancel(rows, id, userId, role, reason, now, cfg).value);
  }

  // ------------------------------------------------------------------- update

  /** The body of an update request, one entry per attribute an administrator may
      set; `None` is a key that is absent, `Some(None)` a nullable column set to
      null. Statuses arrive as text. */
  datatype AppointmentPatch = AppointmentPatch(
    status: Option<string>,
    notes: Option<string>,
    cancellationReason: Option<Option<string>>,
    customerId: Option<int>,
    providerId: Option<Option<int>>,
    serviceId: Option<int>,
    vehicleId: Option<int>,
    startTime: Option<int>,
    endTime: Option<int>)

  /** Who may update: the owning customer, the assigned provider, an administrator. */
  predicate MayRevise(a: Appointment, userId: int, role: Role) {
    || (role == Customer && a.customerId == userId)
    || (role == Provider && a.providerId == Some(userId))
    || role == Admin
  }

  /** What a customer's update does: a status of exactly `cancelled` cancels,
      with the given reason or the empty one, any other status is ignored; notes
      are replaced. */
  function CustomerRevision(a: Appointment, p: AppointmentPatch): (b: Appointment)
    ensures b.(status := a.status, cancellationReason := a.cancellationReason, notes := a.notes) == a
    ensures b.status == a.status || b.status == Cancelled
  {
    var cancelled :=
      if p.status == Some("cancelled") then a.(status := Cancelled, cancellationReason := p.cancellationReason.GetOr(Some("")))
      else a;
    if p.notes.Some? then cancelled.(notes := p.notes.value) else cancelled
  }

  /** What an assigned provider's update does: any status, and notes. */
  function ProviderRevision(a: Appointment, p: AppointmentPatch): (b: Appointment)
    ensures b.(status := a.status, notes := a.notes) == a
  {
    a.(status := if p.status.Some? then ParseStatus(p.status.value) else a.status,
       notes := p.notes.GetOr(a.notes))
  }

  /** What an administrator's update does: every attribute in the request. */
  function AdminRevision(a: Appointment, p: AppointmentPatch): (b: Appointment)
    ensures b.id == a.id && b.createdAt == a.createdAt
  {
    a.(status := if p.status.Some? then ParseStatus(p.status.value) else a.status,
       notes := p.notes.GetOr(a.notes),
       cancellationReason := p.cancellationReason.GetOr(a.cancellationReason),
       customerId := p.customerId.GetOr(a.customerId),
       providerId := p.providerId.GetOr(a.providerId),
       serviceId := p.serviceId.GetOr(a.serviceId),
       vehicleId := p.vehicleId.GetOr(a.vehicleId),
       startTime := p.startTime.GetOr(a.startTime),
       endTime := p.endTime.GetOr(a.endTime))
  }

  /** `update_appointment`, up to the commit. */
  function Revise(rows: seq<Appointment>, id: int, userId: int, role: Role, p: AppointmentPatch): (r: Result<Appointment, Error>)
    ensures FindAppointment(rows, id).None? <==> r == Err(Error(404, AppointmentNotFound))
    ensures FindAppointment(rows, id).Some? ==>
      var a := FindAppointment(rows, id).value;
      && (r.Ok? <==> MayRevise(a, userId, role))
      && (r.Err? ==> r.error == Error(403, Unauthorized))
      && (r.Ok? ==> r.value.id == a.id && r.value.createdAt == a.createdAt)
      && (r.Ok? && role != Admin ==>
          && r.value.customerId == a.customerId && r.value.providerId == a.providerId
          && r.value.serviceId == a.serviceId && r.value.vehicleId == a.vehicleId
          && r.value.startTime == a.startTime && r.value.endTime == a.endTime
          && r.value.notes == p.notes.GetOr(a.notes))
      && (r.Ok? && role == Customer ==>
          && (r.value.status == a.status || r.value.status == Cancelled)
          && (r.value.status != a.status <==> p.status == Some("cancelled") && a.status != Cancelled)
          && (p.status != Some("cancelled") ==> r.value.cancellationReason == a.cancellationReason))
      && (r.Ok? && role == Customer && p.status == Some("cancelled") ==>
          r.value.cancellationReason == p.cancellationReason.GetOr(Some("")))
      && (r.Ok? && role == Provider ==>
          && (p.status.Some? ==> r.value.status == ParseStatus(p.status.value))
          && (p.status.None? ==> r.value.status == a.status)
          && r.value.cancellationReason == a.cancellationReason)
      && (r.Ok? && role == Admin ==>
          && (p.status.Some? ==> r.value.status == ParseStatus(p.status.value))
          && (p.status.None? ==> r.value.status == a.status)
          && r.value.notes == p.notes.GetOr(a.notes)
          && r.value.cancellationReason == p.cancellationReason.GetOr(a.cancellationReason)
          && r.value.customerId == p.customerId.GetOr(a.customerId)
          && r.value.providerId == p.providerId.GetOr(a.providerId)
          && r.value.serviceId == p.serviceId.GetOr(a.serviceId)
          && r.value.vehicleId == p.vehicleId.GetOr(a.vehicleId)
          && r.value.startTime == p.startTime.GetOr(a.startTime)
          && r.value.endTime == p.endTime.GetOr(a.endTime))
  {
    match FindAppointment(rows, id)
    case None => Err(Error(404, AppointmentNotFound))
    case Some(a) =>
      if role == Customer && a.customerId != userId then Err(Error(403, Unauthorized))
      else if role == Customer then Ok(CustomerRevision(a, p))
      else if role == Provider && a.providerId == Some(userId) then Ok(ProviderRevision(a, p))
      else if role == Admin then Ok(AdminRevision(a, p))
      else Err(Error(403, Unauthorized))
  }

  /** A customer who may not cancel through the cancellation path, because the
      start is inside the window, still cancels through an update. */
  lemma UpdateBypassesCancellationWindow(rows: seq<Appointment>, id: int, userId: int, reason: string, now: int, cfg: Config)
    requires FindAppointment(rows, id).Some?
    requires FindAppointment(rows, id).value.customerId == userId
    requires StatusName(FindAppointment(rows, id).value.status) != "cancelled"
    requires FindAppointment(rows, id).value.startTime - now < MinutesPerHour * cfg.cancellationWindowHours
    ensures Cancel(rows, id, userId, Customer, reason, now, cfg) ==
            Err(Error(400, InsideCancellationWindow(cfg.cancellationWindowHours)))
    ensures var p := AppointmentPatch(Some("cancelled"), None, Some(Some(reason)), None, None, None, None, None, None);
      Revise(rows, id, userId, Customer, p) ==
      Ok(FindAppointment(rows, id).value.(status := Cancelled, cancellationReason := Some(reason)))
  {
  }

  /** A customer's update only cancels or edits notes, so no provider becomes
      double-booked by it. */
  lemma CustomerUpdateKeepsNoDoubleBooking(rows: seq<Appointment>, id: int, userId: int, p: AppointmentPatch)
    requires NoDoubleBooking(rows)
    requires Revise(rows, id, userId, Customer, p).Ok?
    ensures NoDoubleBooking(rows[AppointmentIndex(rows, id).value := Revise(rows, id, userId, Customer, p).value])
  {
    var b := Revise(rows, id, userId, Customer, p).value;
    var a := FindAppointment(rows, id).value;
    assert !Occupying(b.status) || (Occupying(a.status) && b.status == a.status);
    ReplaceKeepsNoDoubleBooking(rows, AppointmentIndex(rows, id).value, b);
  }

  /** An update does not consult the conflict detector: a provider who puts a
      cancelled appointment back to `pending` can double-book themself. */
  lemma ProviderReopenCanDoubleBook()
    ensures var old_ := Appointment(1, 10, Some(5), 1, 1, 600, 660, Cancelled, "", Some(""), 0);
      var new_ := Appointment(2, 11, Some(5), 1, 2, 600, 660, Pending, "", None, 0);
      var p := AppointmentPatch(Some("pending"), None, None, None, None, None, None, None, None);
      && NoDoubleBooking([old_, new_])
      && Revise([old_, new_], 1, 5, Provider, p) == Ok(old_.(status := Pending))
      && !NoDoubleBooking([old_.(status := Pending), new_])
  {
    var old_ := Appointment(1, 10, Some(5), 1, 1, 600, 660, Cancelled, "", Some(""), 0);
    var new_ := Appointment(2, 11, Some(5), 1, 2, 600, 660, Pending, "", None, 0);
    var rows := [old_.(status := Pending), new_];
    assert Occupying(rows[0].status) && Occupying(rows[1].status);
  }

  // ---------------------------------------------------------------- commits

  /** `create_appointment` against the database: the new row is appended under
      the next key, or nothing changes. */
  method CreateAppointment(db: Database, customerId: int, req: BookingRequest, now: int, cfg: Config)
    returns (r: Result<Appointment, Error>)
    requires db.Valid()
    modifies db`appointments, db`nextAppointmentId
    ensures db.Valid()
    ensures r == Book(db.services, db.vehicles, old(db.appointments), customerId, req, now, cfg, old(db.nextAppointmentId))
    ensures r.Ok? ==> db.appointments == old(db.appointments) + [r.value] && db.nextAppointmentId == old(db.nextAppointmentId) + 1
    ensures r.Err? ==> db.appointments == old(db.appointments) && db.nextAppointmentId == old(db.nextAppointmentId)
    ensures NoDoubleBooking(old(db.appointments)) ==> NoDoubleBooking(db.appointments)
  {
    r := Book(db.services, db.vehicles, db.appointments, customerId, req, now, cfg, db.nextAppointmentId);
    if r.Ok? {
      if NoDoubleBooking(db.appointments) {
        BookKeepsNoDoubleBooking(db.services, db.vehicles, db.appointments, customerId, req, now, cfg, db.nextAppointmentId);
      }
      AddAppointment(db, r.value);
    }
  }

  /** The insert: the row goes in under the next key, which moves on. */
  method AddAppointment(db: Database, a: Appointment)
    requires db.Valid() && a.id == db.nextAppointmentId
    modifies db`appointments, db`nextAppointmentId
    ensures db.Valid()
    ensures db.appointments == old(db.appointments) + [a] && db.nextAppointmentId == old(db.nextAppointmentId) + 1
  {
    KeysBelowAppend(db.appointments, AppointmentId, db.nextAppointmentId, a);
    db.appointments := db.appointments + [a];
    db.nextAppointmentId := db.nextAppointmentId + 1;
  }

  /** `update_appointment` against the database: the row is replaced in place,
      or nothing changes. */
  method UpdateAppointment(db: Database, id: int, userId: int, role: Role, p: AppointmentPatch)
    returns (r: Result<Appointment, Error>)
    requires db.Valid()
    modifies db`appointments
    ensures db.Valid()
    ensures r == Revise(old(db.appointments), id, userId, role, p)
    ensures r.Ok? ==> db.appointments == old(db.appointments)[AppointmentIndex(old(db.appointments), id).value := r.value]
    ensures r.Err? ==> db.appointments == old(db.appointments)
  {
    r := Revise(db.appointments, id, userId, role, p);
    if r.Ok? {
      var i := AppointmentIndex(db.appointments, id).value;
      KeysBelowReplace(db.appointments, AppointmentId, db.nextAppointmentId, i, r.value);
      db.appointments := db.appointments[i := r.value];
    }
  }

  /** `cancel_appointment` against the database: the row is replaced in place,
      or nothing changes. */
  method CancelAppointment(db: Database, id: int, userId: int, role: Role, reason: string, now: int, cfg: Config)
    returns (r: Result<Appointment, Error>)
    requires db.Valid()
    modifies db`appointments
    ensures db.Valid()
    ensures r == Cancel(old(db.appointments), id, userId, role, reason, now, cfg)
    ensures r.Ok? ==> db.appointments == old(db.appointments)[AppointmentIndex(old(db.appointments), id).value := r.value]
    ensures r.Err? ==> db.appointments == old(db.appointments)
    ensures NoDoubleBooking(old(db.appointments)) ==> NoDoubleBooking(db.appointments)
  {
    r := Cancel(db.appointments, id, userId, role, reason, now, cfg);
    if r.Ok? {
      var i := AppointmentIndex(db.appointments, id).value;
      KeysBelowReplace(db.appointments, AppointmentId, db.nextAppointmentId, i, r.value);
      if NoDoubleBooking(db.appointments) {
        CancelKeepsNoDoubleBooking(db.appointments, id, userId, role, reason, now, cfg);
      }
      db.appointments := db.appointments[i := r.value];
    }
  }
}
