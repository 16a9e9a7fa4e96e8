/** The database the controllers share, as one object with a sequence of rows
    per table and the next autoincrement key of each. A controller call that
    commits replaces some of these sequences; one that fails leaves them as they
    were (the session is discarded). */
module Store {
  import opened Wrappers
  import opened Records
  import opened Queries

  /** `email` is a unique column. */
  predicate EmailsDistinct(users: seq<User>) {
    forall i, j :: 0 <= i < j < |users| ==> users[i].email != users[j].email
  }

  /** `vin` is a unique column; NULLs do not collide. */
  predicate VinsDistinct(vehicles: seq<Vehicle>) {
    forall i, j :: 0 <= i < j < |vehicles| && vehicles[i].vin.Some? ==> vehicles[i].vin != vehicles[j].vin
  }

  /** At most one availability record per provider and weekday: the schema does
      not enforce it, the upsert of the availability controller keeps it. */
  predicate OnePerProviderDay(rows: seq<Availability>) {
    forall i, j :: 0 <= i < j < |rows| ==>
      !(rows[i].providerId == rows[j].providerId && rows[i].dayOfWeek == rows[j].dayOfWeek)
  }

  /** `User.query.get(id)`. */
  function UserIndex(users: seq<User>, id: int): (r: Option<nat>)
    ensures r.Some? ==> r.value < |users| && users[r.value].id == id
    ensures r.None? ==> forall i :: 0 <= i < |users| ==> users[i].id != id
  {
    FirstIndex(users, (u: User) => u.id == id)
  }

  /** `Service.query.get(id)`. */
  function ServiceIndex(services: seq<Service>, id: int): (r: Option<nat>)
    ensures r.Some? ==> r.value < |services| && services[r.value].id == id
    ensures r.None? ==> forall i :: 0 <= i < |services| ==> services[i].id != id
  {
    FirstIndex(services, (s: Service) => s.id == id)
  }

  /** `Vehicle.query.get(id)`. */
  function VehicleIndex(vehicles: seq<Vehicle>, id: int): (r: Option<nat>)
    ensures r.Some? ==> r.value < |vehicles| && vehicles[r.value].id == id
    ensures r.None? ==> forall i :: 0 <= i < |vehicles| ==> vehicles[i].id != id
  {
    FirstIndex(vehicles, (v: Vehicle) => v.id == id)
  }

  /** `Appointment.query.get(id)`. */
  function AppointmentIndex(rows: seq<Appointment>, id: int): (r: Option<nat>)
    ensures r.Some? ==> r.value < |rows| && rows[r.value].id == id
    ensures r.None? ==> forall i :: 0 <= i < |rows| ==> rows[i].id != id
  {
    FirstIndex(rows, (a: Appointment) => a.id == id)
  }

  /** The service row with this key, if any. */
  function FindService(services: seq<Service>, id: int): (r: Option<Service>)
    ensures r.Some? ==> r.value in services && r.value.id == id
    ensures r.None? <==> forall i :: 0 <= i < |services| ==> services[i].id != id
  {
    match ServiceIndex(services, id)
    case None => None
    case Some(i) => Some(services[i])
  }

  /** The vehicle row with this key, if any. */
  function FindVehicle(vehicles: seq<Vehicle>, id: int): (r: Option<Vehicle>)
    ensures r.Some? ==> r.value in vehicles && r.value.id == id
    ensures r.None? <==> forall i :: 0 <= i < |vehicles| ==> vehicles[i].id != id
  {
    match VehicleIndex(vehicles, id)
    case None => None
    case Some(i) => Some(vehicles[i])
  }

  /** The user row with this key, if any. */
  function FindUser(users: seq<User>, id: int): (r: Option<User>)
    ensures r.Some? ==> r.value in users && r.value.id == id
    ensures r.None? <==> forall i :: 0 <= i < |users| ==> users[i].id != id
  {
    match UserIndex(users, id)
    case None => None
    case Some(i) => Some(users[i])
  }

  /** The appointment row with this key, if any. */
  function FindAppointment(rows: seq<Appointment>, id: int): (r: Option<Appointment>)
    ensures r.Some? ==> r.value in rows && r.value.id == id
    ensures r.None? <==> forall i :: 0 <= i < |rows| ==> rows[i].id != id
  {
    match AppointmentIndex(rows, id)
    case None => None
    case Some(i) => Some(rows[i])
  }

  /** After a row is replaced by one with the same key, the lookup finds the new
      row at the same place. */
  lemma AppointmentIndexAfterReplace(rows: seq<Appointment>, id: int, b: Appointment)
    requires AppointmentIndex(rows, id).Some? && b.id == id
    ensures AppointmentIndex(rows[AppointmentIndex(rows, id).value := b], id) == AppointmentIndex(rows, id)
  {
    var i := AppointmentIndex(rows, id).value;
    assert rows[i := b][i].id == id;
  }

  class Database {
    var users: seq<User>
    var services: seq<Service>
    var vehicles: seq<Vehicle>
    var appointments: seq<Appointment>
    var availability: seq<Availability>
    var nextUserId: int
    var nextServiceId: int
    var nextVehicleId: int
    var nextAppointmentId: int
    var nextAvailabilityId: int

    /** Primary keys are distinct and below the next key; the unique columns and
        the one-record-per-day rule hold. */
    ghost predicate Valid()
      reads this
    {
      && KeysBelow(users, UserId, nextUserId) && EmailsDistinct(users)
      && KeysBelow(services, ServiceId, nextServiceId)
      && KeysBelow(vehicles, VehicleId, nextVehicleId) && VinsDistinct(vehicles)
      && KeysBelow(appointments, AppointmentId, nextAppointmentId)
      && KeysBelow(availability, AvailabilityId, nextAvailabilityId) && OnePerProviderDay(availability)
    }

    /** An empty database; autoincrement keys start at 1. */
    constructor ()
      ensures Valid()
      ensures users == [] && services == [] && vehicles == [] && appointments == [] && availability == []
      ensures nextUserId == 1 && nextServiceId == 1 && nextVehicleId == 1
      ensures nextAppointmentId == 1 && nextAvailabilityId == 1
    {
      users, services, vehicles, appointments, availability := [], [], [], [], [];
      nextUserId, nextServiceId, nextVehicleId, nextAppointmentId, nextAvailabilityId := 1, 1, 1, 1, 1;
    }
  }
}
