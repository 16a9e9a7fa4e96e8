/** The vehicle controller: a customer's vehicles, unique by VIN, created,
    revised field by field, listed newest first, and deleted only while no
    appointment refers to them. */
module Vehicles {
  import opened Wrappers
  import opened Records
  import opened Queries
  import opened Store
  import Text
  import Validators

  /** Some vehicle of the table already carries this VIN. */
  predicate VinInUse(vehicles: seq<Vehicle>, vin: string) {
    exists i :: 0 <= i < |vehicles| && vehicles[i].vin == Some(vin)
  }

  /** `vin if vin else None`: the empty VIN is stored as NULL. */
  function StoredVin(vin: string): Option<string> {
    if vin == "" then None else Some(vin)
  }

  /** The body of a create request; text fields default to the empty string. */
  datatype VehicleRequest = VehicleRequest(
    make: Option<string>,
    model: Option<string>,
    year: Option<int>,
    licensePlate: Option<string>,
    color: Option<string>,
    vin: Option<string>,
    notes: Option<string>)

  /** `all([make, model, year])` after stripping: an empty make or model, and an
      absent or zero year, are missing. */
  predicate CreateFieldsPresent(req: VehicleRequest) {
    Text.Strip(req.make.GetOr("")) != "" && Text.Strip(req.model.GetOr("")) != "" && Truthy(req.year)
  }

  /** The VIN a create request would store, before the empty one becomes NULL. */
  function RequestedVin(req: VehicleRequest): string {
    Text.Strip(req.vin.GetOr(""))
  }

  /** `create_vehicle`, up to the insert: the row it adds for `userId` under key
      `nextId`, or the first check that fails (missing fields, then the year,
      then a VIN already on file). */
  function NewVehicle(vehicles: seq<Vehicle>, userId: int, req: VehicleRequest, currentYear: int, now: int, nextId: int)
    : (r: Result<Vehicle, Error>)
    ensures r.Ok? <==>
      && CreateFieldsPresent(req)
      && Validators.ValidateVehicleYear(req.year.value, currentYear).Pass?
      && (RequestedVin(req) != "" ==> !VinInUse(vehicles, RequestedVin(req)))
    ensures !CreateFieldsPresent(req) ==> r == Err(Error(400, MakeModelYearRequired))
    ensures CreateFieldsPresent(req) && Validators.ValidateVehicleYear(req.year.value, currentYear).Fail? ==>
      r == Err(Error(400, YearRejected(Validators.ValidateVehicleYear(req.year.value, currentYear).error)))
    ensures CreateFieldsPresent(req) && Validators.ValidateVehicleYear(req.year.value, currentYear).Pass? &&
            RequestedVin(req) != "" && VinInUse(vehicles, RequestedVin(req)) ==>
      r == Err(Error(409, VinTaken))
    ensures r.Ok? ==>
      && r.value.id == nextId && r.value.userId == userId && r.value.createdAt == now
      && r.value.year == req.year.value && 1900 <= r.value.year <= currentYear + 1
      && r.value.make == Text.Strip(req.make.GetOr("")) && r.value.make != ""
      && r.value.model == Text.Strip(req.model.GetOr("")) && r.value.model != ""
      && r.value.vin == StoredVin(RequestedVin(req))
      && (r.value.vin.Some? ==> r.value.vin.value != "" && !VinInUse(vehicles, r.value.vin.value))
  {
    var vin := RequestedVin(req);
    if !CreateFieldsPresent(req) then Err(Error(400, MakeModelYearRequired))
    else if Validators.ValidateVehicleYear(req.year.value, currentYear).Fail? then
      Err(Error(400, YearRejected(Validators.ValidateVehicleYear(req.year.value, currentYear).error)))
    else if vin != "" && VinInUse(vehicles, vin) then Err(Error(409, VinTaken))
    else
      Ok(Vehicle(nextId, userId, Text.Strip(req.make.GetOr("")), Text.Strip(req.model.GetOr("")), req.year.value,
                 Text.Strip(req.licensePlate.GetOr("")), Text.Strip(req.color.GetOr("")), StoredVin(vin),
                 Text.Strip(req.notes.GetOr("")), now))
  }

  /** Adding a vehicle whose VIN is NULL or not on file keeps VINs unique. */
  lemma AppendKeepsVinsDistinct(vehicles: seq<Vehicle>, v: Vehicle)
    requires VinsDistinct(vehicles)
    requires v.vin.Some? ==> !VinInUse(vehicles, v.vin.value)
    ensures VinsDistinct(vehicles + [v])
  {
    var all := vehicles + [v];
    forall i, j | 0 <= i < j < |all| && all[i].vin.Some?
      ensures all[i].vin != all[j].vin
    {
      if j < |vehicles| {
        assert all[i] == vehicles[i] && all[j] == vehicles[j];
      }
    }
  }

  /** `Vehicle.query.filter_by(id=vehicle_id, user_id=user_id).first()`. */
  function OwnedIndex(vehicles: seq<Vehicle>, id: int, userId: int): (r: Option<nat>)
    ensures r.Some? ==> r.value < |vehicles| && vehicles[r.value].id == id && vehicles[r.value].userId == userId
    ensures r.None? <==> forall k :: 0 <= k < |vehicles| ==> !(vehicles[k].id == id && vehicles[k].userId == userId)
  {
    FirstIndex(vehicles, (v: Vehicle) => v.id == id && v.userId == userId)
  }

  /** `get_vehicle_by_id`: a vehicle is seen only by its owner; any other key or
      owner is 404. */
  function GetVehicle(vehicles: seq<Vehicle>, id: int, userId: int): (r: Result<Vehicle, Error>)
    ensures r.Ok? ==> r.value in vehicles && r.value.id == id && r.value.userId == userId
    ensures r.Err? <==> forall k :: 0 <= k < |vehicles| ==> !(vehicles[k].id == id && vehicles[k].userId == userId)
    ensures r.Err? ==> r.error == Error(404, VehicleNotFound)
  {
    match OwnedIndex(vehicles, id, userId)
    case None => Err(Error(404, VehicleNotFound))
    case Some(i) => Ok(vehicles[i])
  }

  /** A vehicle just inserted under the next key is found by its owner. */
  lemma {:induction false} CreatedVehicleIsFetchable(vehicles: seq<Vehicle>, v: Vehicle)
    requires KeysBelow(vehicles, VehicleId, v.id)
    ensures GetVehicle(vehicles + [v], v.id, v.userId) == Ok(v)
  {
    var all := vehicles + [v];
    assert all[|vehicles|] == v;
    forall k | 0 <= k < |vehicles|
      ensures !(all[k].id == v.id && all[k].userId == v.userId)
    {
      assert all[k] == vehicles[k] && VehicleId(vehicles[k]) < v.id;
    }
    assert OwnedIndex(all, v.id, v.userId) == Some(|vehicles|);
  }

  /** `order_by(Vehicle.created_at.desc())`. */
  predicate NewestFirst(a: Vehicle, b: Vehicle) {
    a.createdAt >= b.createdAt
  }

  lemma NewestFirstIsTotalPreorder()
    ensures TotalPreorder(NewestFirst)
  {
  }

  /** `get_user_vehicles`: the user's vehicles, each once and no one else's,
      newest first; `total` is the length of this list. */
  function GetUserVehicles(vehicles: seq<Vehicle>, userId: int): (r: seq<Vehicle>)
    ensures forall v :: multiset(r)[v] == if v.userId == userId then multiset(vehicles)[v] else 0
    ensures SortedBy(r, NewestFirst)
  {
    NewestFirstIsTotalPreorder();
    SortBy(Filter(vehicles, (v: Vehicle) => v.userId == userId), NewestFirst)
  }

  /** The listing and the single read agree: with keys distinct, a vehicle is
      listed for a user exactly when that user can fetch it by its key. */
  lemma {:induction false} ListedIffFetchable(vehicles: seq<Vehicle>, next: int, v: Vehicle, userId: int)
    requires KeysBelow(vehicles, VehicleId, next)
    ensures v in GetUserVehicles(vehicles, userId) <==> GetVehicle(vehicles, v.id, userId) == Ok(v)
  {
    var listed := GetUserVehicles(vehicles, userId);
    assert v in listed <==> multiset(listed)[v] > 0;
    if v in listed {
      assert v in vehicles && v.userId == userId;
      var i :| 0 <= i < |vehicles| && vehicles[i] == v;
      var k := OwnedIndex(vehicles, v.id, userId).value;
      if k != i {
        assert false;
      }
    }
    if GetVehicle(vehicles, v.id, userId) == Ok(v) {
      assert multiset(vehicles)[v] > 0;
    }
  }

  /** The body of an update request: `None` is a key that is absent. */
  datatype VehiclePatch = VehiclePatch(
    make: Option<string>,
    model: Option<string>,
    year: Option<int>,
    licensePlate: Option<string>,
    color: Option<string>,
    vin: Option<string>,
    notes: Option<string>)

  /** The patch moves the vehicle to a different, non-empty VIN. */
  predicate ChangesVin(v: Vehicle, p: VehiclePatch) {
    p.vin.Some? && Text.Strip(p.vin.value) != "" && Some(Text.Strip(p.vin.value)) != v.vin
  }

  /** `update_vehicle` on the owner's row: the fields are applied in order; a
      present year must be valid, and a VIN changed to one already on file is
      refused. Either failure leaves the row as it was. */
  function ReviseVehicle(vehicles: seq<Vehicle>, v: Vehicle, p: VehiclePatch, currentYear: int): (r: Result<Vehicle, Error>)
    ensures r.Ok? <==>
      && (p.year.Some? ==> 1900 <= p.year.value <= currentYear + 1)
      && !(ChangesVin(v, p) && VinInUse(vehicles, Text.Strip(p.vin.value)))
    ensures p.year.Some? && Validators.ValidateVehicleYear(p.year.value, currentYear).Fail? ==>
      r == Err(Error(400, YearRejected(Validators.ValidateVehicleYear(p.year.value, currentYear).error)))
    ensures r == Err(Error(409, VinTaken)) <==>
      && (p.year.Some? ==> 1900 <= p.year.value <= currentYear + 1)
      && ChangesVin(v, p) && VinInUse(vehicles, Text.Strip(p.vin.value))
    ensures r.Ok? ==>
      && r.value.id == v.id && r.value.userId == v.userId && r.value.createdAt == v.createdAt
      && r.value.make == Patched(p.make, v.make) && r.value.model == Patched(p.model, v.model)
      && r.value.year == p.year.GetOr(v.year)
      && r.value.licensePlate == Patched(p.licensePlate, v.licensePlate)
      && r.value.color == Patched(p.color, v.color)
      && r.value.vin == (if p.vin.Some? then StoredVin(Text.Strip(p.vin.value)) else v.vin)
      && r.value.notes == Patched(p.notes, v.notes)
  {
    if p.year.Some? && Validators.ValidateVehicleYear(p.year.value, currentYear).Fail? then
      Err(Error(400, YearRejected(Validators.ValidateVehicleYear(p.year.value, currentYear).error)))
    else if ChangesVin(v, p) && VinInUse(vehicles, Text.Strip(p.vin.value)) then Err(Error(409, VinTaken))
    else
      Ok(v.(make := Patched(p.make, v.make), model := Patched(p.model, v.model), year := p.year.GetOr(v.year),
            licensePlate := Patched(p.licensePlate, v.licensePlate), color := Patched(p.color, v.color),
            vin := if p.vin.Some? then StoredVin(Text.Strip(p.vin.value)) else v.vin,
            notes := Patched(p.notes, v.notes)))
  }

  /** Resubmitting a vehicle's own VIN is never a conflict. */
  lemma SameVinIsNotTaken(vehicles: seq<Vehicle>, v: Vehicle, p: VehiclePatch, currentYear: int)
    requires p.vin.Some? && Some(Text.Strip(p.vin.value)) == v.vin
    ensures ReviseVehicle(vehicles, v, p, currentYear) != Err(Error(409, VinTaken))
  {
  }

  /** Replacing a row by one whose VIN is NULL, unchanged, or not on file keeps
      VINs unique. */
  lemma ReplaceKeepsVinsDistinct(vehicles: seq<Vehicle>, i: nat, w: Vehicle)
    requires VinsDistinct(vehicles) && i < |vehicles|
    requires w.vin.None? || w.vin == vehicles[i].vin || !VinInUse(vehicles, w.vin.value)
    ensures VinsDistinct(vehicles[i := w])
  {
    var all := vehicles[i := w];
    forall a, b | 0 <= a < b < |all| && all[a].vin.Some?
      ensures all[a].vin != all[b].vin
    {
      if a != i && b != i {
        assert all[a] == vehicles[a] && all[b] == vehicles[b];
      } else if a == i {
        assert all[b] == vehicles[b];
      } else {
        assert all[a] == vehicles[a];
      }
    }
  }

  /** A successful revision of a row keeps VINs unique. */
  lemma {:induction false} ReviseKeepsVinsDistinct(vehicles: seq<Vehicle>, i: nat, p: VehiclePatch, currentYear: int)
    requires VinsDistinct(vehicles) && i < |vehicles|
    requires ReviseVehicle(vehicles, vehicles[i], p, currentYear).Ok?
    ensures VinsDistinct(vehicles[i := ReviseVehicle(vehicles, vehicles[i], p, currentYear).value])
  {
    var w := ReviseVehicle(vehicles, vehicles[i], p, currentYear).value;
    if w.vin.Some? && w.vin != vehicles[i].vin {
      assert ChangesVin(vehicles[i], p);
    }
    ReplaceKeepsVinsDistinct(vehicles, i, w);
  }

  /** Removing a row keeps VINs unique. */
  lemma RemoveKeepsVinsDistinct(vehicles: seq<Vehicle>, i: nat)
    requires VinsDistinct(vehicles) && i < |vehicles|
    ensures VinsDistinct(RemoveAt(vehicles, i))
  {
    var r := RemoveAt(vehicles, i);
    forall a, b | 0 <= a < b < |r| && r[a].vin.Some?
      ensures r[a].vin != r[b].vin
    {
      var a', b' := if a < i then a else a + 1, if b < i then b else b + 1;
      assert r[a] == vehicles[a'] && r[b] == vehicles[b'];
    }
  }

  /** Some appointment, whatever its status, is for this vehicle. */
  predicate HasAppointments(appointments: seq<Appointment>, vehicleId: int) {
    exists k :: 0 <= k < |appointments| && appointments[k].vehicleId == vehicleId
  }

  /** Some vehicle of the table has this key. */
  ghost predicate OnFile(vehicles: seq<Vehicle>, id: int) {
    exists j :: 0 <= j < |vehicles| && vehicles[j].id == id
  }

  /** Every appointment is for a vehicle on file. */
  ghost predicate VehiclesReferenced(vehicles: seq<Vehicle>, appointments: seq<Appointment>) {
    forall k :: 0 <= k < |appointments| ==> OnFile(vehicles, appointments[k].vehicleId)
  }

  /** The delete guard keeps every appointment pointing at a vehicle on file. */
  lemma {:induction false} GuardedRemoveKeepsReferences(vehicles: seq<Vehicle>, appointments: seq<Appointment>, i: nat)
    requires VehiclesReferenced(vehicles, appointments) && i < |vehicles|
    requires !HasAppointments(appointments, vehicles[i].id)
    ensures VehiclesReferenced(RemoveAt(vehicles, i), appointments)
  {
    var r := RemoveAt(vehicles, i);
    forall k | 0 <= k < |appointments|
      ensures OnFile(r, appointments[k].vehicleId)
    {
      var j :| 0 <= j < |vehicles| && vehicles[j].id == appointments[k].vehicleId;
      if j == i {
        assert false;
      }
      var j' := if j < i then j else j - 1;
      assert r[j'] == vehicles[j];
    }
  }

  /** What `get_vehicle_appointments` answers with. */
  datatype VehicleAppointments = VehicleAppointments(vehicle: Vehicle, appointments: seq<Appointment>)

  /** `get_vehicle_appointments`: 404 unless the key and owner match, else the
      vehicle with every appointment for it, whatever its status. */
  function GetVehicleAppointments(vehicles: seq<Vehicle>, appointments: seq<Appointment>, id: int, userId: int)
    : (r: Result<VehicleAppointments, Error>)
    ensures r.Err? <==> OwnedIndex(vehicles, id, userId).None?
    ensures r.Err? ==> r.error == Error(404, VehicleNotFound)
    ensures r.Ok? ==>
      && r.value.vehicle == vehicles[OwnedIndex(vehicles, id, userId).value]
      && forall a :: multiset(r.value.appointments)[a] == if a.vehicleId == id then multiset(appointments)[a] else 0
  {
    match OwnedIndex(vehicles, id, userId)
    case None => Err(Error(404, VehicleNotFound))
    case Some(i) => Ok(VehicleAppointments(vehicles[i], Filter(appointments, (a: Appointment) => a.vehicleId == id)))
  }

  /** The owner's appointment list for a vehicle is empty exactly when the
      delete guard lets the vehicle go. */
  lemma DeletableIffNoAppointments(vehicles: seq<Vehicle>, appointments: seq<Appointment>, id: int, userId: int)
    requires GetVehicleAppointments(vehicles, appointments, id, userId).Ok?
    ensures |GetVehicleAppointments(vehicles, appointments, id, userId).value.appointments| == 0 <==>
            !HasAppointments(appointments, id)
  {
    var listed := GetVehicleAppointments(vehicles, appointments, id, userId).value.appointments;
    if HasAppointments(appointments, id) {
      var k :| 0 <= k < |appointments| && appointments[k].vehicleId == id;
      assert multiset(listed)[appointments[k]] == multiset(appointments)[appointments[k]] > 0;
    }
    if |listed| != 0 {
      assert multiset(listed)[listed[0]] > 0;
      assert listed[0] in appointments;
    }
  }

  /** `create_vehicle` against the database. */
  method CreateVehicle(db: Database, userId: int, req: VehicleRequest, currentYear: int, now: int)
    returns (r: Result<Vehicle, Error>)
    requires db.Valid()
    modifies db`vehicles, db`nextVehicleId
    ensures db.Valid()
    ensures r == NewVehicle(old(db.vehicles), userId, req, currentYear, now, old(db.nextVehicleId))
    ensures r.Ok? ==> db.vehicles == old(db.vehicles) + [r.value] && db.nextVehicleId == old(db.nextVehicleId) + 1
    ensures r.Err? ==> db.vehicles == old(db.vehicles) && db.nextVehicleId == old(db.nextVehicleId)
  {
    r := NewVehicle(db.vehicles, userId, req, currentYear, now, db.nextVehicleId);
    if r.Ok? {
      AddVehicle(db, r.value);
    }
  }

  /** The insert: the row goes in under the next key, which moves on. */
  method AddVehicle(db: Database, v: Vehicle)
    requires db.Valid() && v.id == db.nextVehicleId
    requires v.vin.Some? ==> !VinInUse(db.vehicles, v.vin.value)
    modifies db`vehicles, db`nextVehicleId
    ensures db.Valid()
    ensures db.vehicles == old(db.vehicles) + [v] && db.nextVehicleId == old(db.nextVehicleId) + 1
  {
    KeysBelowAppend(db.vehicles, VehicleId, db.nextVehicleId, v);
    AppendKeepsVinsDistinct(db.vehicles, v);
    db.vehicles := db.vehicles + [v];
    db.nextVehicleId := db.nextVehicleId + 1;
  }

  /** `update_vehicle` against the database: 404 unless the key and owner match,
      then the revision is committed in place or nothing changes. */
  method UpdateVehicle(db: Database, id: int, userId: int, p: VehiclePatch, currentYear: int)
    returns (r: Result<Vehicle, Error>)
    requires db.Valid()
    modifies db`vehicles
    ensures db.Valid()
    ensures OwnedIndex(old(db.vehicles), id, userId).None? ==>
      r == Err(Error(404, VehicleNotFound)) && db.vehicles == old(db.vehicles)
    ensures OwnedIndex(old(db.vehicles), id, userId).Some? ==>
      var i := OwnedIndex(old(db.vehicles), id, userId).value;
      && r == ReviseVehicle(old(db.vehicles), old(db.vehicles)[i], p, currentYear)
      && (r.Ok? ==> db.vehicles == old(db.vehicles)[i := r.value])
      && (r.Err? ==> db.vehicles == old(db.vehicles))
  {
    var found := OwnedIndex(db.vehicles, id, userId);
    if found.None? {
      return Err(Error(404, VehicleNotFound));
    }
    var i := found.value;
    r := ReviseVehicle(db.vehicles, db.vehicles[i], p, currentYear);
    if r.Ok? {
      ReviseKeepsVinsDistinct(db.vehicles, i, p, currentYear);
      ReplaceVehicle(db, i, r.value);
    }
  }

  /** The in-place write of a revised row with the same key. */
  method ReplaceVehicle(db: Database, i: nat, w: Vehicle)
    requires db.Valid() && i < |db.vehicles| && w.id == db.vehicles[i].id
    requires VinsDistinct(db.vehicles[i := w])
    modifies db`vehicles
    ensures db.Valid()
    ensures db.vehicles == old(db.vehicles)[i := w]
  {
    KeysBelowReplace(db.vehicles, VehicleId, db.nextVehicleId, i, w);
    db.vehicles := db.vehicles[i := w];
  }

  /** `delete_vehicle`: 404 unless the key and owner match, 400 while any
      appointment refers to the vehicle, otherwise the row is removed; every
      appointment still refers to a vehicle on file. */
  method DeleteVehicle(db: Database, id: int, userId: int) returns (r: Outcome<Error>)
    requires db.Valid()
    modifies db`vehicles
    ensures db.Valid()
    ensures OwnedIndex(old(db.vehicles), id, userId).None? ==>
      r == Fail(Error(404, VehicleNotFound)) && db.vehicles == old(db.vehicles)
    ensures OwnedIndex(old(db.vehicles), id, userId).Some? && HasAppointments(db.appointments, id) ==>
      r == Fail(Error(400, VehicleHasAppointments)) && db.vehicles == old(db.vehicles)
    ensures OwnedIndex(old(db.vehicles), id, userId).Some? && !HasAppointments(db.appointments, id) ==>
      r == Pass && db.vehicles == RemoveAt(old(db.vehicles), OwnedIndex(old(db.vehicles), id, userId).value)
    ensures VehiclesReferenced(old(db.vehicles), db.appointments) ==> VehiclesReferenced(db.vehicles, db.appointments)
  {
    var found := OwnedIndex(db.vehicles, id, userId);
    if found.None? {
      return Fail(Error(404, VehicleNotFound));
    }
    if HasAppointments(db.appointments, id) {
      return Fail(Error(400, VehicleHasAppointments));
    }
    var i := found.value;
    KeysBelowRemove(db.vehicles, VehicleId, db.nextVehicleId, i);
    RemoveKeepsVinsDistinct(db.vehicles, i);
    if VehiclesReferenced(db.vehicles, db.appointments) {
      GuardedRemoveKeepsReferences(db.vehicles, db.appointments, i);
    }
    db.vehicles := RemoveAt(db.vehicles, i);
    return Pass;
  }
}
