/** The service catalogue: validated creation and update, soft deletion, and
    the two listings. */
module Services {
  import opened Wrappers
  import opened Records
  import opened Queries
  import opened Store
  import Text

  /** The body of a create request; text fields default to the empty string. */
  datatype ServiceRequest = ServiceRequest(
    name: Option<string>,
    description: Option<string>,
    durationMinutes: Option<int>,
    price: Option<real>,
    category: Option<string>)

  /** `all([name, duration_minutes, price])` after stripping the name: an empty
      name, an absent or zero duration and an absent or zero price are all
      missing. */
  predicate CreateFieldsPresent(req: ServiceRequest) {
    && Text.Strip(req.name.GetOr("")) != ""
    && req.durationMinutes.Some? && req.durationMinutes.value != 0
    && req.price.Some? && req.price.value != 0.0
  }

  /** `create_service`, up to the insert: the row it adds under key `nextId`, or
      the first check that fails. A duration or price of zero is reported as
      missing, a negative one as not positive. */
  function NewService(req: ServiceRequest, nextId: int): (r: Result<Service, Error>)
    ensures r.Ok? <==> CreateFieldsPresent(req) && req.durationMinutes.value > 0 && req.price.value > 0.0
    ensures !CreateFieldsPresent(req) ==> r == Err(Error(400, MissingFields))
    ensures CreateFieldsPresent(req) && req.durationMinutes.value < 0 ==> r == Err(Error(400, DurationNotPositive))
    ensures CreateFieldsPresent(req) && req.durationMinutes.value > 0 && req.price.value < 0.0 ==>
      r == Err(Error(400, PriceNotPositive))
    ensures r.Ok? ==>
      && r.value.id == nextId && r.value.isActive
      && r.value.name == Text.Strip(req.name.GetOr("")) && r.value.name != ""
      && r.value.description == Text.Strip(req.description.GetOr(""))
      && r.value.category == Text.Strip(req.category.GetOr(""))
      && r.value.durationMinutes == req.durationMinutes.value && r.value.durationMinutes > 0
      && r.value.price == req.price.value && r.value.price > 0.0
  {
    if !CreateFieldsPresent(req) then Err(Error(400, MissingFields))
    else if req.durationMinutes.value <= 0 then Err(Error(400, DurationNotPositive))
    else if req.price.value <= 0.0 then Err(Error(400, PriceNotPositive))
    else Ok(Service(nextId, Text.Strip(req.name.GetOr("")), Text.Strip(req.description.GetOr("")),
                    req.durationMinutes.value, req.price.value, Text.Strip(req.category.GetOr("")), true))
  }

  /** The body of an update request: `None` is a key that is absent. */
  datatype ServicePatch = ServicePatch(
    name: Option<string>,
    description: Option<string>,
    durationMinutes: Option<int>,
    price: Option<real>,
    category: Option<string>,
    isActive: Option<bool>)

  /** `update_service` on the row found: a present duration must be positive,
      then a present price; absent fields keep their values, text fields are
      stripped. Nothing is kept of a failed update. */
  function ReviseService(s: Service, p: ServicePatch): (r: Result<Service, Error>)
    ensures r.Ok? <==> (p.durationMinutes.Some? ==> p.durationMinutes.value > 0) && (p.price.Some? ==> p.price.value > 0.0)
    ensures p.durationMinutes.Some? && p.durationMinutes.value <= 0 ==> r == Err(Error(400, DurationNotPositive))
    ensures (p.durationMinutes.Some? ==> p.durationMinutes.value > 0) && p.price.Some? && p.price.value <= 0.0 ==>
      r == Err(Error(400, PriceNotPositive))
    ensures r.Ok? ==>
      && r.value.id == s.id
      && r.value.name == Patched(p.name, s.name)
      && r.value.description == Patched(p.description, s.description)
      && r.value.durationMinutes == p.durationMinutes.GetOr(s.durationMinutes)
      && r.value.price == p.price.GetOr(s.price)
      && r.value.category == Patched(p.category, s.category)
      && r.value.isActive == p.isActive.GetOr(s.isActive)
  {
    if p.durationMinutes.Some? && p.durationMinutes.value <= 0 then Err(Error(400, DurationNotPositive))
    else if p.price.Some? && p.price.value <= 0.0 then Err(Error(400, PriceNotPositive))
    else
      Ok(s.(name := Patched(p.name, s.name),
            description := Patched(p.description, s.description),
            durationMinutes := p.durationMinutes.GetOr(s.durationMinutes),
            price := p.price.GetOr(s.price),
            category := Patched(p.category, s.category),
            isActive := p.isActive.GetOr(s.isActive)))
  }

  /** An empty patch changes nothing. */
  lemma EmptyPatchKeepsService(s: Service)
    ensures ReviseService(s, ServicePatch(None, None, None, None, None, None)) == Ok(s)
  {
  }

  /** `delete_service` on the table: the row found stays, marked inactive; every
      other row is as it was. */
  function Deactivated(services: seq<Service>, id: int): (r: Result<seq<Service>, Error>)
    ensures r.Err? <==> FindService(services, id).None?
    ensures r.Err? ==> r.error == Error(404, ServiceNotFound)
    ensures r.Ok? ==>
      var i := ServiceIndex(services, id).value;
      && |r.value| == |services|
      && r.value[i] == services[i].(isActive := false)
      && forall k :: 0 <= k < |services| && k != i ==> r.value[k] == services[k]
  {
    match ServiceIndex(services, id)
    case None => Err(Error(404, ServiceNotFound))
    case Some(i) => Ok(services[i := services[i].(isActive := false)])
  }

  /** Deleting a service twice is deleting it once. */
  lemma DeactivateIsIdempotent(services: seq<Service>, id: int)
    requires Deactivated(services, id).Ok?
    ensures Deactivated(Deactivated(services, id).value, id) == Deactivated(services, id)
  {
    var i := ServiceIndex(services, id).value;
    var once := Deactivated(services, id).value;
    assert once[i].id == id;
    assert ServiceIndex(once, id) == Some(i);
    assert once[i := once[i].(isActive := false)] == once;
  }

  /** `get_service_by_id`: the service with this key, active or not, or 404. */
  function GetService(services: seq<Service>, id: int): (r: Result<Service, Error>)
    ensures r.Err? <==> forall i :: 0 <= i < |services| ==> services[i].id != id
    ensures r.Err? ==> r.error == Error(404, ServiceNotFound)
    ensures r.Ok? ==> r.value in services && r.value.id == id
  {
    match FindService(services, id)
    case None => Err(Error(404, ServiceNotFound))
    case Some(s) => Ok(s)
  }

  /** A deleted service is still read by key, but as inactive. */
  lemma DeactivatedStaysFetchable(services: seq<Service>, id: int)
    requires Deactivated(services, id).Ok?
    ensures GetService(Deactivated(services, id).value, id).Ok?
    ensures !GetService(Deactivated(services, id).value, id).value.isActive
  {
    var i := ServiceIndex(services, id).value;
    var once := Deactivated(services, id).value;
    assert once[i].id == id;
    assert ServiceIndex(once, id) == Some(i);
  }

  /** `order_by(category, name)`, comparing text by code point. */
  predicate CategoryThenName(a: Service, b: Service) {
    if a.category == b.category then Text.LexLe(a.name, b.name) else Text.LexLe(a.category, b.category)
  }

  lemma CategoryThenNameIsTotalPreorder()
    ensures TotalPreorder(CategoryThenName)
  {
    forall a: Service, b: Service
      ensures CategoryThenName(a, b) || CategoryThenName(b, a)
    {
      Text.LexLeTotal(a.name, b.name);
      Text.LexLeTotal(a.category, b.category);
    }
    forall a: Service, b: Service, c: Service | CategoryThenName(a, b) && CategoryThenName(b, c)
      ensures CategoryThenName(a, c)
    {
      if a.category == b.category && b.category == c.category {
        Text.LexLeTransitive(a.name, b.name, c.name);
      } else if a.category != b.category && b.category != c.category {
        Text.LexLeTransitive(a.category, b.category, c.category);
        if a.category == c.category {
          Text.LexLeAntisymmetric(a.category, b.category);
        }
      }
    }
  }

  predicate Listable(s: Service, activeOnly: bool) {
    activeOnly ==> s.isActive
  }

  /** `get_all_services`: the active services (or all of them), each once,
      ordered by category and then name. */
  function GetAllServices(services: seq<Service>, activeOnly: bool): (r: seq<Service>)
    ensures forall s :: multiset(r)[s] == if Listable(s, activeOnly) then multiset(services)[s] else 0
    ensures SortedBy(r, CategoryThenName)
  {
    CategoryThenNameIsTotalPreorder();
    SortBy(Filter(services, (s: Service) => Listable(s, activeOnly)), CategoryThenName)
  }

  /** `get_services_by_category`: the active services of exactly that category,
      each once, in table order. */
  function GetServicesByCategory(services: seq<Service>, category: string): (r: seq<Service>)
    ensures forall s :: multiset(r)[s] == if s.isActive && s.category == category then multiset(services)[s] else 0
  {
    Filter(services, (s: Service) => s.isActive && s.category == category)
  }

  /** `create_service` against the database. */
  method CreateService(db: Database, req: ServiceRequest) returns (r: Result<Service, Error>)
    requires db.Valid()
    modifies db`services, db`nextServiceId
    ensures db.Valid()
    ensures r == NewService(req, old(db.nextServiceId))
    ensures r.Ok? ==> db.services == old(db.services) + [r.value] && db.nextServiceId == old(db.nextServiceId) + 1
    ensures r.Err? ==> db.services == old(db.services) && db.nextServiceId == old(db.nextServiceId)
  {
    r := NewService(req, db.nextServiceId);
    if r.Ok? {
      AddService(db, r.value);
    }
  }

  /** The insert: the row goes in under the next key, which moves on. */
  method AddService(db: Database, s: Service)
    requires db.Valid() && s.id == db.nextServiceId
    modifies db`services, db`nextServiceId
    ensures db.Valid()
    ensures db.services == old(db.services) + [s] && db.nextServiceId == old(db.nextServiceId) + 1
  {
    KeysBelowAppend(db.services, ServiceId, db.nextServiceId, s);
    db.services := db.services + [s];
    db.nextServiceId := db.nextServiceId + 1;
  }

  /** `update_service` against the database: 404 for an unknown key, else the
      revision is committed in place or nothing changes. */
  method UpdateService(db: Database, id: int, p: ServicePatch) returns (r: Result<Service, Error>)
    requires db.Valid()
    modifies db`services
    ensures db.Valid()
    ensures ServiceIndex(old(db.services), id).None? ==> r == Err(Error(404, ServiceNotFound)) && db.services == old(db.services)
    ensures ServiceIndex(old(db.services), id).Some? ==>
      var i := ServiceIndex(old(db.services), id).value;
      && r == ReviseService(old(db.services)[i], p)
      && (r.Ok? ==> db.services == old(db.services)[i := r.value])
      && (r.Err? ==> db.services == old(db.services))
  {
    var found := ServiceIndex(db.services, id);
    if found.None? {
      return Err(Error(404, ServiceNotFound));
    }
    var i := found.value;
    r := ReviseService(db.services[i], p);
    if r.Ok? {
      KeysBelowReplace(db.services, ServiceId, db.nextServiceId, i, r.value);
      db.services := db.services[i := r.value];
    }
  }

  /** `delete_service` against the database. */
  method DeleteService(db: Database, id: int) returns (r: Outcome<Error>)
    requires db.Valid()
    modifies db`services
    ensures db.Valid()
    ensures Deactivated(old(db.services), id).Err? ==>
      r == Fail(Deactivated(old(db.services), id).error) && db.services == old(db.services)
    ensures Deactivated(old(db.services), id).Ok? ==> r == Pass && db.services == Deactivated(old(db.services), id).value
  {
    var found := ServiceIndex(db.services, id);
    if found.None? {
      return Fail(Error(404, ServiceNotFound));
    }
    var i := found.value;
    KeysBelowReplace(db.services, ServiceId, db.nextServiceId, i, db.services[i].(isActive := false));
    db.services := db.services[i := db.services[i].(isActive := false)];
    return Pass;
  }
}
