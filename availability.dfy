/** The weekly availability of providers: one opening window per provider and
    weekday, set by a validated upsert, listed by weekday, deleted by owner. */
module ProviderAvailability {
  import opened Wrappers
  import opened Records
  import opened Queries
  import opened Store

  /** The body of a set-availability request; times of day are minutes after
      midnight once parsed. */
  datatype AvailabilityRequest = AvailabilityRequest(
    dayOfWeek: Option<int>,
    startTime: Option<Parsed>,
    endTime: Option<Parsed>,
    isAvailable: Option<bool>)

  /** `User.query.filter_by(id=..., role='provider').first()` finds a row. */
  predicate IsProvider(users: seq<User>, id: int) {
    exists i :: 0 <= i < |users| && users[i].id == id && users[i].role == Provider
  }

  function HasProviderRow(users: seq<User>, id: int): (r: bool)
    ensures r <==> IsProvider(users, id)
  {
    FirstIndex(users, (u: User) => u.id == id && u.role == Provider).Some?
  }

  /** The request, once every check has passed. */
  predicate WellFormedRequest(req: AvailabilityRequest) {
    && req.dayOfWeek.Some? && req.startTime.Some? && req.endTime.Some?
    && 0 <= req.dayOfWeek.value <= 6
    && req.startTime.value.At? && req.endTime.value.At?
    && req.startTime.value.minutes < req.endTime.value.minutes
  }

  /** The checks of `set_availability`, first failure wins: the provider, the
      three required fields (a day of 0 is present), the day's range, the time
      format, the order of the times. */
  function RequestError(users: seq<User>, providerId: int, req: AvailabilityRequest): (r: Option<Error>)
    ensures r.None? <==> IsProvider(users, providerId) && WellFormedRequest(req)
    ensures !IsProvider(users, providerId) ==> r == Some(Error(404, ProviderNotFound))
    ensures IsProvider(users, providerId) && (req.dayOfWeek.None? || req.startTime.None? || req.endTime.None?) ==>
      r == Some(Error(400, MissingFields))
    ensures IsProvider(users, providerId) && req.dayOfWeek.Some? && req.startTime.Some? && req.endTime.Some? ==>
      && (!(0 <= req.dayOfWeek.value <= 6) ==> r == Some(Error(400, InvalidDayOfWeek)))
      && (0 <= req.dayOfWeek.value <= 6 && (req.startTime.value.Unparseable? || req.endTime.value.Unparseable?) ==>
          r == Some(Error(400, InvalidTimeFormat)))
      && ((0 <= req.dayOfWeek.value <= 6 && req.startTime.value.At? && req.endTime.value.At? &&
           req.startTime.value.minutes >= req.endTime.value.minutes) ==> r == Some(Error(400, StartNotBeforeEnd)))
  {
    if !HasProviderRow(users, providerId) then Some(Error(404, ProviderNotFound))
    else if req.dayOfWeek.None? || req.startTime.None? || req.endTime.None? then Some(Error(400, MissingFields))
    else if !(0 <= req.dayOfWeek.value <= 6) then Some(Error(400, InvalidDayOfWeek))
    else if req.startTime.value.Unparseable? || req.endTime.value.Unparseable? then Some(Error(400, InvalidTimeFormat))
    else if req.startTime.value.minutes >= req.endTime.value.minutes then Some(Error(400, StartNotBeforeEnd))
    else None
  }

  /** The position of the record for this provider and weekday, if any. */
  function DayIndex(rows: seq<Availability>, providerId: int, day: int): (r: Option<nat>)
    ensures r.Some? ==> r.value < |rows| && rows[r.value].providerId == providerId && rows[r.value].dayOfWeek == day
    ensures r.None? ==> forall k :: 0 <= k < |rows| ==> !(rows[k].providerId == providerId && rows[k].dayOfWeek == day)
  {
    FirstIndex(rows, (a: Availability) => a.providerId == providerId && a.dayOfWeek == day)
  }

  /** The table after the upsert: the existing record for the provider's weekday
      rewritten in place, or a new record under key `next`. Afterwards a record
      for the weekday holds the new window, one record per provider and weekday
      stays so (so it is the only one), and no other record is touched. */
  function Upserted(rows: seq<Availability>, next: int, providerId: int, day: int, start: int, end: int, open: bool): (r: seq<Availability>)
    ensures exists k :: 0 <= k < |r| && r[k] == Availability(r[k].id, providerId, day, start, end, open)
    ensures OnePerProviderDay(rows) ==> OnePerProviderDay(r)
    ensures forall a: Availability :: !(a.providerId == providerId && a.dayOfWeek == day) ==> multiset(r)[a] == multiset(rows)[a]
  {
    match DayIndex(rows, providerId, day)
    case Some(i) =>
      var r := rows[i := rows[i].(startTime := start, endTime := end, isAvailable := open)];
      assert r[i] == Availability(r[i].id, providerId, day, start, end, open);
      assert OnePerProviderDay(rows) ==> OnePerProviderDay(r) by {
        if OnePerProviderDay(rows) {
          forall a, b | 0 <= a < b < |r|
            ensures !(r[a].providerId == r[b].providerId && r[a].dayOfWeek == r[b].dayOfWeek)
          {
            assert r[a].providerId == rows[a].providerId && r[a].dayOfWeek == rows[a].dayOfWeek;
            assert r[b].providerId == rows[b].providerId && r[b].dayOfWeek == rows[b].dayOfWeek;
          }
        }
      }
      UpsertOthersUntouched(rows, i, r[i], providerId, day);
      r
    case None =>
      var r := rows + [Availability(next, providerId, day, start, end, open)];
      assert r[|rows|] == Availability(next, providerId, day, start, end, open);
      r
  }

  /** With the one-record rule in force, after the upsert every record of the
      provider's weekday is the one holding the new window. */
  lemma UpsertLeavesExactlyOne(rows: seq<Availability>, next: int, providerId: int, day: int, start: int, end: int, open: bool)
    requires OnePerProviderDay(rows)
    ensures var r := Upserted(rows, next, providerId, day, start, end, open);
      forall k :: 0 <= k < |r| && r[k].providerId == providerId && r[k].dayOfWeek == day ==>
        r[k].startTime == start && r[k].endTime == end && r[k].isAvailable == open
  {
    var r := Upserted(rows, next, providerId, day, start, end, open);
    var k0 :| 0 <= k0 < |r| && r[k0] == Availability(r[k0].id, providerId, day, start, end, open);
    forall k | 0 <= k < |r| && r[k].providerId == providerId && r[k].dayOfWeek == day
      ensures r[k].startTime == start && r[k].endTime == end && r[k].isAvailable == open
    {
      if k != k0 {
        assert false;
      }
    }
  }

  lemma UpsertOthersUntouched(rows: seq<Availability>, i: nat, b: Availability, providerId: int, day: int)
    requires i < |rows| && rows[i].providerId == providerId && rows[i].dayOfWeek == day
    requires b.providerId == providerId && b.dayOfWeek == day
    ensures forall a: Availability :: !(a.providerId == providerId && a.dayOfWeek == day) ==> multiset(rows[i := b])[a] == multiset(rows)[a]
  {
    assert rows == rows[..i] + [rows[i]] + rows[i + 1..];
    assert rows[i := b] == rows[..i] + [b] + rows[i + 1..];
  }

  /** `set_availability`: on success the provider's weekday is rewritten in place
      when it has a record and gets a new one otherwise; `is_available` defaults
      to true. On any failure nothing changes. */
  method SetAvailability(db: Database, providerId: int, req: AvailabilityRequest) returns (r: Result<Availability, Error>)
    requires db.Valid()
    modifies db`availability, db`nextAvailabilityId
    ensures db.Valid()
    ensures RequestError(db.users, providerId, req).Some? ==>
      && r == Err(RequestError(db.users, providerId, req).value)
      && db.availability == old(db.availability) && db.nextAvailabilityId == old(db.nextAvailabilityId)
    ensures RequestError(db.users, providerId, req).None? ==>
      && r.Ok?
      && r.value == Availability(r.value.id, providerId, req.dayOfWeek.value, req.startTime.value.minutes,
                                 req.endTime.value.minutes, req.isAvailable.GetOr(true))
      && db.availability == Upserted(old(db.availability), old(db.nextAvailabilityId), providerId, req.dayOfWeek.value,
                                     req.startTime.value.minutes, req.endTime.value.minutes, req.isAvailable.GetOr(true))
      && r.value in db.availability
      && db.nextAvailabilityId ==
         old(db.nextAvailabilityId) + (if DayIndex(old(db.availability), providerId, req.dayOfWeek.value).Some? then 0 else 1)
  {
    var failure := RequestError(db.users, providerId, req);
    if failure.Some? {
      return Err(failure.value);
    }
    var a := Upsert(db, providerId, req.dayOfWeek.value, req.startTime.value.minutes, req.endTime.value.minutes,
                    req.isAvailable.GetOr(true));
    r := Ok(a);
  }

  /** The write itself: rewrite the weekday's record in place, or insert one
      under the next key. */
  method Upsert(db: Database, providerId: int, day: int, start: int, end: int, open: bool) returns (a: Availability)
    requires db.Valid()
    modifies db`availability, db`nextAvailabilityId
    ensures db.Valid()
    ensures a == Availability(a.id, providerId, day, start, end, open)
    ensures db.availability == Upserted(old(db.availability), old(db.nextAvailabilityId), providerId, day, start, end, open)
    ensures a in db.availability
    ensures DayIndex(old(db.availability), providerId, day).Some? ==>
      a.id == old(db.availability)[DayIndex(old(db.availability), providerId, day).value].id &&
      db.nextAvailabilityId == old(db.nextAvailabilityId)
    ensures DayIndex(old(db.availability), providerId, day).None? ==>
      a.id == old(db.nextAvailabilityId) && db.nextAvailabilityId == old(db.nextAvailabilityId) + 1
  {
    var existing := DayIndex(db.availability, providerId, day);
    if existing.Some? {
      var i := existing.value;
      a := db.availability[i].(startTime := start, endTime := end, isAvailable := open);
      assert db.availability[i := a] == Upserted(db.availability, db.nextAvailabilityId, providerId, day, start, end, open);
      ReplaceAvailability(db, i, a);
      assert db.availability[i] == a;
    } else {
      a := Availability(db.nextAvailabilityId, providerId, day, start, end, open);
      assert db.availability + [a] == Upserted(db.availability, db.nextAvailabilityId, providerId, day, start, end, open);
      AddAvailability(db, a);
      assert db.availability[|db.availability| - 1] == a;
    }
  }

  /** The in-place write of one record, keeping its key. */
  method ReplaceAvailability(db: Database, i: nat, a: Availability)
    requires db.Valid() && i < |db.availability| && a.id == db.availability[i].id
    requires OnePerProviderDay(db.availability[i := a])
    modifies db`availability
    ensures db.Valid()
    ensures db.availability == old(db.availability)[i := a]
  {
    KeysBelowReplace(db.availability, AvailabilityId, db.nextAvailabilityId, i, a);
    db.availability := db.availability[i := a];
  }

  /** The insert: the record goes in under the next key, which moves on. */
  method AddAvailability(db: Database, a: Availability)
    requires db.Valid() && a.id == db.nextAvailabilityId
    requires OnePerProviderDay(db.availability + [a])
    modifies db`availability, db`nextAvailabilityId
    ensures db.Valid()
    ensures db.availability == old(db.availability) + [a] && db.nextAvailabilityId == old(db.nextAvailabilityId) + 1
  {
    KeysBelowAppend(db.availability, AvailabilityId, db.nextAvailabilityId, a);
    db.availability := db.availability + [a];
    db.nextAvailabilityId := db.nextAvailabilityId + 1;
  }

  /** `order_by(day_of_week)`. */
  predicate EarlierDay(a: Availability, b: Availability) {
    a.dayOfWeek <= b.dayOfWeek
  }

  lemma EarlierDayIsTotalPreorder()
    ensures TotalPreorder(EarlierDay)
  {
  }

  /** `get_availability`: exactly the provider's records, each once, by weekday.
      An unknown provider gets an empty schedule, not an error. */
  function GetAvailability(rows: seq<Availability>, providerId: int): (r: seq<Availability>)
    ensures forall a :: multiset(r)[a] == if a.providerId == providerId then multiset(rows)[a] else 0
    ensures SortedBy(r, EarlierDay)
  {
    EarlierDayIsTotalPreorder();
    SortBy(Filter(rows, (a: Availability) => a.providerId == providerId), EarlierDay)
  }

  /** `get_all_providers`: the active users with the provider role, each once. */
  function GetAllProviders(users: seq<User>): (r: seq<User>)
    ensures forall u :: multiset(r)[u] == if u.role == Provider && u.isActive then multiset(users)[u] else 0
  {
    Filter(users, (u: User) => u.role == Provider && u.isActive)
  }

  /** What `get_provider_by_id` answers with: the provider and their records. */
  datatype ProviderView = ProviderView(provider: User, availability: seq<Availability>)

  /** `get_provider_by_id`: 404 unless a user with this key has the provider
      role (active or not), else the user with all of their records. */
  function GetProvider(users: seq<User>, rows: seq<Availability>, providerId: int): (r: Result<ProviderView, Error>)
    ensures r.Ok? <==> IsProvider(users, providerId)
    ensures r.Err? ==> r.error == Error(404, ProviderNotFound)
    ensures r.Ok? ==>
      && r.value.provider in users && r.value.provider.id == providerId && r.value.provider.role == Provider
      && forall a :: multiset(r.value.availability)[a] == if a.providerId == providerId then multiset(rows)[a] else 0
  {
    match FirstIndex(users, (u: User) => u.id == providerId && u.role == Provider)
    case None => Err(Error(404, ProviderNotFound))
    case Some(i) => Ok(ProviderView(users[i], Filter(rows, (a: Availability) => a.providerId == providerId)))
  }

  /** The provider page and the schedule listing show the same records; only
      the order may differ. */
  lemma ProviderPageShowsSchedule(users: seq<User>, rows: seq<Availability>, providerId: int)
    requires IsProvider(users, providerId)
    ensures multiset(GetProvider(users, rows, providerId).value.availability) == multiset(GetAvailability(rows, providerId))
  {
    var page := GetProvider(users, rows, providerId).value.availability;
    var listed := GetAvailability(rows, providerId);
    assert forall a :: multiset(page)[a] == multiset(listed)[a];
  }

  /** The position of the record with this key owned by this provider, if any. */
  function OwnedIndex(rows: seq<Availability>, providerId: int, id: int): (r: Option<nat>)
    ensures r.Some? ==> r.value < |rows| && rows[r.value].id == id && rows[r.value].providerId == providerId
    ensures r.None? <==> forall k :: 0 <= k < |rows| ==> !(rows[k].id == id && rows[k].providerId == providerId)
  {
    FirstIndex(rows, (a: Availability) => a.id == id && a.providerId == providerId)
  }

  /** Deleting a record keeps one record per provider and weekday. */
  lemma RemoveKeepsOnePerProviderDay(rows: seq<Availability>, i: nat)
    requires OnePerProviderDay(rows) && i < |rows|
    ensures OnePerProviderDay(RemoveAt(rows, i))
  {
    var r := RemoveAt(rows, i);
    forall a, b | 0 <= a < b < |r|
      ensures !(r[a].providerId == r[b].providerId && r[a].dayOfWeek == r[b].dayOfWeek)
    {
      var a', b' := if a < i then a else a + 1, if b < i then b else b + 1;
      assert r[a] == rows[a'] && r[b] == rows[b'];
    }
  }

  /** `delete_availability`: only a record matching both the key and the
      provider is removed; otherwise 404 and nothing changes. */
  method DeleteAvailability(db: Database, providerId: int, id: int) returns (r: Outcome<Error>)
    requires db.Valid()
    modifies db`availability
    ensures db.Valid()
    ensures r.Fail? <==> OwnedIndex(old(db.availability), providerId, id).None?
    ensures r.Fail? ==> r.error == Error(404, AvailabilityNotFound) && db.availability == old(db.availability)
    ensures r.Pass? ==>
      var i := OwnedIndex(old(db.availability), providerId, id).value;
      && db.availability == RemoveAt(old(db.availability), i)
      && old(db.availability)[i].id == id && old(db.availability)[i].providerId == providerId
  {
    var found := OwnedIndex(db.availability, providerId, id);
    if found.None? {
      return Fail(Error(404, AvailabilityNotFound));
    }
    KeysBelowRemove(db.availability, AvailabilityId, db.nextAvailabilityId, found.value);
    RemoveKeepsOnePerProviderDay(db.availability, found.value);
    db.availability := RemoveAt(db.availability, found.value);
    return Pass;
  }
}
