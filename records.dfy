/** The rows of the five tables (users, services, vehicles, appointments,
    availability), the request fields that arrive as text, and the error
    responses the controllers return. */
module Records {
  import opened Wrappers
  import Validators
  import Text

  /** The `status` column. The five names the application uses have their own
      constructors; a provider or an administrator may store any other string,
      which is kept as `Unlisted`. */
  datatype Status = Pending | Confirmed | InProgress | Completed | Cancelled | Unlisted(name: string)

  /** The text stored in the `status` column. */
  function StatusName(s: Status): string {
    match s
    case Pending => "pending"
    case Confirmed => "confirmed"
    case InProgress => "in_progress"
    case Completed => "completed"
    case Cancelled => "cancelled"
    case Unlisted(name) => name
  }

  /** Reads a status string as written by a request. */
  function ParseStatus(name: string): (s: Status)
    ensures StatusName(s) == name
    ensures s.Unlisted? <==> name !in {"pending", "confirmed", "in_progress", "completed", "cancelled"}
  {
    if name == "pending" then Pending
    else if name == "confirmed" then Confirmed
    else if name == "in_progress" then InProgress
    else if name == "completed" then Completed
    else if name == "cancelled" then Cancelled
    else Unlisted(name)
  }

  /** A status as it can be read back from the column: `Unlisted` only for
      names outside the five. */
  predicate Canonical(s: Status) {
    s.Unlisted? ==> s.name !in {"pending", "confirmed", "in_progress", "completed", "cancelled"}
  }

  /** Writing a status and reading it back gives it again. */
  lemma StatusRoundTrip(s: Status)
    requires Canonical(s)
    ensures ParseStatus(StatusName(s)) == s
  {
  }

  /** The `role` column. Registration admits only the first three; the
      controllers still answer any other role, so it stays representable. */
  datatype Role = Customer | Provider | Admin | OtherRole(name: string)

  /** The role a registration names, if it is one of the three it admits. */
  function ParseRole(name: string): (r: Option<Role>)
    ensures r.Some? <==> name in {"customer", "provider", "admin"}
    ensures r.Some? ==> !r.value.OtherRole?
  {
    if name == "customer" then Some(Customer)
    else if name == "provider" then Some(Provider)
    else if name == "admin" then Some(Admin)
    else None
  }

  /** How an update applies a text field: a present value is stripped and
      replaces the old one, an absent key keeps it. */
  function Patched(field: Option<string>, current: string): string {
    if field.Some? then Text.Strip(field.value) else current
  }

  /** A timestamp that arrives as ISO text: the parse either fails or gives the
      instant in minutes (see module Clock). */
  datatype Parsed = Unparseable | At(minutes: int)

  /** Python truthiness of an optional id: absent and `0` are both false. */
  predicate Truthy(x: Option<int>) {
    x.Some? && x.value != 0
  }

  datatype User = User(
    id: int,
    email: string,
    passwordHash: string,
    firstName: string,
    lastName: string,
    phone: string,
    role: Role,
    isActive: bool,
    createdAt: int)

  datatype Service = Service(
    id: int,
    name: string,
    description: string,
    durationMinutes: int,
    price: real,
    category: string,
    isActive: bool)

  datatype Vehicle = Vehicle(
    id: int,
    userId: int,
    make: string,
    model: string,
    year: int,
    licensePlate: string,
    color: string,
    vin: Option<string>,
    notes: string,
    createdAt: int)

  datatype Appointment = Appointment(
    id: int,
    customerId: int,
    providerId: Option<int>,
    serviceId: int,
    vehicleId: int,
    startTime: int,
    endTime: int,
    status: Status,
    notes: string,
    cancellationReason: Option<string>,
    createdAt: int)

  /** One weekly opening window of a provider; times are minutes after midnight. */
  datatype Availability = Availability(
    id: int,
    providerId: int,
    dayOfWeek: int,
    startTime: int,
    endTime: int,
    isAvailable: bool)

  function UserId(u: User): int { u.id }
  function ServiceId(s: Service): int { s.id }
  function VehicleId(v: Vehicle): int { v.id }
  function AppointmentId(a: Appointment): int { a.id }
  function AvailabilityId(a: Availability): int { a.id }

  /** Why a controller answered with an error; each is one error message of the Flask controllers. */
  datatype Reason =
    | MissingFields
      // appointments
    | InvalidStartTime
    | ServiceNotFoundOrInactive
    | VehicleNotOwned
    | TimeSlotRejected(slot: Validators.TimeSlotError)
    | SlotTaken
    | AppointmentNotFound
    | Unauthorized
    | AlreadyCancelled
    | InsideCancellationWindow(hours: int)
    | ServiceNotFound
    | MalformedDate
      // provider availability
    | ProviderNotFound
    | InvalidDayOfWeek
    | InvalidTimeFormat
    | StartNotBeforeEnd
    | AvailabilityNotFound
      // services
    | DurationNotPositive
    | PriceNotPositive
      // vehicles
    | MakeModelYearRequired
    | YearRejected(year: Validators.YearError)
    | VinTaken
    | VehicleNotFound
    | VehicleHasAppointments
      // users
    | InvalidEmail
    | WeakPassword(password: Validators.PasswordError)
    | EmailTaken
    | InvalidRole
    | CredentialsRequired
    | InvalidCredentials
    | AccountDeactivated
    | UserNotFound

  /** An error response: the HTTP status code and the reason. */
  datatype Error = Error(code: int, reason: Reason)
}
