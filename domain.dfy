/** The persistent records and enumerations shared by the server actions,
    route handlers and components (the database package's BookingStatus and
    UserRole tables, and the rows the actions read and write). */
module Domain {
  import opened Common

  type OrgId = string
  type ServiceId = string
  type BookingId = string
  type UserId = string

  /** BookingStatus as exported by the database client. */
  datatype BookingStatus = PENDENTE | CONFIRMADO | CANCELADO | CONCLUIDO

  /** The statuses that occupy capacity: every conflict query filters on
      `status in ["PENDENTE", "CONFIRMADO"]`. */
  predicate IsActive(s: BookingStatus) { s == PENDENTE || s == CONFIRMADO }

  function StatusName(s: BookingStatus): string
  {
    match s
    case PENDENTE => "PENDENTE"
    case CONFIRMADO => "CONFIRMADO"
    case CANCELADO => "CANCELADO"
    case CONCLUIDO => "CONCLUIDO"
  }

  /** Reading a status column or a status string back into the enumeration. */
  function ParseStatus(name: string): (r: Option<BookingStatus>)
    ensures r.Some? ==> StatusName(r.value) == name
  {
    if name == "PENDENTE" then Some(PENDENTE)
    else if name == "CONFIRMADO" then Some(CONFIRMADO)
    else if name == "CANCELADO" then Some(CANCELADO)
    else if name == "CONCLUIDO" then Some(CONCLUIDO)
    else None
  }

  lemma ParseStatusName(s: BookingStatus)
    ensures ParseStatus(StatusName(s)) == Some(s)
  {
  }

  /** UserRole as exported by the database client. */
  datatype Role = OWNER | ADMIN | MEMBER

  /** Organization status; the schema may define more values than the three
      the actions name, and those are carried as `OtherStatus`. */
  datatype OrgStatus = ACTIVE | DELETED | PENDING_REACTIVATION | OtherStatus(name: string)

  /** DayOfWeek, in the Monday-first order of the availability settings. */
  datatype DayOfWeek = MONDAY | TUESDAY | WEDNESDAY | THURSDAY | FRIDAY | SATURDAY | SUNDAY

  /** Position in the Monday-first week. */
  function MondayIndex(d: DayOfWeek): (i: nat)
    ensures i < 7
  {
    match d
    case MONDAY => 0
    case TUESDAY => 1
    case WEDNESDAY => 2
    case THURSDAY => 3
    case FRIDAY => 4
    case SATURDAY => 5
    case SUNDAY => 6
  }

  /** The enumeration's name, as the database returns it. */
  function DayName(d: DayOfWeek): string
  {
    match d
    case MONDAY => "MONDAY"
    case TUESDAY => "TUESDAY"
    case WEDNESDAY => "WEDNESDAY"
    case THURSDAY => "THURSDAY"
    case FRIDAY => "FRIDAY"
    case SATURDAY => "SATURDAY"
    case SUNDAY => "SUNDAY"
  }

  /** A service row. Prices are integer cents. */
  datatype Service = Service(
    id: ServiceId,
    organizationId: OrgId,
    name: string,
    description: Option<string>,
    priceCents: int,
    durationMinutes: int,
    active: bool)

  /** A booking row. Instants are whole minutes on one absolute time line
      (a day's midnight is its day number times 1440). */
  datatype Booking = Booking(
    id: BookingId,
    organizationId: OrgId,
    serviceId: ServiceId,
    clientName: string,
    clientPhone: string,
    clientEmail: Option<string>,
    startTime: int,
    endTime: int,
    status: BookingStatus,
    notes: Option<string>,
    createdAt: int,
    whatsappSent: bool)

  /** A working-hours row: one per (organization, weekday). */
  datatype WorkingHours = WorkingHours(
    organizationId: OrgId,
    dayOfWeek: DayOfWeek,
    isWorking: bool,
    startTime: string,
    endTime: string)

  /** A break-time row. */
  datatype BreakTime = BreakTime(organizationId: OrgId, startTime: string, endTime: string)

  const MinutesPerDay: int := 1440
}
