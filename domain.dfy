/** The records of the ledger (users, fixed weekly slots, attendance records,
    hour adjustments, configuration entries), the enumerated choices with
    their wire codes, the error reasons and the handler reply. */
module Domain {
  import opened Common

  /** `tipo_usuario`: "MONITOR" or "DIRECTIVO". */
  datatype Role = Monitor | Directivo

  /** `jornada`: "M" (mañana) or "T" (tarde). */
  datatype Shift = Morning | Afternoon

  /** `sede`: "SA" or "BA". */
  datatype Site = SiteA | SiteB

  /** `estado_autorizacion`: "pendiente", "autorizado" or "rechazado". */
  datatype Status = Pending | Authorized | Rejected

  function ShiftCode(s: Shift): string {
    match s
    case Morning => "M"
    case Afternoon => "T"
  }

  function SiteCode(s: Site): string {
    match s
    case SiteA => "SA"
    case SiteB => "BA"
  }

  function StatusCode(s: Status): string {
    match s
    case Pending => "pendiente"
    case Authorized => "autorizado"
    case Rejected => "rechazado"
  }

  /** Reads a `jornada` code; exactly the codes of the two shifts are accepted. */
  function ParseShift(code: string): (r: Option<Shift>)
    ensures forall s :: r == Some(s) <==> code == ShiftCode(s)
  {
    if code == "M" then Some(Morning)
    else if code == "T" then Some(Afternoon)
    else None
  }

  /** Reads a `sede` code; exactly the codes of the two sites are accepted. */
  function ParseSite(code: string): (r: Option<Site>)
    ensures forall s :: r == Some(s) <==> code == SiteCode(s)
  {
    if code == "SA" then Some(SiteA)
    else if code == "BA" then Some(SiteB)
    else None
  }

  /** Reads an `estado_autorizacion` code; exactly the three status codes are accepted. */
  function ParseStatus(code: string): (r: Option<Status>)
    ensures forall s :: r == Some(s) <==> code == StatusCode(s)
  {
    if code == "pendiente" then Some(Pending)
    else if code == "autorizado" then Some(Authorized)
    else if code == "rechazado" then Some(Rejected)
    else None
  }

  /** UsuarioPersonalizado. The password hash is not modelled. */
  datatype User = User(id: nat, username: string, name: string, role: Role, authorized: bool)

  /** HorarioFijo: one recurring weekly slot of a user; `day` is 0 (Monday) .. 6. */
  datatype Slot = Slot(id: nat, owner: nat, day: int, shift: Shift, site: Site)

  /** Asistencia; `hours` in hundredths of an hour, `date` a day number. */
  datatype Attendance = Attendance(id: nat, owner: nat, slot: int, date: int,
                                   present: bool, hours: int, status: Status)

  /** AjusteHoras; `delta` in hundredths of an hour, signed. */
  datatype Adjustment = Adjustment(id: nat, target: nat, date: int, delta: int,
                                   reason: string, creator: nat)

  /** ConfiguracionSistema; `kind` is the raw `tipo_dato` tag as sent. */
  datatype ConfigEntry = ConfigEntry(id: nat, key: string, value: string, kind: Option<string>,
                                     description: string, creator: nat)

  /** What is wrong with one item of a slot batch, in the order the items are checked. */
  datatype SlotIssue = MissingDay | MissingShift | MissingSite | DayNotNumber | DayOutOfRange | BadShift | BadSite

  /** Why a request is refused with a validation error (HTTP 400). */
  datatype Reason =
    | UsernameTaken | PasswordTooShort | PasswordMismatch
    | BatchTooShort | BatchTooLong | BadSlotItem(index: nat, issue: SlotIssue)
    | SlotNotFound | HoursOutOfRange | DuplicateAttendance | BadStatus
    | MonitorNotFound | DeltaOutOfRange | DeltaZero
    | BadKey | BadValue | DuplicateKey
    | BadUserIdParam | BadSlotIdParam | BadStartDate | BadEndDate
    | BadDayParam | DayParamOutOfRange | BadShiftParam | BadSiteParam

  /** A handler's answer in place of an HTTP response: 200/201, 207, 404, 403 or 400. */
  datatype Reply<T> = Ok(value: T) | MultiStatus(value: T) | NotFound | Forbidden | Invalid(reasons: set<Reason>)
}
