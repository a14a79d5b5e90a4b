/** The read-only handlers: record lookups, the filter chains of the listing
    endpoints and the counts, sums and distinct counts they report. */
module Queries {
  import opened Common
  import opened Domain
  import opened Tables
  import Validators

  // ----- lookups -----

  predicate HasUser(users: seq<User>, id: int) {
    exists i :: 0 <= i < |users| && users[i].id == id
  }

  /** A user with this id exists and has role MONITOR. */
  predicate IsMonitor(users: seq<User>, id: int) {
    exists i :: 0 <= i < |users| && users[i].id == id && users[i].role == Monitor
  }

  /** `HorarioFijo.objects.get(id=...)`. */
  function FindSlot(slots: seq<Slot>, id: int): (r: Option<Slot>)
    ensures r.Some? ==> r.value in slots && r.value.id == id
    ensures r.None? <==> forall s :: s in slots ==> s.id != id
  {
    if slots == [] then None
    else if slots[0].id == id then Some(slots[0])
    else FindSlot(slots[1..], id)
  }

  /** The site of the slot a record points at (the `horario__sede` join);
      None when no slot has that id. */
  function SlotSite(slots: seq<Slot>, id: int): Option<Site> {
    match FindSlot(slots, id)
    case Some(s) => Some(s.site)
    case None => None
  }

  /** The position of the attendance record with this id, and, when `owner`
      is given, that owner (`Asistencia.objects.get(pk=..., usuario=...)`). */
  function FindAttendance(records: seq<Attendance>, id: int, owner: Option<nat>): (r: Option<nat>)
    ensures r.Some? ==> r.value < |records| && records[r.value].id == id
                        && (owner.Some? ==> records[r.value].owner == owner.value)
    ensures r.None? <==> forall i :: 0 <= i < |records| ==>
                           !(records[i].id == id && (owner.Some? ==> records[i].owner == owner.value))
  {
    if records == [] then None
    else if records[0].id == id && (owner.Some? ==> records[0].owner == owner.value) then Some(0)
    else
      var r := FindAttendance(records[1..], id, owner);
      assert forall i :: 1 <= i < |records| ==> records[i] == records[1..][i - 1];
      if r.Some? then Some(r.value + 1) else None
  }

  // ----- query parameters -----

  function GivenValue(f: Field<int>): Option<int> {
    if f.Given? then Some(f.value) else None
  }

  /** A `estado` or `sede` parameter: None stands for a missing or empty
      parameter, which sets no condition. */
  predicate StatusParamOk(p: Option<string>) {
    p.Some? ==> ParseStatus(p.value).Some?
  }

  predicate SiteParamOk(p: Option<string>) {
    p.Some? ==> ParseSite(p.value).Some?
  }

  function TotalHours(records: seq<Attendance>): int {
    Sum(records, (a: Attendance) => a.hours)
  }

  function Owners(records: seq<Attendance>): set<int> {
    Keys(records, (a: Attendance) => a.owner)
  }

  // ----- the caller's own attendance listing -----

  /** Parameters of `asistencias`, GET. Dates are day numbers; a `Field` is
      Absent when the parameter is missing or empty. */
  datatype OwnQuery = OwnQuery(start: Field<int>, end: Field<int>, status: Option<string>, slot: Field<int>)

  /** The parameters are checked in the order the GET branch of `asistencias`
      reads them; the first bad one is reported. */
  function OwnQueryError(q: OwnQuery): (r: Option<Reason>)
    ensures r.None? <==> !q.start.Malformed? && !q.end.Malformed? && StatusParamOk(q.status) && !q.slot.Malformed?
    ensures q.start.Malformed? ==> r == Some(BadStartDate)
    ensures !q.start.Malformed? && q.end.Malformed? ==> r == Some(BadEndDate)
    ensures !q.start.Malformed? && !q.end.Malformed? && !StatusParamOk(q.status) ==> r == Some(BadStatus)
    ensures (!q.start.Malformed? && !q.end.Malformed? && StatusParamOk(q.status) && q.slot.Malformed?)
              ==> r == Some(BadSlotIdParam)
  {
    if q.start.Malformed? then Some(BadStartDate)
    else if q.end.Malformed? then Some(BadEndDate)
    else if !StatusParamOk(q.status) then Some(BadStatus)
    else if q.slot.Malformed? then Some(BadSlotIdParam)
    else None
  }

  /** The filter chain of the own listing, applied to one record. */
  predicate OwnMatches(caller: nat, q: OwnQuery, a: Attendance) {
    && a.owner == caller
    && (q.start.Given? ==> q.start.value <= a.date)
    && (q.end.Given? ==> a.date <= q.end.value)
    && (q.status.Some? ==> StatusCode(a.status) == q.status.value)
    && (q.slot.Given? ==> a.slot == q.slot.value)
  }

  datatype OwnSummary = OwnSummary(records: seq<Attendance>, count: nat, totalHours: int)

  /** `asistencias`, GET: exactly the caller's records that pass the filters,
      with their count and total hours. */
  function OwnAttendance(users: seq<User>, records: seq<Attendance>, caller: nat, q: OwnQuery): (r: Reply<OwnSummary>)
    ensures !HasUser(users, caller) ==> r == NotFound
    ensures HasUser(users, caller) ==> (r.Invalid? <==> OwnQueryError(q).Some?)
    ensures r.Invalid? ==> r.reasons == {OwnQueryError(q).value}
    ensures r.Ok? || r.Invalid? || r.NotFound?
    ensures r.Ok? ==> forall a :: a in r.value.records <==> a in records && OwnMatches(caller, q, a)
    ensures r.Ok? ==> forall a :: (multiset(r.value.records)[a] ==
              if OwnMatches(caller, q, a) then multiset(records)[a] else 0)
    ensures r.Ok? ==> forall a :: a in r.value.records ==> a.owner == caller
    ensures r.Ok? ==> r.value.count == |r.value.records| <= |records|
    ensures r.Ok? ==> r.value.totalHours == TotalHours(r.value.records)
    ensures (r.Ok? && forall a :: a in records ==> 0 <= a.hours <= Validators.MaxHours)
              ==> 0 <= r.value.totalHours <= Validators.MaxHours * r.value.count
  {
    if !HasUser(users, caller) then NotFound
    else match OwnQueryError(q)
      case Some(e) => Invalid({e})
      case None =>
        var sel := Filter(records, (a: Attendance) => OwnMatches(caller, q, a));
        HoursBounds(records, sel);
        Ok(OwnSummary(sel, |sel|, TotalHours(sel)))
  }

  lemma HoursBounds(records: seq<Attendance>, sel: seq<Attendance>)
    requires forall a :: a in sel ==> a in records
    ensures (forall a :: a in records ==> 0 <= a.hours <= Validators.MaxHours)
              ==> 0 <= TotalHours(sel) <= Validators.MaxHours * |sel|
  {
    if forall a :: a in records ==> 0 <= a.hours <= Validators.MaxHours {
      SumBounds(sel, (a: Attendance) => a.hours, 0, Validators.MaxHours);
    }
  }

  // ----- one record of the caller -----

  /** `asistencia_detalle`, GET: the caller's record with this id; a record
      of another user is reported exactly like a missing one. */
  function AttendanceDetail(users: seq<User>, records: seq<Attendance>, caller: nat, id: int): (r: Reply<Attendance>)
    ensures r.Ok? || r.NotFound?
    ensures r.Ok? <==> HasUser(users, caller) && exists i :: 0 <= i < |records| && records[i].id == id && records[i].owner == caller
    ensures r.Ok? ==> r.value in records && r.value.id == id && r.value.owner == caller
  {
    if !HasUser(users, caller) then NotFound
    else match FindAttendance(records, id, Some(caller))
      case None => NotFound
      case Some(k) => Ok(records[k])
  }

  // ----- the directive attendance listing -----

  /** Parameters of `directivo_asistencias`. */
  datatype DirectiveQuery = DirectiveQuery(user: Field<int>, start: Field<int>, end: Field<int>,
                                           status: Option<string>, site: Option<string>)

  function DirectiveQueryError(q: DirectiveQuery): (r: Option<Reason>)
    ensures r.None? <==> && !q.user.Malformed? && !q.start.Malformed? && !q.end.Malformed?
                         && StatusParamOk(q.status) && SiteParamOk(q.site)
    ensures q.user.Malformed? ==> r == Some(BadUserIdParam)
    ensures !q.user.Malformed? && q.start.Malformed? ==> r == Some(BadStartDate)
    ensures !q.user.Malformed? && !q.start.Malformed? && q.end.Malformed? ==> r == Some(BadEndDate)
    ensures (!q.user.Malformed? && !q.start.Malformed? && !q.end.Malformed? && !StatusParamOk(q.status))
              ==> r == Some(BadStatus)
    ensures (&& !q.user.Malformed? && !q.start.Malformed? && !q.end.Malformed? && StatusParamOk(q.status)
             && !SiteParamOk(q.site))
              ==> r == Some(BadSiteParam)
  {
    if q.user.Malformed? then Some(BadUserIdParam)
    else if q.start.Malformed? then Some(BadStartDate)
    else if q.end.Malformed? then Some(BadEndDate)
    else if !StatusParamOk(q.status) then Some(BadStatus)
    else if !SiteParamOk(q.site) then Some(BadSiteParam)
    else None
  }

  /** The filter chain of the directive listing, applied to one record; the
      site condition reads the record's slot. */
  predicate DirectiveMatches(slots: seq<Slot>, q: DirectiveQuery, a: Attendance) {
    && (q.user.Given? ==> a.owner == q.user.value)
    && (q.start.Given? ==> q.start.value <= a.date)
    && (q.end.Given? ==> a.date <= q.end.value)
    && (q.status.Some? ==> StatusCode(a.status) == q.status.value)
    && (q.site.Some? ==> SlotSite(slots, a.slot).Some? && SiteCode(SlotSite(slots, a.slot).value) == q.site.value)
  }

  datatype DirectiveSummary = DirectiveSummary(records: seq<Attendance>, count: nat, totalHours: int, distinctUsers: nat)

  /** `directivo_asistencias`: exactly the records that pass the filters, with
      their count, total hours and number of distinct users. `actor` is the
      DIRECTIVO user the handler found, None when there is none. */
  function DirectiveAttendance(actor: Option<nat>, slots: seq<Slot>, records: seq<Attendance>,
                               q: DirectiveQuery): (r: Reply<DirectiveSummary>)
    ensures actor.None? ==> r == Forbidden
    ensures actor.Some? ==> (r.Invalid? <==> DirectiveQueryError(q).Some?)
    ensures r.Invalid? ==> r.reasons == {DirectiveQueryError(q).value}
    ensures r.Ok? || r.Invalid? || r.Forbidden?
    ensures r.Ok? ==> forall a :: a in r.value.records <==> a in records && DirectiveMatches(slots, q, a)
    ensures r.Ok? ==> forall a :: (multiset(r.value.records)[a] ==
              if DirectiveMatches(slots, q, a) then multiset(records)[a] else 0)
    ensures r.Ok? ==> r.value.count == |r.value.records| <= |records|
    ensures r.Ok? ==> r.value.totalHours == TotalHours(r.value.records)
    ensures r.Ok? ==> r.value.distinctUsers == |Owners(r.value.records)| <= r.value.count
    ensures r.Ok? ==> forall u :: u in Owners(r.value.records) <==> exists a :: a in r.value.records && a.owner == u
    ensures (r.Ok? && forall a :: a in records ==> 0 <= a.hours <= Validators.MaxHours)
              ==> 0 <= r.value.totalHours <= Validators.MaxHours * r.value.count
  {
    if actor.None? then Forbidden
    else match DirectiveQueryError(q)
      case Some(e) => Invalid({e})
      case None =>
        var sel := Filter(records, (a: Attendance) => DirectiveMatches(slots, q, a));
        HoursBounds(records, sel);
        Ok(DirectiveSummary(sel, |sel|, TotalHours(sel), |Owners(sel)|))
  }

  // ----- adjustment listing -----

  const WindowDays: int := 30

  datatype AdjustmentQuery = AdjustmentQuery(monitor: Field<int>, start: Field<int>, end: Field<int>)

  datatype AdjustmentSummary = AdjustmentSummary(from: int, to: int, records: seq<Adjustment>,
                                                 count: nat, totalDelta: int, distinctUsers: nat)

  function TotalDelta(records: seq<Adjustment>): int {
    Sum(records, (a: Adjustment) => a.delta)
  }

  function Targets(records: seq<Adjustment>): set<int> {
    Keys(records, (a: Adjustment) => a.target)
  }

  /** `directivo_ajustes_horas`, GET: a missing or unreadable start date
      falls back to 30 days before `today`, a missing or unreadable end date
      to `today`; only adjustments inside that window are listed and summed. */
  function AdjustmentListing(actor: Option<nat>, adjustments: seq<Adjustment>, q: AdjustmentQuery,
                             today: int): (r: Reply<AdjustmentSummary>)
    ensures actor.None? ==> r == Forbidden
    ensures actor.Some? && q.monitor.Malformed? ==> r == Invalid({BadUserIdParam})
    ensures actor.Some? && !q.monitor.Malformed? ==> r.Ok?
    ensures r.Ok? ==> r.value.from == (if q.start.Given? then q.start.value else today - WindowDays)
    ensures r.Ok? ==> r.value.to == (if q.end.Given? then q.end.value else today)
    ensures r.Ok? ==> forall a :: a in r.value.records <==>
              && a in adjustments
              && (q.monitor.Given? ==> a.target == q.monitor.value)
              && r.value.from <= a.date <= r.value.to
    ensures r.Ok? ==> forall a :: (multiset(r.value.records)[a] ==
              if (q.monitor.Given? ==> a.target == q.monitor.value) && r.value.from <= a.date <= r.value.to
              then multiset(adjustments)[a] else 0)
    ensures r.Ok? ==> r.value.count == |r.value.records| <= |adjustments|
    ensures r.Ok? ==> r.value.totalDelta == TotalDelta(r.value.records)
    ensures r.Ok? ==> r.value.distinctUsers == |Targets(r.value.records)| <= r.value.count
    ensures (r.Ok? && forall a :: a in adjustments ==> -Validators.MaxHours <= a.delta <= Validators.MaxHours)
              ==> -Validators.MaxHours * r.value.count <= r.value.totalDelta <= Validators.MaxHours * r.value.count
  {
    if actor.None? then Forbidden
    else if q.monitor.Malformed? then Invalid({BadUserIdParam})
    else
      var from := if q.start.Given? then q.start.value else today - WindowDays;
      var to := if q.end.Given? then q.end.value else today;
      var monitor := GivenValue(q.monitor);
      var sel := Filter(adjustments, (a: Adjustment) =>
                   (monitor.Some? ==> a.target == monitor.value) && from <= a.date <= to);
      assert forall a :: a in sel ==> a in adjustments;
      DeltaBounds(adjustments, sel);
      Ok(AdjustmentSummary(from, to, sel, |sel|, TotalDelta(sel), |Targets(sel)|))
  }

  lemma DeltaBounds(adjustments: seq<Adjustment>, sel: seq<Adjustment>)
    requires forall a :: a in sel ==> a in adjustments
    ensures (forall a :: a in adjustments ==> -Validators.MaxHours <= a.delta <= Validators.MaxHours)
              ==> -Validators.MaxHours * |sel| <= TotalDelta(sel) <= Validators.MaxHours * |sel|
  {
    if forall a :: a in adjustments ==> -Validators.MaxHours <= a.delta <= Validators.MaxHours {
      SumBounds(sel, (a: Adjustment) => a.delta, -Validators.MaxHours, Validators.MaxHours);
    }
  }

  // ----- directive slot listing -----

  /** Parameters of `directivo_horarios_monitores`. Here `day` is Absent only
      when the parameter is missing: an empty `dia_semana` fails `int(...)`. */
  datatype SlotQuery = SlotQuery(user: Field<int>, day: Field<int>, shift: Option<string>, site: Option<string>)

  datatype SlotSummary = SlotSummary(slots: seq<Slot>, count: nat, distinctMonitors: nat)

  function SlotQueryError(q: SlotQuery): (r: Option<Reason>)
    ensures r.None? <==> && !q.user.Malformed? && !q.day.Malformed?
                         && (q.day.Given? ==> 0 <= q.day.value <= 6)
                         && (q.shift.Some? ==> ParseShift(q.shift.value).Some?)
                         && (q.site.Some? ==> ParseSite(q.site.value).Some?)
    ensures q.user.Malformed? ==> r == Some(BadUserIdParam)
    ensures !q.user.Malformed? && q.day.Malformed? ==> r == Some(BadDayParam)
    ensures !q.user.Malformed? && q.day.Given? && !(0 <= q.day.value <= 6) ==> r == Some(DayParamOutOfRange)
    ensures (&& !q.user.Malformed? && !q.day.Malformed? && (q.day.Given? ==> 0 <= q.day.value <= 6)
             && q.shift.Some? && ParseShift(q.shift.value).None?)
              ==> r == Some(BadShiftParam)
    ensures (&& !q.user.Malformed? && !q.day.Malformed? && (q.day.Given? ==> 0 <= q.day.value <= 6)
             && (q.shift.Some? ==> ParseShift(q.shift.value).Some?)
             && q.site.Some? && ParseSite(q.site.value).None?)
              ==> r == Some(BadSiteParam)
  {
    if q.user.Malformed? then Some(BadUserIdParam)
    else if q.day.Malformed? then Some(BadDayParam)
    else if q.day.Given? && (q.day.value < 0 || q.day.value > 6) then Some(DayParamOutOfRange)
    else if q.shift.Some? && ParseShift(q.shift.value).None? then Some(BadShiftParam)
    else if q.site.Some? && ParseSite(q.site.value).None? then Some(BadSiteParam)
    else None
  }

  predicate SlotMatches(users: seq<User>, q: SlotQuery, s: Slot) {
    && IsMonitor(users, s.owner)
    && (q.user.Given? ==> s.owner == q.user.value)
    && (q.day.Given? ==> s.day == q.day.value)
    && (q.shift.Some? ==> ShiftCode(s.shift) == q.shift.value)
    && (q.site.Some? ==> SiteCode(s.site) == q.site.value)
  }

  function SlotOwners(slots: seq<Slot>): set<int> {
    Keys(slots, (s: Slot) => s.owner)
  }

  /** `directivo_horarios_monitores`: the slots of MONITOR users narrowed by
      user, day, shift and site, with the number of slots and of distinct
      monitors. */
  function MonitorSlots(actor: Option<nat>, users: seq<User>, slots: seq<Slot>, q: SlotQuery): (r: Reply<SlotSummary>)
    ensures actor.None? ==> r == Forbidden
    ensures actor.Some? ==> (r.Invalid? <==> SlotQueryError(q).Some?)
    ensures r.Invalid? ==> r.reasons == {SlotQueryError(q).value}
    ensures r.Ok? || r.Invalid? || r.Forbidden?
    ensures r.Ok? ==> forall s :: s in r.value.slots <==>
              && s in slots
              && IsMonitor(users, s.owner)
              && (q.user.Given? ==> s.owner == q.user.value)
              && (q.day.Given? ==> s.day == q.day.value)
              && (q.shift.Some? ==> ShiftCode(s.shift) == q.shift.value)
              && (q.site.Some? ==> SiteCode(s.site) == q.site.value)
    ensures r.Ok? ==> forall s :: (multiset(r.value.slots)[s] ==
              if SlotMatches(users, q, s) then multiset(slots)[s] else 0)
    ensures r.Ok? ==> r.value.count == |r.value.slots| <= |slots|
    ensures r.Ok? ==> r.value.distinctMonitors == |SlotOwners(r.value.slots)| <= r.value.count
  {
    if actor.None? then Forbidden
    else match SlotQueryError(q)
      case Some(e) => Invalid({e})
      case None =>
        var sel := Filter(slots, (s: Slot) => SlotMatches(users, q, s));
        Ok(SlotSummary(sel, |sel|, |SlotOwners(sel)|))
  }
}
