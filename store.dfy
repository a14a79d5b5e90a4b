/** The ledger behind the write handlers: one table per record kind, each
    with the next primary key the database would hand out, and one method
    per handler that changes a table. The read-only handlers are the
    functions of `Queries`, applied to these tables. */
module Store {
  import opened Common
  import opened Domain
  import opened Tables
  import opened Validators
  import opened Queries
  import opened Schedule
  import opened Configuration

  // ----- lookups used by the write handlers -----

  /** `UsuarioPersonalizado.objects.filter(username=...).exists()`. */
  predicate HasUsername(users: seq<User>, username: string) {
    exists i :: 0 <= i < |users| && users[i].username == username
  }

  /** A record of `owner` for this slot and date exists. */
  predicate HasAttendance(records: seq<Attendance>, owner: nat, slot: int, date: int) {
    exists i :: 0 <= i < |records| && records[i].owner == owner && records[i].slot == slot && records[i].date == date
  }

  // ----- the invariants of the tables -----

  /** Primary keys are positive, below the next key, and rise in insertion
      order; usernames are unique. */
  predicate UsersOk(users: seq<User>, next: nat) {
    && 1 <= next
    && (forall u :: u in users ==> 1 <= u.id < next)
    && Increasing(users, (u: User) => u.id)
    && (forall i, j :: 0 <= i < j < |users| ==> users[i].username != users[j].username)
  }

  /** Keys as for users; every slot's day is a weekday 0..6. */
  predicate SlotsOk(slots: seq<Slot>, next: nat) {
    && 1 <= next
    && (forall s :: s in slots ==> 1 <= s.id < next && 0 <= s.day <= 6)
    && Increasing(slots, (s: Slot) => s.id)
  }

  /** Keys as for users; hours within [0, 24]; at most one record per
      (user, slot, date). */
  predicate RecordsOk(records: seq<Attendance>, next: nat) {
    && 1 <= next
    && (forall a :: a in records ==> 1 <= a.id < next && 0 <= a.hours <= MaxHours)
    && Increasing(records, (a: Attendance) => a.id)
    && (forall i, j :: 0 <= i < |records| && 0 <= j < |records| && i != j ==>
          !(records[i].owner == records[j].owner && records[i].slot == records[j].slot && records[i].date == records[j].date))
  }

  /** Keys as for users; every delta is an accepted one and every target a
      monitor. */
  predicate AdjustmentsOk(adjustments: seq<Adjustment>, users: seq<User>, next: nat) {
    && 1 <= next
    && (forall a :: a in adjustments ==>
          1 <= a.id < next && -MaxHours <= a.delta <= MaxHours && a.delta != 0 && IsMonitor(users, a.target))
    && Increasing(adjustments, (a: Adjustment) => a.id)
  }

  /** Keys as for users; configuration keys are unique. */
  predicate ConfigsOk(configs: seq<ConfigEntry>, next: nat) {
    && 1 <= next
    && (forall c :: c in configs ==> 1 <= c.id < next)
    && Increasing(configs, (c: ConfigEntry) => c.id)
    && KeysUnique(configs)
  }

  // ----- how each kind of change keeps the invariants -----

  lemma UsersOkAppend(users: seq<User>, next: nat, u: User)
    requires UsersOk(users, next) && u.id == next && !HasUsername(users, u.username)
    ensures UsersOk(users + [u], next + 1)
  {
    var t := users + [u];
    forall i, j | 0 <= i < j < |t| ensures t[i].id < t[j].id && t[i].username != t[j].username {
      assert t[i] == users[i];
      if j < |users| {
        assert t[j] == users[j];
      } else {
        assert users[i] in users;
      }
    }
  }

  lemma AdjustmentsOkMoreUsers(adjustments: seq<Adjustment>, users: seq<User>, next: nat, u: User)
    requires AdjustmentsOk(adjustments, users, next)
    ensures AdjustmentsOk(adjustments, users + [u], next)
  {
    forall a | a in adjustments ensures IsMonitor(users + [u], a.target) {
      var i :| 0 <= i < |users| && users[i].id == a.target && users[i].role == Monitor;
      assert (users + [u])[i] == users[i];
    }
  }

  lemma SlotsOkAppend(slots: seq<Slot>, next: nat, s: Slot)
    requires SlotsOk(slots, next) && s.id == next && 0 <= s.day <= 6
    ensures SlotsOk(slots + [s], next + 1)
  {
    var t := slots + [s];
    forall i, j | 0 <= i < j < |t| ensures t[i].id < t[j].id {
      assert t[i] == slots[i];
      if j < |slots| {
        assert t[j] == slots[j];
      } else {
        assert slots[i] in slots;
      }
    }
  }

  lemma SlotsOkFilter(slots: seq<Slot>, next: nat, p: Slot -> bool)
    requires SlotsOk(slots, next)
    ensures SlotsOk(Filter(slots, p), next)
  {
    FilterIncreasing(slots, p, (s: Slot) => s.id);
  }

  lemma RecordsOkAppend(records: seq<Attendance>, next: nat, a: Attendance)
    requires RecordsOk(records, next) && a.id == next && 0 <= a.hours <= MaxHours
    requires !HasAttendance(records, a.owner, a.slot, a.date)
    ensures RecordsOk(records + [a], next + 1)
  {
    var t := records + [a];
    forall i, j | 0 <= i < j < |t| ensures t[i].id < t[j].id {
      assert t[i] == records[i];
      if j < |records| {
        assert t[j] == records[j];
      } else {
        assert records[i] in records;
      }
    }
    forall i, j | 0 <= i < |t| && 0 <= j < |t| && i != j
      ensures !(t[i].owner == t[j].owner && t[i].slot == t[j].slot && t[i].date == t[j].date)
    {
      if i < |records| && j < |records| {
        assert t[i] == records[i] && t[j] == records[j];
      } else if i < |records| {
        assert t[i] == records[i];
      } else {
        assert t[j] == records[j];
      }
    }
  }

  /** Replacing a record by one with the same key fields and hours in range. */
  lemma RecordsOkUpdate(records: seq<Attendance>, next: nat, k: nat, b: Attendance)
    requires RecordsOk(records, next) && k < |records| && 0 <= b.hours <= MaxHours
    requires b.id == records[k].id && b.owner == records[k].owner && b.slot == records[k].slot && b.date == records[k].date
    ensures RecordsOk(records[k := b], next)
  {
    var t := records[k := b];
    forall x | x in t ensures 1 <= x.id < next && 0 <= x.hours <= MaxHours {
      var m :| 0 <= m < |t| && t[m] == x;
      if m != k {
        assert records[m] in records;
      } else {
        assert records[k] in records;
      }
    }
  }

  lemma RecordsOkRemove(records: seq<Attendance>, next: nat, k: nat)
    requires RecordsOk(records, next) && k < |records|
    ensures RecordsOk(Remove(records, k), next)
  {
    var t := Remove(records, k);
    RemoveIncreasing(records, k, (x: Attendance) => x.id);
    forall i, j | 0 <= i < |t| && 0 <= j < |t| && i != j
      ensures !(t[i].owner == t[j].owner && t[i].slot == t[j].slot && t[i].date == t[j].date)
    {
      var i' := if i < k then i else i + 1;
      var j' := if j < k then j else j + 1;
      assert t[i] == records[i'] && t[j] == records[j'];
    }
  }

  lemma AdjustmentsOkAppend(adjustments: seq<Adjustment>, users: seq<User>, next: nat, a: Adjustment)
    requires AdjustmentsOk(adjustments, users, next) && a.id == next
    requires -MaxHours <= a.delta <= MaxHours && a.delta != 0 && IsMonitor(users, a.target)
    ensures AdjustmentsOk(adjustments + [a], users, next + 1)
  {
    var t := adjustments + [a];
    forall i, j | 0 <= i < j < |t| ensures t[i].id < t[j].id {
      assert t[i] == adjustments[i];
      if j < |adjustments| {
        assert t[j] == adjustments[j];
      } else {
        assert adjustments[i] in adjustments;
      }
    }
  }

  lemma ConfigsOkAppend(configs: seq<ConfigEntry>, next: nat, c: ConfigEntry)
    requires ConfigsOk(configs, next) && c.id == next && !HasKey(configs, c.key)
    ensures ConfigsOk(configs + [c], next + 1)
  {
    var t := configs + [c];
    forall i, j | 0 <= i < j < |t| ensures t[i].id < t[j].id && t[i].key != t[j].key {
      assert t[i] == configs[i];
      if j < |configs| {
        assert t[j] == configs[j];
      } else {
        assert configs[i] in configs;
      }
    }
  }

  // ----- request validation of the write handlers -----

  /** `AsistenciaCreateSerializer`: the field checks (`validate_horario_id`,
      `validate_horas`) are all reported together; the uniqueness check of
      `validate` runs only when they pass, and only for a non-zero slot id. */
  function CreateAttendanceErrors(slots: seq<Slot>, records: seq<Attendance>, caller: nat,
                                  slotId: int, date: int, hours: int): (r: set<Reason>)
    ensures SlotNotFound in r <==> FindSlot(slots, slotId).None?
    ensures HoursOutOfRange in r <==> !(0 <= hours <= MaxHours)
    ensures DuplicateAttendance in r <==>
              FindSlot(slots, slotId).Some? && 0 <= hours <= MaxHours && slotId != 0 && HasAttendance(records, caller, slotId, date)
    ensures r <= {SlotNotFound, HoursOutOfRange, DuplicateAttendance}
  {
    var fields := (if FindSlot(slots, slotId).None? then {SlotNotFound} else {})
                + (if CheckHours(hours).Some? then {HoursOutOfRange} else {});
    if fields != {} then fields
    else if slotId != 0 && HasAttendance(records, caller, slotId, date) then {DuplicateAttendance}
    else {}
  }

  /** `AsistenciaUpdateSerializer` with `partial=True`: only the supplied
      fields are checked; a status must be one of the three choices. */
  function UpdateAttendanceErrors(hours: Option<int>, status: Option<string>): (r: set<Reason>)
    ensures r == {} <==> (hours.Some? ==> 0 <= hours.value <= MaxHours) && (status.Some? ==> ParseStatus(status.value).Some?)
    ensures HoursOutOfRange in r <==> hours.Some? && !(0 <= hours.value <= MaxHours)
    ensures BadStatus in r <==> status.Some? && ParseStatus(status.value).None?
    ensures r <= {HoursOutOfRange, BadStatus}
  {
    (if hours.Some? && CheckHours(hours.value).Some? then {HoursOutOfRange} else {})
    + (if status.Some? && ParseStatus(status.value).None? then {BadStatus} else {})
  }

  /** `AjusteHorasCreateSerializer`: the target must be an existing MONITOR
      and the delta an accepted one; both checks are reported together. */
  function AdjustmentErrors(users: seq<User>, monitorId: int, delta: int): (r: set<Reason>)
    ensures r == {} <==> IsMonitor(users, monitorId) && -MaxHours <= delta <= MaxHours && delta != 0
    ensures MonitorNotFound in r <==> !IsMonitor(users, monitorId)
    ensures DeltaZero in r <==> delta == 0
    ensures DeltaOutOfRange in r <==> delta < -MaxHours || MaxHours < delta
    ensures r <= {MonitorNotFound, DeltaZero, DeltaOutOfRange}
  {
    (if IsMonitor(users, monitorId) then {} else {MonitorNotFound})
    + (match CheckDelta(delta) case None => {} case Some(e) => {e})
  }

  /** `ConfiguracionSistemaCreateSerializer`: the key shape and the value,
      judged by the raw type tag, are reported together. */
  function ConfigErrors(key: string, value: string, kind: Option<string>,
                        isDecimal: string -> bool, isInteger: string -> bool): (r: set<Reason>)
    ensures r == {} <==> KeyShape(key) && CheckValue(kind, value, isDecimal, isInteger).None?
    ensures BadKey in r <==> !KeyShape(key)
    ensures BadValue in r <==> CheckValue(kind, value, isDecimal, isInteger).Some?
    ensures r <= {BadKey, BadValue}
  {
    (if NormalizeKey(key).Failure? then {BadKey} else {})
    + (match CheckValue(kind, value, isDecimal, isInteger) case None => {} case Some(e) => {e})
  }

  // ----- replies -----

  /** `horarios_fijos_multiple`: the slots created, `total_solicitados` and the
      (0-based) positions of the items reported in `errores`. */
  datatype AddSummary = AddSummary(created: seq<Slot>, requested: nat, errors: seq<nat>)

  /** `horarios_fijos_edit_multiple`: `horarios_eliminados`, the slots created
      and `total_solicitados`. */
  datatype ReplaceSummary = ReplaceSummary(deleted: nat, created: seq<Slot>, requested: nat)

  /** `directivo_configuraciones_inicializar`: the entries created, the keys
      found present, and `total_procesadas`. */
  datatype SeedSummary = SeedSummary(created: seq<ConfigEntry>, existing: seq<string>, processed: nat)

  /** Every table and counter of a ledger, as one value. */
  datatype Snapshot = Snapshot(users: seq<User>, slots: seq<Slot>, attendance: seq<Attendance>,
                               adjustments: seq<Adjustment>, configs: seq<ConfigEntry>,
                               nextUser: nat, nextSlot: nat, nextAttendance: nat,
                               nextAdjustment: nat, nextConfig: nat)

  class Ledger {
    var users: seq<User>
    var slots: seq<Slot>
    var attendance: seq<Attendance>
    var adjustments: seq<Adjustment>
    var configs: seq<ConfigEntry>
    var nextUser: nat
    var nextSlot: nat
    var nextAttendance: nat
    var nextAdjustment: nat
    var nextConfig: nat

    function State(): Snapshot
      reads this
    {
      Snapshot(users, slots, attendance, adjustments, configs,
               nextUser, nextSlot, nextAttendance, nextAdjustment, nextConfig)
    }

    ghost predicate Valid()
      reads this
    {
      && UsersOk(users, nextUser)
      && SlotsOk(slots, nextSlot)
      && RecordsOk(attendance, nextAttendance)
      && AdjustmentsOk(adjustments, users, nextAdjustment)
      && ConfigsOk(configs, nextConfig)
    }

    /** An empty database; primary keys start at 1. */
    constructor ()
      ensures Valid()
      ensures State() == Snapshot([], [], [], [], [], 1, 1, 1, 1, 1)
    {
      users, slots, attendance, adjustments, configs := [], [], [], [], [];
      nextUser, nextSlot, nextAttendance, nextAdjustment, nextConfig := 1, 1, 1, 1, 1;
    }

    /** `registro_usuario`: a new user always gets role MONITOR, whatever
        the request says; a taken username, a short password or a
        mismatched confirmation is refused and nothing is stored. */
    method Register(username: string, name: string, password: string, confirm: string) returns (r: Reply<User>)
      requires Valid()
      modifies this
      ensures Valid()
      ensures r.Ok? || r.Invalid?
      ensures r.Invalid? <==> RegistrationErrors(HasUsername(old(users), username), password, confirm) != {}
      ensures r.Invalid? ==> r.reasons == RegistrationErrors(HasUsername(old(users), username), password, confirm)
                             && State() == old(State())
      ensures r.Ok? ==> r.value == User(old(nextUser), username, name, Monitor, false)
                        && State() == old(State()).(users := old(users) + [r.value], nextUser := old(nextUser) + 1)
    {
      var errors := RegistrationErrors(HasUsername(users, username), password, confirm);
      if errors != {} {
        return Invalid(errors);
      }
      var u := User(nextUser, username, name, Monitor, false);
      UsersOkAppend(users, nextUser, u);
      AdjustmentsOkMoreUsers(adjustments, users, nextAdjustment, u);
      users := users + [u];
      nextUser := nextUser + 1;
      r := Ok(u);
    }

    /** The loop of `horarios_fijos_multiple`: an item whose day and shift
        the owner already has is reported by its position, any other is
        inserted. */
    method AddSlotsLoop(owner: nat, specs: seq<SlotSpec>) returns (created: seq<Slot>, errors: seq<nat>)
      requires SlotsOk(slots, nextSlot)
      requires forall k :: 0 <= k < |specs| ==> 0 <= specs[k].day <= 6
      modifies this
      ensures SlotsOk(slots, nextSlot)
      ensures AddPlan(old(slots), old(nextSlot), owner, specs) == AddState(slots, created, errors, nextSlot)
      ensures State() == old(State()).(slots := slots, nextSlot := nextSlot)
    {
      created, errors := [], [];
      var i := 0;
      while i < |specs|
        invariant 0 <= i <= |specs|
        invariant AddPlan(old(slots), old(nextSlot), owner, specs[..i]) == AddState(slots, created, errors, nextSlot)
        invariant SlotsOk(slots, nextSlot)
        invariant State() == old(State()).(slots := slots, nextSlot := nextSlot)
      {
        var spec := specs[i];
        if HasShift(slots, owner, spec.day, spec.shift) {
          errors := errors + [i];
        } else {
          var s := Slot(nextSlot, owner, spec.day, spec.shift, spec.site);
          SlotsOkAppend(slots, nextSlot, s);
          slots := slots + [s];
          created := created + [s];
          nextSlot := nextSlot + 1;
        }
        assert specs[..i + 1][..i] == specs[..i];
        i := i + 1;
      }
      assert specs[..i] == specs;
    }

    /** `horarios_fijos_multiple`: after the batch is validated, each item
        is inserted unless the caller already has a slot on that day and
        shift, in which case its position is reported. The reply is
        multi-status exactly when some item was reported. */
    method AddSlotsIfAbsent(caller: nat, items: seq<RawSlot>) returns (r: Reply<AddSummary>)
      requires Valid()
      modifies this
      ensures Valid()
      ensures r.Ok? || r.MultiStatus? || r.NotFound? || r.Invalid?
      ensures r.NotFound? <==> !HasUser(old(users), caller)
      ensures r.Invalid? <==> HasUser(old(users), caller) && CheckBatch(items).Failure?
      ensures r.Invalid? ==> r.reasons == {CheckBatch(items).error}
      ensures r.NotFound? || r.Invalid? ==> State() == old(State())
      ensures r.Ok? || r.MultiStatus? ==>
        var p := AddPlan(old(slots), old(nextSlot), caller, CheckBatch(items).value);
        && r.value == AddSummary(p.created, |items|, p.errors)
        && (r.MultiStatus? <==> p.errors != [])
        && |r.value.created| + |r.value.errors| == r.value.requested
        && State() == old(State()).(slots := old(slots) + p.created, nextSlot := old(nextSlot) + |p.created|)
    {
      if !HasUser(users, caller) {
        return NotFound;
      }
      var checked := CheckBatch(items);
      if checked.Failure? {
        return Invalid({checked.error});
      }
      var specs := checked.value;
      var created, errors := AddSlotsLoop(caller, specs);
      AddPlanAccounting(old(slots), old(nextSlot), caller, specs);
      if errors == [] {
        r := Ok(AddSummary(created, |items|, errors));
      } else {
        r := MultiStatus(AddSummary(created, |items|, errors));
      }
    }

    /** The insert loop of `horarios_fijos_edit_multiple`: one slot per
        item, in order, with no duplicate check. */
    method InsertSlots(owner: nat, specs: seq<SlotSpec>) returns (created: seq<Slot>)
      requires SlotsOk(slots, nextSlot)
      requires forall k :: 0 <= k < |specs| ==> 0 <= specs[k].day <= 6
      modifies this
      ensures SlotsOk(slots, nextSlot)
      ensures created == MakeSlots(specs, owner, old(nextSlot))
      ensures State() == old(State()).(slots := old(slots) + created, nextSlot := old(nextSlot) + |specs|)
    {
      created := [];
      var i := 0;
      while i < |specs|
        invariant 0 <= i <= |specs|
        invariant created == MakeSlots(specs[..i], owner, old(nextSlot))
        invariant slots == old(slots) + created
        invariant nextSlot == old(nextSlot) + i
        invariant SlotsOk(slots, nextSlot)
        invariant State() == old(State()).(slots := slots, nextSlot := nextSlot)
      {
        var spec := specs[i];
        var s := Slot(nextSlot, owner, spec.day, spec.shift, spec.site);
        SlotsOkAppend(slots, nextSlot, s);
        slots := slots + [s];
        created := created + [s];
        nextSlot := nextSlot + 1;
        assert specs[..i + 1][..i] == specs[..i];
        i := i + 1;
      }
      assert specs[..i] == specs;
    }

    /** `horarios_fijos_edit_multiple`: after the batch is validated, all of
        the caller's slots are deleted and every item is inserted, with no
        duplicate check. */
    method ReplaceAllSlots(caller: nat, items: seq<RawSlot>) returns (r: Reply<ReplaceSummary>)
      requires Valid()
      modifies this
      ensures Valid()
      ensures r.Ok? || r.NotFound? || r.Invalid?
      ensures r.NotFound? <==> !HasUser(old(users), caller)
      ensures r.Invalid? <==> HasUser(old(users), caller) && CheckBatch(items).Failure?
      ensures r.Invalid? ==> r.reasons == {CheckBatch(items).error}
      ensures !r.Ok? ==> State() == old(State())
      ensures r.Ok? ==>
        var made := MakeSlots(CheckBatch(items).value, caller, old(nextSlot));
        && r.value == ReplaceSummary(|OwnedBy(old(slots), caller)|, made, |items|)
        && State() == old(State()).(slots := NotOwnedBy(old(slots), caller) + made,
                                   nextSlot := old(nextSlot) + |items|)
        && OwnedBy(slots, caller) == made
        && (forall u :: u != caller ==> OwnedBy(slots, u) == OwnedBy(old(slots), u))
    {
      if !HasUser(users, caller) {
        return NotFound;
      }
      var checked := CheckBatch(items);
      if checked.Failure? {
        return Invalid({checked.error});
      }
      var specs := checked.value;
      var deleted := |OwnedBy(slots, caller)|;
      SlotsOkFilter(slots, nextSlot, (s: Slot) => s.owner != caller);
      slots := NotOwnedBy(slots, caller);
      var created := InsertSlots(caller, specs);
      ReplaceAllOwnership(old(slots), caller, created);
      r := Ok(ReplaceSummary(deleted, created, |items|));
    }

    /** `asistencias`, POST: validation first, then the ownership check of
        the slot; a new record always starts as pending. */
    method CreateAttendance(caller: nat, slotId: int, date: int, present: bool, hours: int) returns (r: Reply<Attendance>)
      requires Valid()
      modifies this
      ensures Valid()
      ensures r.Ok? || r.NotFound? || r.Invalid? || r.Forbidden?
      ensures r.NotFound? <==> !HasUser(old(users), caller)
      ensures r.Invalid? <==>
        HasUser(old(users), caller) && CreateAttendanceErrors(old(slots), old(attendance), caller, slotId, date, hours) != {}
      ensures r.Invalid? ==> r.reasons == CreateAttendanceErrors(old(slots), old(attendance), caller, slotId, date, hours)
      ensures r.Forbidden? <==>
        HasUser(old(users), caller) && CreateAttendanceErrors(old(slots), old(attendance), caller, slotId, date, hours) == {}
        && FindSlot(old(slots), slotId).value.owner != caller
      ensures !r.Ok? ==> State() == old(State())
      ensures r.Ok? ==> r.value == Attendance(old(nextAttendance), caller, slotId, date, present, hours, Pending)
                        && State() == old(State()).(attendance := old(attendance) + [r.value],
                                                   nextAttendance := old(nextAttendance) + 1)
    {
      if !HasUser(users, caller) {
        return NotFound;
      }
      var errors := CreateAttendanceErrors(slots, attendance, caller, slotId, date, hours);
      if errors != {} {
        return Invalid(errors);
      }
      var slot := FindSlot(slots, slotId).value;
      if slot.owner != caller {
        return Forbidden;
      }
      assert slotId != 0 by {
        assert slot in slots;
      }
      var a := Attendance(nextAttendance, caller, slotId, date, present, hours, Pending);
      RecordsOkAppend(attendance, nextAttendance, a);
      attendance := attendance + [a];
      nextAttendance := nextAttendance + 1;
      r := Ok(a);
    }

    /** `asistencia_detalle`, PUT: the caller's own record, partially
        updated. Only `presente`, `horas` and `estado_autorizacion` can
        change, and only those supplied. */
    method UpdateAttendance(caller: nat, id: int, present: Option<bool>, hours: Option<int>, status: Option<string>)
      returns (r: Reply<Attendance>)
      requires Valid()
      modifies this
      ensures Valid()
      ensures r.Ok? || r.NotFound? || r.Invalid?
      ensures r.NotFound? <==> !HasUser(old(users), caller) || FindAttendance(old(attendance), id, Some(caller)).None?
      ensures r.Invalid? <==> !r.NotFound? && UpdateAttendanceErrors(hours, status) != {}
      ensures r.Invalid? ==> r.reasons == UpdateAttendanceErrors(hours, status)
      ensures !r.Ok? ==> State() == old(State())
      ensures r.Ok? ==>
        var k := FindAttendance(old(attendance), id, Some(caller)).value;
        var a := old(attendance)[k];
        && r.value == a.(present := if present.Some? then present.value else a.present,
                         hours := if hours.Some? then hours.value else a.hours,
                         status := if status.Some? then ParseStatus(status.value).value else a.status)
        && State() == old(State()).(attendance := old(attendance)[k := r.value])
    {
      if !HasUser(users, caller) {
        return NotFound;
      }
      var found := FindAttendance(attendance, id, Some(caller));
      if found.None? {
        return NotFound;
      }
      var errors := UpdateAttendanceErrors(hours, status);
      if errors != {} {
        return Invalid(errors);
      }
      var k := found.value;
      var a := attendance[k];
      var b := a.(present := if present.Some? then present.value else a.present,
                  hours := if hours.Some? then hours.value else a.hours,
                  status := if status.Some? then ParseStatus(status.value).value else a.status);
      RecordsOkUpdate(attendance, nextAttendance, k, b);
      attendance := attendance[k := b];
      r := Ok(b);
    }

    /** `asistencia_detalle`, DELETE: the caller's own record is removed;
        the reply carries the removed record. */
    method DeleteAttendance(caller: nat, id: int) returns (r: Reply<Attendance>)
      requires Valid()
      modifies this
      ensures Valid()
      ensures r.Ok? || r.NotFound?
      ensures r.NotFound? <==> !HasUser(old(users), caller) || FindAttendance(old(attendance), id, Some(caller)).None?
      ensures r.NotFound? ==> State() == old(State())
      ensures r.Ok? ==>
        var k := FindAttendance(old(attendance), id, Some(caller)).value;
        && r.value == old(attendance)[k]
        && State() == old(State()).(attendance := Remove(old(attendance), k))
    {
      if !HasUser(users, caller) {
        return NotFound;
      }
      var found := FindAttendance(attendance, id, Some(caller));
      if found.None? {
        return NotFound;
      }
      var k := found.value;
      var a := attendance[k];
      RecordsOkRemove(attendance, nextAttendance, k);
      attendance := Remove(attendance, k);
      r := Ok(a);
    }

    /** `directivo_asistencia_autorizar`: with a directive user present, a
        missing record is reported before the new status is looked at; a
        status outside the three choices is refused; otherwise only the
        record's status changes. */
    method AuthorizeAttendance(actor: Option<nat>, id: int, status: Option<string>) returns (r: Reply<Attendance>)
      requires Valid()
      modifies this
      ensures Valid()
      ensures r.Ok? || r.Forbidden? || r.NotFound? || r.Invalid?
      ensures r.Forbidden? <==> actor.None?
      ensures r.NotFound? <==> actor.Some? && FindAttendance(old(attendance), id, None).None?
      ensures r.Invalid? <==> actor.Some? && FindAttendance(old(attendance), id, None).Some?
                              && (status.None? || ParseStatus(status.value).None?)
      ensures r.Invalid? ==> r.reasons == {BadStatus}
      ensures !r.Ok? ==> State() == old(State())
      ensures r.Ok? ==>
        var k := FindAttendance(old(attendance), id, None).value;
        && r.value == old(attendance)[k].(status := ParseStatus(status.value).value)
        && State() == old(State()).(attendance := old(attendance)[k := r.value])
    {
      if actor.None? {
        return Forbidden;
      }
      var found := FindAttendance(attendance, id, None);
      if found.None? {
        return NotFound;
      }
      if status.None? || ParseStatus(status.value).None? {
        return Invalid({BadStatus});
      }
      var k := found.value;
      var b := attendance[k].(status := ParseStatus(status.value).value);
      assert attendance[k] in attendance;
      RecordsOkUpdate(attendance, nextAttendance, k, b);
      attendance := attendance[k := b];
      r := Ok(b);
    }

    /** `directivo_ajustes_horas`, POST: an adjustment for an existing
        monitor with an accepted delta, recorded as created by the directive
        user. */
    method CreateAdjustment(actor: Option<nat>, monitorId: int, date: int, delta: int, reason: string)
      returns (r: Reply<Adjustment>)
      requires Valid()
      modifies this
      ensures Valid()
      ensures r.Ok? || r.Forbidden? || r.Invalid?
      ensures r.Forbidden? <==> actor.None?
      ensures r.Invalid? <==> actor.Some? && AdjustmentErrors(old(users), monitorId, delta) != {}
      ensures r.Invalid? ==> r.reasons == AdjustmentErrors(old(users), monitorId, delta)
      ensures !r.Ok? ==> State() == old(State())
      ensures r.Ok? ==> r.value.target == monitorId
                        && r.value == Adjustment(old(nextAdjustment), r.value.target, date, delta, reason, actor.value)
                        && State() == old(State()).(adjustments := old(adjustments) + [r.value],
                                                   nextAdjustment := old(nextAdjustment) + 1)
    {
      if actor.None? {
        return Forbidden;
      }
      var errors := AdjustmentErrors(users, monitorId, delta);
      if errors != {} {
        return Invalid(errors);
      }
      var w :| 0 <= w < |users| && users[w].id == monitorId && users[w].role == Monitor;
      var a := Adjustment(nextAdjustment, users[w].id, date, delta, reason, actor.value);
      AdjustmentsOkAppend(adjustments, users, nextAdjustment, a);
      adjustments := adjustments + [a];
      nextAdjustment := nextAdjustment + 1;
      r := Ok(a);
    }

    /** `directivo_configuraciones_crear`: a valid entry is stored under its
        lower-cased key unless that key is present already; an existing
        entry is never overwritten. */
    method CreateConfig(actor: Option<nat>, key: string, value: string, description: string, kind: Option<string>,
                        isDecimal: string -> bool, isInteger: string -> bool) returns (r: Reply<ConfigEntry>)
      requires Valid()
      modifies this
      ensures Valid()
      ensures r.Ok? || r.Forbidden? || r.Invalid?
      ensures r.Forbidden? <==> actor.None?
      ensures r.Invalid? <==> actor.Some? && (ConfigErrors(key, value, kind, isDecimal, isInteger) != {}
                                              || HasKey(old(configs), NormalizeKey(key).value))
      ensures r.Invalid? ==> r.reasons == if ConfigErrors(key, value, kind, isDecimal, isInteger) != {}
                                          then ConfigErrors(key, value, kind, isDecimal, isInteger)
                                          else {DuplicateKey}
      ensures !r.Ok? ==> State() == old(State())
      ensures r.Ok? ==> r.value == ConfigEntry(old(nextConfig), NormalizeKey(key).value, value, kind, description, actor.value)
                        && State() == old(State()).(configs := old(configs) + [r.value],
                                                   nextConfig := old(nextConfig) + 1)
    {
      if actor.None? {
        return Forbidden;
      }
      var errors := ConfigErrors(key, value, kind, isDecimal, isInteger);
      if errors != {} {
        return Invalid(errors);
      }
      var k := NormalizeKey(key).value;
      if HasKey(configs, k) {
        return Invalid({DuplicateKey});
      }
      var c := ConfigEntry(nextConfig, k, value, kind, description, actor.value);
      ConfigsOkAppend(configs, nextConfig, c);
      configs := configs + [c];
      nextConfig := nextConfig + 1;
      r := Ok(c);
    }

    /** `directivo_configuraciones_inicializar`: each default whose key is
        missing is created, each present one is reported; with distinct
        default keys, a key is reported exactly when it was present. */
    method SeedDefaults(actor: Option<nat>) returns (r: Reply<SeedSummary>)
      requires Valid()
      modifies this
      ensures Valid()
      ensures r.Ok? || r.Forbidden?
      ensures r.Forbidden? <==> actor.None?
      ensures r.Forbidden? ==> State() == old(State())
      ensures r.Ok? ==>
        var p := SeedPlan(old(configs), old(nextConfig), actor.value, Defaults);
        && r.value == SeedSummary(p.created, p.existing, |Defaults|)
        && |r.value.created| + |r.value.existing| == |Defaults|
        && State() == old(State()).(configs := old(configs) + p.created, nextConfig := old(nextConfig) + |p.created|)
        && (forall i :: 0 <= i < |Defaults| ==>
              && (Defaults[i].key in r.value.existing <==> HasKey(old(configs), Defaults[i].key))
              && (HasKey(r.value.created, Defaults[i].key) <==> !HasKey(old(configs), Defaults[i].key)))
    {
      if actor.None? {
        return Forbidden;
      }
      var creator := actor.value;
      var created: seq<ConfigEntry> := [];
      var existing: seq<string> := [];
      var i := 0;
      while i < |Defaults|
        invariant 0 <= i <= |Defaults|
        invariant SeedPlan(old(configs), old(nextConfig), creator, Defaults[..i]) == SeedState(configs, created, existing, nextConfig)
        invariant ConfigsOk(configs, nextConfig)
        invariant State() == old(State()).(configs := configs, nextConfig := nextConfig)
      {
        var d := Defaults[i];
        if HasKey(configs, d.key) {
          existing := existing + [d.key];
        } else {
          var c := ConfigEntry(nextConfig, d.key, d.value, Some(d.kind), d.description, creator);
          ConfigsOkAppend(configs, nextConfig, c);
          configs := configs + [c];
          created := created + [c];
          nextConfig := nextConfig + 1;
        }
        assert Defaults[..i + 1][..i] == Defaults[..i];
        i := i + 1;
      }
      assert Defaults[..i] == Defaults;
      SeedAccounting(old(configs), old(nextConfig), creator, Defaults);
      DefaultsDistinct();
      SeedPartition(old(configs), old(nextConfig), creator, Defaults);
      r := Ok(SeedSummary(created, existing, |Defaults|));
    }
  }
}
