# Attendance ledger of the monitor-scheduling service, in Dafny

This project models the core of a Django REST service that keeps the working
hours of student monitors. A monitor registers, declares recurring weekly
slots (`HorarioFijo`: weekday, shift `M`/`T`, site `SA`/`BA`) and records
attendance against them (`Asistencia`: date, present flag, hours, and an
authorization status `pendiente`/`autorizado`/`rechazado`). A directive user
lists and authorizes those records, books manual hour adjustments
(`AjusteHoras`) and maintains configuration entries
(`ConfiguracionSistema`), including two seeded defaults.

The model has two halves:

- **The request validators** of `example/serializers.py` are pure functions:
  - the hour range;
  - the adjustment delta;
  - the slot batch and its items;
  - the configuration key and value;
  - registration.

  Each states exactly which inputs it accepts and, for every rejected
  input, which reason it reports, following the order of its checks.
- **The handlers** of `example/views.py` act on an in-memory ledger,
  `Store.Ledger`:
  - A class holds one `seq` table per record kind, plus the next primary
    key of each.
  - Every handler that writes is a method. It returns a `Reply` (`Ok`,
    `MultiStatus`, `NotFound`, `Forbidden` or `Invalid(reasons)`) instead of
    an HTTP response.
  - Every method keeps the table invariants `Valid()`:
    - primary keys rise;
    - usernames are unique;
    - slot days lie in 0..6;
    - there is at most one attendance record per (user, slot, date);
    - hours and deltas are in range;
    - adjustment targets are monitors;
    - configuration keys are unique.
  - Every method's `ensures` gives its whole new state as `State()`, a
    snapshot of all tables.
  - The three loops of the handlers (add-if-absent, replace-all,
    seeding) are `while` loops.
    - Each is proved against a specification function of the old table:
      `Schedule.AddPlan`, `Schedule.MakeSlots` and
      `Configuration.SeedPlan`.
    - The handlers' promises are proved about that function as lemmas:
      accounting, no duplicates and idempotence.
  - The read-only handlers are functions of the tables in `Queries`:
    - every filter chain is stated as a membership equivalence;
    - the reported count, hour total and distinct-user count are tied to
      the result.

Conventions:

- Hours and deltas are integers in hundredths of an hour (`MaxHours` = 2400
  stands for 24.00).
- Dates are integer day numbers.
- "Today" is a parameter.
- The authenticated caller is a user id parameter. An unknown id gives
  `NotFound`, as the handlers' user lookup does.
- The handlers find a directive user by taking the first row with role
  `DIRECTIVO`. Here that user is a parameter `actor: Option<nat>`:
  - `None` stands for "no such row" and gives `Forbidden`;
  - `Some(id)` gives the id recorded as creator.
- A request field or query parameter is a `Field` (`Absent`, `Malformed`,
  `Given(v)`) or an `Option`. This covers a missing value, and a value that
  `int(...)` or `date.fromisoformat(...)` would reject.

Modules:
- `common.dfy`: Option, Result and Field.
- `domain.dfy`: records, enumerations with their wire codes, reasons, replies.
- `validators.dfy`: the serializers' checks.
- `tables.dfy`: filter, sum and distinct over a table, with their lemmas.
- `queries.dfy`: lookups and listings.
- `schedule.dfy`: the bulk slot operations as functions.
- `configuration.dfy`: configuration keys and seeding.
- `store.dfy`: the ledger class.

## Model

| member | source | states |
|---|---|---|
| Domain.ParseShift | example/serializers.py:112-113 | a shift code is accepted iff it is `M` or `T`; parsing is the exact inverse of the code of each shift |
| Domain.ParseSite | example/serializers.py:115-116 | a site code is accepted iff it is `SA` or `BA`; parsing is the exact inverse of the code of each site |
| Domain.ParseStatus | example/views.py:725-730 | a status is accepted iff it is one of `pendiente`, `autorizado`, `rechazado`; parsing inverts the status codes |
| Validators.CheckHours | example/serializers.py:203-207 | hours are accepted iff 0 <= h <= 24.00, both bounds inclusive; otherwise the reason is the hours error |
| Validators.CheckDelta | example/serializers.py:280-286 | a delta is accepted iff -24.00 <= v <= 24.00 and v != 0; the range error is reported exactly when out of range, the zero error exactly when v = 0 |
| Validators.ItemIssue | example/serializers.py:95-116 | an item has no issue iff all three fields are present, the day is a number in 0..6, the shift is M/T and the site SA/BA; each reason is pinned to its step, as `validate_horarios` checks them: missing day, missing shift, missing site, day not a number, day out of range, bad shift, bad site |
| Validators.ToSpec | example/serializers.py:104-116 | the accepted item's day is the submitted day, in 0..6, and its shift and site encode back to the submitted codes |
| Validators.CheckItems | example/serializers.py:95-118 | accepts iff every item is well formed, yielding one spec per item in order; otherwise reports the first bad item's position and its issue, all earlier items being well formed |
| Validators.CheckBatch | example/serializers.py:81-118 | a batch is accepted iff it has 1..50 items and every item is well formed; a short or long batch is refused for its length; a batch of 1..50 items gets the item check's verdict, so the reason is the first bad item's position and issue |
| Validators.ValidKeyIsKeyShape | example/serializers.py:317-323 | "without underscores, non-empty and alphanumeric" is equivalent to "non-empty, made of letters, digits and underscores, with at least one letter or digit" |
| Validators.NormalizeKey | example/serializers.py:317-323 | a key is accepted iff it has that shape; the stored key is its lower-case form, character by character |
| Validators.NormalizeKeyIdempotent | example/serializers.py:317-323 | normalizing an accepted key again is accepted and yields the same key |
| Validators.CheckValue | example/serializers.py:325-347 | for `decimal` and `entero` the value is accepted iff it parses as such; for `booleano` iff its lower-case form is one of the literals; for any other type tag always |
| Validators.RegistrationErrors | example/serializers.py:19-36 | registration is refused iff the username is taken, the password is shorter than 6 or, when those pass, the confirmation differs; each reason is reported exactly in its case |
| Tables.Filter | example/views.py:502-533 | a filtered queryset holds exactly the rows of the table that satisfy the condition, each as many times as in the table (as a multiset), and is no longer than the table |
| Tables.Keys | example/views.py:689 | the distinct values of a column are exactly those of some row, and there are no more of them than rows |
| Tables.SumBounds | example/views.py:535 | a sum over rows whose values lie in [lo, hi] lies in [lo * n, hi * n] |
| Tables.FilterIncreasing | example/views.py:340-341 | deleting rows keeps primary keys in rising order |
| Tables.RemoveIncreasing | example/views.py:619 | deleting one row keeps primary keys in rising order |
| Queries.FindSlot | example/serializers.py:195-201 | the slot found has the requested id and is in the table; none is found iff no slot has that id |
| Queries.FindAttendance | example/views.py:602-605 | the position found holds a record with that id (and that owner when one is given); none is found iff no such record exists |
| Queries.OwnQueryError | example/views.py:502-530 | the own listing's parameters are refused iff a date or the slot id is unreadable or the status is not a choice, each reason pinned to its step: start date, end date, status, then slot id, as `asistencias` reads them |
| Queries.OwnAttendance | example/views.py:494-540 | the listing holds exactly the caller's records passing the date, status and slot filters, each as often as in the table (as a multiset); the count is its size, the total its hours, and the total lies within [0, 24 * count] |
| Queries.HoursBounds | example/views.py:535 | summed hours of records drawn from a table whose hours are in [0, 24] lie within [0, 24 * count] |
| Queries.AttendanceDetail | example/views.py:602-609 | a record is returned iff the caller exists and owns a record with that id; another user's record is as invisible as a missing one |
| Queries.DirectiveQueryError | example/views.py:648-680 | the directive listing's parameters are refused iff the user id or a date is unreadable, or the status or site is not a choice; each reason pinned to its step: user id, start date, end date, status, then site, as `directivo_asistencias` reads them |
| Queries.DirectiveAttendance | example/views.py:626-698 | with a directive user, the listing holds exactly the records passing the user, date, status and site filters, each as often as in the table (as a multiset); count, total hours and distinct users are those of the result, distinct users <= count |
| Queries.AdjustmentListing | example/views.py:761-822 | a missing or unreadable start falls back to today-30 and end to today; exactly the adjustments in that window (and of the monitor, if given) are listed, each as often as in the table (as a multiset); count, delta total and distinct targets are those of the result |
| Queries.DeltaBounds | example/views.py:802 | summed deltas of adjustments in [-24, 24] lie within [-24 * count, 24 * count] |
| Queries.SlotQueryError | example/views.py:420-444 | the slot listing's parameters are refused iff the user id is unreadable, the day is not a number in 0..6, or the shift or site is not a choice; each reason pinned to its step: user id, day, day range, shift, then site, as `directivo_horarios_monitores` reads them |
| Queries.MonitorSlots | example/views.py:393-459 | the listing holds exactly the slots of MONITOR users passing the user, day, shift and site filters, each as often as in the table (as a multiset); its count and distinct-monitor count are those of the result |
| Schedule.AddPlanAccounting | example/views.py:253-302 | every requested item is either created or reported (created + reported = requested); existing slots stay first and unchanged; each new slot is some item's day, shift and site, owned by the caller, with consecutive keys; reported positions rise and are below the batch length |
| Schedule.AddPlanItemAt | example/views.py:259-282 | item i is reported iff the caller already had its (day, shift) after the items before it; otherwise a slot with the next key and exactly the item's day, shift and site is created |
| Schedule.AddPlanSkipsDuplicates | example/views.py:259-275 | no slot is created for a day and shift the caller already had, counting slots created earlier in the same batch; every reported item's day and shift is present |
| Schedule.AddPlanCoversRequests | example/views.py:253-282 | afterwards the caller has a slot for the day and shift of every requested item |
| Schedule.AddPlanKeepsShiftsUnique | example/views.py:259-275 | if the caller had at most one slot per day and shift, that remains true |
| Schedule.MakeSlots | example/views.py:347-362 | the replace loop creates one slot per item, in order, with the item's day, shift and site and consecutive keys |
| Schedule.ReplaceAllOwnership | example/views.py:339-362 | after deleting the caller's slots and inserting the new ones, the caller's slots are exactly the new ones, every other user's slots are unchanged, and deleted + kept = the old table |
| Configuration.SeedAccounting | example/views.py:1058-1081 | every default is either created or reported present (created + existing = processed); existing entries stay first and unchanged; each created entry is one default's key, value, type tag and description, with consecutive ids and the caller as creator |
| Configuration.HasKeyAppend | example/views.py:1064 | a key is in a concatenation iff it is in one of the parts |
| Configuration.LastKeyUnseen | example/views.py:1061-1074 | with distinct default keys, a default has neither been created nor reported before its turn |
| Configuration.SeedPartitionAt | example/views.py:1061-1074 | with distinct default keys, the key at a given position is reported present iff it was in the table, and created iff it was not |
| Configuration.SeedPartition | example/views.py:1061-1074 | the same for every default key at once |
| Configuration.ExistingFromDefaults | example/views.py:1064-1065 | every key reported present is one of the defaults' keys |
| Configuration.SeedCovers | example/views.py:1061-1074 | after seeding, every default key is in the table |
| Configuration.SeedOnSeeded | example/views.py:1061-1074 | seeding a table that holds every default key creates nothing and changes nothing |
| Configuration.SeedIdempotent | example/views.py:1027-1081 | a second seeding creates 0 entries and reports every default as present |
| Configuration.SeedKeepsKeysUnique | example/views.py:1064-1073 | seeding never adds a second entry for a key |
| Configuration.DefaultsDistinct | example/views.py:1043-1056 | the two default keys differ |
| Store.UsersOkAppend | example/serializers.py:26-52 | registering a user under a free username with the next key keeps the user table's invariant |
| Store.AdjustmentsOkMoreUsers | example/serializers.py:38-52 | adding users keeps every adjustment's target a monitor |
| Store.SlotsOkAppend | example/views.py:269-275 | inserting a slot with the next key and a day in 0..6 keeps the slot table's invariant |
| Store.SlotsOkFilter | example/views.py:340-341 | deleting slots keeps the slot table's invariant |
| Store.RecordsOkAppend | example/views.py:557-563 | inserting a record with the next key, hours in range and a fresh (user, slot, date) keeps the attendance invariant |
| Store.RecordsOkUpdate | example/views.py:612-614 | changing only present, hours (in range) and status keeps the attendance invariant |
| Store.RecordsOkRemove | example/views.py:619 | deleting a record keeps the attendance invariant |
| Store.AdjustmentsOkAppend | example/views.py:831-837 | inserting an adjustment with the next key, an accepted delta and a monitor target keeps the adjustment invariant |
| Store.ConfigsOkAppend | example/views.py:931-937 | inserting an entry with the next key under an absent key keeps configuration keys unique |
| Store.CreateAttendanceErrors | example/serializers.py:195-232 | the slot error is reported iff no slot has that id, the hours error iff hours are out of [0, 24]; the duplicate error iff both passed and the caller already has a record for that slot and date |
| Store.UpdateAttendanceErrors | example/serializers.py:235-247 | a partial update is refused iff supplied hours are out of range or a supplied status is not a choice, each reason in exactly its case |
| Store.AdjustmentErrors | example/serializers.py:265-286 | an adjustment is refused iff the target is not an existing MONITOR or the delta is not accepted, each reason in exactly its case and no other reason |
| Store.ConfigErrors | example/serializers.py:309-347 | an entry is refused iff the key has the wrong shape or the value does not fit its type tag, each reason in exactly its case and no other reason |
| Store.Ledger.Register | example/views.py:69-98 | on success exactly one user is added, with role MONITOR, the next key and authorized = false; otherwise the reasons are those of the validators and nothing changes |
| Store.Ledger.AddSlotsLoop | example/views.py:256-282 | the loop's final slot table, created slots, reported positions and next key are those of the add plan |
| Store.Ledger.AddSlotsIfAbsent | example/views.py:225-305 | unknown caller: not found; a bad batch: its single reason, nothing changes; otherwise the table becomes the old one plus the planned slots, created + reported = requested, and the reply is multi-status iff an item was reported; with `Schedule.AddPlanItemAt`, each item is reported iff its (day, shift) was already held, and otherwise becomes a slot with its own fields |
| Store.Ledger.InsertSlots | example/views.py:347-362 | the loop appends exactly the slots of the replace plan and advances the key by the batch length |
| Store.Ledger.ReplaceAllSlots | example/views.py:309-386 | the deleted count is the caller's old slot count; the caller's slots become exactly the new ones; other users' slots are unchanged; the reply is never multi-status |
| Store.Ledger.CreateAttendance | example/views.py:543-567 | validation errors first, then forbidden iff the slot is another user's; on success exactly one record is added, owned by the caller with the given date, present flag and hours, status pending |
| Store.Ledger.UpdateAttendance | example/views.py:602-616 | only the caller's own record can change, and only in the supplied present, hours and status fields; bad input changes nothing |
| Store.Ledger.DeleteAttendance | example/views.py:602-620 | the caller's own record is removed and nothing else changes; a missing or foreign record is not found |
| Store.Ledger.AuthorizeAttendance | example/views.py:702-736 | without a directive user: forbidden; a missing record is not found before the status is looked at; a status outside the three choices is refused; otherwise only that record's status changes |
| Store.Ledger.CreateAdjustment | example/views.py:824-841 | on success exactly one adjustment is added, for the given monitor, created by the directive user; otherwise nothing changes |
| Store.Ledger.CreateConfig | example/views.py:911-940 | a valid entry is stored under the lower-cased key; if that key is present, a duplicate error is given and nothing is inserted or overwritten |
| Store.Ledger.SeedDefaults | example/views.py:1027-1081 | the table grows by exactly the planned entries; created + existing = 2; a default is reported present iff its key was in the table, and created iff it was not; with `Configuration.SeedAccounting`, each created entry holds a default's value, type tag and description |

## Left out

- Token handling is not modelled: parsing the Bearer header, `AccessToken`
  decoding, the unverified `jwt.decode` fallback and the 401 replies. The
  reason is that this is library security plumbing. The caller is a user
  id parameter.
- Login, the current-user endpoint and password hashing (`set_password`,
  `check_password`) are not modelled. These are calls into the
  authentication library. The stored user has no password field.
- The single-slot CRUD handlers `horarios_fijos` and `horario_fijo_detalle`
  are not modelled. They fall outside the modelled core.
- These handlers are also outside the modelled core:
  - adjustment detail and delete (`directivo_ajuste_horas_detalle`);
  - the configuration list, get, update and delete handlers;
  - `autorizar_monitor` and `marcar_asistencia`, which no route in
    example/urls.py reaches.
- The attendance handlers `asistencias`, `asistencia_detalle`,
  `directivo_asistencias` and `directivo_asistencia_autorizar` are modelled.
  example/urls.py does not route them.
- The database `except Exception` branches inside both bulk loops are not
  modelled, so every insert succeeds.
  - `Store.Ledger.ReplaceAllSlots` therefore never reports errors and never
    answers multi-status.
  - Whether `HorarioFijo` carries a storage-level uniqueness constraint is
    not known, because models.py is not part of this model.
- Replace-all follows the code, which inserts every validated item without
  a duplicate check. A batch can therefore give a user two slots on the
  same day and shift.
  - Replace-all does not skip an item whose day and shift repeat an
    earlier item. The model states what the code does.
  - For the same reason, at most one slot per (user, day, shift) is not
    part of `Valid()`. It is only proved preserved by the add-if-absent
    plan (`Schedule.AddPlanKeepsShiftsUnique`).
- Deleting slots leaves attendance records that point at them. The
  on-delete behaviour of the foreign key lives in models.py.
  - The site filter of the directive listing treats such a record as
    having no site.
  - This matches only `on_delete=DO_NOTHING` without database enforcement.
    `CASCADE` would delete those records, `SET_NULL` would null their slot,
    and `PROTECT` would make replace-all fail.
- Floating point is not modelled. `float(...)` sums are integer sums of
  hundredths.
- The `float()` and `int()` tests of `validate_valor` are the parameters
  `isDecimal` and `isInteger`.
- Typed decoding of stored values (`get_valor_tipado`) lives in models.py
  and is not modelled.
- Request-body decoding is not modelled. The handlers take already-typed
  arguments. This covers:
  - the typed fields of `AsistenciaCreateSerializer`,
    `AsistenciaUpdateSerializer` (`presente`, `horas`) and
    `AjusteHorasCreateSerializer`;
  - the username field's own validators and maximum length in registration;
  - `jornada` and `sede` values of a batch item that are not strings (an item
    field is a string or missing);
  - required fields, field lengths, and DRF's whitespace trimming.
- In an item of the slot batch, `int(dia_semana)` is abstracted to
  "a number" or "not a number".
- `isalnum()` and `lower()` are modelled on ASCII letters and digits.
  Python's Unicode behaviour is not modelled.
- models.py is not part of this model. Its fields are assumed as follows.
  - Assumed present:
    - the three choices of `estado_autorizacion`, which the update
      serializer checks (`Store.UpdateAttendanceErrors` reports `BadStatus`);
    - its default `pendiente`, which `Store.Ledger.CreateAttendance` stores,
      since the view never sets it;
    - the default `false` of the user's `autorizado` flag.
  - Assumed absent:
    - choices on `tipo_dato`;
    - a storage-level unique constraint on `clave`, or on a slot's
      (owner, day, shift).
  - The user model evidently extends Django's `AbstractUser` (the admin
    lists `is_active` and `date_joined`; `set_password` and
    `check_password` are called). Its `username` is therefore unique, and
    DRF adds a `UniqueValidator` for it. That validator refuses exactly the
    case `validate_username` refuses, so the model's single `UsernameTaken`
    reason covers both.
- Timestamps, display strings, messages and the ordering of listings
  (`order_by`) are not modelled.
- Concurrency and transactions are not modelled. Each handler runs alone.
- `Store.Ledger.UpdateAttendance`: the update serializer lets the record's
  owner set `estado_autorizacion`. The model reproduces this and does not
  restrict it to directive users.
