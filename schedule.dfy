/** The two bulk slot operations as functions of the slot table: the
    "add if absent" plan of `horarios_fijos_multiple` and the "replace all" of
    `horarios_fijos_edit_multiple`, with the properties the handlers promise. */
module Schedule {
  import opened Domain
  import opened Tables
  import opened Validators

  /** `owner` already has a slot on this day and shift (at any site). */
  predicate HasShift(table: seq<Slot>, owner: nat, day: int, shift: Shift) {
    exists i :: 0 <= i < |table| && table[i].owner == owner && table[i].day == day && table[i].shift == shift
  }

  /** At most one slot of `owner` per (day, shift). */
  predicate ShiftsUnique(table: seq<Slot>, owner: nat) {
    forall i, j :: 0 <= i < j < |table| && table[i].owner == owner && table[j].owner == owner
      ==> table[i].day != table[j].day || table[i].shift != table[j].shift
  }

  function OwnedBy(table: seq<Slot>, owner: nat): seq<Slot> {
    Filter(table, (s: Slot) => s.owner == owner)
  }

  function NotOwnedBy(table: seq<Slot>, owner: nat): seq<Slot> {
    Filter(table, (s: Slot) => s.owner != owner)
  }

  // ----- add if absent -----

  /** The state of the add loop: the table, the slots created so far, the
      indices of the items skipped so far, and the next primary key. */
  datatype AddState = AddState(table: seq<Slot>, created: seq<Slot>, errors: seq<nat>, next: nat)

  /** One turn of the loop: an item whose (day, shift) the owner already has
      is reported by its index; otherwise a slot is inserted. */
  function AddStep(st: AddState, owner: nat, spec: SlotSpec, index: nat): AddState {
    if HasShift(st.table, owner, spec.day, spec.shift) then st.(errors := st.errors + [index])
    else
      var s := Slot(st.next, owner, spec.day, spec.shift, spec.site);
      AddState(st.table + [s], st.created + [s], st.errors, st.next + 1)
  }

  /** The loop over the whole batch, starting from `table` with `next` as the
      next primary key. */
  function AddPlan(table: seq<Slot>, next: nat, owner: nat, specs: seq<SlotSpec>): AddState
    decreases |specs|
  {
    if specs == [] then AddState(table, [], [], next)
    else AddStep(AddPlan(table, next, owner, specs[..|specs| - 1]), owner, specs[|specs| - 1], |specs| - 1)
  }

  /** Accounting: every item is either created or reported, the existing
      slots stay in front untouched, and the new slots belong to the owner
      with consecutive primary keys. */
  lemma {:induction false} AddPlanAccounting(table: seq<Slot>, next: nat, owner: nat, specs: seq<SlotSpec>)
    ensures var r := AddPlan(table, next, owner, specs);
      && r.table == table + r.created
      && |r.created| + |r.errors| == |specs|
      && r.next == next + |r.created|
      && (forall k :: 0 <= k < |r.created| ==> r.created[k].id == next + k && r.created[k].owner == owner)
      && (forall k :: 0 <= k < |r.created| ==> exists i :: (0 <= i < |specs| &&
            r.created[k] == Slot(next + k, owner, specs[i].day, specs[i].shift, specs[i].site)))
      && (forall k :: 0 <= k < |r.errors| ==> r.errors[k] < |specs|)
      && (forall a, b :: 0 <= a < b < |r.errors| ==> r.errors[a] < r.errors[b])
  {
    if specs != [] {
      var init := specs[..|specs| - 1];
      AddPlanAccounting(table, next, owner, init);
      var st := AddPlan(table, next, owner, init);
      forall k | 0 <= k < |st.created|
        ensures exists i :: (0 <= i < |specs| &&
          st.created[k] == Slot(next + k, owner, specs[i].day, specs[i].shift, specs[i].site))
      {
        var i :| 0 <= i < |init| && st.created[k] == Slot(next + k, owner, init[i].day, init[i].shift, init[i].site);
        assert init[i] == specs[i];
      }
    }
  }

  /** The fate of item i: with `before` the state after the items ahead of
      it, the item is reported exactly when the owner already had its
      (day, shift) by then, and otherwise becomes a slot with the next key
      and the item's own day, shift and site. */
  lemma {:induction false} AddPlanItemAt(table: seq<Slot>, next: nat, owner: nat, specs: seq<SlotSpec>, i: nat)
    requires i < |specs|
    ensures var before := AddPlan(table, next, owner, specs[..i]);
      var r := AddPlan(table, next, owner, specs);
      && (i in r.errors <==> HasShift(before.table, owner, specs[i].day, specs[i].shift))
      && (!HasShift(before.table, owner, specs[i].day, specs[i].shift) ==>
            Slot(before.next, owner, specs[i].day, specs[i].shift, specs[i].site) in r.created)
  {
    var init := specs[..|specs| - 1];
    var st := AddPlan(table, next, owner, init);
    if i == |specs| - 1 {
      assert specs[..i] == init;
      AddPlanAccounting(table, next, owner, init);
      assert i !in st.errors;
    } else {
      assert init[..i] == specs[..i];
      assert init[i] == specs[i];
      AddPlanItemAt(table, next, owner, init, i);
    }
  }

  /** Skipping duplicates: no slot is created for a (day, shift) the owner
      already had, whether from before the batch or from earlier in it; and
      every skipped item's (day, shift) is present afterwards. */
  lemma {:induction false} AddPlanSkipsDuplicates(table: seq<Slot>, next: nat, owner: nat, specs: seq<SlotSpec>)
    ensures var r := AddPlan(table, next, owner, specs);
      && (forall k :: 0 <= k < |r.created| ==>
            !HasShift(table + r.created[..k], owner, r.created[k].day, r.created[k].shift))
      && (forall k :: 0 <= k < |r.errors| ==>
            r.errors[k] < |specs| && HasShift(r.table, owner, specs[r.errors[k]].day, specs[r.errors[k]].shift))
  {
    if specs != [] {
      var init := specs[..|specs| - 1];
      var st := AddPlan(table, next, owner, init);
      AddPlanSkipsDuplicates(table, next, owner, init);
      AddPlanAccounting(table, next, owner, init);
      var r := AddPlan(table, next, owner, specs);
      var last := specs[|specs| - 1];
      forall k | 0 <= k < |st.errors|
        ensures HasShift(r.table, owner, specs[st.errors[k]].day, specs[st.errors[k]].shift)
      {
        var e := st.errors[k];
        assert specs[e] == init[e];
        var i :| 0 <= i < |st.table| && st.table[i].owner == owner && st.table[i].day == init[e].day && st.table[i].shift == init[e].shift;
        assert r.table[i] == st.table[i];
      }
      if !HasShift(st.table, owner, last.day, last.shift) {
        assert r.created[..|st.created|] == st.created;
        forall k | 0 <= k < |st.created| ensures r.created[..k] == st.created[..k] {
        }
      }
    }
  }

  /** After the batch the owner has a slot for every requested (day, shift). */
  lemma {:induction false} AddPlanCoversRequests(table: seq<Slot>, next: nat, owner: nat, specs: seq<SlotSpec>)
    ensures var r := AddPlan(table, next, owner, specs);
      forall i :: 0 <= i < |specs| ==> HasShift(r.table, owner, specs[i].day, specs[i].shift)
  {
    if specs != [] {
      var init := specs[..|specs| - 1];
      var st := AddPlan(table, next, owner, init);
      AddPlanCoversRequests(table, next, owner, init);
      var r := AddPlan(table, next, owner, specs);
      assert r.table == st.table || r.table == st.table + [r.table[|r.table| - 1]];
      forall i | 0 <= i < |specs| ensures HasShift(r.table, owner, specs[i].day, specs[i].shift) {
        if i < |init| {
          assert specs[i] == init[i];
          var m :| 0 <= m < |st.table| && st.table[m].owner == owner && st.table[m].day == init[i].day && st.table[m].shift == init[i].shift;
          assert r.table[m] == st.table[m];
        } else {
          var last := specs[|specs| - 1];
          if !HasShift(st.table, owner, last.day, last.shift) {
            assert r.table[|st.table|].day == last.day;
          }
        }
      }
    }
  }

  /** If the owner had at most one slot per (day, shift) before the batch,
      the same holds after it. */
  lemma AddPlanKeepsShiftsUnique(table: seq<Slot>, next: nat, owner: nat, specs: seq<SlotSpec>)
    requires ShiftsUnique(table, owner)
    ensures ShiftsUnique(AddPlan(table, next, owner, specs).table, owner)
  {
    var r := AddPlan(table, next, owner, specs);
    AddPlanAccounting(table, next, owner, specs);
    AddPlanSkipsDuplicates(table, next, owner, specs);
    forall i, j | 0 <= i < j < |r.table| && r.table[i].owner == owner && r.table[j].owner == owner
      ensures r.table[i].day != r.table[j].day || r.table[i].shift != r.table[j].shift
    {
      if j >= |table| {
        var k := j - |table|;
        assert r.table[j] == r.created[k];
        var prefix := table + r.created[..k];
        assert r.table[i] == prefix[i];
        assert !HasShift(prefix, owner, r.created[k].day, r.created[k].shift);
      }
    }
  }

  // ----- replace all -----

  /** The slots the replace loop inserts: one per item, in order, with
      consecutive primary keys from `next`. */
  function MakeSlots(specs: seq<SlotSpec>, owner: nat, next: nat): (r: seq<Slot>)
    ensures |r| == |specs|
    ensures forall k :: 0 <= k < |specs| ==>
              r[k] == Slot(next + k, owner, specs[k].day, specs[k].shift, specs[k].site)
    decreases |specs|
  {
    if specs == [] then []
    else
      var last := specs[|specs| - 1];
      MakeSlots(specs[..|specs| - 1], owner, next) + [Slot(next + |specs| - 1, owner, last.day, last.shift, last.site)]
  }

  /** Deleting the owner's slots and appending `created` (all of the owner)
      leaves the owner with exactly `created`, leaves every other user's
      slots as they were, and the deleted and kept slots add up to the
      table. */
  lemma ReplaceAllOwnership(table: seq<Slot>, owner: nat, created: seq<Slot>)
    requires forall s :: s in created ==> s.owner == owner
    ensures OwnedBy(NotOwnedBy(table, owner) + created, owner) == created
    ensures forall u :: u != owner ==> OwnedBy(NotOwnedBy(table, owner) + created, u) == OwnedBy(table, u)
    ensures |OwnedBy(table, owner)| + |NotOwnedBy(table, owner)| == |table|
  {
    var kept := NotOwnedBy(table, owner);
    var mine := (s: Slot) => s.owner == owner;
    var notMine := (s: Slot) => s.owner != owner;
    FilterAppend(kept, created, mine);
    FilterDropsAll(kept, mine);
    FilterKeepsAll(created, mine);
    forall u | u != owner
      ensures OwnedBy(kept + created, u) == OwnedBy(table, u)
    {
      var theirs := (s: Slot) => s.owner == u;
      FilterAppend(kept, created, theirs);
      FilterDropsAll(created, theirs);
      FilterTwice(table, notMine, theirs);
    }
    FilterSplit(table, mine, notMine);
  }
}
