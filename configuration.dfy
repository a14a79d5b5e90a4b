/** The configuration store as a function of its table: key lookup, key
    uniqueness and the seeding of the default entries
    (`directivo_configuraciones_inicializar`). */
module Configuration {
  import opened Common
  import opened Domain

  predicate HasKey(table: seq<ConfigEntry>, key: string) {
    exists i :: 0 <= i < |table| && table[i].key == key
  }

  /** No two entries share a key. */
  predicate KeysUnique(table: seq<ConfigEntry>) {
    forall i, j :: 0 <= i < j < |table| ==> table[i].key != table[j].key
  }

  /** One default entry: key, value, description and type tag. */
  datatype ConfigDefault = ConfigDefault(key: string, value: string, description: string, kind: string)

  const Defaults: seq<ConfigDefault> := [
    ConfigDefault("costo_por_hora", "9965",
                  "Costo por hora de trabajo de los monitores en pesos colombianos (COP)", "decimal"),
    ConfigDefault("semanas_semestre", "14",
                  "Total de semanas que dura un semestre académico", "entero")
  ]

  predicate DistinctKeys(ds: seq<ConfigDefault>) {
    forall i, j :: 0 <= i < j < |ds| ==> ds[i].key != ds[j].key
  }

  /** The state of the seeding loop: the table, the entries created so far,
      the keys found already present so far, and the next primary key. */
  datatype SeedState = SeedState(table: seq<ConfigEntry>, created: seq<ConfigEntry>, existing: seq<string>, next: nat)

  /** One turn: a key already in the table is reported as existing, otherwise
      an entry is inserted. Nothing is ever overwritten. */
  function SeedStep(st: SeedState, d: ConfigDefault, creator: nat): SeedState {
    if HasKey(st.table, d.key) then st.(existing := st.existing + [d.key])
    else
      var e := ConfigEntry(st.next, d.key, d.value, Some(d.kind), d.description, creator);
      SeedState(st.table + [e], st.created + [e], st.existing, st.next + 1)
  }

  function SeedPlan(table: seq<ConfigEntry>, next: nat, creator: nat, ds: seq<ConfigDefault>): SeedState
    decreases |ds|
  {
    if ds == [] then SeedState(table, [], [], next)
    else SeedStep(SeedPlan(table, next, creator, ds[..|ds| - 1]), ds[|ds| - 1], creator)
  }

  /** Every default is either created or reported as existing; existing
      entries are kept in front as they were; each created entry is one of
      the defaults, stored under its key. */
  lemma {:induction false} SeedAccounting(table: seq<ConfigEntry>, next: nat, creator: nat, ds: seq<ConfigDefault>)
    ensures var r := SeedPlan(table, next, creator, ds);
      && r.table == table + r.created
      && |r.created| + |r.existing| == |ds|
      && r.next == next + |r.created|
      && (forall k :: 0 <= k < |r.created| ==> r.created[k].id == next + k && r.created[k].creator == creator)
      && (forall k :: 0 <= k < |r.created| ==> exists i :: (0 <= i < |ds| &&
            r.created[k] == ConfigEntry(next + k, ds[i].key, ds[i].value, Some(ds[i].kind), ds[i].description, creator)))
  {
    if ds != [] {
      var init := ds[..|ds| - 1];
      SeedAccounting(table, next, creator, init);
      var st := SeedPlan(table, next, creator, init);
      forall k | 0 <= k < |st.created|
        ensures exists i :: (0 <= i < |ds| &&
          st.created[k] == ConfigEntry(next + k, ds[i].key, ds[i].value, Some(ds[i].kind), ds[i].description, creator))
      {
        var i :| 0 <= i < |init| &&
          st.created[k] == ConfigEntry(next + k, init[i].key, init[i].value, Some(init[i].kind), init[i].description, creator);
        assert ds[i] == init[i];
      }
    }
  }

  lemma {:induction false} HasKeyAppend(a: seq<ConfigEntry>, b: seq<ConfigEntry>, key: string)
    ensures HasKey(a + b, key) <==> HasKey(a, key) || HasKey(b, key)
  {
    if HasKey(a + b, key) {
      var m :| 0 <= m < |a + b| && (a + b)[m].key == key;
      if m >= |a| {
        assert b[m - |a|] == (a + b)[m];
      }
    }
    if HasKey(a, key) {
      var m :| 0 <= m < |a| && a[m].key == key;
      assert (a + b)[m] == a[m];
    }
    if HasKey(b, key) {
      var m :| 0 <= m < |b| && b[m].key == key;
      assert (a + b)[|a| + m] == b[m];
    }
  }

  /** With distinct keys, the last default's key has not been seen by the
      time its turn comes: it is neither reported nor created earlier. */
  lemma LastKeyUnseen(table: seq<ConfigEntry>, next: nat, creator: nat, ds: seq<ConfigDefault>)
    requires DistinctKeys(ds) && ds != []
    ensures var st := SeedPlan(table, next, creator, ds[..|ds| - 1]);
      ds[|ds| - 1].key !in st.existing && !HasKey(st.created, ds[|ds| - 1].key)
  {
    var init := ds[..|ds| - 1];
    var d := ds[|ds| - 1];
    var st := SeedPlan(table, next, creator, init);
    SeedAccounting(table, next, creator, init);
    forall k | 0 <= k < |st.created| ensures st.created[k].key != d.key {
      var i :| 0 <= i < |init| && st.created[k].key == init[i].key;
      assert init[i] == ds[i];
    }
    forall m | 0 <= m < |st.existing| ensures st.existing[m] != d.key {
      ExistingFromDefaults(table, next, creator, init, m);
      var i :| 0 <= i < |init| && st.existing[m] == init[i].key;
      assert init[i] == ds[i];
    }
  }

  /** The partition for the default at index i. */
  lemma {:induction false} SeedPartitionAt(table: seq<ConfigEntry>, next: nat, creator: nat, ds: seq<ConfigDefault>, i: nat)
    requires DistinctKeys(ds) && i < |ds|
    ensures var r := SeedPlan(table, next, creator, ds);
      && (ds[i].key in r.existing <==> HasKey(table, ds[i].key))
      && (HasKey(r.created, ds[i].key) <==> !HasKey(table, ds[i].key))
  {
    var init := ds[..|ds| - 1];
    var d := ds[|ds| - 1];
    var st := SeedPlan(table, next, creator, init);
    var r := SeedPlan(table, next, creator, ds);
    var e := ConfigEntry(st.next, d.key, d.value, Some(d.kind), d.description, creator);
    if i < |init| {
      assert DistinctKeys(init) by {
        forall a, b | 0 <= a < b < |init| ensures init[a].key != init[b].key {
          assert init[a] == ds[a] && init[b] == ds[b];
        }
      }
      SeedPartitionAt(table, next, creator, init, i);
      assert init[i] == ds[i];
      assert ds[i].key != d.key;
      if HasKey(st.table, d.key) {
        assert r.existing == st.existing + [d.key];
      } else {
        assert r.created == st.created + [e];
        HasKeyAppend(st.created, [e], ds[i].key);
      }
    } else {
      LastKeyUnseen(table, next, creator, ds);
      SeedAccounting(table, next, creator, init);
      HasKeyAppend(table, st.created, d.key);
      if HasKey(st.table, d.key) {
        assert r.existing == st.existing + [d.key];
      } else {
        assert r.created == st.created + [e];
        HasKeyAppend(st.created, [e], d.key);
        assert [e][0].key == d.key;
      }
    }
  }

  /** With distinct default keys, a key is reported as existing exactly when
      the table had it before, and created exactly when it did not. */
  lemma SeedPartition(table: seq<ConfigEntry>, next: nat, creator: nat, ds: seq<ConfigDefault>)
    requires DistinctKeys(ds)
    ensures var r := SeedPlan(table, next, creator, ds);
      forall i :: 0 <= i < |ds| ==>
        && (ds[i].key in r.existing <==> HasKey(table, ds[i].key))
        && (HasKey(r.created, ds[i].key) <==> !HasKey(table, ds[i].key))
  {
    forall i | 0 <= i < |ds|
      ensures var r := SeedPlan(table, next, creator, ds);
        && (ds[i].key in r.existing <==> HasKey(table, ds[i].key))
        && (HasKey(r.created, ds[i].key) <==> !HasKey(table, ds[i].key))
    {
      SeedPartitionAt(table, next, creator, ds, i);
    }
  }

  /** Every key reported as existing is a default's key. */
  lemma {:induction false} ExistingFromDefaults(table: seq<ConfigEntry>, next: nat, creator: nat, ds: seq<ConfigDefault>, m: nat)
    requires m < |SeedPlan(table, next, creator, ds).existing|
    ensures exists i :: 0 <= i < |ds| && SeedPlan(table, next, creator, ds).existing[m] == ds[i].key
  {
    var init := ds[..|ds| - 1];
    var st := SeedPlan(table, next, creator, init);
    if m < |st.existing| {
      ExistingFromDefaults(table, next, creator, init, m);
      var i :| 0 <= i < |init| && st.existing[m] == init[i].key;
      assert ds[i] == init[i];
    } else {
      assert SeedPlan(table, next, creator, ds).existing[m] == ds[|ds| - 1].key;
    }
  }

  /** After seeding, every default key is in the table. */
  lemma {:induction false} SeedCovers(table: seq<ConfigEntry>, next: nat, creator: nat, ds: seq<ConfigDefault>)
    ensures var r := SeedPlan(table, next, creator, ds);
      forall i :: 0 <= i < |ds| ==> HasKey(r.table, ds[i].key)
  {
    if ds != [] {
      var init := ds[..|ds| - 1];
      var st := SeedPlan(table, next, creator, init);
      var r := SeedPlan(table, next, creator, ds);
      SeedCovers(table, next, creator, init);
      forall i | 0 <= i < |ds| ensures HasKey(r.table, ds[i].key) {
        if i < |init| {
          assert ds[i] == init[i];
          var m :| 0 <= m < |st.table| && st.table[m].key == init[i].key;
          assert r.table[m] == st.table[m];
        } else if !HasKey(st.table, ds[i].key) {
          assert r.table[|st.table|].key == ds[i].key;
        }
      }
    }
  }

  /** Seeding a table that already holds every default key creates nothing,
      leaves the table as it is and reports every key as existing. */
  lemma {:induction false} SeedOnSeeded(table: seq<ConfigEntry>, next: nat, creator: nat, ds: seq<ConfigDefault>)
    requires forall i :: 0 <= i < |ds| ==> HasKey(table, ds[i].key)
    ensures var r := SeedPlan(table, next, creator, ds);
      r.created == [] && r.table == table && r.next == next && |r.existing| == |ds|
  {
    if ds != [] {
      var init := ds[..|ds| - 1];
      assert forall i :: 0 <= i < |init| ==> init[i] == ds[i];
      SeedOnSeeded(table, next, creator, init);
    }
  }

  /** A second seeding, whoever runs it, creates nothing. */
  lemma SeedIdempotent(table: seq<ConfigEntry>, next: nat, creator: nat, creator2: nat, ds: seq<ConfigDefault>)
    ensures var r := SeedPlan(table, next, creator, ds);
      var r2 := SeedPlan(r.table, r.next, creator2, ds);
      r2.created == [] && r2.table == r.table && |r2.existing| == |ds|
  {
    SeedCovers(table, next, creator, ds);
    var r := SeedPlan(table, next, creator, ds);
    SeedOnSeeded(r.table, r.next, creator2, ds);
  }

  /** Seeding never introduces a second entry for a key. */
  lemma {:induction false} SeedKeepsKeysUnique(table: seq<ConfigEntry>, next: nat, creator: nat, ds: seq<ConfigDefault>)
    requires KeysUnique(table)
    ensures KeysUnique(SeedPlan(table, next, creator, ds).table)
  {
    if ds != [] {
      var init := ds[..|ds| - 1];
      SeedKeepsKeysUnique(table, next, creator, init);
      var st := SeedPlan(table, next, creator, init);
      var r := SeedPlan(table, next, creator, ds);
      var d := ds[|ds| - 1];
      if !HasKey(st.table, d.key) {
        forall i, j | 0 <= i < j < |r.table| ensures r.table[i].key != r.table[j].key {
          if j == |st.table| {
            assert r.table[i] == st.table[i];
          } else {
            assert r.table[i] == st.table[i] && r.table[j] == st.table[j];
          }
        }
      }
    }
  }

  lemma DefaultsDistinct()
    ensures DistinctKeys(Defaults)
  {
    assert |Defaults[0].key| != |Defaults[1].key|;
  }
}
