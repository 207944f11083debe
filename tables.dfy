/**
 * A table keyed by an integer primary key, as a map from key to row.
 * `Upsert` is a batch insert with conflict strategy REPLACE: rows are applied
 * in list order, and a row whose key is already present replaces the old row
 * whole (no field is merged).
 */
module Tables {

  /** Every row is stored under its own primary key. */
  ghost predicate Keyed<V>(m: map<int, V>, key: V -> int) {
    forall k :: k in m ==> key(m[k]) == k
  }

  /** The keys a batch of rows carries. */
  ghost function KeysOf<V>(rows: seq<V>, key: V -> int): set<int> {
    set i | 0 <= i < |rows| :: key(rows[i])
  }

  /** Row `i` is the last row of the batch with its key. */
  ghost predicate LastWithKey<V>(rows: seq<V>, key: V -> int, i: int)
    requires 0 <= i < |rows|
  {
    forall j :: i < j < |rows| ==> key(rows[j]) != key(rows[i])
  }

  /**
   * A member of a non-empty set. The empty-set case is closed by hand: the
   * solver does not turn `s != {}` into a member on its own.
   */
  lemma MemberOf<T>(s: set<T>) returns (x: T)
    requires s != {}
    ensures x in s
  {
    if forall y :: y !in s {
      assert false;
    }
    x :| x in s;
  }

  /** A key under which a map stores the given value. */
  lemma KeyOf<K, V>(m: map<K, V>, v: V) returns (k: K)
    requires v in m.Values
    ensures k in m && m[k] == v
  {
    if forall j :: j in m ==> m[j] != v {
      assert false;
    }
    k :| k in m && m[k] == v;
  }

  function Upsert<V>(m: map<int, V>, rows: seq<V>, key: V -> int): map<int, V>
    decreases |rows|
  {
    if rows == [] then m
    else Upsert(m, rows[..|rows| - 1], key)[key(rows[|rows| - 1]) := rows[|rows| - 1]]
  }

  /**
   * After a batch insert the keys are the old keys plus the batch's, a key
   * outside the batch keeps its row, the last row with a key is the one
   * stored under it, and every row stays under its own key.
   */
  lemma {:induction false} UpsertFacts<V>(m: map<int, V>, rows: seq<V>, key: V -> int)
    ensures Upsert(m, rows, key).Keys == m.Keys + KeysOf(rows, key)
    ensures forall k :: k in m && k !in KeysOf(rows, key) ==> Upsert(m, rows, key)[k] == m[k]
    ensures forall i :: 0 <= i < |rows| && LastWithKey(rows, key, i) ==> Upsert(m, rows, key)[key(rows[i])] == rows[i]
    ensures Keyed(m, key) ==> Keyed(Upsert(m, rows, key), key)
    decreases |rows|
  {
    if rows != [] {
      var init, last := rows[..|rows| - 1], rows[|rows| - 1];
      UpsertFacts(m, init, key);
      KeysOfSnoc(rows, key);
      var r0 := Upsert(m, init, key);
      var r := Upsert(m, rows, key);
      assert r == r0[key(last) := last];
      forall i | 0 <= i < |rows| && LastWithKey(rows, key, i) ensures r[key(rows[i])] == rows[i] {
        if i < |rows| - 1 {
          assert init[i] == rows[i];
          forall j | i < j < |init| ensures key(init[j]) != key(init[i]) {
            assert init[j] == rows[j];
          }
          assert LastWithKey(init, key, i);
        }
      }
    }
  }

  /** The keys of a batch are those of all but its last row, and the last row's. */
  lemma KeysOfSnoc<V>(rows: seq<V>, key: V -> int)
    requires rows != []
    ensures KeysOf(rows, key) == KeysOf(rows[..|rows| - 1], key) + {key(rows[|rows| - 1])}
  {
    var init := rows[..|rows| - 1];
    forall k | k in KeysOf(rows, key) ensures k in KeysOf(init, key) + {key(rows[|rows| - 1])} {
      var i :| 0 <= i < |rows| && key(rows[i]) == k;
      if i < |rows| - 1 { assert init[i] == rows[i]; }
    }
    forall k | k in KeysOf(init, key) ensures k in KeysOf(rows, key) {
      var i :| 0 <= i < |init| && key(init[i]) == k;
      assert rows[i] == init[i];
    }
  }

  /** A key the batch carries ends up holding one of the batch's rows with that key. */
  lemma {:induction false} UpsertTakesBatchRow<V>(m: map<int, V>, rows: seq<V>, key: V -> int, k: int)
    requires k in KeysOf(rows, key)
    ensures k in Upsert(m, rows, key) && Upsert(m, rows, key)[k] in rows && key(Upsert(m, rows, key)[k]) == k
    decreases |rows|
  {
    var init, last := rows[..|rows| - 1], rows[|rows| - 1];
    assert rows == init + [last];
    if key(last) != k {
      var i :| 0 <= i < |rows| && key(rows[i]) == k;
      assert init[i] == rows[i];
      UpsertFacts(m, init, key);
      UpsertTakesBatchRow(m, init, key, k);
    }
  }

  /** Under a key-consistent map, distinct keys hold distinct rows, so there are as many rows as keys. */
  lemma {:induction false} KeyedValuesCount<V>(m: map<int, V>, key: V -> int)
    requires Keyed(m, key)
    ensures |m.Values| == |m.Keys|
    decreases |m.Keys|
  {
    if m.Keys != {} {
      var k := MemberOf(m.Keys);
      var rest := m - {k};
      assert Keyed(rest, key);
      KeyedValuesCount(rest, key);
      assert m.Values == rest.Values + {m[k]} by {
        forall v | v in m.Values ensures v in rest.Values + {m[k]} {
          var k' := KeyOf(m, v);
          if k' != k { assert rest[k'] == v; }
        }
      }
      forall k' | k' in rest.Keys ensures rest[k'] != m[k] {
        assert key(rest[k']) == k' && key(m[k]) == k;
      }
      assert m[k] !in rest.Values;
      assert m.Keys == rest.Keys + {k};
    }
  }
}
