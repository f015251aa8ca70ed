/** Tables that stand for a map: rows with a key and flags, and the last-writer-wins map they represent. */
module KeyedTables {
  import opened Catalog

  datatype Entry<K> = Entry(key: K, flags: Flags)

  /** One row for each entry of the map, and one entry for each row. */
  ghost predicate Represents<K>(rows: map<nat, Entry<K>>, m: map<K, Flags>) {
    && (forall p | p in rows :: rows[p].key in m && m[rows[p].key] == rows[p].flags)
    && (forall k | k in m :: HasKey(rows, k))
    && OnePerKey(rows)
  }

  ghost predicate HasKey<K>(rows: map<nat, Entry<K>>, key: K) {
    exists p :: p in rows && rows[p].key == key
  }

  ghost predicate OnePerKey<K>(rows: map<nat, Entry<K>>) {
    forall p, q | p in rows && q in rows && rows[p].key == rows[q].key :: p == q
  }

  /** The map a table with one row per key stands for. */
  ghost function MapOf<K>(rows: map<nat, Entry<K>>): (m: map<K, Flags>)
    requires OnePerKey(rows)
    ensures Represents(rows, m)
  {
    var m := map p | p in rows :: rows[p].key := rows[p].flags;
    assert forall k | k in m :: HasKey(rows, k);
    m
  }

  function KeysOf<K(==)>(rows: map<nat, Entry<K>>, ids: set<nat>): set<K> {
    set p | p in ids && p in rows :: rows[p].key
  }

  /** The entries whose keys still live. */
  ghost function Restrict<K>(m: map<K, Flags>, living: iset<K>): map<K, Flags> {
    map k | k in m && k in living :: m[k]
  }

  /** Some rows are deleted, and with them all whose keys no longer live. */
  lemma DropRefines<K>(rows: map<nat, Entry<K>>, after: map<nat, Entry<K>>, dead: set<nat>, living: iset<K>, m: map<K,
        Flags>)
    requires Represents(rows, m)
    requires forall p :: p in after <==> p in rows && p !in dead && rows[p].key in living
    requires forall p | p in after :: after[p] == rows[p]
    ensures Represents(after, Restrict(m - KeysOf(rows, dead), living))
  {
    var m' := Restrict(m - KeysOf(rows, dead), living);
    forall k | k in m' ensures HasKey(after, k) {
      assert HasKey(rows, k);
      var p :| p in rows && rows[p].key == k;
      assert p in after;
    }
    forall p | p in after ensures after[p].key in m' {
      assert rows[p].key !in KeysOf(rows, dead);
    }
  }

  /** Nothing the map speaks of dies. */
  lemma AllLive<K>(rows: map<nat, Entry<K>>, living: iset<K>, m: map<K, Flags>)
    requires Represents(rows, m) && forall p | p in rows :: rows[p].key in living
    ensures Restrict(m, living) == m
  {
    forall k | k in m ensures k in living {
      assert HasKey(rows, k);
    }
  }

  /** A row is overwritten under its key, or added under a new one. */
  lemma PutRefines<K>(rows: map<nat, Entry<K>>, p: nat, e: Entry<K>, m: map<K, Flags>)
    requires Represents(rows, m)
    requires forall q | q in rows && q != p :: rows[q].key != e.key
    requires p in rows ==> rows[p].key == e.key
    ensures Represents(rows[p := e], m[e.key := e.flags])
  {
    var after := rows[p := e];
    forall k | k in m[e.key := e.flags] ensures HasKey(after, k) {
      if k == e.key {
        assert after[p] == e;
      } else {
        assert HasKey(rows, k);
        var q :| q in rows && rows[q].key == k;
        assert after[q] == rows[q];
      }
    }
  }
}
