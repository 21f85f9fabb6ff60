/**
 * Making a scope of a table exactly the rows wanted (packages/db/src/sync.ts, packages/db/src/db.ts), touching only those
 * that differ. The table's key is unique, and a scope is fixed by key columns. Rows alike in canonical form are equal.
 */
module SyncScope {
  import opened Batches
  import opened Sequences

  /** Rows of one key are one row. */
  ghost predicate Consistent<K, R>(rows: seq<R>, key: R -> K) {
    forall r, s :: r in rows && s in rows && key(r) == key(s) ==> r == s
  }

  /** Rows by key, the last of each. */
  function ByKey<K, R>(rows: seq<R>, key: R -> K): map<K, R> {
    if rows == [] then map[] else ByKey(rows[..|rows| - 1], key)[key(rows[|rows| - 1]) := rows[|rows| - 1]]
  }

  function KeysOf<K(==), R(==)>(rows: seq<R>, key: R -> K): set<K> {
    set r | r in rows :: key(r)
  }

  lemma KeysOfBoth<K, R>(a: seq<R>, b: seq<R>, key: R -> K)
    ensures KeysOf(a + b, key) == KeysOf(a, key) + KeysOf(b, key)
  {
  }

  /** Rows by key, the first of each. */
  function FirstByKey<K, R>(rows: seq<R>, key: R -> K): map<K, R> {
    if rows == [] then map[]
    else map[key(rows[|rows| - 1]) := rows[|rows| - 1]] + FirstByKey(rows[..|rows| - 1], key)
  }

  lemma {:induction false} FirstByKeyOf<K, R>(rows: seq<R>, key: R -> K)
    ensures FirstByKey(rows, key).Keys == KeysOf(rows, key)
    ensures forall k :: k in FirstByKey(rows, key) ==> FirstByKey(rows, key)[k] in rows && key(FirstByKey(rows, key)[k]) == k
  {
    if rows == [] {
    } else {
      var init, last := rows[..|rows| - 1], rows[|rows| - 1];
      assert rows == init + [last];
      FirstByKeyOf(init, key);
      KeysOfBoth(init, [last], key);
    }
  }

  lemma {:induction false} FirstByKeyBoth<K, R>(a: seq<R>, b: seq<R>, key: R -> K)
    ensures FirstByKey(a + b, key) == FirstByKey(b, key) + FirstByKey(a, key)
  {
    if b == [] {
      assert a + b == a;
    } else {
      assert (a + b)[..|a + b| - 1] == a + b[..|b| - 1];
      FirstByKeyBoth(a, b[..|b| - 1], key);
    }
  }

  lemma {:induction false} ByKeyOf<K, R>(rows: seq<R>, key: R -> K)
    ensures ByKey(rows, key).Keys == KeysOf(rows, key)
    ensures forall k :: k in ByKey(rows, key) ==> ByKey(rows, key)[k] in rows && key(ByKey(rows, key)[k]) == k
  {
    if rows == [] {
    } else {
      var init, last := rows[..|rows| - 1], rows[|rows| - 1];
      assert rows == init + [last];
      ByKeyOf(init, key);
      KeysOfBoth(init, [last], key);
    }
  }

  /** A row is held if some held row is it and no later one has its key. */
  lemma {:induction false} HeldIsLast<K, R>(held: seq<R>, r: R, key: R -> K)
    ensures IsHeld(held, r, key) <==>
      exists i :: 0 <= i < |held| && held[i] == r && forall j :: i < j < |held| ==> key(held[j]) != key(r)
  {
    if held == [] {
    } else {
      var n := |held| - 1;
      HeldIsLast(held[..n], r, key);
      if key(held[n]) != key(r) {
        if IsHeld(held, r, key) {
          var i :| 0 <= i < n && held[..n][i] == r && forall j :: i < j < n ==> key(held[..n][j]) != key(r);
          assert held[i] == r && forall j :: i < j < n ==> held[j] == held[..n][j];
        }
        if i :| 0 <= i < |held| && held[i] == r && forall j :: i < j < |held| ==> key(held[j]) != key(r) {
          assert held[..n][i] == r && forall j :: i < j < n ==> held[j] == held[..n][j];
        }
      } else {
        assert held[n] == r ==> IsHeld(held, r, key);
      }
    }
  }

  /** Of the rows of one key the first is taken. */
  lemma {:induction false} FirstIsTaken<K, R>(rows: seq<R>, i: nat, key: R -> K)
    requires i < |rows| && forall j :: 0 <= j < i ==> key(rows[j]) != key(rows[i])
    ensures key(rows[i]) in FirstByKey(rows, key) && FirstByKey(rows, key)[key(rows[i])] == rows[i]
    decreases |rows|
  {
    var n := |rows| - 1;
    if i < n {
      assert forall j :: 0 <= j <= i ==> rows[..n][j] == rows[j];
      FirstIsTaken(rows[..n], i, key);
    } else {
      FirstByKeyOf(rows[..n], key);
    }
  }

  lemma ByKeyConsistent<K, R>(rows: seq<R>, key: R -> K)
    requires Consistent(rows, key)
    ensures forall r :: r in rows ==> key(r) in ByKey(rows, key) && ByKey(rows, key)[key(r)] == r
  {
    ByKeyOf(rows, key);
  }

  lemma HeldByKey<K, R>(held: seq<R>, r: R, key: R -> K)
    requires Consistent(held, key)
    ensures r in held <==> key(r) in ByKey(held, key) && ByKey(held, key)[key(r)] == r
  {
    ByKeyOf(held, key);
    ByKeyConsistent(held, key);
  }

  /** Whether the last of the held rows with a row's key is the row. */
  predicate IsHeld<K(==), R(==)>(held: seq<R>, r: R, key: R -> K) {
    key(r) in ByKey(held, key) && ByKey(held, key)[key(r)] == r
  }

  /** What turns `held` into `wanted`: rows new or different, and held rows whose key `wanted` lacks. */
  method Diff<K(==), R(==)>(held: seq<R>, wanted: seq<R>, key: R -> K) returns (put: seq<R>, gone: seq<R>)
    ensures put == Filter(wanted, r => !IsHeld(held, r, key))
    ensures Consistent(held, key) ==> put == Filter(wanted, r => r !in held)
    ensures gone == Filter(held, r => key(r) !in ByKey(wanted, key))
  {
    hide *;
    var had, keep := ByKey(held, key), ByKey(wanted, key);
    put, gone := [], [];
    Filter0<R>();
    for i := 0 to |wanted|
      invariant put == Filter(wanted[..i], r => !IsHeld(held, r, key))
    {
      var r := wanted[i];
      FilterNext(wanted, i, r => !IsHeld(held, r, key));
      HeldIs(held, r, key);
      if key(r) !in had || had[key(r)] != r {
        put := put + [r];
      }
    }
    for i := 0 to |held|
      invariant gone == Filter(held[..i], r => key(r) !in ByKey(wanted, key))
    {
      FilterNext(held, i, r => key(r) !in ByKey(wanted, key));
      if key(held[i]) !in keep {
        gone := gone + [held[i]];
      }
    }
    assert wanted[..|wanted|] == wanted && held[..|held|] == held;
    NewIfDistinct(held, wanted, key);
  }

  lemma Filter0<T>()
    ensures forall p: T -> bool :: Filter([], p) == []
  {
  }

  lemma HeldIs<K, R>(held: seq<R>, r: R, key: R -> K)
    ensures IsHeld(held, r, key) <==> key(r) in ByKey(held, key) && ByKey(held, key)[key(r)] == r
  {
  }

  lemma NewIfDistinct<K, R>(held: seq<R>, wanted: seq<R>, key: R -> K)
    ensures Consistent(held, key) ==>
      Filter(wanted, r => !IsHeld(held, r, key)) == Filter(wanted, r => r !in held)
  {
    if Consistent(held, key) {
      forall r | r in wanted
        ensures r in held <==> IsHeld(held, r, key)
      {
        HeldByKey(held, r, key);
      }
      hide *;
      FilterSame(wanted, r => !IsHeld(held, r, key), r => r !in held);
    }
  }

  class Table<K(==), R(==)> {
    const key: R -> K
    /** A row's length as JSON, of all its columns or of its key's. */
    const size: R -> nat
    const keySize: R -> nat
    var rows: map<K, R>
    /** The keys statements deleted or inserted rows of, and how many statements there were. */
    ghost var touched: set<K>
    ghost var statements: nat

    ghost predicate Valid()
      reads this
    {
      forall k :: k in rows ==> key(rows[k]) == k
    }

    constructor (key: R -> K, size: R -> nat, keySize: R -> nat)
      ensures Valid() && rows == map[]
    {
      this.key, this.size, this.keySize := key, size, keySize;
      rows, touched, statements := map[], {}, 0;
    }

    /** The rows of a scope, in any order. */
    method Select(scope: K -> bool) returns (held: seq<R>)
      requires Valid()
      ensures Consistent(held, key) && Selected(held, rows, scope, key)
    {
      held := [];
      var left := rows.Keys;
      while left != {}
        invariant left <= rows.Keys
        invariant forall r :: r in held <==>
          key(r) in rows && key(r) !in left && rows[key(r)] == r && scope(key(r))
        decreases left
      {
        var k :| k in left;
        left := left - {k};
        if scope(k) {
          held := held + [rows[k]];
        }
      }
    }

    /** One DELETE of the rows of some keys. */
    method Delete(batch: seq<R>)
      requires Valid()
      modifies this
      ensures Valid() && rows == old(rows) - KeysOf(batch, key)
      ensures touched == old(touched) + KeysOf(batch, key) && statements == old(statements) + 1
    {
      rows := rows - KeysOf(batch, key);
      touched, statements := touched + KeysOf(batch, key), statements + 1;
    }

    /** One INSERT of rows, a row whose key is held left as it is. */
    method Insert(batch: seq<R>)
      requires Valid()
      modifies this
      ensures Valid() && rows == FirstByKey(batch, key) + old(rows)
      ensures touched == old(touched) + KeysOf(batch, key) && statements == old(statements) + 1
    {
      for i := 0 to |batch|
        invariant Valid() && rows == FirstByKey(batch[..i], key) + old(rows)
        invariant touched == old(touched) && statements == old(statements)
      {
        assert batch[..i + 1][..i] == batch[..i];
        if key(batch[i]) !in rows {
          rows := rows[key(batch[i]) := batch[i]];
        }
      }
      assert batch[..|batch|] == batch;
      touched, statements := touched + KeysOf(batch, key), statements + 1;
    }

    /** Deletes as few statements make. */
    method DeleteAll(gone: seq<R>)
      requires Valid()
      modifies this
      ensures Valid() && rows == old(rows) - KeysOf(gone, key)
      ensures touched == old(touched) + KeysOf(gone, key)
      ensures gone == [] ==> statements == old(statements)
    {
      var batches := JsonBatches(gone, keySize);
      for i := 0 to |batches|
        invariant Valid() && rows == old(rows) - KeysOf(Flat(batches[..i]), key)
        invariant touched == old(touched) + KeysOf(Flat(batches[..i]), key)
        invariant statements == old(statements) + i
      {
        Delete(batches[i]);
        OneMore(batches, i, key);
      }
      assert batches[..|batches|] == batches;
      NoneForNone(batches, keySize);
    }

    /** Inserts of rows, of each key not held the first. */
    method InsertAll(put: seq<R>)
      requires Valid()
      modifies this
      ensures Valid() && rows == FirstByKey(put, key) + old(rows)
      ensures touched == old(touched) + KeysOf(put, key)
      ensures put == [] ==> statements == old(statements)
    {
      hide FirstByKey, KeysOf, Flat, Greedy;
      var batches := JsonBatches(put, size);
      NothingYet(batches, key);
      for i := 0 to |batches|
        invariant Valid() && rows == FirstByKey(Flat(batches[..i]), key) + old(rows)
        invariant touched == old(touched) + KeysOf(Flat(batches[..i]), key)
        invariant statements == old(statements) + i
      {
        OneMore(batches, i, key);
        Insert(batches[i]);
      }
      assert batches[..|batches|] == batches;
      NoneForNone(batches, size);
    }

    /**
     * Makes the rows of a scope exactly `wanted`, deleting the rows that are gone or differ and inserting those that are
     * new or differ, in one transaction. Returns the rows written and deleted. The scope ends as wanted exactly if the
     * wanted rows are of the scope and no two of them differ under one key.
     */
    method Sync(scope: K -> bool, wanted: seq<R>) returns (changed: seq<R>)
      requires Valid()
      modifies this
      ensures Valid() && rows == Synced(old(rows), wanted, scope, key)
      ensures Within(rows, scope) == ToSet(wanted) <==> Attainable(wanted, scope, key)
      ensures Attainable(wanted, scope, key) ==> rows == Outside(old(rows), scope) + ByKey(wanted, key)
      ensures KeysOf(changed, key) == Changing(old(rows), wanted, scope, key)
      ensures Attainable(wanted, scope, key) ==> KeysOf(changed, key) == Differing(old(rows), ByKey(wanted, key), scope)
      ensures forall i: nat :: i < |wanted| && IsPut(old(rows), wanted, i, scope, key) ==>
        key(wanted[i]) in rows && rows[key(wanted[i])] == wanted[i]
      ensures touched == old(touched) + KeysOf(changed, key)
      ensures forall r :: r in changed ==> r in wanted || (key(r) in old(rows) && old(rows)[key(r)] == r)
      ensures changed == [] ==> statements == old(statements)
    {
      hide *;
      var held := Select(scope);
      var put, gone := Diff(held, wanted, key);
      PutIs(rows, held, wanted, put, gone, scope, key);
      KeysOfBoth(gone, put, key);
      KeysOfBoth(put, gone, key);
      RowsChanged(rows, held, wanted, put, gone, scope, key);
      assert put + gone == [] ==> gone + put == [];
      ghost var before := rows;
      DeleteAll(gone + put);
      InsertAll(put);
      changed := put + gone;
      SyncedIs(before, wanted, scope, key);
      PutsStay(before, wanted, scope, key);
    }

    /**
     * Syncs a scope to the same rows twice. The second time nothing is found to change exactly if the rows are of the
     * scope and one a key; then no statement is made and no row is touched again.
     */
    method SyncTwice(scope: K -> bool, wanted: seq<R>) returns (changed: seq<R>, again: seq<R>, ghost between: nat)
      requires Valid()
      modifies this
      ensures Valid() && rows == Synced(Synced(old(rows), wanted, scope, key), wanted, scope, key)
      ensures again == [] <==> Attainable(wanted, scope, key)
      ensures Attainable(wanted, scope, key) ==>
        && rows == Outside(old(rows), scope) + ByKey(wanted, key)
        && touched == old(touched) + Differing(old(rows), ByKey(wanted, key), scope)
        && statements == between
    {
      hide Synced, Changing, Attainable, Within, Outside, ByKey, Differing, KeysOf, ToSet;
      changed := Sync(scope, wanted);
      between := statements;
      ghost var first := rows;
      again := Sync(scope, wanted);
      SyncedAgain(old(rows), wanted, scope, key);
      NoKeys(again, key);
    }
  }

  predicate HeldAs<K(==), R(==)>(rows: map<K, R>, r: R, scope: K -> bool, key: R -> K) {
    key(r) in rows && rows[key(r)] == r && scope(key(r))
  }

  /** A wanted row the scope does not hold as it is, and the first of its key that it does not. */
  predicate IsPut<K(==), R(==)>(rows: map<K, R>, wanted: seq<R>, i: nat, scope: K -> bool, key: R -> K) {
    && i < |wanted| && !HeldAs(rows, wanted[i], scope, key)
    && forall j :: 0 <= j < i && key(wanted[j]) == key(wanted[i]) ==> HeldAs(rows, wanted[j], scope, key)
  }

  lemma PutsStay<K, R>(rows: map<K, R>, wanted: seq<R>, scope: K -> bool, key: R -> K)
    ensures forall i: nat :: i < |wanted| && IsPut(rows, wanted, i, scope, key) ==>
      var after := Synced(rows, wanted, scope, key); key(wanted[i]) in after && after[key(wanted[i])] == wanted[i]
  {
    hide IsPut, Synced, ToPut, FirstByKey, Changing;
    forall i: nat | i < |wanted| && IsPut(rows, wanted, i, scope, key)
      ensures var after := Synced(rows, wanted, scope, key); key(wanted[i]) in after && after[key(wanted[i])] == wanted[i]
    {
      PutStays(rows, wanted, i, scope, key);
    }
  }

  lemma PutStays<K, R>(rows: map<K, R>, wanted: seq<R>, i: nat, scope: K -> bool, key: R -> K)
    requires i < |wanted| && IsPut(rows, wanted, i, scope, key)
    ensures var after := Synced(rows, wanted, scope, key); key(wanted[i]) in after && after[key(wanted[i])] == wanted[i]
  {
    hide FirstByKey, Filter;
    var put := ToPut(rows, wanted, scope, key);
    var before := Filter(wanted[..i], r => !(key(r) in rows && rows[key(r)] == r && scope(key(r))));
    assert wanted == wanted[..i + 1] + wanted[i + 1..] && wanted[..i + 1] == wanted[..i] + [wanted[i]];
    FilterBoth(wanted[..i + 1], wanted[i + 1..], r => !(key(r) in rows && rows[key(r)] == r && scope(key(r))));
    FilterNext(wanted, i, r => !(key(r) in rows && rows[key(r)] == r && scope(key(r))));
    assert put[|before|] == wanted[i] && wanted[i] in put;
    forall j | 0 <= j < |before|
      ensures key(put[j]) != key(wanted[i])
    {
      assert put[j] == before[j] && before[j] in before && before[j] in wanted[..i];
      var k :| 0 <= k < i && wanted[..i][k] == before[j];
      assert wanted[k] == before[j];
    }
    FirstIsTaken(put, |before|, key);
  }

  lemma NoKeys<K, R>(rows: seq<R>, key: R -> K)
    ensures KeysOf(rows, key) == {} <==> rows == []
  {
    if rows != [] {
      assert key(rows[0]) in KeysOf(rows, key);
    }
  }

  /** The keys of the rows a sync puts or finds gone. */
  ghost function Changing<K, R>(rows: map<K, R>, wanted: seq<R>, scope: K -> bool, key: R -> K): set<K> {
    GoneKeys(rows, wanted, scope, key) + KeysOf(ToPut(rows, wanted, scope, key), key)
  }

  /** The rows outside a scope. */
  function Outside<K, R>(rows: map<K, R>, scope: K -> bool): map<K, R> {
    map k | k in rows && !scope(k) :: rows[k]
  }

  /** The keys of a scope whose rows are to change, come or go. */
  ghost function Differing<K, R>(rows: map<K, R>, wanted: map<K, R>, scope: K -> bool): set<K> {
    set k | k in rows.Keys + wanted.Keys && scope(k) && !(k in rows && k in wanted && rows[k] == wanted[k])
  }

  /** The rows of a scope. */
  function Within<K, R>(rows: map<K, R>, scope: K -> bool): set<R> {
    set k | k in rows && scope(k) :: rows[k]
  }

  /** Rows of a scope, one a key. */
  ghost predicate Attainable<K, R>(wanted: seq<R>, scope: K -> bool, key: R -> K) {
    Consistent(wanted, key) && forall r :: r in wanted ==> scope(key(r))
  }

  /** The wanted rows the scope does not hold as they are. */
  ghost function ToPut<K, R>(rows: map<K, R>, wanted: seq<R>, scope: K -> bool, key: R -> K): seq<R> {
    Filter(wanted, r => !(key(r) in rows && rows[key(r)] == r && scope(key(r))))
  }

  /** The keys of the scope that no wanted row has. */
  ghost function GoneKeys<K, R>(rows: map<K, R>, wanted: seq<R>, scope: K -> bool, key: R -> K): set<K> {
    set k | k in rows && scope(k) && k !in KeysOf(wanted, key)
  }

  /** The rows once a scope was synced to any rows. */
  ghost function Synced<K, R>(rows: map<K, R>, wanted: seq<R>, scope: K -> bool, key: R -> K): map<K, R> {
    var put := ToPut(rows, wanted, scope, key);
    FirstByKey(put, key) + (rows - Changing(rows, wanted, scope, key))
  }

  /** `held` are a scope's rows. */
  ghost predicate Selected<K, R>(held: seq<R>, rows: map<K, R>, scope: K -> bool, key: R -> K) {
    && (forall k :: k in rows ==> key(rows[k]) == k)
    && (forall r :: r in held ==> key(r) in rows && rows[key(r)] == r && scope(key(r)))
    && forall k :: k in rows && scope(k) ==> rows[k] in held
  }

  /** Comparing with the rows selected finds the rows to put and the keys that go. */
  lemma PutIs<K, R>(rows: map<K, R>, held: seq<R>, wanted: seq<R>, put: seq<R>, gone: seq<R>, scope: K -> bool, key: R -> K)
    requires Selected(held, rows, scope, key)
    requires put == Filter(wanted, r => r !in held) && gone == Filter(held, r => key(r) !in ByKey(wanted, key))
    ensures put == ToPut(rows, wanted, scope, key) && KeysOf(gone, key) == GoneKeys(rows, wanted, scope, key)
    ensures KeysOf(gone, key) + KeysOf(put, key) == Changing(rows, wanted, scope, key)
    ensures Synced(rows, wanted, scope, key) == FirstByKey(put, key) + (rows - (KeysOf(gone, key) + KeysOf(put, key)))
  {
    hide *;
    PutWanted(rows, held, wanted, scope, key);
    GoneAre(rows, held, wanted, gone, scope, key);
    SyncedFrom(rows, wanted, scope, key);
  }

  lemma SyncedFrom<K, R>(rows: map<K, R>, wanted: seq<R>, scope: K -> bool, key: R -> K)
    ensures var put := ToPut(rows, wanted, scope, key);
      && Changing(rows, wanted, scope, key) == GoneKeys(rows, wanted, scope, key) + KeysOf(put, key)
      && Synced(rows, wanted, scope, key) == FirstByKey(put, key) + (rows - Changing(rows, wanted, scope, key))
  {
  }

  lemma PutWanted<K, R>(rows: map<K, R>, held: seq<R>, wanted: seq<R>, scope: K -> bool, key: R -> K)
    requires Selected(held, rows, scope, key)
    ensures Filter(wanted, r => r !in held) == ToPut(rows, wanted, scope, key)
  {
    hide Filter;
    forall r | r in wanted
      ensures r !in held <==> !(key(r) in rows && rows[key(r)] == r && scope(key(r)))
    {
    }
    FilterSame(wanted, r => r !in held, r => !(key(r) in rows && rows[key(r)] == r && scope(key(r))));
  }

  lemma GoneAre<K, R>(rows: map<K, R>, held: seq<R>, wanted: seq<R>, gone: seq<R>, scope: K -> bool, key: R -> K)
    requires Selected(held, rows, scope, key) && gone == Filter(held, r => key(r) !in ByKey(wanted, key))
    ensures KeysOf(gone, key) == GoneKeys(rows, wanted, scope, key)
  {
    hide ByKey;
    ByKeyOf(wanted, key);
    forall k
      ensures k in KeysOf(gone, key) <==> k in GoneKeys(rows, wanted, scope, key)
    {
      if k in GoneKeys(rows, wanted, scope, key) {
        assert rows[k] in held && rows[k] in gone;
      }
    }
  }

  lemma PutKey<K, R>(k: K, rows: map<K, R>, wanted: seq<R>, scope: K -> bool, key: R -> K)
    requires Attainable(wanted, scope, key) && forall k :: k in rows ==> key(rows[k]) == k
    ensures var put := ToPut(rows, wanted, scope, key);
      KeyFate(k, rows, ByKey(wanted, key), FirstByKey(put, key), KeysOf(put, key), GoneKeys(rows, wanted, scope, key), scope)
  {
    var put := ToPut(rows, wanted, scope, key);
    ByKeyOf(wanted, key);
    ByKeyConsistent(wanted, key);
    FirstByKeyOf(put, key);
    var b, p := ByKey(wanted, key), FirstByKey(put, key);
    if k in b {
      assert b[k] in wanted;
    }
    if k in p {
      assert p[k] in put && p[k] in wanted;
    }
  }

  lemma RowsChanged<K, R>(rows: map<K, R>, held: seq<R>, wanted: seq<R>, put: seq<R>, gone: seq<R>, scope: K -> bool,
                          key: R -> K)
    requires Selected(held, rows, scope, key)
    requires put == Filter(wanted, r => r !in held) && gone == Filter(held, r => key(r) !in ByKey(wanted, key))
    ensures forall r :: r in put + gone ==> r in wanted || (key(r) in rows && rows[key(r)] == r)
  {
  }

  /** Once a scope is as wanted, nothing of it differs. */
  lemma NothingDiffers<K, R>(rows: map<K, R>, wanted: map<K, R>, scope: K -> bool)
    requires forall k :: k in wanted ==> scope(k)
    ensures Differing(Outside(rows, scope) + wanted, wanted, scope) == {}
    ensures Outside(Outside(rows, scope) + wanted, scope) == Outside(rows, scope)
  {
  }

  /** What becomes of a key of the table, of `wanted`, of the rows that go or of those put. */
  ghost predicate KeyFate<K, R>(k: K, rows: map<K, R>, wanted: map<K, R>, put: map<K, R>, putKeys: set<K>, gone: set<K>,
                                scope: K -> bool) {
    && (k in gone <==> k in rows && scope(k) && k !in wanted)
    && (k in wanted ==> scope(k))
    && (k in put <==> k in wanted && !(k in rows && rows[k] == wanted[k]))
    && (k in put ==> put[k] == wanted[k])
    && (k in put <==> k in putKeys)
  }

  lemma Fates<K, R>(rows: map<K, R>, wanted: map<K, R>, put: map<K, R>, putKeys: set<K>, gone: set<K>, scope: K -> bool)
    requires forall k :: k in rows.Keys + wanted.Keys + put.Keys + putKeys + gone ==>
      KeyFate(k, rows, wanted, put, putKeys, gone, scope)
    ensures gone + putKeys == Differing(rows, wanted, scope)
    ensures rows - (gone + putKeys) + put == Outside(rows, scope) + wanted
  {
    var after, should := rows - (gone + putKeys) + put, Outside(rows, scope) + wanted;
    forall k | k in rows.Keys + wanted.Keys + put.Keys + putKeys + gone
      ensures (k in after <==> k in should) && (k in after ==> after[k] == should[k])
      ensures k in gone + putKeys <==> k in Differing(rows, wanted, scope)
    {
      assert KeyFate(k, rows, wanted, put, putKeys, gone, scope);
    }
    assert after.Keys == should.Keys;
  }

  /** Rows of the scope that do not contradict one another are what syncing leaves there, changing only what differs. */
  lemma Differ<K, R>(rows: map<K, R>, wanted: seq<R>, scope: K -> bool, key: R -> K)
    requires Attainable(wanted, scope, key) && forall k :: k in rows ==> key(rows[k]) == k
    ensures Synced(rows, wanted, scope, key) == Outside(rows, scope) + ByKey(wanted, key)
    ensures Changing(rows, wanted, scope, key) == Differing(rows, ByKey(wanted, key), scope)
  {
    var put, gone := ToPut(rows, wanted, scope, key), GoneKeys(rows, wanted, scope, key);
    var b, p, putKeys := ByKey(wanted, key), FirstByKey(put, key), KeysOf(put, key);
    hide ByKey, FirstByKey, ToPut, GoneKeys, KeysOf, Attainable, KeyFate, Outside, Differing;
    forall k | k in rows.Keys + b.Keys + p.Keys + putKeys + gone
      ensures KeyFate(k, rows, b, p, putKeys, gone, scope)
    {
      PutKey(k, rows, wanted, scope, key);
    }
    Fates(rows, b, p, putKeys, gone, scope);
    FirstByKeyOf(put, key);
    assert p + (rows - (gone + putKeys)) == rows - (gone + putKeys) + p;
  }

  lemma SyncedKeyed<K, R>(rows: map<K, R>, wanted: seq<R>, scope: K -> bool, key: R -> K)
    requires forall k :: k in rows ==> key(rows[k]) == k
    ensures var after := Synced(rows, wanted, scope, key); forall k :: k in after ==> key(after[k]) == k
  {
    hide FirstByKey, ToPut, GoneKeys;
    FirstByKeyOf(ToPut(rows, wanted, scope, key), key);
  }

  /** A scope can be made the rows wanted exactly if they are of the scope and one a key; syncing then does. */
  lemma SyncedIs<K, R>(rows: map<K, R>, wanted: seq<R>, scope: K -> bool, key: R -> K)
    requires forall k :: k in rows ==> key(rows[k]) == k
    ensures Within(Synced(rows, wanted, scope, key), scope) == ToSet(wanted) <==> Attainable(wanted, scope, key)
    ensures Attainable(wanted, scope, key) ==> Synced(rows, wanted, scope, key) == Outside(rows, scope) + ByKey(wanted, key)
    ensures Attainable(wanted, scope, key) ==>
      Changing(rows, wanted, scope, key) == Differing(rows, ByKey(wanted, key), scope)
  {
    var after := Synced(rows, wanted, scope, key);
    SyncedKeyed(rows, wanted, scope, key);
    if Attainable(wanted, scope, key) {
      Differ(rows, wanted, scope, key);
      AsWanted(rows, wanted, scope, key);
    }
    hide Synced, ByKey, Differing;
    if Within(after, scope) == ToSet(wanted) {
      forall r | r in wanted
        ensures scope(key(r)) && key(r) in after && after[key(r)] == r
      {
        assert r in Within(after, scope);
      }
    }
  }

  /** Rows of which none is to be put are of the scope, one a key. */
  lemma NonePut<K, R>(rows: map<K, R>, wanted: seq<R>, scope: K -> bool, key: R -> K)
    requires ToPut(rows, wanted, scope, key) == []
    ensures Attainable(wanted, scope, key)
  {
    forall r | r in wanted
      ensures key(r) in rows && rows[key(r)] == r && scope(key(r))
    {
      assert r !in ToPut(rows, wanted, scope, key);
    }
  }

  /** Syncing again to the same rows changes nothing exactly if they are of the scope and one a key. */
  lemma SyncedAgain<K, R>(rows: map<K, R>, wanted: seq<R>, scope: K -> bool, key: R -> K)
    requires forall k :: k in rows ==> key(rows[k]) == k
    ensures var after := Synced(rows, wanted, scope, key);
      && (Changing(after, wanted, scope, key) == {} <==> Attainable(wanted, scope, key))
      && (Attainable(wanted, scope, key) ==> Synced(after, wanted, scope, key) == after)
  {
    hide Synced, ToPut, GoneKeys, ByKey, Differing, Outside, KeysOf, Attainable;
    var after := Synced(rows, wanted, scope, key);
    SyncedKeyed(rows, wanted, scope, key);
    if Attainable(wanted, scope, key) {
      SyncedIs(rows, wanted, scope, key);
      SyncedIs(after, wanted, scope, key);
      WantedWithin(wanted, scope, key);
      NothingDiffers(rows, ByKey(wanted, key), scope);
    } else if ToPut(after, wanted, scope, key) == [] {
      NonePut(after, wanted, scope, key);
    } else {
      NoKeys(ToPut(after, wanted, scope, key), key);
    }
  }

  lemma WantedWithin<K, R>(wanted: seq<R>, scope: K -> bool, key: R -> K)
    requires Attainable(wanted, scope, key)
    ensures forall k :: k in ByKey(wanted, key) ==> scope(k)
  {
    ByKeyOf(wanted, key);
  }

  /** Two rows of one key are not both left. */
  lemma TwoOfOneKey()
    ensures var wanted, scope, key := [(1, 10), (1, 20)], (k: int) => true, (r: (int, int)) => r.0;
      Within(Synced(map[], wanted, scope, key), scope) != ToSet(wanted)
  {
    var wanted, scope, key := [(1, 10), (1, 20)], (k: int) => true, (r: (int, int)) => r.0;
    SyncedIs(map[], wanted, scope, key);
    assert (1, 10) in wanted && (1, 20) in wanted && key((1, 10)) == key((1, 20));
  }

  lemma AsWanted<K, R>(rows: map<K, R>, wanted: seq<R>, scope: K -> bool, key: R -> K)
    requires Attainable(wanted, scope, key)
    ensures Within(Outside(rows, scope) + ByKey(wanted, key), scope) == ToSet(wanted)
  {
    ByKeyOf(wanted, key);
    ByKeyConsistent(wanted, key);
    hide ByKey;
    var b := ByKey(wanted, key);
    var after := Outside(rows, scope) + b;
    forall r | r in wanted
      ensures r in Within(after, scope)
    {
      assert key(r) in after && after[key(r)] == r;
    }
  }

  lemma NoneForNone<R>(batches: seq<seq<R>>, size: R -> nat)
    requires Greedy(batches, size, JSON)
    ensures Flat(batches) == [] ==> batches == []
  {
    assert batches != [] ==> batches[0] != [];
  }

  lemma OneMore<K, R>(batches: seq<seq<R>>, i: nat, key: R -> K)
    requires i < |batches|
    ensures Flat(batches[..i + 1]) == Flat(batches[..i]) + batches[i]
    ensures KeysOf(Flat(batches[..i + 1]), key) == KeysOf(Flat(batches[..i]), key) + KeysOf(batches[i], key)
    ensures FirstByKey(Flat(batches[..i + 1]), key) == FirstByKey(batches[i], key) + FirstByKey(Flat(batches[..i]), key)
  {
    assert batches[..i + 1] == batches[..i] + [batches[i]];
    FlatBoth(batches[..i], [batches[i]]);
    assert Flat([batches[i]]) == batches[i] + Flat<R>([]);
    KeysOfBoth(Flat(batches[..i]), batches[i], key);
    FirstByKeyBoth(Flat(batches[..i]), batches[i], key);
  }

  lemma NothingYet<K, R>(batches: seq<seq<R>>, key: R -> K)
    ensures FirstByKey(Flat(batches[..0]), key) == map[] && KeysOf(Flat(batches[..0]), key) == {}
  {
  }
}
