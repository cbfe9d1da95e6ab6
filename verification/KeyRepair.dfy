/**
 * The version 15 migration: before idempotency keys become unique, every later row of a duplicated
 * key gives its key up, unless a row of the key may still hold or get money.
 */
module KeyRepair {
  import opened Common

  datatype RowStatus = Initiated | Approved | Declined | Error | Unknown | Reconciled | NeedsAttention

  type Key = nat

  datatype Row = Row(id: nat, key: Option<Key>, status: RowStatus, createdAt: nat)

  predicate DistinctIds(rows: seq<Row>) {
    forall i, j :: 0 <= i < j < |rows| ==> rows[i].id != rows[j].id
  }

  /** Creation time first, then id. */
  predicate Before(a: Row, b: Row) {
    a.createdAt < b.createdAt || (a.createdAt == b.createdAt && a.id < b.id)
  }

  predicate SameKey(a: Row, b: Row) {
    a.key.Some? && a.key == b.key
  }

  predicate Dead(r: Row) {
    r.status == Declined || r.status == Error
  }

  /** Some row that is neither declined nor failed shares its key. */
  ghost predicate Unsafe(rows: seq<Row>) {
    exists a, b :: a in rows && b in rows && a.id != b.id && SameKey(a, b) && a.status !in {Declined, Error}
  }

  /** An earlier row has the same key. */
  ghost predicate Superseded(rows: seq<Row>, r: Row) {
    exists q :: q in rows && SameKey(q, r) && Before(q, r)
  }

  ghost predicate Repaired(before: seq<Row>, after: seq<Row>) {
    && |after| == |before|
    && forall i :: 0 <= i < |before| ==>
      after[i] == if Superseded(before, before[i]) then before[i].(key := None) else before[i]
  }

  // ------------------------------------------------------------------ the query

  /** The order of the query: key, creation time, id. */
  predicate Listed(a: Row, b: Row)
    requires a.key.Some? && b.key.Some?
  {
    a.key.value < b.key.value || (a.key == b.key && Before(a, b))
  }

  ghost predicate Ordered(rows: seq<Row>) {
    && (forall i :: 0 <= i < |rows| ==> rows[i].key.Some?)
    && (forall i, j :: 0 <= i < j < |rows| ==> Listed(rows[i], rows[j]))
  }

  function Insert(r: Row, rows: seq<Row>): (o: seq<Row>)
    requires r.key.Some? && forall i :: 0 <= i < |rows| ==> rows[i].key.Some?
    ensures forall x :: x in o <==> x == r || x in rows
    ensures forall i :: 0 <= i < |o| ==> o[i].key.Some?
  {
    if rows == [] then [r]
    else if Listed(r, rows[0]) then [r] + rows
    else
      var o := [rows[0]] + Insert(r, rows[1..]);
      assert forall x :: x in rows <==> x == rows[0] || x in rows[1..];
      assert forall i :: 0 <= i < |o| ==> o[i] in o;
      o
  }

  /** The rows with a key, in the order of the query. */
  function Query(rows: seq<Row>): (o: seq<Row>)
    ensures forall x :: x in o <==> x in rows && x.key.Some?
    ensures forall i :: 0 <= i < |o| ==> o[i].key.Some?
  {
    if rows == [] then []
    else if rows[0].key.None? then Query(rows[1..])
    else Insert(rows[0], Query(rows[1..]))
  }

  lemma {:induction false} InsertOrders(r: Row, rows: seq<Row>)
    requires r.key.Some? && Ordered(rows) && forall i :: 0 <= i < |rows| ==> rows[i].id != r.id
    ensures Ordered(Insert(r, rows))
  {
    if rows != [] && !Listed(r, rows[0]) {
      InsertOrders(r, rows[1..]);
      var rest := Insert(r, rows[1..]);
      forall i | 0 <= i < |rest| ensures Listed(rows[0], rest[i]) {
        assert rest[i] in rest;
        assert rest[i] == r || rest[i] in rows[1..];
      }
    }
  }

  lemma {:induction false} QueryOrders(rows: seq<Row>)
    requires DistinctIds(rows)
    ensures Ordered(Query(rows))
  {
    if rows != [] {
      QueryOrders(rows[1..]);
      if rows[0].key.Some? {
        var rest := Query(rows[1..]);
        forall i | 0 <= i < |rest| ensures rest[i].id != rows[0].id {
          assert rest[i] in rest;
          assert rest[i] in rows[1..];
        }
        InsertOrders(rows[0], rest);
      }
    }
  }

  /** The rows of one key, in order: what one entry of the group map holds. */
  function OfKey(rows: seq<Row>, k: Key): seq<Row> {
    if rows == [] then []
    else
      var init := OfKey(rows[..|rows| - 1], k);
      if rows[|rows| - 1].key == Some(k) then init + [rows[|rows| - 1]] else init
  }

  lemma {:induction false} GroupIs(rows: seq<Row>, k: Key)
    requires Ordered(rows)
    ensures forall x :: x in OfKey(rows, k) <==> x in rows && x.key == Some(k)
    ensures forall i, j :: 0 <= i < j < |OfKey(rows, k)| ==> Before(OfKey(rows, k)[i], OfKey(rows, k)[j])
  {
    if rows != [] {
      var n := |rows| - 1;
      GroupIs(rows[..n], k);
      assert rows == rows[..n] + [rows[n]];
      forall x | x in OfKey(rows[..n], k) && rows[n].key == Some(k) ensures Before(x, rows[n]) {
        assert x in rows[..n];
      }
    }
  }

  /** The group of a key: its rows are the rows of the key, and all but the first are superseded. */
  lemma GroupOf(rows: seq<Row>, k: Key)
    requires DistinctIds(rows)
    ensures var g := OfKey(Query(rows), k);
            && (forall x :: x in g <==> x in rows && x.key == Some(k))
            && (forall i :: 1 <= i < |g| ==> Superseded(rows, g[i]))
            && (g != [] ==> !Superseded(rows, g[0]))
  {
    QueryOrders(rows);
    GroupIs(Query(rows), k);
    var g := OfKey(Query(rows), k);
    forall i | 1 <= i < |g| ensures Superseded(rows, g[i]) {
      assert g[0] in g && g[i] in g && Before(g[0], g[i]);
    }
    if g != [] {
      assert g[0] in g;
      forall q | q in rows && SameKey(q, g[0]) ensures !Before(q, g[0]) {
        assert q in g;
        var j :| 0 <= j < |g| && g[j] == q;
        assert j == 0 || Before(g[0], g[j]);
      }
    }
  }

  /** A group with a single row, or with dead rows only. */
  predicate SafeGroup(g: seq<Row>) {
    |g| < 2 || forall i :: 0 <= i < |g| ==> Dead(g[i])
  }

  /** A group of two or more rows with a live row in it is what makes the table unsafe. */
  lemma GroupUnsafe(rows: seq<Row>, k: Key)
    requires DistinctIds(rows) && !SafeGroup(OfKey(Query(rows), k))
    ensures Unsafe(rows)
  {
    var g := OfKey(Query(rows), k);
    var i :| 0 <= i < |g| && !Dead(g[i]);
    var j := if i == 0 then 1 else 0;
    GroupPair(rows, k, i, j);
    assert SameKey(g[i], g[j]);
  }

  lemma GroupPair(rows: seq<Row>, k: Key, i: nat, j: nat)
    requires DistinctIds(rows) && i < |OfKey(Query(rows), k)| && j < |OfKey(Query(rows), k)| && i != j
    ensures var a, b := OfKey(Query(rows), k)[i], OfKey(Query(rows), k)[j];
            a in rows && b in rows && a.id != b.id && a.key == b.key == Some(k)
  {
    QueryOrders(rows);
    GroupIs(Query(rows), k);
    var a, b := OfKey(Query(rows), k)[i], OfKey(Query(rows), k)[j];
    assert a in OfKey(Query(rows), k) && b in OfKey(Query(rows), k);
    assert Before(a, b) || Before(b, a);
    DistinctRows(rows, a, b);
  }

  lemma DistinctRows(rows: seq<Row>, a: Row, b: Row)
    requires DistinctIds(rows) && a in rows && b in rows && a != b
    ensures a.id != b.id
  {
    var i :| 0 <= i < |rows| && rows[i] == a;
    var j :| 0 <= j < |rows| && rows[j] == b;
    assert i < j || j < i;
  }

  lemma InGroup(rows: seq<Row>, k: Key, x: Row) returns (i: nat)
    requires DistinctIds(rows) && x in rows && x.key == Some(k)
    ensures i < |OfKey(Query(rows), k)| && OfKey(Query(rows), k)[i] == x
  {
    QueryOrders(rows);
    GroupIs(Query(rows), k);
    i :| 0 <= i < |OfKey(Query(rows), k)| && OfKey(Query(rows), k)[i] == x;
  }

  lemma SafeKey(rows: seq<Row>, a: Row, b: Row)
    requires DistinctIds(rows) && a in rows && b in rows && a.id != b.id && SameKey(a, b)
    requires SafeGroup(OfKey(Query(rows), a.key.value))
    ensures Dead(a)
  {
    var i := InGroup(rows, a.key.value, a);
    var j := InGroup(rows, a.key.value, b);
    SafePair(OfKey(Query(rows), a.key.value), i, j);
  }

  lemma SafePair(g: seq<Row>, i: nat, j: nat)
    requires SafeGroup(g) && i < |g| && j < |g| && g[i].id != g[j].id
    ensures Dead(g[i])
  {
    assert i != j;
  }

  lemma AllSafe(rows: seq<Row>, keys: seq<Key>)
    requires DistinctIds(rows)
    requires forall i :: 0 <= i < |Query(rows)| ==> Query(rows)[i].key.value in keys
    requires forall m :: 0 <= m < |keys| ==> SafeGroup(OfKey(Query(rows), keys[m]))
    ensures !Unsafe(rows)
  {
    forall a, b | a in rows && b in rows && a.id != b.id && SameKey(a, b) ensures Dead(a) {
      assert a in Query(rows);
      SafeKey(rows, a, b);
    }
  }

  // ----------------------------------------------------------------- the repair

  /** `UPDATE ... SET idempotency_key = NULL WHERE id = ?`. */
  function Cleared(rows: seq<Row>, ids: set<nat>): (r: seq<Row>)
    ensures |r| == |rows|
    ensures forall i :: 0 <= i < |r| ==> r[i] == if rows[i].id in ids then rows[i].(key := None) else rows[i]
  {
    seq(|rows|, i requires 0 <= i < |rows| => if rows[i].id in ids then rows[i].(key := None) else rows[i])
  }

  /** The ids of the rows a group gives up. */
  ghost function Later(rows: seq<Row>, k: Key): set<nat> {
    set x | x in OfKey(Query(rows), k) && Superseded(rows, x) :: x.id
  }

  class PaymentTransactions {
    var rows: seq<Row>

    constructor (rows: seq<Row>)
      ensures this.rows == rows
    {
      this.rows := rows;
    }

    method ClearKey(id: nat)
      modifies this
      ensures rows == Cleared(old(rows), {id})
    {
      ghost var before := rows;
      for i := 0 to |rows|
        invariant |rows| == |before|
        invariant forall j :: 0 <= j < i ==>
            rows[j] == if before[j].id == id then before[j].(key := None) else before[j]
        invariant forall j :: i <= j < |rows| ==> rows[j] == before[j]
      {
        if rows[i].id == id {
          rows := rows[i := rows[i].(key := None)];
        }
      }
    }

    /** One group: false when it has a live row, otherwise every row after the first gives up its key. */
    method RepairGroup(group: seq<Row>) returns (ok: bool)
      modifies this
      ensures ok <==> SafeGroup(group)
      ensures rows == if ok && |group| >= 2 then Cleared(old(rows), set x | x in group[1..] :: x.id) else old(rows)
    {
      ghost var before := rows;
      if |group| < 2 {
        return true;
      }
      for i := 0 to |group|
        invariant forall j :: 0 <= j < i ==> Dead(group[j])
      {
        if !Dead(group[i]) {
          return false;
        }
      }
      for i := 1 to |group|
        invariant rows == Cleared(before, set x | x in group[1..i] :: x.id)
      {
        assert group[1..i + 1] == group[1..i] + [group[i]];
        assert (set x | x in group[1..i + 1] :: x.id) == (set x | x in group[1..i] :: x.id) + {group[i].id};
        ClearKey(group[i].id);
      }
      assert group[1..|group|] == group[1..];
      ok := true;
    }

    /** The next group of the list. */
    method RepairNext(group: seq<Row>, ghost saved: seq<Row>, ghost keys: seq<Key>, ghost k: Key,
        ghost cleared: set<nat>)
      returns (ok: bool)
      requires DistinctIds(saved) && Progress(saved, rows, keys, cleared) && group == OfKey(Query(saved), k)
      modifies this
      ensures ok <==> SafeGroup(group)
      ensures ok ==> Progress(saved, rows, keys + [k], cleared + Later(saved, k))
    {
      ghost var before := rows;
      ok := RepairGroup(group);
      if ok {
        ProgressNext(saved, before, rows, keys, k, cleared);
      }
    }

    /** All groups in turn, up to the first that is not safe. */
    method RepairGroups(keys: seq<Key>, groups: map<Key, seq<Row>>) returns (ok: bool, ghost cleared: set<nat>)
      requires DistinctIds(rows)
      requires forall k :: k in keys ==> k in groups && groups[k] == OfKey(Query(rows), k)
      modifies this
      ensures ok ==> Progress(old(rows), rows, keys, cleared)
      ensures !ok ==> exists k :: k in keys && !SafeGroup(OfKey(Query(old(rows)), k))
    {
      ghost var saved := rows;
      cleared := {};
      for n := 0 to |keys|
        invariant Progress(saved, rows, keys[..n], cleared)
      {
        var fine := RepairNext(groups[keys[n]], saved, keys[..n], keys[n], cleared);
        if !fine {
          assert keys[n] in keys;
          return false, {};
        }
        assert keys[..n + 1] == keys[..n] + [keys[n]];
        cleared := cleared + Later(saved, keys[n]);
      }
      assert keys[..|keys|] == keys;
      ok := true;
    }

    /** The migration's `before` step inside its transaction. */
    method RepairDuplicateKeys() returns (ok: bool)
      requires DistinctIds(rows)
      modifies this
      ensures ok <==> !Unsafe(old(rows))
      ensures ok ==> Repaired(old(rows), rows)
      ensures !ok ==> rows == old(rows)
    {
      var saved := rows;
      var keys, groups := GroupByKey(Query(rows));
      ghost var cleared;
      ok, cleared := RepairGroups(keys, groups);
      if ok {
        AllDone(saved, rows, keys, cleared);
      } else {
        SomeUnsafe(saved, keys);
        rows := saved;
      }
    }
  }

  lemma AllDone(saved: seq<Row>, rows: seq<Row>, keys: seq<Key>, cleared: set<nat>)
    requires DistinctIds(saved) && Progress(saved, rows, keys, cleared)
    requires forall i :: 0 <= i < |Query(saved)| ==> Query(saved)[i].key.value in keys
    ensures !Unsafe(saved) && Repaired(saved, rows)
  {
    AllSafe(saved, keys);
    AllRepaired(saved, keys, cleared);
  }

  lemma SomeUnsafe(saved: seq<Row>, keys: seq<Key>)
    requires DistinctIds(saved) && exists k :: k in keys && !SafeGroup(OfKey(Query(saved), k))
    ensures Unsafe(saved)
  {
    var k :| k in keys && !SafeGroup(OfKey(Query(saved), k));
    GroupUnsafe(saved, k);
  }

  /** The groups of `keys` are safe and have given up their later keys, and nothing else has changed. */
  ghost predicate Progress(saved: seq<Row>, rows: seq<Row>, keys: seq<Key>, cleared: set<nat>) {
    && rows == Cleared(saved, cleared) && LaterUpTo(saved, keys, cleared)
    && forall m :: 0 <= m < |keys| ==> SafeGroup(OfKey(Query(saved), keys[m]))
  }

  lemma ProgressNext(saved: seq<Row>, before: seq<Row>, rows: seq<Row>, keys: seq<Key>, k: Key, cleared: set<nat>)
    requires DistinctIds(saved) && Progress(saved, before, keys, cleared) && SafeGroup(OfKey(Query(saved), k))
    requires var g := OfKey(Query(saved), k);
             rows == if |g| >= 2 then Cleared(before, set x | x in g[1..] :: x.id) else before
    ensures Progress(saved, rows, keys + [k], cleared + Later(saved, k))
  {
    LaterIs(saved, k);
    ClearedTwice(saved, cleared, Later(saved, k));
    LaterNext(saved, keys, k, cleared);
    if |OfKey(Query(saved), k)| < 2 {
      assert cleared + Later(saved, k) == cleared;
    }
  }

  /** Keys in order of first occurrence, each with its rows in order. */
  method GroupByKey(sorted: seq<Row>) returns (keys: seq<Key>, groups: map<Key, seq<Row>>)
    requires forall i :: 0 <= i < |sorted| ==> sorted[i].key.Some?
    ensures forall i :: 0 <= i < |sorted| ==> sorted[i].key.value in keys
    ensures forall k :: k in keys ==> k in groups && groups[k] == OfKey(sorted, k)
  {
    keys, groups := [], map[];
    for i := 0 to |sorted|
      invariant forall k :: k in groups <==> k in keys
      invariant forall j :: 0 <= j < i ==> sorted[j].key.value in groups
      invariant forall k :: k in groups ==> groups[k] == OfKey(sorted[..i], k)
      invariant forall k :: k !in groups ==> OfKey(sorted[..i], k) == []
    {
      var row := sorted[i];
      assert sorted[..i + 1][..i] == sorted[..i];
      if row.key.value !in groups {
        keys := keys + [row.key.value];
        groups := groups[row.key.value := [row]];
      } else {
        groups := groups[row.key.value := groups[row.key.value] + [row]];
      }
    }
    assert sorted[..|sorted|] == sorted;
  }

  lemma LaterIs(rows: seq<Row>, k: Key)
    requires DistinctIds(rows)
    ensures var g := OfKey(Query(rows), k);
            Later(rows, k) == if |g| < 2 then {} else set x | x in g[1..] :: x.id
  {
    GroupOf(rows, k);
    var g := OfKey(Query(rows), k);
    if g != [] {
      assert g == [g[0]] + g[1..];
      assert forall x :: x in g <==> x == g[0] || x in g[1..];
      forall x | x in g[1..] ensures Superseded(rows, x) {
        var i :| 0 <= i < |g[1..]| && g[1..][i] == x;
        assert g[i + 1] == x;
      }
    }
  }

  lemma ClearedTwice(rows: seq<Row>, a: set<nat>, b: set<nat>)
    ensures Cleared(Cleared(rows, a), b) == Cleared(rows, a + b)
  {
  }

  ghost predicate LaterUpTo(rows: seq<Row>, keys: seq<Key>, ids: set<nat>) {
    forall id :: id in ids <==> exists m :: 0 <= m < |keys| && id in Later(rows, keys[m])
  }

  lemma LaterNext(rows: seq<Row>, keys: seq<Key>, k: Key, ids: set<nat>)
    requires LaterUpTo(rows, keys, ids)
    ensures LaterUpTo(rows, keys + [k], ids + Later(rows, k))
  {
    var more := keys + [k];
    forall id | id in ids + Later(rows, k) ensures exists m :: 0 <= m < |more| && id in Later(rows, more[m]) {
      if id in Later(rows, k) {
        assert more[|keys|] == k;
      } else {
        var m :| 0 <= m < |keys| && id in Later(rows, keys[m]);
        assert more[m] == keys[m];
      }
    }
  }

  lemma AllRepaired(rows: seq<Row>, keys: seq<Key>, cleared: set<nat>)
    requires DistinctIds(rows)
    requires forall i :: 0 <= i < |Query(rows)| ==> Query(rows)[i].key.value in keys
    requires LaterUpTo(rows, keys, cleared)
    ensures Repaired(rows, Cleared(rows, cleared))
  {
    forall i | 0 <= i < |rows| ensures rows[i].id in cleared <==> Superseded(rows, rows[i]) {
      if Superseded(rows, rows[i]) {
        assert rows[i] in Query(rows);
        var m :| 0 <= m < |keys| && keys[m] == rows[i].key.value;
        GroupOf(rows, keys[m]);
        assert rows[i].id in Later(rows, keys[m]);
      }
      if rows[i].id in cleared {
        var m :| 0 <= m < |keys| && rows[i].id in Later(rows, keys[m]);
        GroupOf(rows, keys[m]);
        var x :| x in OfKey(Query(rows), keys[m]) && Superseded(rows, x) && x.id == rows[i].id;
        if x != rows[i] { DistinctRows(rows, x, rows[i]); }
      }
    }
  }

  // ----------------------------------------------------------------- main results

  /** After the repair non-null keys are unique, so the unique index can be created. */
  lemma RepairedUnique(before: seq<Row>, after: seq<Row>, i: nat, j: nat)
    requires DistinctIds(before) && Repaired(before, after) && i < j < |after|
    ensures !SameKey(after[i], after[j])
  {
    assert Before(before[i], before[j]) || Before(before[j], before[i]);
  }

  /** Every key in use before is kept by exactly one row, the earliest that has it. */
  lemma EarliestKeeps(before: seq<Row>, after: seq<Row>, k: Key)
    requires DistinctIds(before) && Repaired(before, after)
    requires exists i :: 0 <= i < |before| && before[i].key == Some(k)
    ensures exists i :: 0 <= i < |after| && after[i].key == Some(k)
              && forall j :: 0 <= j < |before| && j != i && before[j].key == Some(k) ==>
                   Before(before[i], before[j]) && before[i].createdAt <= before[j].createdAt
                   && (before[i].createdAt == before[j].createdAt ==> before[i].id < before[j].id)
                   && after[j].key == None
  {
    var i := First(before, k);
    assert !Superseded(before, before[i]);
    forall j | 0 <= j < |before| && j != i && before[j].key == Some(k)
      ensures Before(before[i], before[j]) && after[j].key == None
    {
      assert SameKey(before[i], before[j]);
    }
  }

  lemma {:induction false} First(rows: seq<Row>, k: Key) returns (i: nat)
    requires DistinctIds(rows) && exists j :: 0 <= j < |rows| && rows[j].key == Some(k)
    ensures i < |rows| && rows[i].key == Some(k)
    ensures forall j :: 0 <= j < |rows| && j != i && rows[j].key == Some(k) ==> Before(rows[i], rows[j])
  {
    var n := |rows| - 1;
    if j :| 0 <= j < n && rows[j].key == Some(k) {
      assert rows[..n][j].key == Some(k);
      i := First(rows[..n], k);
      assert forall j :: 0 <= j < n ==> rows[..n][j] == rows[j];
      if rows[n].key == Some(k) && Before(rows[n], rows[i]) {
        i := n;
      }
    } else {
      i := n;
    }
  }
}
