/**
 * One table of the store: rows keyed by an autoincrement primary key.
 * `next` is the key the next insert receives; keys start at 1 and are
 * never reused. Listing a table yields its rows in ascending key order.
 */
module Tables {

  datatype Table<T> = Table(rows: map<nat, T>, next: nat)

  /** Every key was handed out by the counter: 0 < key < next. */
  ghost predicate WellFormed<T>(t: Table<T>)
  {
    && 0 < t.next
    && forall id :: id in t.rows ==> 0 < id < t.next
  }

  ghost predicate StrictlyIncreasing(s: seq<nat>)
  {
    forall i, j :: 0 <= i < j < |s| ==> s[i] < s[j]
  }

  ghost function Elements(s: seq<nat>): set<nat>
  {
    set x | x in s
  }

  function Empty<T>(): (t: Table<T>)
    ensures WellFormed(t) && t.rows == map[]
  {
    Table(map[], 1)
  }

  /** Inserts `row` under the next key; the key is returned as `t.next`. */
  function Insert<T>(t: Table<T>, row: T): (r: Table<T>)
    requires WellFormed(t)
    ensures WellFormed(r)
    ensures t.next !in t.rows && t.next in r.rows && r.rows[t.next] == row
    ensures r.rows.Keys == t.rows.Keys + {t.next}
    ensures forall id :: id in t.rows ==> r.rows[id] == t.rows[id]
    ensures |r.rows| == |t.rows| + 1
  {
    Table(t.rows[t.next := row], t.next + 1)
  }

  /** The keys below `n` present in `rows`, in ascending order. */
  function IdsBelow<T>(rows: map<nat, T>, n: nat): (ids: seq<nat>)
    ensures forall id :: id in ids <==> id in rows && id < n
    ensures StrictlyIncreasing(ids)
  {
    if n == 0 then []
    else
      var init := IdsBelow(rows, n - 1);
      assert forall i :: 0 <= i < |init| ==> init[i] < n - 1 by {
        forall i | 0 <= i < |init| ensures init[i] < n - 1 {
          assert init[i] in init;
        }
      }
      init + (if n - 1 in rows then [n - 1] else [])
  }

  /** The keys among `ids` that `keep` accepts, in the same order. */
  function Filter(ids: seq<nat>, keep: nat -> bool): (r: seq<nat>)
    ensures forall id :: id in r <==> id in ids && keep(id)
    ensures StrictlyIncreasing(ids) ==> StrictlyIncreasing(r)
    ensures |r| <= |ids|
  {
    if ids == [] then []
    else
      var init, last := Filter(ids[..|ids| - 1], keep), ids[|ids| - 1];
      assert StrictlyIncreasing(ids) ==> forall i :: 0 <= i < |init| ==> init[i] < last by {
        if StrictlyIncreasing(ids) {
          forall i | 0 <= i < |init| ensures init[i] < last {
            assert init[i] in init;
            var j :| 0 <= j < |ids| - 1 && ids[..|ids| - 1][j] == init[i];
          }
        }
      }
      if keep(last) then init + [last] else init
  }

  /** Appending a key to the input appends it to the result exactly when it is kept. */
  lemma FilterSnoc(ids: seq<nat>, x: nat, keep: nat -> bool)
    ensures Filter(ids + [x], keep) == Filter(ids, keep) + (if keep(x) then [x] else [])
  {
    assert (ids + [x])[..|ids|] == ids;
  }

  /** All keys of the table in store order (ascending primary key). */
  function Ids<T>(t: Table<T>): (ids: seq<nat>)
    requires WellFormed(t)
    ensures forall id :: id in ids <==> id in t.rows
    ensures StrictlyIncreasing(ids)
  {
    IdsBelow(t.rows, t.next)
  }

  lemma ElementsSnoc(s: seq<nat>, x: nat)
    ensures Elements(s + [x]) == Elements(s) + {x}
  {
    forall y | y in Elements(s + [x]) ensures y in Elements(s) + {x} {
      var i :| 0 <= i < |s + [x]| && (s + [x])[i] == y;
      if i < |s| {
        assert s[i] == y;
      }
    }
    forall y | y in Elements(s) ensures y in Elements(s + [x]) {
      var i :| 0 <= i < |s| && s[i] == y;
      assert (s + [x])[i] == y;
    }
  }

  /** A strictly increasing sequence lists each of its elements once. */
  lemma {:induction false} DistinctCount(s: seq<nat>)
    requires StrictlyIncreasing(s)
    ensures |Elements(s)| == |s|
  {
    if s != [] {
      var init, last := s[..|s| - 1], s[|s| - 1];
      assert s == init + [last];
      assert StrictlyIncreasing(init);
      DistinctCount(init);
      assert last !in Elements(init) by {
        forall y | y in Elements(init) ensures y < last {
          var i :| 0 <= i < |init| && init[i] == y;
          assert s[i] < s[|s| - 1];
        }
      }
      ElementsSnoc(init, last);
    }
  }

  /** Listing a table yields exactly as many keys as it has rows. */
  lemma IdsCount<T>(t: Table<T>)
    requires WellFormed(t)
    ensures |Ids(t)| == |t.rows|
  {
    var ids := Ids(t);
    DistinctCount(ids);
    assert Elements(ids) == t.rows.Keys;
  }

  /** Keys at or above `n` do not affect the listing below `n`. */
  lemma {:induction false} IdsBelowIgnoresHighKeys<T>(rows: map<nat, T>, k: nat, row: T, n: nat)
    requires n <= k
    ensures IdsBelow(rows[k := row], n) == IdsBelow(rows, n)
  {
    if n > 0 {
      IdsBelowIgnoresHighKeys(rows, k, row, n - 1);
    }
  }

  /** An insert appends its key to the end of the listing. */
  lemma InsertAppendsId<T>(t: Table<T>, row: T)
    requires WellFormed(t)
    ensures Ids(Insert(t, row)) == Ids(t) + [t.next]
  {
    IdsBelowIgnoresHighKeys(t.rows, t.next, row, t.next);
  }

  // ---------------------------------------------------------------------
  // One-to-many relationships: the rows whose foreign key names a parent.
  // ---------------------------------------------------------------------

  /** The keys below `n` whose row has foreign key `id` under `fk`, in ascending order. */
  function KeysWhere<T>(rows: map<nat, T>, fk: T -> nat, id: nat, n: nat): (ks: seq<nat>)
    ensures forall k :: k in ks <==> k in rows && k < n && fk(rows[k]) == id
    ensures StrictlyIncreasing(ks)
  {
    if n == 0 then []
    else
      var init := KeysWhere(rows, fk, id, n - 1);
      assert forall i :: 0 <= i < |init| ==> init[i] < n - 1 by {
        forall i | 0 <= i < |init| ensures init[i] < n - 1 {
          assert init[i] in init;
        }
      }
      init + (if n - 1 in rows && fk(rows[n - 1]) == id then [n - 1] else [])
  }

  /**
   * The rows below `n` whose foreign key `fk` is `id`, in key order: every
   * row listed names the parent, and every row below `n` that names the
   * parent is listed (RowsWhereByKeys: exactly once).
   */
  function RowsWhere<T>(rows: map<nat, T>, fk: T -> nat, id: nat, n: nat): (s: seq<T>)
    ensures forall x :: x in s ==> fk(x) == id
    ensures forall k {:trigger fk(rows[k])} :: k in rows && k < n && fk(rows[k]) == id ==> rows[k] in s
  {
    if n == 0 then []
    else
      var init := RowsWhere(rows, fk, id, n - 1);
      if n - 1 in rows && fk(rows[n - 1]) == id then init + [rows[n - 1]] else init
  }

  /** The listing has one entry per matching key, in key order: entry i is the row under the i-th matching key. */
  lemma {:induction false} RowsWhereByKeys<T>(rows: map<nat, T>, fk: T -> nat, id: nat, n: nat)
    ensures var s, ks := RowsWhere(rows, fk, id, n), KeysWhere(rows, fk, id, n);
      && |s| == |ks|
      && forall i :: 0 <= i < |s| ==> ks[i] in rows && s[i] == rows[ks[i]]
  {
    if n > 0 {
      RowsWhereByKeys(rows, fk, id, n - 1);
      var ks := KeysWhere(rows, fk, id, n - 1);
      assert forall i :: 0 <= i < |ks| ==> ks[i] in rows by {
        forall i | 0 <= i < |ks| ensures ks[i] in rows {
          assert ks[i] in ks;
        }
      }
    }
  }

  /** A parent has no child rows below `n` exactly when no row below `n` names it. */
  lemma RowsWhereEmpty<T>(rows: map<nat, T>, fk: T -> nat, id: nat, n: nat)
    ensures RowsWhere(rows, fk, id, n) == [] <==> forall k :: k in rows && k < n ==> fk(rows[k]) != id
  {
    var s := RowsWhere(rows, fk, id, n);
    if s != [] {
      assert s[0] in s;
    }
  }

  /** Rows at or above `n` do not affect the children listed below `n`. */
  lemma {:induction false} RowsWhereIgnoresHighKeys<T>(rows: map<nat, T>, fk: T -> nat, id: nat, k: nat, row: T, n: nat)
    requires n <= k
    ensures RowsWhere(rows[k := row], fk, id, n) == RowsWhere(rows, fk, id, n)
  {
    if n > 0 {
      RowsWhereIgnoresHighKeys(rows, fk, id, k, row, n - 1);
    }
  }

  /** An insert appends the new row to its parent's children and to no other parent's. */
  lemma InsertRowsWhere<T>(t: Table<T>, row: T, fk: T -> nat, id: nat)
    requires WellFormed(t)
    ensures RowsWhere(Insert(t, row).rows, fk, id, Insert(t, row).next)
         == RowsWhere(t.rows, fk, id, t.next) + (if fk(row) == id then [row] else [])
  {
    RowsWhereIgnoresHighKeys(t.rows, fk, id, t.next, row, t.next);
  }
}
