/**
 * The `byColumn` object: column id to the ordered list of task ids shown in
 * that column. A JavaScript object has an iteration order over its own keys,
 * which `Object.values` and `Object.entries` follow, so the model keeps that
 * order explicitly next to the map.
 */
module Columns {
  import opened TaskTypes

  /** No element occurs twice. */
  predicate NoDup<T(==)>(s: seq<T>) {
    forall i, j :: 0 <= i < j < |s| ==> s[i] != s[j]
  }

  /** `keys` is the key iteration order; `ids` holds each column's list. */
  datatype ColumnTable = ColumnTable(keys: seq<ColumnId>, ids: map<ColumnId, seq<TaskId>>)

  /** Every listed column has an entry. */
  predicate Covers(keys: seq<ColumnId>, ids: map<ColumnId, seq<TaskId>>) {
    forall i :: 0 <= i < |keys| ==> keys[i] in ids
  }

  predicate WellFormed(t: ColumnTable) {
    NoDup(t.keys)
    && (forall c :: c in t.ids ==> c in t.keys)
    && Covers(t.keys, t.ids)
  }

  /** Every object value has each own key once, in one order. */
  type TasksByColumn = t: ColumnTable | WellFormed(t) witness ColumnTable([], map[])

  /** The empty object `{}`. */
  const Empty: TasksByColumn := ColumnTable([], map[])

  /** `obj[c] = s`: an existing key keeps its place, a new key goes last. */
  function Assign(t: TasksByColumn, c: ColumnId, s: seq<TaskId>): TasksByColumn {
    var keys := if c in t.ids then t.keys else t.keys + [c];
    assert NoDup(keys) by {
      if c !in t.ids {
        assert forall i :: 0 <= i < |t.keys| ==> keys[i] == t.keys[i] && t.keys[i] != c;
      }
    }
    ColumnTable(keys, t.ids[c := s])
  }

  /** The lists of the given columns concatenated in the given order. */
  function FlattenKeys(keys: seq<ColumnId>, ids: map<ColumnId, seq<TaskId>>): seq<TaskId>
    requires Covers(keys, ids)
  {
    if keys == [] then [] else FlattenKeys(keys[..|keys| - 1], ids) + ids[keys[|keys| - 1]]
  }

  /** `Object.values(t).flat()`: every column's list, columns in key order. */
  function Flatten(t: TasksByColumn): seq<TaskId> {
    FlattenKeys(t.keys, t.ids)
  }

  /** Reference count: the sum of the lengths of the given columns. */
  function TotalLength(keys: seq<ColumnId>, ids: map<ColumnId, seq<TaskId>>): nat
    requires Covers(keys, ids)
  {
    if keys == [] then 0 else |ids[keys[0]]| + TotalLength(keys[1..], ids)
  }

  /** Reference count: how often `x` occurs, summed over the given columns. */
  function Occurrences(keys: seq<ColumnId>, ids: map<ColumnId, seq<TaskId>>, x: TaskId): nat
    requires Covers(keys, ids)
  {
    if keys == [] then 0 else multiset(ids[keys[0]])[x] + Occurrences(keys[1..], ids, x)
  }

  /** Flattening peels off the first column as well as the last. */
  lemma {:induction false} FlattenKeysFront(keys: seq<ColumnId>, ids: map<ColumnId, seq<TaskId>>)
    requires keys != [] && Covers(keys, ids)
    ensures FlattenKeys(keys, ids) == ids[keys[0]] + FlattenKeys(keys[1..], ids)
  {
    if |keys| == 1 {
      assert keys[..0] == [] && keys[1..] == [];
    } else {
      var init := keys[..|keys| - 1];
      FlattenKeysFront(init, ids);
      assert init[0] == keys[0];
      assert init[1..] == keys[1..][..|keys[1..]| - 1];
      assert keys[1..][|keys[1..]| - 1] == keys[|keys| - 1];
    }
  }

  lemma {:induction false} FlattenKeysCounts(keys: seq<ColumnId>, ids: map<ColumnId, seq<TaskId>>, x: TaskId)
    requires Covers(keys, ids)
    ensures |FlattenKeys(keys, ids)| == TotalLength(keys, ids)
    ensures multiset(FlattenKeys(keys, ids))[x] == Occurrences(keys, ids, x)
  {
    if keys != [] {
      FlattenKeysFront(keys, ids);
      FlattenKeysCounts(keys[1..], ids, x);
    }
  }

  /**
   * The `order` sent with a reorder: its length is the sum of the column
   * lengths and each id occurs in it once per occurrence in a column.
   */
  lemma {:induction false} FlattenCounts(t: TasksByColumn, x: TaskId)
    ensures |Flatten(t)| == TotalLength(t.keys, t.ids)
    ensures multiset(Flatten(t))[x] == Occurrences(t.keys, t.ids, x)
  {
    FlattenKeysCounts(t.keys, t.ids, x);
  }

  lemma {:induction false} ColumnWithinFlattenKeys(keys: seq<ColumnId>, ids: map<ColumnId, seq<TaskId>>, c: ColumnId)
    requires c in keys && Covers(keys, ids)
    ensures multiset(ids[c]) <= multiset(FlattenKeys(keys, ids))
  {
    var init := keys[..|keys| - 1];
    if c != keys[|keys| - 1] {
      assert c in init;
      ColumnWithinFlattenKeys(init, ids, c);
    }
  }

  /** Each column's list is part of the flattened order. */
  lemma ColumnWithinFlatten(t: TasksByColumn, c: ColumnId)
    requires c in t.ids
    ensures multiset(t.ids[c]) <= multiset(Flatten(t))
    ensures forall x :: x in t.ids[c] ==> x in Flatten(t)
  {
    ColumnWithinFlattenKeys(t.keys, t.ids, c);
    forall x | x in t.ids[c] ensures x in Flatten(t) {
      assert multiset(t.ids[c])[x] > 0;
    }
  }

  lemma {:induction false} FlattenKeysAssignOther(keys: seq<ColumnId>, ids: map<ColumnId, seq<TaskId>>, c: ColumnId, s: seq<TaskId>)
    requires c !in keys && Covers(keys, ids)
    ensures FlattenKeys(keys, ids[c := s]) == FlattenKeys(keys, ids)
  {
    if keys != [] {
      var init := keys[..|keys| - 1];
      assert c !in init;
      FlattenKeysAssignOther(init, ids, c, s);
    }
  }

  lemma {:induction false} FlattenKeysAssign(keys: seq<ColumnId>, ids: map<ColumnId, seq<TaskId>>, c: ColumnId, s: seq<TaskId>)
    requires NoDup(keys) && Covers(keys, ids) && c in keys
    ensures multiset(FlattenKeys(keys, ids[c := s])) + multiset(ids[c])
         == multiset(FlattenKeys(keys, ids)) + multiset(s)
  {
    var init, last := keys[..|keys| - 1], keys[|keys| - 1];
    var ids' := ids[c := s];
    assert keys == init + [last];
    var a', a := FlattenKeys(init, ids'), FlattenKeys(init, ids);
    assert FlattenKeys(keys, ids') == a' + ids'[last];
    assert FlattenKeys(keys, ids) == a + ids[last];
    if c == last {
      assert c !in init;
      FlattenKeysAssignOther(init, ids, c, s);
    } else {
      assert c in init && NoDup(init);
      FlattenKeysAssign(init, ids, c, s);
      var l := ids[last];
      assert ids'[last] == l;
      assert multiset(a' + l) == multiset(a') + multiset(l);
      assert multiset(a + l) == multiset(a) + multiset(l);
      forall x ensures (multiset(a') + multiset(l) + multiset(ids[c]))[x] == (multiset(a) + multiset(l) + multiset(s))[x] {
        assert (multiset(a') + multiset(ids[c]))[x] == (multiset(a) + multiset(s))[x];
      }
      assert multiset(a') + multiset(l) + multiset(ids[c]) == multiset(a) + multiset(l) + multiset(s);
    }
  }

  /** Flattening a concatenation of key orders concatenates the results. */
  lemma {:induction false} FlattenKeysAppend(a: seq<ColumnId>, b: seq<ColumnId>, ids: map<ColumnId, seq<TaskId>>)
    requires Covers(a, ids) && Covers(b, ids)
    ensures Covers(a + b, ids) && FlattenKeys(a + b, ids) == FlattenKeys(a, ids) + FlattenKeys(b, ids)
  {
    assert Covers(a + b, ids) by {
      forall i | 0 <= i < |a + b| ensures (a + b)[i] in ids {
        if i >= |a| { assert (a + b)[i] == b[i - |a|]; }
      }
    }
    if b == [] {
      assert a + b == a;
    } else {
      var init := b[..|b| - 1];
      assert (a + b)[..|a + b| - 1] == a + init;
      FlattenKeysAppend(a, init, ids);
    }
  }

  /**
   * Assigning the `k`-th column puts the new list exactly where the old one
   * stood in the flattened order: the columns before and after it keep their
   * ids and their places.
   */
  lemma FlattenAssignAt(t: TasksByColumn, k: nat, s: seq<TaskId>)
    requires k < |t.keys|
    ensures Covers(t.keys[..k], t.ids) && Covers(t.keys[k + 1..], t.ids)
    ensures Flatten(Assign(t, t.keys[k], s))
         == FlattenKeys(t.keys[..k], t.ids) + s + FlattenKeys(t.keys[k + 1..], t.ids)
  {
    var c := t.keys[k];
    var pre, post := t.keys[..k], t.keys[k + 1..];
    var ids' := t.ids[c := s];
    assert t.keys == pre + [c] + post;
    assert Covers(pre, t.ids) by {
      forall i | 0 <= i < |pre| ensures pre[i] in t.ids { assert pre[i] == t.keys[i]; }
    }
    assert Covers(post, t.ids) by {
      forall i | 0 <= i < |post| ensures post[i] in t.ids { assert post[i] == t.keys[k + 1 + i]; }
    }
    assert c !in pre by {
      forall i | 0 <= i < |pre| ensures pre[i] != c { assert pre[i] == t.keys[i]; }
    }
    assert c !in post by {
      forall i | 0 <= i < |post| ensures post[i] != c { assert post[i] == t.keys[k + 1 + i]; }
    }
    FlattenKeysAssignOther(pre, t.ids, c, s);
    FlattenKeysAssignOther(post, t.ids, c, s);
    assert (pre + [c])[..|pre + [c]| - 1] == pre;
    FlattenKeysAppend(pre + [c], post, ids');
    assert Assign(t, c, s).keys == t.keys;
  }

  /** The multiset form of `FlattenAssign`, and the new-key case. */
  lemma FlattenAssignBag(t: TasksByColumn, c: ColumnId, s: seq<TaskId>)
    ensures c in t.ids ==>
      multiset(Flatten(Assign(t, c, s))) + multiset(t.ids[c]) == multiset(Flatten(t)) + multiset(s)
    ensures c !in t.ids ==> Flatten(Assign(t, c, s)) == Flatten(t) + s
  {
    if c in t.ids {
      FlattenKeysAssign(t.keys, t.ids, c, s);
    } else {
      FlattenKeysAssignOther(t.keys, t.ids, c, s);
      var r := Assign(t, c, s);
      assert r.keys[..|r.keys| - 1] == t.keys;
    }
  }

  /**
   * Assigning a column replaces that column's ids in the flattened order and
   * leaves the other columns' ids where they were; a new column's ids are
   * added at the end.
   */
  lemma FlattenAssign(t: TasksByColumn, c: ColumnId, s: seq<TaskId>)
    ensures c in t.ids ==>
      multiset(Flatten(Assign(t, c, s))) + multiset(t.ids[c]) == multiset(Flatten(t)) + multiset(s)
    ensures forall k :: 0 <= k < |t.keys| && t.keys[k] == c ==>
      && Covers(t.keys[..k], t.ids) && Covers(t.keys[k + 1..], t.ids)
      && Flatten(t) == FlattenKeys(t.keys[..k], t.ids) + t.ids[c] + FlattenKeys(t.keys[k + 1..], t.ids)
      && Flatten(Assign(t, c, s)) == FlattenKeys(t.keys[..k], t.ids) + s + FlattenKeys(t.keys[k + 1..], t.ids)
    ensures c !in t.ids ==> Flatten(Assign(t, c, s)) == Flatten(t) + s
  {
    FlattenAssignBag(t, c, s);
    if c in t.ids {
      forall k | 0 <= k < |t.keys| && t.keys[k] == c
        ensures && Covers(t.keys[..k], t.ids) && Covers(t.keys[k + 1..], t.ids)
                && Flatten(t) == FlattenKeys(t.keys[..k], t.ids) + t.ids[c] + FlattenKeys(t.keys[k + 1..], t.ids)
                && Flatten(Assign(t, c, s)) == FlattenKeys(t.keys[..k], t.ids) + s + FlattenKeys(t.keys[k + 1..], t.ids)
      {
        FlattenAssignAt(t, k, s);
        FlattenAssignAt(t, k, t.ids[c]);
        assert t.ids[c := t.ids[c]] == t.ids;
      }
    }
  }

  lemma {:induction false} FlattenKeysSameBags(keys: seq<ColumnId>, a: map<ColumnId, seq<TaskId>>, b: map<ColumnId, seq<TaskId>>)
    requires Covers(keys, a) && Covers(keys, b)
    requires forall i :: 0 <= i < |keys| ==> multiset(a[keys[i]]) == multiset(b[keys[i]])
    ensures multiset(FlattenKeys(keys, a)) == multiset(FlattenKeys(keys, b))
  {
    if keys != [] {
      FlattenKeysSameBags(keys[..|keys| - 1], a, b);
    }
  }

  /**
   * Two tables with the same key order whose columns hold the same ids, in
   * any order, flatten to permutations of one another.
   */
  lemma FlattenPermuted(t: TasksByColumn, u: TasksByColumn)
    requires t.keys == u.keys
    requires forall c :: c in t.ids ==> multiset(t.ids[c]) == multiset(u.ids[c])
    ensures multiset(Flatten(t)) == multiset(Flatten(u))
  {
    forall i | 0 <= i < |t.keys| ensures multiset(t.ids[t.keys[i]]) == multiset(u.ids[t.keys[i]]) {
      var c := t.keys[i];
      assert c in t.ids && c in u.ids;
      assert multiset(t.ids[c]) == multiset(u.ids[c]);
    }
    FlattenKeysSameBags(t.keys, t.ids, u.ids);
  }
}
