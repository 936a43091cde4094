/**
 * Removing a deleted task's id from the column lists. The reducer scans each
 * list with an index that advances after every step, splicing out a match in
 * place; the list shrinks under the index, so the element that slides into
 * the removed slot is never examined.
 */
module Removal {
  import opened TaskTypes
  import opened Columns

  /** Reference definition: the list with every `id` dropped, order kept. */
  function Without(s: seq<TaskId>, id: TaskId): (r: seq<TaskId>)
    ensures multiset(r) == multiset(s)[id := 0]
    ensures |r| <= |s|
  {
    if s == [] then []
    else
      assert s == [s[0]] + s[1..];
      (if s[0] == id then [] else [s[0]]) + Without(s[1..], id)
  }

  /**
   * The scan of one column from index `i` on: when `s[i]` is the id it is
   * spliced out and the index still moves to `i + 1`.
   */
  function Splice(s: seq<TaskId>, id: TaskId, i: nat): seq<TaskId>
    decreases |s| - i
  {
    if i >= |s| then s
    else if s[i] == id then Splice(s[..i] + s[i + 1..], id, i + 1)
    else Splice(s, id, i + 1)
  }

  /** The scan applied to every column, keys and their order untouched. */
  function SpliceAll(t: TasksByColumn, id: TaskId): (r: TasksByColumn)
    ensures r.keys == t.keys && r.ids.Keys == t.ids.Keys
  {
    ColumnTable(t.keys, map c | c in t.ids :: Splice(t.ids[c], id, 0))
  }

  lemma {:induction false} WithoutConcat(a: seq<TaskId>, b: seq<TaskId>, id: TaskId)
    ensures Without(a + b, id) == Without(a, id) + Without(b, id)
  {
    if a != [] {
      assert (a + b)[1..] == a[1..] + b;
      WithoutConcat(a[1..], b, id);
    } else {
      assert a + b == b;
    }
  }

  lemma {:induction false} SpliceUntouched(s: seq<TaskId>, id: TaskId, i: nat)
    requires forall j :: i <= j < |s| ==> s[j] != id
    ensures Splice(s, id, i) == s
    decreases |s| - i
  {
    if i < |s| {
      SpliceUntouched(s, id, i + 1);
    }
  }

  lemma SpliceHit(s: seq<TaskId>, id: TaskId, i: nat)
    requires i < |s| && s[i] == id && id !in s[i + 1..]
    ensures Splice(s, id, i) == s[..i] + s[i + 1..]
  {
    var t := s[..i] + s[i + 1..];
    forall j | i + 1 <= j < |t| ensures t[j] != id {
      assert t[j] == s[i + 1..][j - i];
    }
    SpliceUntouched(t, id, i + 1);
  }

  /** Two neighbouring copies of the id make it occur at least twice. */
  lemma NeighboursCount(s: seq<TaskId>, id: TaskId, j: nat)
    requires j + 1 < |s| && s[j] == id && s[j + 1] == id
    ensures multiset(s)[id] >= 2
  {
    assert s == s[..j] + [id, id] + s[j + 2..];
  }

  /**
   * When the id occurs at most once in a column, the in-place scan removes
   * exactly that occurrence and keeps the other ids in their order.
   */
  lemma SpliceRemovesSingle(s: seq<TaskId>, id: TaskId)
    requires multiset(s)[id] <= 1
    ensures Splice(s, id, 0) == Without(s, id)
  {
    forall j, k | 0 <= j < k < |s| && k == j + 1 ensures !(s[j] == id && s[k] == id) {
      if s[j] == id && s[k] == id {
        NeighboursCount(s, id, j);
        assert false;
      }
    }
    SpliceRemovesSparse(s, id);
  }

  /** No two neighbouring slots from `i` on both hold `id`. */
  ghost predicate Sparse(s: seq<TaskId>, id: TaskId, i: nat) {
    forall j, k :: i <= j < k < |s| && k == j + 1 ==> !(s[j] == id && s[k] == id)
  }

  /** `Without` from slot `i` on, one step and, past an id, two steps at a time. */
  lemma WithoutAt(s: seq<TaskId>, id: TaskId, i: nat)
    requires i < |s|
    ensures s[i] != id ==> Without(s[i..], id) == [s[i]] + Without(s[i + 1..], id)
    ensures s[i] == id ==> Without(s[i..], id) == Without(s[i + 1..], id)
    ensures s[i] == id && i + 1 < |s| && s[i + 1] != id ==>
      Without(s[i..], id) == [s[i + 1]] + Without(s[i + 2..], id)
  {
    assert s[i..][1..] == s[i + 1..];
    if i + 1 < |s| {
      assert s[i + 1..][1..] == s[i + 2..];
    }
  }

  lemma {:induction false} SpliceSparseFrom(s: seq<TaskId>, id: TaskId, i: nat)
    requires i <= |s| && Sparse(s, id, i)
    ensures Splice(s, id, i) == s[..i] + Without(s[i..], id)
    decreases |s| - i, 2
  {
    if i == |s| {
      assert s[i..] == [];
    } else if s[i] != id {
      SpliceSparseMiss(s, id, i);
    } else if i + 1 == |s| {
      WithoutAt(s, id, i);
      SpliceHit(s, id, i);
      assert s[i + 1..] == [];
    } else {
      WithoutAt(s, id, i);
      SpliceSparseHit(s, id, i);
    }
  }

  /** The scan passes over an element other than the id. */
  lemma {:induction false} SpliceSparseMiss(s: seq<TaskId>, id: TaskId, i: nat)
    requires i < |s| && s[i] != id && Sparse(s, id, i)
    ensures Splice(s, id, i) == s[..i] + Without(s[i..], id)
    decreases |s| - i, 1
  {
    WithoutAt(s, id, i);
    assert Splice(s, id, i) == Splice(s, id, i + 1);
    SpliceSparseFrom(s, id, i + 1);
    var w := Without(s[i + 1..], id);
    assert s[..i + 1] == s[..i] + [s[i]];
    assert s[..i] + [s[i]] + w == s[..i] + ([s[i]] + w);
  }

  /** What splicing out slot `i` leaves around the next slot to be scanned. */
  lemma SplicedShape(s: seq<TaskId>, id: TaskId, i: nat)
    requires i + 1 < |s| && Sparse(s, id, i)
    ensures var t := s[..i] + s[i + 1..];
      && t[..i + 1] == s[..i] + [s[i + 1]]
      && t[i + 1..] == s[i + 2..]
      && Sparse(t, id, i + 1)
  {
    var t := s[..i] + s[i + 1..];
    forall j, k | i + 1 <= j < k < |t| && k == j + 1 ensures !(t[j] == id && t[k] == id) {
      assert t[j] == s[j + 1] && t[k] == s[k + 1];
    }
  }

  /**
   * The scan meets the id at `i`: it splices it out, steps over the
   * neighbour that slid into slot `i`, and goes on from there.
   */
  lemma {:induction false} SpliceSparseHit(s: seq<TaskId>, id: TaskId, i: nat)
    requires i + 1 < |s| && s[i] == id && Sparse(s, id, i)
    ensures Splice(s, id, i) == s[..i] + ([s[i + 1]] + Without(s[i + 2..], id))
    decreases |s| - i, 0
  {
    var t := s[..i] + s[i + 1..];
    assert Splice(s, id, i) == Splice(t, id, i + 1);
    SplicedShape(s, id, i);
    SpliceSparseFrom(t, id, i + 1);
    var w := Without(s[i + 2..], id);
    assert s[..i] + [s[i + 1]] + w == s[..i] + ([s[i + 1]] + w);
  }

  /**
   * More generally, the scan removes every occurrence of the id whenever no
   * two occurrences are neighbours.
   */
  lemma SpliceRemovesSparse(s: seq<TaskId>, id: TaskId)
    requires Sparse(s, id, 0)
    ensures Splice(s, id, 0) == Without(s, id)
  {
    assert s[0..] == s && s[..0] == [];
    SpliceSparseFrom(s, id, 0);
  }

  /** Whatever a column holds, the scan leaves it alone when the id is not in it. */
  lemma SpliceAbsent(s: seq<TaskId>, id: TaskId)
    requires id !in s
    ensures Splice(s, id, 0) == s
  {
    SpliceUntouched(s, id, 0);
  }

  /**
   * For the list [x, x] the scan splices out the first x; the second slides
   * into the examined slot, is never looked at, and survives, while the
   * filter removes both.
   */
  lemma SpliceSkipsAdjacent(x: TaskId)
    ensures Splice([x, x], x, 0) == [x]
    ensures Without([x, x], x) == []
  {
    assert [x, x][..0] + [x, x][1..] == [x];
    assert Splice([x], x, 1) == [x];
  }

  lemma {:induction false} FlattenKeysWithout(keys: seq<ColumnId>, a: map<ColumnId, seq<TaskId>>, b: map<ColumnId, seq<TaskId>>, id: TaskId)
    requires Covers(keys, a) && Covers(keys, b)
    requires forall i :: 0 <= i < |keys| ==> b[keys[i]] == Without(a[keys[i]], id)
    ensures FlattenKeys(keys, b) == Without(FlattenKeys(keys, a), id)
  {
    if keys != [] {
      var init := keys[..|keys| - 1];
      FlattenKeysWithout(init, a, b, id);
      WithoutConcat(FlattenKeys(init, a), a[keys[|keys| - 1]], id);
    }
  }

  /**
   * Dropping an id from every column drops it from the flattened order and
   * nothing else.
   */
  lemma FlattenWithout(t: TasksByColumn, u: TasksByColumn, id: TaskId)
    requires u.keys == t.keys
    requires forall c :: c in t.ids ==> u.ids[c] == Without(t.ids[c], id)
    ensures Flatten(u) == Without(Flatten(t), id)
  {
    forall i | 0 <= i < |t.keys| ensures u.ids[t.keys[i]] == Without(t.ids[t.keys[i]], id) {
      var c := t.keys[i];
      assert c in t.ids;
    }
    FlattenKeysWithout(t.keys, t.ids, u.ids, id);
  }

  /** Deleting an id found in no column leaves `byColumn` exactly as it was. */
  lemma SpliceAllAbsent(t: TasksByColumn, id: TaskId)
    requires forall c :: c in t.ids ==> id !in t.ids[c]
    ensures SpliceAll(t, id) == t
  {
    var r := SpliceAll(t, id);
    forall c | c in t.ids ensures r.ids[c] == t.ids[c] {
      SpliceAbsent(t.ids[c], id);
    }
    assert r.ids == t.ids;
  }
}
