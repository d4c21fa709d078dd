/** The row selection: a JavaScript `Set<number>` of row indices.  A `Set`
    remembers insertion order, so it is modelled as a sequence without
    duplicates, oldest entry first. */
module Selection {
  import opened Wrappers

  /** No index occurs twice. */
  predicate Distinct(s: seq<int>)
  {
    forall i, j :: 0 <= i < j < |s| ==> s[i] != s[j]
  }

  /** `set.delete(x)`: the entries other than `x`, order kept. */
  function Remove(s: seq<int>, x: int): (r: seq<int>)
    ensures forall y :: y in r <==> y in s && y != x
    ensures Distinct(s) ==> Distinct(r)
    ensures x !in s ==> r == s
    decreases |s|
  {
    if |s| == 0 then []
    else if s[0] == x then Remove(s[1..], x)
    else
      var rest := Remove(s[1..], x);
      assert Distinct(s) ==> s[0] !in s[1..];
      assert forall k :: 0 < k <= |rest| ==> ([s[0]] + rest)[k] == rest[k - 1];
      [s[0]] + rest
  }

  /** `toggleRowSelection(index)` on the selection `s`: delete the index if
      present, add it at the end otherwise. */
  function Toggle(s: seq<int>, index: int): (r: seq<int>)
    ensures index in r <==> index !in s
    ensures forall y :: y != index ==> (y in r <==> y in s)
    ensures Distinct(s) ==> Distinct(r)
    ensures index !in s ==> r == s + [index]
    ensures index in s ==> r == Remove(s, index)
  {
    if index in s then Remove(s, index) else s + [index]
  }

  /** `new Set(apiResponse.map((_, i) => i))`: every row index, in row order. */
  function AllIndices(n: nat): (r: seq<int>)
    ensures |r| == n
    ensures forall k :: 0 <= k < n ==> r[k] == k
    ensures Distinct(r)
  {
    seq(n, i => i)
  }

  /** Select-all selects exactly the rows 0 .. n-1. */
  lemma AllIndicesMembers(n: nat)
    ensures forall i :: i in AllIndices(n) <==> 0 <= i < n
  {
    forall i | 0 <= i < n
      ensures i in AllIndices(n)
    {
      assert AllIndices(n)[i] == i;
    }
  }

  /** `Array.from(selectedRows).map(index => apiResponse[index])`: the selected
      results in selection order, `None` (undefined) for an index past the end. */
  function SelectedData<T>(rows: seq<int>, data: seq<T>): (r: seq<Option<T>>)
    ensures |r| == |rows|
  {
    seq(|rows|, k requires 0 <= k < |rows| =>
      if 0 <= rows[k] < |data| then Some(data[rows[k]]) else None)
  }

  /** `delete` of an entry keeps the other entries in their insertion order. */
  lemma {:induction false} RemoveAt(s: seq<int>, i: nat, x: int)
    requires i < |s| && s[i] == x && x !in s[..i] && x !in s[i + 1..]
    ensures Remove(s, x) == s[..i] + s[i + 1..]
    decreases |s|
  {
    if i == 0 {
      assert s[1..] == s[i + 1..];
    } else {
      var t := s[1..];
      assert t[..i - 1] == s[1..i] && t[i - 1] == x;
      assert t[i..] == s[i + 1..];
      assert x !in t[..i - 1];
      RemoveAt(t, i - 1, x);
      assert s[..i] == [s[0]] + s[1..i];
    }
  }

  /** Deleting an index that was just appended gives back the selection as it was. */
  lemma {:induction false} RemoveAppended(s: seq<int>, x: int)
    requires x !in s
    ensures Remove(s + [x], x) == s
    decreases |s|
  {
    if |s| == 0 {
      assert [x][1..] == [];
    } else {
      assert (s + [x])[1..] == s[1..] + [x];
      RemoveAppended(s[1..], x);
      assert [s[0]] + s[1..] == s;
    }
  }

  /** Toggling the same row twice restores the selected set; when the row was not
      selected it restores the selection exactly, order included (a selected row
      toggled off and on again moves to the end of the insertion order). */
  lemma ToggleTwice(s: seq<int>, index: int)
    ensures forall y :: y in Toggle(Toggle(s, index), index) <==> y in s
    ensures index !in s ==> Toggle(Toggle(s, index), index) == s
  {
    if index !in s {
      RemoveAppended(s, index);
    }
  }

  /** Select-all selects each of the n rows exactly once. */
  lemma SelectAllCount(n: nat)
    ensures |AllIndices(n)| == n && |set i | i in AllIndices(n)| == n
  {
    DistinctCard(AllIndices(n));
  }

  /** A duplicate-free selection has as many entries as selected rows. */
  lemma {:induction false} DistinctCard(s: seq<int>)
    requires Distinct(s)
    ensures |set i | i in s| == |s|
    decreases |s|
  {
    if |s| > 0 {
      var rest := s[1..];
      DistinctCard(rest);
      assert (set i | i in s) == (set i | i in rest) + {s[0]};
      assert s[0] !in rest;
    }
  }

  /** With every row selected, the report receives the whole result list, in row order. */
  lemma SelectAllData<T>(data: seq<T>)
    ensures SelectedData(AllIndices(|data|), data) == seq(|data|, k requires 0 <= k < |data| => Some(data[k]))
  {
  }

  /** An entry of the handed-over data is the result at the selected index when
      that index is a row of the table, and undefined when it is not. */
  lemma SelectedDataAt<T>(rows: seq<int>, data: seq<T>, k: nat)
    requires k < |rows|
    ensures SelectedData(rows, data)[k].Some? <==> 0 <= rows[k] < |data|
    ensures SelectedData(rows, data)[k].Some? ==> SelectedData(rows, data)[k].value == data[rows[k]]
  {
  }
}
