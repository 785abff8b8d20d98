/** Searching and filtering lists; a filtered list is the elements that pass, in their order. */
module Lists {

  /** The first position of an element; the length if it is not there. */
  function IndexOf<T(==)>(items: seq<T>, x: T): (i: nat)
    ensures i <= |items| && (i < |items| ==> items[i] == x)
    ensures forall j :: 0 <= j < i ==> items[j] != x
  {
    if items == [] || items[0] == x then 0 else 1 + IndexOf(items[1..], x)
  }

  /** The elements that pass, in their order. */
  function Filter<T>(items: seq<T>, keep: T -> bool): seq<T> {
    if items == [] then []
    else
      var kept, last := Filter(items[..|items| - 1], keep), items[|items| - 1];
      if keep(last) then kept + [last] else kept
  }

  /** `picked` are the elements of `items` at the increasing positions `at`, which are all that pass. */
  ghost predicate IsPicked<T>(items: seq<T>, picked: seq<T>, keep: T -> bool, at: seq<nat>) {
    && |at| == |picked|
    && (forall k :: 0 <= k < |at| ==> at[k] < |items| && picked[k] == items[at[k]])
    && (forall j, k :: 0 <= j < k < |at| ==> at[j] < at[k])
    && (forall i: nat :: i < |items| ==> (keep(items[i]) <==> i in at))
  }

  lemma PickOneMore<T>(items: seq<T>, picked: seq<T>, keep: T -> bool, at: seq<nat>, last: T)
    requires IsPicked(items, picked, keep, at)
    ensures if keep(last) then IsPicked(items + [last], picked + [last], keep, at + [|items|])
            else IsPicked(items + [last], picked, keep, at)
  {
    var at' := if keep(last) then at + [|items|] else at;
    forall i: nat | i < |items| + 1 ensures keep((items + [last])[i]) <==> i in at' {
      if i < |items| {
        assert i in at' <==> i in at;
      } else {
        assert i !in at;
      }
    }
  }

  lemma {:induction false} FilterPicks<T>(items: seq<T>, keep: T -> bool) returns (at: seq<nat>)
    ensures IsPicked(items, Filter(items, keep), keep, at)
  {
    if items == [] {
      at := [];
    } else {
      hide IsPicked;
      var n := |items| - 1;
      at := FilterPicks(items[..n], keep);
      PickOneMore(items[..n], Filter(items[..n], keep), keep, at, items[n]);
      assert items[..n] + [items[n]] == items;
      if keep(items[n]) {
        at := at + [n];
      }
    }
  }

  lemma FilterAppends<T>(items: seq<T>, last: T, keep: T -> bool)
    ensures Filter(items + [last], keep) == Filter(items, keep) + (if keep(last) then [last] else [])
  {
    assert (items + [last])[..|items|] == items;
  }
}
