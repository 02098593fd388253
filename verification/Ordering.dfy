/** Ascending lists of ids. */
module Ordering {
  predicate Sorted(ids: seq<int>) {
    forall i, j :: 0 <= i < j < |ids| ==> ids[i] < ids[j]
  }

  function Insert(ids: seq<int>, id: int): (r: seq<int>)
    requires Sorted(ids) && id !in ids
    ensures Sorted(r) && |r| == |ids| + 1
    ensures forall x :: x in r <==> x in ids || x == id
  {
    if ids == [] then [id]
    else if id < ids[0] then [id] + ids
    else
      var rest := Insert(ids[1..], id);
      assert forall x :: x in ids <==> x == ids[0] || x in ids[1..];
      assert forall x :: x in ids[1..] ==> ids[0] < x;
      assert forall j :: 0 <= j < |rest| ==> rest[j] in rest;
      [ids[0]] + rest
  }

  method SortIds(keys: set<int>) returns (ids: seq<int>)
    ensures Sorted(ids) && |ids| == |keys|
    ensures forall x :: x in ids <==> x in keys
  {
    ids := [];
    var remaining := keys;
    while exists id :: id in remaining
      invariant Sorted(ids) && remaining <= keys && |ids| == |keys| - |remaining|
      invariant forall x :: x in ids <==> x in keys && x !in remaining
      decreases remaining
    {
      var id :| id in remaining;
      ids := Insert(ids, id);
      remaining := remaining - {id};
    }
  }
}
