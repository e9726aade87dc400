/** Identifiers of send calls, handed out in increasing order. */
module CallIds {
  predicate Increasing(ids: seq<nat>, bound: nat) {
    && (forall i, j :: 0 <= i < j < |ids| ==> ids[i] < ids[j])
    && (forall i :: 0 <= i < |ids| ==> ids[i] < bound)
  }

  lemma IncreasingSnoc(ids: seq<nat>, bound: nat)
    requires Increasing(ids, bound)
    ensures Increasing(ids + [bound], bound + 1)
  {
  }

  function IdSet(ids: seq<nat>): set<nat> { set i | 0 <= i < |ids| :: ids[i] }

  lemma IdSetTail(ids: seq<nat>, bound: nat)
    requires Increasing(ids, bound) && ids != []
    ensures IdSet(ids[1..]) == IdSet(ids) - {ids[0]}
  {
    var rest := ids[1..];
    assert forall i :: 1 <= i < |ids| ==> rest[i - 1] == ids[i];
  }

  lemma IdSetSnoc(ids: seq<nat>, id: nat)
    ensures IdSet(ids + [id]) == IdSet(ids) + {id}
  {
    assert forall i :: 0 <= i < |ids| ==> (ids + [id])[i] == ids[i];
    assert (ids + [id])[|ids|] == id;
  }
}
