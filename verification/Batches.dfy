/** Batches in id order: the first `limit` ids after a cursor, as ORDER BY id ASC LIMIT returns them. */
module Batches {

  ghost predicate Ascending(ids: seq<nat>) {
    forall i, j :: 0 <= i < j < |ids| ==> ids[i] < ids[j]
  }

  ghost predicate IsBatch(members: set<nat>, cursor: nat, limit: nat, ids: seq<nat>) {
    && Ascending(ids) && |ids| <= limit
    && (forall i :: 0 <= i < |ids| ==> ids[i] in members && ids[i] > cursor)
    && (forall u :: u in members && u > cursor && u !in ids ==> |ids| == limit && forall i :: 0 <= i < limit ==> ids[i] < u)
  }
}
