/** The UniSnap story record (models/UniSnap.js). The schema has no
    `username` field. */
module SnapModel {
  import opened Base

  datatype Snap = Snap(id: Id, userId: Id, imageUrl: string, textOverlay: string, timestamp: int)

  /** The TTL index removes a snap this many seconds after its timestamp. */
  const ExpireAfterSeconds: int := 86400

  /** The listing's look-back window, `24 * 60 * 60 * 1000` milliseconds. */
  const DayMs: int := 24 * 60 * 60 * 1000

  /** The TTL index and the listing's cutoff describe the same 24 hours. */
  lemma TtlIsListingWindow()
    ensures ExpireAfterSeconds * 1000 == DayMs
  {
  }

  /** A new snap: an absent overlay defaults to "" and the timestamp to now. */
  function NewSnap(id: Id, userId: Id, imageUrl: string, textOverlay: Option<string>, now: int): (s: Snap)
    ensures s.textOverlay == (match textOverlay case Some(t) => t case None => "")
    ensures s.timestamp == now
    ensures (s.id, s.userId, s.imageUrl) == (id, userId, imageUrl)
  {
    Snap(id, userId, imageUrl, match textOverlay case Some(t) => t case None => "", now)
  }

  /** The snap is still listed at time `now` (milliseconds). */
  predicate Live(s: Snap, now: int) {
    s.timestamp >= now - DayMs
  }

  function SnapTime(s: Snap): int {
    s.timestamp
  }

  /** `UniSnap.findById(id)`: the first snap with that id. */
  function SnapIndex(snaps: seq<Snap>, id: Id): (r: Option<nat>)
    ensures r.Some? ==> r.value < |snaps| && snaps[r.value].id == id
    ensures r.Some? ==> forall k | 0 <= k < r.value :: snaps[k].id != id
    ensures r.None? <==> forall k | 0 <= k < |snaps| :: snaps[k].id != id
  {
    FirstIndex(snaps, (s: Snap) => s.id == id)
  }
}
