/** The UniSnap story routes (routes/unisnap.js): posting a snap, listing
    the last 24 hours of snaps grouped by author, and deleting one's own. */
module SnapRoutes {
  import opened Base
  import opened Ordering
  import opened UserModel
  import opened SnapModel
  import opened FeedView
  import opened Grouping
  import opened Store

  /** The 201 response of a snap upload: the author's name and avatar as
      stored, with no default for either. */
  datatype SnapCreated = SnapCreated(
    id: Id,
    username: string,
    profileImageUrl: string,
    imageUrl: string,
    textOverlay: string,
    timestamp: int)

  /** POST /api/unisnaps. `actor` is the id the auth token carries; `photo`
      is the URL the image host returns for the uploaded file, absent when
      no file was sent. The author is looked up before the photo is checked. */
  function CreateSnap(db: Db, actor: Id, text: Option<string>, photo: Option<string>,
                      snapId: Id, now: int): (r: Result<Step<SnapCreated>>)
    ensures !IsObjectId(actor) ==> r == Err(ServerError)
    ensures IsObjectId(actor) && FindUser(db.users, actor).None? ==> r == Err(UserNotFound)
    ensures IsObjectId(actor) && FindUser(db.users, actor).Some? && photo.None? ==> r == Err(PhotoRequired)
    ensures r.Ok? <==> IsObjectId(actor) && FindUser(db.users, actor).Some? && Truthy(photo)
    ensures r.Ok? ==>
      var u := FindUser(db.users, actor).value;
      var s := NewSnap(snapId, actor, photo.value, Some(Or(text, "")), now);
      && r.value.db == db.(snaps := db.snaps + [s])
      && r.value.out == SnapCreated(snapId, u.name, u.profileImageUrl, photo.value, Or(text, ""), now)
  {
    if !IsObjectId(actor) then Err(ServerError)
    else match FindUser(db.users, actor)
      case None => Err(UserNotFound)
      case Some(u) =>
        if photo.None? then Err(PhotoRequired)
        // `imageUrl` is required: an empty URL fails validation on save
        else if photo.value == "" then Err(ServerError)
        else
          var s := NewSnap(snapId, actor, photo.value, Some(Or(text, "")), now);
          Ok(Step(db.(snaps := db.snaps + [s]),
                  SnapCreated(snapId, u.name, u.profileImageUrl, s.imageUrl, s.textOverlay, s.timestamp)))
  }

  /** One snap inside a group of the listing. */
  datatype SnapItem = SnapItem(id: Id, imageUrl: string, textOverlay: string, timestamp: int)

  /** A group's author fields: `username` is undefined when the author does
      not resolve or has no name; the avatar falls back to the default. */
  datatype Author = Author(username: Option<string>, profileImageUrl: string)

  /** One author's group of the listing; its key, `userId`, is null for the
      snaps whose author no longer resolves. */
  type SnapGroup = Group<Option<Id>, Author, SnapItem>

  function Item(s: Snap): SnapItem {
    SnapItem(s.id, s.imageUrl, s.textOverlay, s.timestamp)
  }

  function ItemTime(i: SnapItem): int {
    i.timestamp
  }

  /** The grouping key, `snap.userId?._id.toString() || snap.userId`: the
      author's id once populated, or null when the author is gone. */
  function KeyOf(users: seq<User>, s: Snap): Option<Id> {
    IdOf(FindUser(users, s.userId))
  }

  /** The user a grouping key stands for. */
  function Owner(users: seq<User>, key: Option<Id>): Option<User> {
    match key case Some(id) => FindUser(users, id) case None => None
  }

  /** The author fields of a group, from the populated author:
      `snap.userId?.name || snap.username` (the schema has no `username`, so
      that fallback is always undefined) and the avatar or the default. */
  function AuthorFields(u: Option<User>): Author {
    Author(if Truthy(NameOf(u)) then NameOf(u) else None, AvatarOf(u))
  }

  function AuthorOf(users: seq<User>): Option<Id> -> Author {
    (key: Option<Id>) => AuthorFields(Owner(users, key))
  }

  /** The loop reads a group's author fields from the first snap of the
      group; every snap with the same key carries the same populated
      author, so the fields depend on the key alone. */
  lemma AuthorDependsOnKey(users: seq<User>, s: Snap)
    ensures AuthorOf(users)(KeyOf(users, s)) == AuthorFields(FindUser(users, s.userId))
  {
  }

  /** The rows the grouping loop visits: each snap's key and item. */
  function Rows(users: seq<User>, snaps: seq<Snap>): (rows: seq<Row<Option<Id>, SnapItem>>)
    ensures |rows| == |snaps|
    ensures forall j | 0 <= j < |snaps| :: rows[j] == Row(KeyOf(users, snaps[j]), Item(snaps[j]))
  {
    seq(|snaps|, j requires 0 <= j < |snaps| => Row(KeyOf(users, snaps[j]), Item(snaps[j])))
  }

  /** The snaps the listing reads: those of the last 24 hours, newest first. */
  function Recent(snaps: seq<Snap>, now: int): seq<Snap> {
    SortDesc(Filter(snaps, (s: Snap) => Live(s, now)), SnapTime)
  }

  /** GET /api/unisnaps: the snaps of the last 24 hours grouped by author:
      one group per author, groups ordered by their newest snap, each
      group's snaps newest first, and every recent snap listed once. */
  function ListSnaps(db: Db, now: int): (gs: seq<SnapGroup>)
    ensures GroupsOf(Rows(db.users, Recent(db.snaps, now)), AuthorOf(db.users), gs)
    ensures forall i, m | 0 <= i < |gs| && 0 <= m < |gs[i].items| :: gs[i].items[m].timestamp >= now - DayMs
    ensures forall i | 0 <= i < |gs| :: SortedDesc(gs[i].items, ItemTime)
    ensures forall i | 0 <= i < |gs| :: |gs[i].items| > 0
    ensures forall i, j | 0 <= i < j < |gs| :: gs[i].items[0].timestamp >= gs[j].items[0].timestamp
    ensures |AllItems(gs)| == |Recent(db.snaps, now)|
  {
    var rows := Rows(db.users, Recent(db.snaps, now));
    var gs := GroupBy(rows, AuthorOf(db.users));
    RecentIsRecent(db.snaps, now);
    GroupsNewestFirst(rows, AuthorOf(db.users), gs, now - DayMs);
    GroupsLeadWithNewest(rows, AuthorOf(db.users), gs, ItemTime);
    GroupByCountsRows(rows, AuthorOf(db.users));
    gs
  }

  /** Grouping rows that are newest first and no older than `bound` gives
      groups whose items are newest first and no older than `bound`. */
  lemma GroupsNewestFirst(rows: seq<Row<Option<Id>, SnapItem>>, head: Option<Id> -> Author,
                          gs: seq<SnapGroup>, bound: int)
    requires Contents(rows, head, gs)
    requires forall i, j | 0 <= i < j < |rows| :: rows[i].item.timestamp >= rows[j].item.timestamp
    requires forall j | 0 <= j < |rows| :: rows[j].item.timestamp >= bound
    ensures forall i, m | 0 <= i < |gs| && 0 <= m < |gs[i].items| :: gs[i].items[m].timestamp >= bound
    ensures forall i | 0 <= i < |gs| :: SortedDesc(gs[i].items, ItemTime)
  {
    forall i | 0 <= i < |gs|
      ensures SortedDesc(gs[i].items, ItemTime)
      ensures forall m | 0 <= m < |gs[i].items| :: gs[i].items[m].timestamp >= bound
    {
      ItemsOfSorted(rows, gs[i].key, ItemTime);
      ItemsOfExact(rows, gs[i].key);
      forall m | 0 <= m < |gs[i].items|
        ensures gs[i].items[m].timestamp >= bound
      {
        assert Row(gs[i].key, gs[i].items[m]) in rows;
      }
    }
  }

  /** Everything `Recent` keeps is live, and it is ordered newest first. */
  lemma RecentIsRecent(snaps: seq<Snap>, now: int)
    ensures SortedDesc(Recent(snaps, now), SnapTime)
    ensures forall j | 0 <= j < |Recent(snaps, now)| :: Live(Recent(snaps, now)[j], now)
  {
    var live := Filter(snaps, (s: Snap) => Live(s, now));
    SortDescKeepsElements(live, SnapTime);
    forall j | 0 <= j < |Recent(snaps, now)|
      ensures Live(Recent(snaps, now)[j], now)
    {
      var x := Recent(snaps, now)[j];
      assert x in live;
      var k :| 0 <= k < |live| && live[k] == x;
    }
  }

  /** A snap just posted is listed at once, in its author's group. */
  lemma PostedSnapIsListed(db: Db, actor: Id, text: Option<string>, photo: Option<string>, snapId: Id, now: int)
    requires CreateSnap(db, actor, text, photo, snapId, now).Ok?
    ensures var db' := CreateSnap(db, actor, text, photo, snapId, now).value.db;
            var s := db'.snaps[|db'.snaps| - 1];
            exists i | 0 <= i < |ListSnaps(db', now)| ::
              ListSnaps(db', now)[i].key == Some(actor) && Item(s) in ListSnaps(db', now)[i].items
  {
    var db' := CreateSnap(db, actor, text, photo, snapId, now).value.db;
    var s := db'.snaps[|db'.snaps| - 1];
    LiveSnapIsRecent(db'.snaps, |db'.snaps| - 1, now);
    var recent := Recent(db'.snaps, now);
    var j :| 0 <= j < |recent| && recent[j] == s;
    var rows := Rows(db'.users, recent);
    assert rows[j] == Row(Some(actor), Item(s));
    RowIsGrouped(rows, AuthorOf(db'.users), ListSnaps(db', now), j);
  }

  /** A live snap is in the recent list. */
  lemma LiveSnapIsRecent(snaps: seq<Snap>, k: nat, now: int)
    requires k < |snaps| && Live(snaps[k], now)
    ensures snaps[k] in Recent(snaps, now)
  {
    var live := Filter(snaps, (x: Snap) => Live(x, now));
    assert snaps[k] in snaps;
    assert multiset(live)[snaps[k]] > 0;
    SortDescKeepsElements(live, SnapTime);
  }

  /** A day later the snap is gone from the listing: every listed item is
      younger than 24 hours. */
  lemma SnapExpiresFromListing(db: Db, s: Snap, later: int)
    requires later > s.timestamp + DayMs
    ensures forall i | 0 <= i < |ListSnaps(db, later)| :: Item(s) !in ListSnaps(db, later)[i].items
  {
  }

  /** DELETE /api/unisnaps/:id. A malformed id fails the cast (500), an
      unknown snap is 404, and a requester who is not the author is 403.
      `requester` is the token's `id` claim, the only one this route
      compares, and it is compared as a string; a token carrying only
      `userId` never owns a snap here. */
  function DeleteSnap(db: Db, snapId: Id, requester: Option<Id>): (r: Result<Step<Id>>)
    ensures !IsObjectId(snapId) ==> r == Err(ServerError)
    ensures IsObjectId(snapId) && SnapIndex(db.snaps, Canon(snapId)).None? ==> r == Err(SnapNotFound)
    ensures IsObjectId(snapId) && SnapIndex(db.snaps, Canon(snapId)).Some?
            && Some(db.snaps[SnapIndex(db.snaps, Canon(snapId)).value].userId) != requester
            ==> r == Err(NotOwner)
    ensures r.Ok? <==>
      && IsObjectId(snapId)
      && (exists k | 0 <= k < |db.snaps| :: db.snaps[k].id == Canon(snapId))
      && Some(db.snaps[SnapIndex(db.snaps, Canon(snapId)).value].userId) == requester
    ensures r.Ok? ==>
      var k := SnapIndex(db.snaps, Canon(snapId)).value;
      && r.value.db == db.(snaps := db.snaps[..k] + db.snaps[k + 1..])
      && multiset(r.value.db.snaps) + multiset{db.snaps[k]} == multiset(db.snaps)
      && r.value.out == snapId
  {
    if !IsObjectId(snapId) then Err(ServerError)
    else match SnapIndex(db.snaps, Canon(snapId))
      case None => Err(SnapNotFound)
      case Some(k) =>
        if Some(db.snaps[k].userId) != requester then Err(NotOwner)
        else
          assert db.snaps == db.snaps[..k] + [db.snaps[k]] + db.snaps[k + 1..];
          Ok(Step(db.(snaps := db.snaps[..k] + db.snaps[k + 1..]), snapId))
  }

  /** Without an `id` claim nobody can delete a snap. */
  lemma DeleteNeedsIdClaim(db: Db, snapId: Id)
    ensures DeleteSnap(db, snapId, None).Err?
  {
  }

  /** Posting a snap and deleting it with the author's token restores the
      store, provided the new snap's id is a fresh ObjectId. */
  lemma PostThenDeleteRestores(db: Db, actor: Id, text: Option<string>, photo: Option<string>, snapId: Id, now: int)
    requires IsCanonicalId(snapId)
    requires forall k | 0 <= k < |db.snaps| :: db.snaps[k].id != snapId
    requires CreateSnap(db, actor, text, photo, snapId, now).Ok?
    ensures var db' := CreateSnap(db, actor, text, photo, snapId, now).value.db;
            DeleteSnap(db', snapId, Some(actor)) == Ok(Step(db, snapId))
  {
    var db' := CreateSnap(db, actor, text, photo, snapId, now).value.db;
    var n := |db.snaps|;
    assert db'.snaps[n].id == snapId;
    assert forall k | 0 <= k < n :: db'.snaps[k] == db.snaps[k];
    assert SnapIndex(db'.snaps, Canon(snapId)) == Some(n);
    assert db'.snaps[..n] + db'.snaps[n + 1..] == db.snaps;
    assert db'.(snaps := db.snaps) == db;
  }
}
