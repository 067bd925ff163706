/** Grouping a list of keyed rows into one group per key, the way a loop
    filling a plain object (`grouped[key] ??= {...}; grouped[key].push(v)`)
    followed by `Object.values` does when no key looks like an array index:
    groups come out in the order their key first occurs. */
module Grouping {
  import opened Base

  /** One group: its key, the header computed once for the key, and the
      values of its rows in list order. */
  datatype Group<K, H, V> = Group(key: K, head: H, items: seq<V>)

  /** One input row: its grouping key and the value it contributes. */
  datatype Row<K, V> = Row(key: K, item: V)

  /** The values of the rows with key `k`, in list order. */
  function ItemsOf<K(==), V>(rows: seq<Row<K, V>>, k: K): (r: seq<V>)
    ensures |r| <= |rows|
  {
    if |rows| == 0 then []
    else ItemsOf(rows[..|rows| - 1], k) + (if rows[|rows| - 1].key == k then [rows[|rows| - 1].item] else [])
  }

  /** `ItemsOf` keeps exactly the values of the rows with the key: each
      item comes from such a row, each such row gives an item, and without
      such rows there are no items. */
  lemma {:induction false} ItemsOfExact<K, V>(rows: seq<Row<K, V>>, k: K)
    ensures forall m | 0 <= m < |ItemsOf(rows, k)| :: Row(k, ItemsOf(rows, k)[m]) in rows
    ensures forall j | 0 <= j < |rows| && rows[j].key == k :: rows[j].item in ItemsOf(rows, k)
    ensures (forall j | 0 <= j < |rows| :: rows[j].key != k) ==> ItemsOf(rows, k) == []
  {
    if |rows| > 0 {
      var pre, last := rows[..|rows| - 1], rows[|rows| - 1];
      ItemsOfExact(pre, k);
      var rest, r := ItemsOf(pre, k), ItemsOf(rows, k);
      assert forall j | 0 <= j < |pre| :: pre[j] == rows[j];
      assert rows == pre + [last];
      forall m | 0 <= m < |r|
        ensures Row(k, r[m]) in rows
      {
        if m < |rest| {
          assert Row(k, rest[m]) in pre;
        } else {
          assert Row(k, r[m]) == last;
        }
      }
      forall j | 0 <= j < |rows| && rows[j].key == k
        ensures rows[j].item in r
      {
        if j < |pre| {
          assert rows[j].item in rest;
        }
      }
    }
  }

  /** Where the first row with key `k` sits. */
  function FirstSeen<K(==), V>(rows: seq<Row<K, V>>, k: K): Option<nat> {
    FirstIndex(rows, (row: Row<K, V>) => row.key == k)
  }

  predicate DistinctKeys<K(==), H, V>(gs: seq<Group<K, H, V>>) {
    forall i, j | 0 <= i < j < |gs| :: gs[i].key != gs[j].key
  }

  /** Each group has the header `head` gives its key and exactly the values
      of the rows with its key. */
  predicate Contents<K(==), H(==), V(==)>(rows: seq<Row<K, V>>, head: K -> H, gs: seq<Group<K, H, V>>) {
    forall i | 0 <= i < |gs| :: gs[i] == Group(gs[i].key, head(gs[i].key), ItemsOf(rows, gs[i].key))
  }

  /** The groups' keys, in group order. */
  function Keys<K, H, V>(gs: seq<Group<K, H, V>>): (ks: seq<K>)
    ensures |ks| == |gs|
    ensures forall i | 0 <= i < |gs| :: ks[i] == gs[i].key
  {
    seq(|gs|, i requires 0 <= i < |gs| => gs[i].key)
  }

  /** Every key of `rows` has a group. */
  predicate Covers<K(==), H, V>(rows: seq<Row<K, V>>, gs: seq<Group<K, H, V>>) {
    forall j | 0 <= j < |rows| :: rows[j].key in Keys(gs)
  }

  /** Every group's key occurs in `rows`, and groups are ordered by where
      their key first occurs. */
  predicate InFirstSeenOrder<K(==), H, V>(rows: seq<Row<K, V>>, gs: seq<Group<K, H, V>>) {
    && (forall i | 0 <= i < |gs| :: FirstSeen(rows, gs[i].key).Some?)
    && (forall i, j | 0 <= i < j < |gs| :: FirstSeen(rows, gs[i].key).value < FirstSeen(rows, gs[j].key).value)
  }

  /** `gs` groups `rows`: one group per distinct key, holding the values of
      that key in list order, in the order the keys first occur. */
  predicate GroupsOf<K(==), H(==), V(==)>(rows: seq<Row<K, V>>, head: K -> H, gs: seq<Group<K, H, V>>) {
    DistinctKeys(gs) && Contents(rows, head, gs) && Covers(rows, gs) && InFirstSeenOrder(rows, gs)
  }

  /** Every row's value is found in the group of its key. */
  lemma RowIsGrouped<K, H, V>(rows: seq<Row<K, V>>, head: K -> H, gs: seq<Group<K, H, V>>, j: nat)
    requires GroupsOf(rows, head, gs)
    requires j < |rows|
    ensures exists i | 0 <= i < |gs| :: gs[i].key == rows[j].key && rows[j].item in gs[i].items
  {
    assert rows[j].key in Keys(gs);
    var i :| 0 <= i < |gs| && Keys(gs)[i] == rows[j].key;
    ItemsOfExact(rows, rows[j].key);
    assert gs[i].items == ItemsOf(rows, rows[j].key);
  }

  /** One step of the loop: the row's value joins the group of its key, or
      opens a new group at the end. */
  function Place<K(==), H, V>(gs: seq<Group<K, H, V>>, head: K -> H, row: Row<K, V>): seq<Group<K, H, V>> {
    match FirstIndex(gs, (g: Group<K, H, V>) => g.key == row.key)
    case Some(i) => gs[i := gs[i].(items := gs[i].items + [row.item])]
    case None => gs + [Group(row.key, head(row.key), [row.item])]
  }

  /** The whole loop. */
  function GroupBy<K(==), H(==), V(==)>(rows: seq<Row<K, V>>, head: K -> H): (gs: seq<Group<K, H, V>>)
    ensures GroupsOf(rows, head, gs)
  {
    if |rows| == 0 then []
    else
      var pre, last := rows[..|rows| - 1], rows[|rows| - 1];
      assert rows == pre + [last];
      PlaceKeepsGroups(pre, head, last, GroupBy(pre, head));
      Place(GroupBy(pre, head), head, last)
  }

  /** Appending a row: its key's item list grows by the row's value and its
      key's first occurrence is set if it had none. */
  lemma SnocFacts<K, V>(pre: seq<Row<K, V>>, last: Row<K, V>, k: K)
    ensures ItemsOf(pre + [last], k) == ItemsOf(pre, k) + (if last.key == k then [last.item] else [])
    ensures FirstSeen(pre + [last], k) ==
      if FirstSeen(pre, k).Some? then FirstSeen(pre, k)
      else if last.key == k then Some(|pre|) else None
  {
    assert (pre + [last])[..|pre|] == pre;
    FirstIndexSnoc(pre, last, (row: Row<K, V>) => row.key == k);
  }

  lemma PlaceKeepsGroups<K, H, V>(pre: seq<Row<K, V>>, head: K -> H, last: Row<K, V>, gs0: seq<Group<K, H, V>>)
    requires GroupsOf(pre, head, gs0)
    ensures GroupsOf(pre + [last], head, Place(gs0, head, last))
  {
    match FirstIndex(gs0, (g: Group<K, H, V>) => g.key == last.key)
    case Some(i) => PlaceOld(pre, head, last, gs0, i);
    case None => PlaceNew(pre, head, last, gs0);
  }

  /** The row's key already has a group, which takes the value. */
  lemma PlaceOld<K, H, V>(pre: seq<Row<K, V>>, head: K -> H, last: Row<K, V>, gs0: seq<Group<K, H, V>>, i: nat)
    requires GroupsOf(pre, head, gs0)
    requires i < |gs0| && gs0[i].key == last.key
    ensures GroupsOf(pre + [last], head, gs0[i := gs0[i].(items := gs0[i].items + [last.item])])
  {
    var gs := gs0[i := gs0[i].(items := gs0[i].items + [last.item])];
    assert DistinctKeys(gs) by {
      assert forall j | 0 <= j < |gs| :: gs[j].key == gs0[j].key;
    }
    PlaceOldContents(pre, head, last, gs0, i);
    PlaceOldCovers(pre, last, gs0, i);
    PlaceOldOrder(pre, last, gs0, i);
  }

  lemma PlaceOldContents<K, H, V>(pre: seq<Row<K, V>>, head: K -> H, last: Row<K, V>, gs0: seq<Group<K, H, V>>, i: nat)
    requires Contents(pre, head, gs0) && DistinctKeys(gs0)
    requires i < |gs0| && gs0[i].key == last.key
    ensures Contents(pre + [last], head, gs0[i := gs0[i].(items := gs0[i].items + [last.item])])
  {
    var gs := gs0[i := gs0[i].(items := gs0[i].items + [last.item])];
    forall j | 0 <= j < |gs|
      ensures gs[j] == Group(gs[j].key, head(gs[j].key), ItemsOf(pre + [last], gs[j].key))
    {
      SnocFacts(pre, last, gs[j].key);
      assert gs0[j] == Group(gs0[j].key, head(gs0[j].key), ItemsOf(pre, gs0[j].key));
    }
  }

  lemma PlaceOldCovers<K, H, V>(pre: seq<Row<K, V>>, last: Row<K, V>, gs0: seq<Group<K, H, V>>, i: nat)
    requires Covers(pre, gs0)
    requires i < |gs0| && gs0[i].key == last.key
    ensures Covers(pre + [last], gs0[i := gs0[i].(items := gs0[i].items + [last.item])])
  {
    var rows := pre + [last];
    var gs := gs0[i := gs0[i].(items := gs0[i].items + [last.item])];
    assert Keys(gs) == Keys(gs0);
    assert last.key in Keys(gs0);
    assert forall j | 0 <= j < |pre| :: rows[j] == pre[j];
  }

  lemma PlaceOldOrder<K, H, V>(pre: seq<Row<K, V>>, last: Row<K, V>, gs0: seq<Group<K, H, V>>, i: nat)
    requires InFirstSeenOrder(pre, gs0)
    requires i < |gs0|
    ensures InFirstSeenOrder(pre + [last], gs0[i := gs0[i].(items := gs0[i].items + [last.item])])
  {
    var gs := gs0[i := gs0[i].(items := gs0[i].items + [last.item])];
    forall j | 0 <= j < |gs|
      ensures FirstSeen(pre + [last], gs[j].key) == FirstSeen(pre, gs0[j].key)
    {
      SnocFacts(pre, last, gs[j].key);
    }
  }

  /** The row's key is new, so it opens the last group. */
  lemma PlaceNew<K, H, V>(pre: seq<Row<K, V>>, head: K -> H, last: Row<K, V>, gs0: seq<Group<K, H, V>>)
    requires GroupsOf(pre, head, gs0)
    requires forall i | 0 <= i < |gs0| :: gs0[i].key != last.key
    ensures GroupsOf(pre + [last], head, gs0 + [Group(last.key, head(last.key), [last.item])])
  {
    NewKeyUnseen(pre, head, gs0, last.key);
    assert DistinctKeys(gs0 + [Group(last.key, head(last.key), [last.item])]);
    PlaceNewContents(pre, head, last, gs0);
    PlaceNewCovers(pre, head, last, gs0);
    PlaceNewOrder(pre, last, gs0);
  }

  lemma PlaceNewContents<K, H, V>(pre: seq<Row<K, V>>, head: K -> H, last: Row<K, V>, gs0: seq<Group<K, H, V>>)
    requires Contents(pre, head, gs0)
    requires forall i | 0 <= i < |gs0| :: gs0[i].key != last.key
    requires ItemsOf(pre, last.key) == []
    ensures Contents(pre + [last], head, gs0 + [Group(last.key, head(last.key), [last.item])])
  {
    var gs := gs0 + [Group(last.key, head(last.key), [last.item])];
    forall j | 0 <= j < |gs|
      ensures gs[j] == Group(gs[j].key, head(gs[j].key), ItemsOf(pre + [last], gs[j].key))
    {
      SnocFacts(pre, last, gs[j].key);
      if j < |gs0| {
        assert gs[j] == gs0[j] == Group(gs0[j].key, head(gs0[j].key), ItemsOf(pre, gs0[j].key));
      }
    }
  }

  lemma PlaceNewCovers<K, H, V>(pre: seq<Row<K, V>>, head: K -> H, last: Row<K, V>, gs0: seq<Group<K, H, V>>)
    requires Covers(pre, gs0)
    ensures Covers(pre + [last], gs0 + [Group(last.key, head(last.key), [last.item])])
  {
    var rows := pre + [last];
    var gs := gs0 + [Group(last.key, head(last.key), [last.item])];
    assert Keys(gs) == Keys(gs0) + [last.key];
    assert forall j | 0 <= j < |pre| :: rows[j] == pre[j];
  }

  lemma PlaceNewOrder<K, H, V>(pre: seq<Row<K, V>>, last: Row<K, V>, gs0: seq<Group<K, H, V>>)
    requires InFirstSeenOrder(pre, gs0)
    requires FirstSeen(pre, last.key).None?
    ensures forall h: H :: InFirstSeenOrder(pre + [last], gs0 + [Group(last.key, h, [last.item])])
  {
    forall j | 0 <= j < |gs0|
      ensures FirstSeen(pre + [last], gs0[j].key) == FirstSeen(pre, gs0[j].key)
      ensures FirstSeen(pre, gs0[j].key).value < |pre|
    {
      SnocFacts(pre, last, gs0[j].key);
    }
    SnocFacts(pre, last, last.key);
  }

  /** A key without a group has not occurred yet. */
  lemma NewKeyUnseen<K, H, V>(pre: seq<Row<K, V>>, head: K -> H, gs0: seq<Group<K, H, V>>, k: K)
    requires GroupsOf(pre, head, gs0)
    requires forall i | 0 <= i < |gs0| :: gs0[i].key != k
    ensures FirstSeen(pre, k).None?
    ensures ItemsOf(pre, k) == []
  {
    forall j | 0 <= j < |pre|
      ensures pre[j].key != k
    {
      assert pre[j].key in Keys(gs0);
    }
    ItemsOfExact(pre, k);
  }

  /** Taken from a list whose values are ordered newest first, each key's
      values are ordered newest first. */
  lemma {:induction false} ItemsOfSorted<K, V>(rows: seq<Row<K, V>>, k: K, stamp: V -> int)
    requires forall i, j | 0 <= i < j < |rows| :: stamp(rows[i].item) >= stamp(rows[j].item)
    ensures forall i, j | 0 <= i < j < |ItemsOf(rows, k)| :: stamp(ItemsOf(rows, k)[i]) >= stamp(ItemsOf(rows, k)[j])
  {
    if |rows| > 0 {
      var pre, last := rows[..|rows| - 1], rows[|rows| - 1];
      assert forall j | 0 <= j < |pre| :: pre[j] == rows[j];
      ItemsOfSorted(pre, k, stamp);
      ItemsOfExact(pre, k);
      var rest := ItemsOf(pre, k);
      forall m | 0 <= m < |rest|
        ensures stamp(rest[m]) >= stamp(last.item)
      {
        assert Row(k, rest[m]) in pre;
        var j :| 0 <= j < |pre| && pre[j] == Row(k, rest[m]);
      }
    }
  }

  /** The first item of a key's group is the value of the key's first row. */
  lemma {:induction false} ItemsOfHead<K, V>(rows: seq<Row<K, V>>, k: K)
    requires FirstSeen(rows, k).Some?
    ensures |ItemsOf(rows, k)| > 0 && ItemsOf(rows, k)[0] == rows[FirstSeen(rows, k).value].item
  {
    var pre, last := rows[..|rows| - 1], rows[|rows| - 1];
    assert rows == pre + [last];
    SnocFacts(pre, last, k);
    if FirstSeen(pre, k).Some? {
      ItemsOfHead(pre, k);
    } else {
      ItemsOfExact(pre, k);
      assert forall j | 0 <= j < |pre| :: pre[j].key != k;
    }
  }

  /** Every group's values, group after group. */
  function AllItems<K, H, V>(gs: seq<Group<K, H, V>>): seq<V> {
    if |gs| == 0 then [] else AllItems(gs[..|gs| - 1]) + gs[|gs| - 1].items
  }

  /** Replacing one group changes the number of pooled values by the
      difference in size between the old and the new group. */
  lemma {:induction false} AllItemsUpdate<K, H, V>(gs: seq<Group<K, H, V>>, i: nat, g: Group<K, H, V>)
    requires i < |gs|
    ensures |AllItems(gs[i := g])| + |gs[i].items| == |AllItems(gs)| + |g.items|
  {
    var n := |gs| - 1;
    var gs' := gs[i := g];
    if i == n {
      assert gs'[..n] == gs[..n];
    } else {
      assert gs'[..n] == gs[..n][i := g];
      assert gs[..n][i] == gs[i];
      AllItemsUpdate(gs[..n], i, g);
    }
  }

  /** One loop step adds exactly one value to the pool. */
  lemma PlaceAddsItem<K, H, V>(gs0: seq<Group<K, H, V>>, head: K -> H, last: Row<K, V>)
    ensures |AllItems(Place(gs0, head, last))| == |AllItems(gs0)| + 1
  {
    match FirstIndex(gs0, (g: Group<K, H, V>) => g.key == last.key)
    case Some(i) =>
      AllItemsUpdate(gs0, i, gs0[i].(items := gs0[i].items + [last.item]));
    case None =>
      var gs := gs0 + [Group(last.key, head(last.key), [last.item])];
      assert gs[..|gs| - 1] == gs0;
  }

  /** The groups together hold as many values as there are rows; with
      `GroupsOf` (each group holds exactly the values of its key, keys are
      distinct) every row is listed exactly once. */
  lemma {:induction false} GroupByCountsRows<K, H, V>(rows: seq<Row<K, V>>, head: K -> H)
    ensures |AllItems(GroupBy(rows, head))| == |rows|
  {
    if |rows| > 0 {
      var pre, last := rows[..|rows| - 1], rows[|rows| - 1];
      GroupByCountsRows(pre, head);
      PlaceAddsItem(GroupBy(pre, head), head, last);
    }
  }

  /** Grouping a newest-first list orders the groups by their newest value,
      which each group lists first. */
  lemma GroupsLeadWithNewest<K, H, V>(rows: seq<Row<K, V>>, head: K -> H, gs: seq<Group<K, H, V>>, stamp: V -> int)
    requires GroupsOf(rows, head, gs)
    requires forall i, j | 0 <= i < j < |rows| :: stamp(rows[i].item) >= stamp(rows[j].item)
    ensures forall i | 0 <= i < |gs| :: |gs[i].items| > 0
    ensures forall i, j | 0 <= i < j < |gs| :: stamp(gs[i].items[0]) >= stamp(gs[j].items[0])
  {
    forall i | 0 <= i < |gs|
      ensures |gs[i].items| > 0 && gs[i].items[0] == rows[FirstSeen(rows, gs[i].key).value].item
    {
      ItemsOfHead(rows, gs[i].key);
    }
  }
}
