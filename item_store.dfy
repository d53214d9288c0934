/**
 * The first backend's items: the domain record and an in-memory stand-in for the
 * item table. The database assigns increasing ids on insert, updates rewrite the
 * mutable columns and keep the creation time, deletes are hard, and a search applies
 * the optional name, price and availability filters in table order.
 */
module DeclaringItemStore {
  import opened Wrappers
  import opened Text
  import opened Clock

  datatype Item = Item(
    id: Option<int>, name: string, description: Option<string>, price: real,
    isAvailable: bool, createdAt: Instant)

  /** A stored item row. */
  datatype ItemRow = ItemRow(
    id: int, name: string, description: Option<string>, price: real,
    isAvailable: bool, createdAt: Instant)

  /** `_to_domain_model`: a field-by-field copy. */
  function ItemOfRow(row: ItemRow): (it: Item)
    ensures it.id == Some(row.id) && it.name == row.name && it.description == row.description
    ensures it.price == row.price && it.isAvailable == row.isAvailable && it.createdAt == row.createdAt
  {
    Item(Some(row.id), row.name, row.description, row.price, row.isAvailable, row.createdAt)
  }

  /** The row of a domain item, with the id and creation time the table forces. */
  function ItemRowOf(it: Item, id: int, createdAt: Instant): (row: ItemRow)
    ensures ItemOfRow(row) == it.(id := Some(id), createdAt := createdAt)
  {
    ItemRow(id, it.name, it.description, it.price, it.isAvailable, createdAt)
  }

  function ItemIds(rows: seq<ItemRow>): set<int>
  {
    set k | 0 <= k < |rows| :: rows[k].id
  }

  /** The slot holding the item with this id. */
  function ItemIndex(rows: seq<ItemRow>, id: int): (r: Option<nat>)
    ensures r.Some? ==>
      r.value < |rows| && rows[r.value].id == id && forall k :: 0 <= k < r.value ==> rows[k].id != id
    ensures r.None? <==> id !in ItemIds(rows)
  {
    if |rows| == 0 then None
    else if rows[0].id == id then Some(0)
    else
      var t := ItemIndex(rows[1..], id);
      assert ItemIds(rows) == {rows[0].id} + ItemIds(rows[1..]);
      if t.None? then None else Some(t.value + 1)
  }

  /** `find_by_id`. */
  function FindItem(rows: seq<ItemRow>, id: int): Option<Item>
  {
    var k := ItemIndex(rows, id);
    if k.None? then None else Some(ItemOfRow(rows[k.value]))
  }

  /** `find_all`: every stored item in table order. */
  function AllItems(rows: seq<ItemRow>): (r: seq<Item>)
    ensures |r| == |rows| && forall k :: 0 <= k < |rows| ==> r[k] == ItemOfRow(rows[k])
  {
    seq(|rows|, k requires 0 <= k < |rows| => ItemOfRow(rows[k]))
  }

  /** Ids lie in [1, next) and increase along the table, so they are unique. */
  predicate ItemIdsValid(rows: seq<ItemRow>, next: int)
  {
    1 <= next
    && (forall k :: 0 <= k < |rows| ==> 1 <= rows[k].id < next)
    && (forall i, j :: 0 <= i < j < |rows| ==> rows[i].id < rows[j].id)
  }

  /** The filters `search` receives. */
  datatype SearchQuery = SearchQuery(
    name: Option<string>, minPrice: Option<real>, maxPrice: Option<real>, availableOnly: bool)

  /** SQL `LIKE`: `%` matches any run of characters, `_` any one character, and every
      other character itself. The pattern has no escape character. */
  predicate SqlLike(s: string, p: string)
    decreases |p|, |s|
  {
    if p == [] then s == []
    else if p[0] == '%' then SqlLike(s, p[1..]) || (s != [] && SqlLike(s[1..], p))
    else s != [] && (p[0] == '_' || p[0] == s[0]) && SqlLike(s[1..], p[1..])
  }

  predicate NoWildcards(t: string)
  {
    forall k :: 0 <= k < |t| ==> t[k] != '%' && t[k] != '_'
  }

  /** The pattern of `ilike(f"%{name}%")`, with both sides folded by SQL `lower`. */
  function NamePattern(name: string): string
  {
    "%" + AsciiLower(name) + "%"
  }

  /** One row passes the filters: a non-empty name, as a `LIKE` pattern between two
      `%`, must match the item's name ignoring ASCII case; a given bound is inclusive;
      `availableOnly` keeps available items. */
  predicate Matches(row: ItemRow, q: SearchQuery)
  {
    (q.name.Some? && q.name.value != "" ==> SqlLike(AsciiLower(row.name), NamePattern(q.name.value)))
    && (q.minPrice.Some? ==> row.price >= q.minPrice.value)
    && (q.maxPrice.Some? ==> row.price <= q.maxPrice.value)
    && (q.availableOnly ==> row.isAvailable)
  }

  /** A lone `%` matches everything. */
  lemma {:induction false} LikeAnyRun(s: string)
    ensures SqlLike(s, "%")
    decreases |s|
  {
    if s != [] {
      LikeAnyRun(s[1..]);
    }
  }

  /** A literal followed by `%` matches exactly the strings that start with it. */
  lemma {:induction false} LikePrefix(s: string, t: string)
    requires NoWildcards(t)
    ensures SqlLike(s, t + "%") <==> StartsWith(s, t)
    decreases |t|
  {
    if t == [] {
      assert t + "%" == "%";
      LikeAnyRun(s);
    } else {
      var p := t + "%";
      assert p[0] == t[0] && p[1..] == t[1..] + "%";
      if s != [] {
        LikePrefix(s[1..], t[1..]);
        assert StartsWith(s, t) <==> s[0] == t[0] && StartsWith(s[1..], t[1..]) by {
          if s[0] == t[0] && StartsWith(s[1..], t[1..]) {
            assert s[..|t|] == [s[0]] + s[1..][..|t| - 1];
          }
          if StartsWith(s, t) {
            assert s[1..][..|t| - 1] == s[..|t|][1..];
          }
        }
      }
    }
  }

  /** A literal between two `%` matches exactly the strings that contain it: without a
      wildcard in the name, the name filter is a substring test. */
  lemma {:induction false} LikeLiteralIsContains(s: string, t: string)
    requires NoWildcards(t)
    ensures SqlLike(s, "%" + t + "%") <==> Contains(s, t)
    decreases |s|
  {
    var p := "%" + t + "%";
    assert p[0] == '%' && p[1..] == t + "%";
    LikePrefix(s, t);
    if s != [] {
      LikeLiteralIsContains(s[1..], t);
    }
  }

  /** An `_` in the searched name is a wildcard: "_" finds an item named "abc", although
      "abc" does not contain "_". */
  lemma UnderscoreIsWildcard(row: ItemRow)
    requires row.name == "abc"
    ensures Matches(row, SearchQuery(Some("_"), None, None, false))
    ensures !Contains(row.name, "_")
  {
    assert AsciiLower("abc") == "abc";
    assert NamePattern("_") == "%_%";
    assert SqlLike("bc", "%");
    assert SqlLike("abc", "_%");
    assert !StartsWith("abc", "_") && !StartsWith("bc", "_") && !StartsWith("c", "_") && !StartsWith("", "_");
  }

  /** The matching rows as items, in table order. */
  function SearchResults(rows: seq<ItemRow>, q: SearchQuery): (r: seq<Item>)
    ensures |r| <= |rows|
    ensures forall it :: it in r ==> exists k :: 0 <= k < |rows| && Matches(rows[k], q) && it == ItemOfRow(rows[k])
    ensures forall k :: 0 <= k < |rows| && Matches(rows[k], q) ==> ItemOfRow(rows[k]) in r
  {
    if |rows| == 0 then []
    else
      var init := rows[..|rows| - 1];
      var last := rows[|rows| - 1];
      var r := SearchResults(init, q) + (if Matches(last, q) then [ItemOfRow(last)] else []);
      assert forall k :: 0 <= k < |init| ==> init[k] == rows[k];
      r
  }

  /** An empty query keeps every item. */
  lemma {:induction false} EmptyQueryKeepsAll(rows: seq<ItemRow>)
    ensures SearchResults(rows, SearchQuery(None, None, None, false)) == AllItems(rows)
  {
    if |rows| > 0 {
      var q := SearchQuery(None, None, None, false);
      var init := rows[..|rows| - 1];
      var last := rows[|rows| - 1];
      EmptyQueryKeepsAll(init);
      assert Matches(last, q);
      assert SearchResults(rows, q) == SearchResults(init, q) + [ItemOfRow(last)];
      AllItemsSnoc(rows);
    }
  }

  lemma AllItemsSnoc(rows: seq<ItemRow>)
    requires |rows| > 0
    ensures AllItems(rows) == AllItems(rows[..|rows| - 1]) + [ItemOfRow(rows[|rows| - 1])]
  {
  }

  lemma CounterIsFresh(rows: seq<ItemRow>, next: int, row: ItemRow)
    requires ItemIdsValid(rows, next) && row.id == next
    ensures next !in ItemIds(rows)
    ensures ItemIdsValid(rows + [row], next + 1)
  {
    var s := rows + [row];
    assert forall k :: 0 <= k < |rows| ==> s[k] == rows[k];
    assert s[|rows|] == row;
  }

  /** After a create, looking the new id up finds the created item. */
  lemma FindAfterAppend(rows: seq<ItemRow>, row: ItemRow)
    requires row.id !in ItemIds(rows)
    ensures FindItem(rows + [row], row.id) == Some(ItemOfRow(row))
  {
    var s := rows + [row];
    assert s[|rows|] == row;
    assert row.id in ItemIds(s);
    forall k | 0 <= k < |rows| ensures s[k].id != row.id {
      assert rows[k].id in ItemIds(rows);
    }
  }

  /** Removing the found slot leaves no item with that id. */
  lemma DeleteLeavesNone(rows: seq<ItemRow>, next: int, id: int)
    requires ItemIdsValid(rows, next)
    requires ItemIndex(rows, id).Some?
    ensures var r := RemoveAt(rows, ItemIndex(rows, id).value);
      FindItem(r, id) == None && ItemIds(r) == ItemIds(rows) - {id} && ItemIdsValid(r, next)
  {
    var k := ItemIndex(rows, id).value;
    RemoveKeepsValid(rows, next, k);
    RemoveDropsId(rows, next, k);
  }

  /** Removing a slot keeps the ids increasing and below the counter. */
  lemma RemoveKeepsValid(rows: seq<ItemRow>, next: int, k: nat)
    requires ItemIdsValid(rows, next) && k < |rows|
    ensures ItemIdsValid(RemoveAt(rows, k), next)
  {
    var r := RemoveAt(rows, k);
    forall m | 0 <= m < |r| ensures r[m] == rows[if m < k then m else m + 1] {
    }
  }

  /** Removing a slot removes exactly its id, since the ids are unique. */
  lemma RemoveDropsId(rows: seq<ItemRow>, next: int, k: nat)
    requires ItemIdsValid(rows, next) && k < |rows|
    ensures ItemIds(RemoveAt(rows, k)) == ItemIds(rows) - {rows[k].id}
  {
    var r := RemoveAt(rows, k);
    forall x | x in ItemIds(r) ensures x in ItemIds(rows) - {rows[k].id} {
      var j :| 0 <= j < |r| && r[j].id == x;
      if j < k { assert r[j] == rows[j]; } else { assert r[j] == rows[j + 1]; }
    }
    forall x | x in ItemIds(rows) - {rows[k].id} ensures x in ItemIds(r) {
      var j :| 0 <= j < |rows| && rows[j].id == x;
      if j < k { assert r[j] == rows[j]; } else { assert r[j - 1] == rows[j]; }
    }
  }

  /** A slot update that keeps the id keeps every lookup's slot. */
  lemma {:induction false} SameIdsSameIndex(rows: seq<ItemRow>, k: nat, row: ItemRow, id: int)
    requires k < |rows| && row.id == rows[k].id
    ensures ItemIndex(rows[k := row], id) == ItemIndex(rows, id)
    ensures ItemIds(rows[k := row]) == ItemIds(rows)
  {
    var s := rows[k := row];
    assert forall j :: 0 <= j < |rows| ==> s[j].id == rows[j].id;
    forall x | x in ItemIds(s) ensures x in ItemIds(rows) {
      var j :| 0 <= j < |s| && s[j].id == x;
    }
    forall x | x in ItemIds(rows) ensures x in ItemIds(s) {
      var j :| 0 <= j < |rows| && rows[j].id == x;
      assert s[j].id == x;
    }
  }

  /** After an update of a present id, looking it up finds the argument with the stored
      id and creation time. */
  lemma FindAfterUpdate(rows: seq<ItemRow>, id: int, it: Item)
    requires ItemIndex(rows, id).Some?
    ensures var k := ItemIndex(rows, id).value;
      FindItem(rows[k := ItemRowOf(it, id, rows[k].createdAt)], id)
      == Some(it.(id := Some(id), createdAt := rows[k].createdAt))
  {
    var k := ItemIndex(rows, id).value;
    SameIdsSameIndex(rows, k, ItemRowOf(it, id, rows[k].createdAt), id);
  }

  class ItemStore {
    var rows: seq<ItemRow>
    var nextId: int

    ghost predicate Valid()
      reads this
    {
      ItemIdsValid(rows, nextId)
    }

    constructor ()
      ensures Valid() && rows == [] && nextId == 1
    {
      rows := [];
      nextId := 1;
    }

    /** `find_all`. */
    method FindAll() returns (r: seq<Item>)
      ensures r == AllItems(rows)
    {
      r := [];
      var k := 0;
      while k < |rows|
        invariant 0 <= k <= |rows|
        invariant r == AllItems(rows[..k])
      {
        r := r + [ItemOfRow(rows[k])];
        k := k + 1;
      }
      assert rows[..k] == rows;
    }

    /** `find_by_id`. */
    method FindById(id: int) returns (r: Option<Item>)
      ensures r == FindItem(rows, id)
    {
      var k := 0;
      while k < |rows|
        invariant 0 <= k <= |rows|
        invariant forall j :: 0 <= j < k ==> rows[j].id != id
      {
        if rows[k].id == id {
          return Some(ItemOfRow(rows[k]));
        }
        k := k + 1;
      }
      return None;
    }

    /** `create`: the table assigns the next id and keeps the given creation time. */
    method Create(it: Item) returns (r: Item)
      requires Valid()
      modifies this
      ensures Valid()
      ensures old(nextId) !in ItemIds(old(rows))
      ensures rows == old(rows) + [ItemRowOf(it, old(nextId), it.createdAt)]
      ensures nextId == old(nextId) + 1
      ensures r == it.(id := Some(old(nextId)))
    {
      var row := ItemRowOf(it, nextId, it.createdAt);
      CounterIsFresh(rows, nextId, row);
      nextId := nextId + 1;
      rows := rows + [row];
      r := ItemOfRow(row);
    }

    /** `update`: name, description, price and availability are rewritten, the id and
        creation time kept; an absent id changes nothing. */
    method Update(id: int, it: Item) returns (r: Option<Item>)
      requires Valid()
      modifies this
      ensures Valid() && nextId == old(nextId)
      ensures ItemIndex(old(rows), id).None? ==> rows == old(rows) && r == None
      ensures ItemIndex(old(rows), id).Some? ==>
        var k := ItemIndex(old(rows), id).value;
        rows == old(rows)[k := ItemRowOf(it, id, old(rows)[k].createdAt)]
        && r == Some(it.(id := Some(id), createdAt := old(rows)[k].createdAt))
    {
      var k := 0;
      while k < |rows|
        invariant 0 <= k <= |rows|
        invariant forall j :: 0 <= j < k ==> rows[j].id != id
      {
        if rows[k].id == id {
          var row := ItemRowOf(it, id, rows[k].createdAt);
          SameIdsSameIndex(rows, k, row, id);
          rows := rows[k := row];
          return Some(ItemOfRow(row));
        }
        k := k + 1;
      }
      return None;
    }

    /** `delete`: true iff a row was removed. */
    method Delete(id: int) returns (deleted: bool)
      requires Valid()
      modifies this
      ensures Valid() && nextId == old(nextId)
      ensures deleted <==> ItemIndex(old(rows), id).Some?
      ensures deleted ==> rows == RemoveAt(old(rows), ItemIndex(old(rows), id).value)
      ensures !deleted ==> rows == old(rows)
    {
      var k := 0;
      while k < |rows|
        invariant 0 <= k <= |rows|
        invariant forall j :: 0 <= j < k ==> rows[j].id != id
      {
        if rows[k].id == id {
          DeleteLeavesNone(rows, nextId, id);
          rows := RemoveAt(rows, k);
          return true;
        }
        k := k + 1;
      }
      return false;
    }

    /** `search`: the matching items in table order. */
    method Search(q: SearchQuery) returns (r: seq<Item>)
      ensures r == SearchResults(rows, q)
    {
      r := [];
      var k := 0;
      while k < |rows|
        invariant 0 <= k <= |rows|
        invariant r == SearchResults(rows[..k], q)
      {
        assert rows[..k + 1][..k] == rows[..k];
        if Matches(rows[k], q) {
          r := r + [ItemOfRow(rows[k])];
        }
        k := k + 1;
      }
      assert rows[..k] == rows;
    }
  }
}
