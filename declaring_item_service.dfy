/**
 * The first backend's item service: creation, partial update, deletion and search,
 * each successful mutation publishing exactly one event.
 */
module DeclaringItemService {
  import opened Wrappers
  import opened Clock
  import opened DeclaringItemStore
  import opened DomainEvents

  /** The partial update of `update_item`: only a present value overwrites, so a
      description can be replaced but never cleared. */
  function ApplyItemUpdate(
    it: Item, name: Option<string>, description: Option<string>, price: Option<real>,
    isAvailable: Option<bool>): (r: Item)
    ensures r.id == it.id && r.createdAt == it.createdAt
    ensures r.name == (if name.Some? then name.value else it.name)
    ensures r.description == (if description.Some? then description else it.description)
    ensures r.price == (if price.Some? then price.value else it.price)
    ensures r.isAvailable == (if isAvailable.Some? then isAvailable.value else it.isAvailable)
  {
    var a := if name.Some? then it.(name := name.value) else it;
    var b := if description.Some? then a.(description := description) else a;
    var c := if price.Some? then b.(price := price.value) else b;
    if isAvailable.Some? then c.(isAvailable := isAvailable.value) else c
  }

  /** No update clears a description, an empty request changes nothing, and repeating
      a request changes nothing more. */
  lemma ItemUpdateLaws(
    it: Item, name: Option<string>, description: Option<string>, price: Option<real>,
    isAvailable: Option<bool>)
    ensures it.description.Some? ==> ApplyItemUpdate(it, name, description, price, isAvailable).description.Some?
    ensures ApplyItemUpdate(it, None, None, None, None) == it
    ensures var once := ApplyItemUpdate(it, name, description, price, isAvailable);
      ApplyItemUpdate(once, name, description, price, isAvailable) == once
  {
  }

  /** `get_all_items`. */
  method GetAllItems(store: ItemStore) returns (r: seq<Item>)
    ensures r == AllItems(store.rows)
  {
    r := store.FindAll();
  }

  /** `get_item`. */
  method GetItem(store: ItemStore, id: int) returns (r: Option<Item>)
    ensures r == FindItem(store.rows, id)
  {
    r := store.FindById(id);
  }

  /** `create_item`: persist a new item stamped `now` and publish one creation event
      with the stored id, name, price and availability. */
  method CreateItem(
    store: ItemStore, log: EventLog, name: string, description: Option<string>, price: real,
    isAvailable: bool, now: Instant) returns (r: Item)
    requires store.Valid()
    modifies store, log
    ensures store.Valid()
    ensures store.rows == old(store.rows) + [ItemRow(old(store.nextId), name, description, price, isAvailable, now)]
    ensures store.nextId == old(store.nextId) + 1
    ensures r == Item(Some(old(store.nextId)), name, description, price, isAvailable, now)
    ensures FindItem(store.rows, old(store.nextId)) == Some(r)
    ensures log.published == old(log.published) + [ItemCreated(old(store.nextId), name, price, isAvailable)]
  {
    r := store.Create(Item(None, name, description, price, isAvailable, now));
    FindAfterAppend(old(store.rows), ItemRow(old(store.nextId), name, description, price, isAvailable, now));
    log.Publish(ItemCreated(r.id.value, r.name, r.price, r.isAvailable));
  }

  /** `update_item`: a missing item gives None with no write and no event; otherwise
      the request's present fields overwrite, the row is rewritten and one event carries
      the updated values. */
  method UpdateItem(
    store: ItemStore, log: EventLog, id: int, name: Option<string>, description: Option<string>,
    price: Option<real>, isAvailable: Option<bool>) returns (r: Option<Item>)
    requires store.Valid()
    modifies store, log
    ensures store.Valid() && store.nextId == old(store.nextId)
    ensures var found := FindItem(old(store.rows), id);
      if found.None? then
        r == None && store.rows == old(store.rows) && log.published == old(log.published)
      else
        var k := ItemIndex(old(store.rows), id).value;
        var e := ApplyItemUpdate(found.value, name, description, price, isAvailable);
        store.rows == old(store.rows)[k := ItemRowOf(e, id, old(store.rows)[k].createdAt)]
        && r == Some(e) && e.id == Some(id) && FindItem(store.rows, id) == r
        && log.published == old(log.published) + [ItemUpdated(id, e.name, e.price, e.isAvailable)]
  {
    var existing := store.FindById(id);
    if existing.None? {
      return None;
    }
    var e := ApplyItemUpdate(existing.value, name, description, price, isAvailable);
    FindAfterUpdate(store.rows, id, e);
    r := store.Update(id, e);
    if r.Some? {
      log.Publish(ItemUpdated(r.value.id.value, r.value.name, r.value.price, r.value.isAvailable));
    }
  }

  /** `delete_item`: False without deleting when the item is missing; otherwise the row
      is removed and one event published. */
  method DeleteItem(store: ItemStore, log: EventLog, id: int) returns (deleted: bool)
    requires store.Valid()
    modifies store, log
    ensures store.Valid() && store.nextId == old(store.nextId)
    ensures deleted <==> FindItem(old(store.rows), id).Some?
    ensures deleted ==>
      store.rows == RemoveAt(old(store.rows), ItemIndex(old(store.rows), id).value)
      && FindItem(store.rows, id) == None
      && log.published == old(log.published) + [ItemDeleted(id)]
    ensures !deleted ==> store.rows == old(store.rows) && log.published == old(log.published)
  {
    var existing := store.FindById(id);
    if existing.None? {
      return false;
    }
    DeleteLeavesNone(store.rows, store.nextId, id);
    deleted := store.Delete(id);
    if deleted {
      log.Publish(ItemDeleted(id));
    }
  }

  /** `search_items`: the four filters reach the store unchanged and its answer is the
      result. */
  method SearchItems(
    store: ItemStore, name: Option<string>, minPrice: Option<real>, maxPrice: Option<real>,
    availableOnly: bool) returns (r: seq<Item>)
    ensures r == SearchResults(store.rows, SearchQuery(name, minPrice, maxPrice, availableOnly))
  {
    r := store.Search(SearchQuery(name, minPrice, maxPrice, availableOnly));
  }
}
