/**
 * The React client's item endpoints: one HTTP call each, with a fixed or templated
 * path, and the result or error passed on as it is.
 */
module ItemsApi {
  import opened Wrappers
  import opened OrderedDicts
  import opened JsValues
  import opened ApiConfig
  import opened HttpClient

  /** The templated path `/items/${id}`. */
  function ItemPath(id: JsValue): string
  {
    "/items/" + ToJsString(id)
  }

  function CreateItem(itemData: JsValue, fetch: FetchCall -> FetchOutcome, stringify: JsValue -> JsValue): Outcome
  {
    HttpPost("/items", itemData, [], fetch, stringify)
  }

  function GetItems(fetch: FetchCall -> FetchOutcome): Outcome
  {
    HttpGet("/items", [], fetch)
  }

  function GetItemById(id: JsValue, fetch: FetchCall -> FetchOutcome): Outcome
  {
    HttpGet(ItemPath(id), [], fetch)
  }

  function UpdateItem(id: JsValue, itemData: JsValue, fetch: FetchCall -> FetchOutcome,
                      stringify: JsValue -> JsValue): Outcome
  {
    HttpPut(ItemPath(id), itemData, [], fetch, stringify)
  }

  function DeleteItem(id: JsValue, fetch: FetchCall -> FetchOutcome): Outcome
  {
    HttpDel(ItemPath(id), [], fetch)
  }

  /** The method a call sends. */
  function MethodOf(call: FetchCall): Option<JsValue>
  {
    Get(call.init, "method")
  }

  /** `createItem` settles what `fetch` does for a POST of the JSON body to the
      collection. */
  lemma CreateItemSends(itemData: JsValue, fetch: FetchCall -> FetchOutcome, stringify: JsValue -> JsValue)
    ensures var c := Call("/items", BodyOptions([], "POST", itemData, stringify));
      CreateItem(itemData, fetch, stringify) == Settle(fetch(c))
      && c.url == "http://localhost:8000/items" && MethodOf(c) == Some(Str("POST"))
      && Get(c.init, "body") == Some(stringify(itemData))
  {
    assert BaseUrl + "/items" == "http://localhost:8000/items";
    VerbSent([], "POST", itemData, stringify, "");
  }

  /** `getItems` settles what `fetch` does for a GET of the collection. */
  lemma GetItemsSends(fetch: FetchCall -> FetchOutcome)
    ensures var c := Call("/items", GetOptions([]));
      GetItems(fetch) == Settle(fetch(c)) && c.url == "http://localhost:8000/items" && MethodOf(c) == Some(Str("GET"))
  {
    assert BaseUrl + "/items" == "http://localhost:8000/items";
    VerbSent([], "GET", Undefined, x => x, "");
  }

  /** `getItemById` settles what `fetch` does for a GET of the item's path. */
  lemma GetItemByIdSends(id: JsValue, fetch: FetchCall -> FetchOutcome)
    ensures var c := Call(ItemPath(id), GetOptions([]));
      GetItemById(id, fetch) == Settle(fetch(c))
      && c.url == "http://localhost:8000/items/" + ToJsString(id) && MethodOf(c) == Some(Str("GET"))
  {
    assert BaseUrl + ItemPath(id) == "http://localhost:8000/items/" + ToJsString(id) by {
      assert BaseUrl + ("/items/" + ToJsString(id)) == (BaseUrl + "/items/") + ToJsString(id);
    }
    VerbSent([], "GET", Undefined, x => x, "");
  }

  /** `updateItem` settles what `fetch` does for a PUT of the JSON body to the item's
      path. */
  lemma UpdateItemSends(id: JsValue, itemData: JsValue, fetch: FetchCall -> FetchOutcome,
                        stringify: JsValue -> JsValue)
    ensures var c := Call(ItemPath(id), BodyOptions([], "PUT", itemData, stringify));
      UpdateItem(id, itemData, fetch, stringify) == Settle(fetch(c))
      && c.url == "http://localhost:8000/items/" + ToJsString(id) && MethodOf(c) == Some(Str("PUT"))
      && Get(c.init, "body") == Some(stringify(itemData))
  {
    assert BaseUrl + ItemPath(id) == "http://localhost:8000/items/" + ToJsString(id) by {
      assert BaseUrl + ("/items/" + ToJsString(id)) == (BaseUrl + "/items/") + ToJsString(id);
    }
    VerbSent([], "PUT", itemData, stringify, "");
  }

  /** `deleteItem` settles what `fetch` does for a DELETE of the item's path. */
  lemma DeleteItemSends(id: JsValue, fetch: FetchCall -> FetchOutcome)
    ensures var c := Call(ItemPath(id), DeleteOptions([]));
      DeleteItem(id, fetch) == Settle(fetch(c))
      && c.url == "http://localhost:8000/items/" + ToJsString(id) && MethodOf(c) == Some(Str("DELETE"))
  {
    assert BaseUrl + ItemPath(id) == "http://localhost:8000/items/" + ToJsString(id) by {
      assert BaseUrl + ("/items/" + ToJsString(id)) == (BaseUrl + "/items/") + ToJsString(id);
    }
    VerbSent([], "DELETE", Undefined, x => x, "");
  }
}
