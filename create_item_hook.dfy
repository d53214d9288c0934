/**
 * The React client's `useCreateItem` hook: three state cells, `loading`, `error`
 * and `data`, set around one create call. The awaited call is split into its start
 * (`Begin`, up to the `await`) and its end (`Finish`, the `try`/`catch`/`finally`
 * after it), so that two overlapping calls can be interleaved.
 */
module CreateItemHook {
  import opened Wrappers
  import opened JsValues
  import opened ApiErrors
  import opened HttpClient
  import ItemsApi

  /** The three cells; an error is a message or `null`. */
  datatype HookState = HookState(loading: bool, error: Option<string>, data: JsValue)

  const Initial: HookState := HookState(false, None, Null)

  /** The message shown for a failed create. */
  function FailureText(err: ApiError): (r: string)
    ensures r != ""
    ensures err.message != "" ==> r == err.message
  {
    if err.message != "" then err.message else "Failed to create item"
  }

  /** The state set before the call. */
  function Begun(s: HookState): HookState
  {
    HookState(true, None, Null)
  }

  /** The state set when the call settles, and what `create` returns. */
  function Finished(s: HookState, result: Outcome): (HookState, JsValue)
  {
    match result
    case Resolved(value) => (HookState(false, s.error, value), value)
    case Rejected(err) => (HookState(false, Some(FailureText(err)), s.data), Null)
  }

  class UseCreateItem {
    var loading: bool
    var error: Option<string>
    var data: JsValue

    function State(): HookState
      reads this
    {
      HookState(loading, error, data)
    }

    constructor()
      ensures State() == Initial
    {
      loading := false;
      error := None;
      data := Null;
    }

    /** `create` up to the `await`. */
    method Begin()
      modifies this
      ensures State() == Begun(old(State()))
    {
      loading := true;
      error := None;
      data := Null;
    }

    /** `create` after the `await`: the result or the caught error, then `finally`. */
    method Finish(result: Outcome) returns (r: JsValue)
      modifies this
      ensures (State(), r) == Finished(old(State()), result)
    {
      match result {
        case Resolved(value) =>
          data := value;
          r := value;
        case Rejected(err) =>
          error := Some(if err.message != "" then err.message else "Failed to create item");
          r := Null;
      }
      loading := false;
    }

    /** `create(itemData)` run to its end without another call in between. */
    method Create(itemData: JsValue, fetch: FetchCall -> FetchOutcome, stringify: JsValue -> JsValue)
      returns (r: JsValue)
      modifies this
      ensures (State(), r) == Finished(Begun(old(State())), ItemsApi.CreateItem(itemData, fetch, stringify))
    {
      Begin();
      var result := ItemsApi.CreateItem(itemData, fetch, stringify);
      r := Finish(result);
    }

    /** `reset`: back to the initial state, without calling the API. */
    method Reset()
      modifies this
      ensures State() == Initial
    {
      loading := false;
      error := None;
      data := Null;
    }
  }

  /** One create on its own: not loading afterwards; on success the data is the
      result, which is returned, and there is no error; on failure the call returns
      `null`, there is no data, and the error is the message or the default one.
      Whatever the state before, only the result matters. */
  lemma CreateOutcome(s: HookState, result: Outcome)
    ensures var (t, r) := Finished(Begun(s), result);
      !t.loading
      && (result.Resolved? ==> t == HookState(false, None, result.data) && r == result.data)
      && (result.Rejected? ==> t == HookState(false, Some(FailureText(result.error)), Null) && r == Null)
  {
  }

  /** Two overlapping creates: the first to settle already clears `loading` while
      the other is still pending, and when a failure settles before a success the
      failure's message stays next to the success's data. */
  lemma OverlappingCreates(s: HookState, first: Outcome, second: Outcome)
    ensures var mid := Finished(Begun(Begun(s)), first).0;
      !mid.loading
    ensures first.Rejected? && second.Resolved? ==>
      var mid := Finished(Begun(Begun(s)), first).0;
      var end := Finished(mid, second).0;
      end == HookState(false, Some(FailureText(first.error)), second.data)
  {
  }
}
