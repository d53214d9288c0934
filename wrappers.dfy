/** Optional values and results shared by every module of the model. */
module Wrappers {
  datatype Option<T> = None | Some(value: T)
  {
    function GetOr(default: T): T
    {
      if Some? then value else default
    }
  }

  datatype Result<T, E> = Ok(value: T) | Err(error: E)

  /** The error a Python constructor or helper raises as `ValueError(message)`. */
  datatype ValueError = ValueError(message: string)

  /** A list comprehension whose element conversion may raise: the first failing
      element's error, or every converted value in order. */
  function Collect<T, E(==)>(rs: seq<Result<T, E>>): (r: Result<seq<T>, E>)
    ensures r.Ok? <==> forall k :: 0 <= k < |rs| ==> rs[k].Ok?
    ensures r.Ok? ==> |r.value| == |rs| && forall k :: 0 <= k < |rs| ==> r.value[k] == rs[k].value
    ensures r.Err? ==> exists k :: 0 <= k < |rs| && rs[k].Err? && rs[k].error == r.error && forall j :: 0 <= j < k ==> rs[j].Ok?
  {
    if |rs| == 0 then Ok([])
    else if rs[0].Err? then Err(rs[0].error)
    else
      var t := Collect(rs[1..]);
      if t.Err? then
        var k :| 0 <= k < |rs| - 1 && rs[1..][k].Err? && rs[1..][k].error == t.error && forall j :: 0 <= j < k ==> rs[1..][j].Ok?;
        assert rs[k + 1].Err? && rs[k + 1].error == t.error && forall j :: 0 <= j < k + 1 ==> rs[j].Ok?;
        Err(t.error)
      else
        assert forall k :: 0 < k < |rs| ==> rs[k] == rs[1..][k - 1];
        Ok([rs[0].value] + t.value)
  }

  /** One more successful element extends the collected prefix. */
  lemma CollectExtend<T, E>(rs: seq<Result<T, E>>, k: nat)
    requires k < |rs| && Collect(rs[..k]).Ok? && rs[k].Ok?
    ensures Collect(rs[..k + 1]).Ok? && Collect(rs[..k + 1]).value == Collect(rs[..k]).value + [rs[k].value]
  {
    var a := rs[..k + 1];
    var r := Collect(a);
    var e := Collect(rs[..k]).value + [rs[k].value];
    assert forall j :: 0 <= j < k ==> a[j] == rs[..k][j];
    assert r.Ok?;
    assert |r.value| == |e|;
    forall j | 0 <= j < |e| ensures r.value[j] == e[j] {
      if j < k { assert a[j] == rs[..k][j]; }
    }
  }

  /** The first failing element decides the whole comprehension. */
  lemma CollectFirstError<T, E>(rs: seq<Result<T, E>>, k: nat)
    requires k < |rs| && Collect(rs[..k]).Ok? && rs[k].Err?
    ensures Collect(rs).Err? && Collect(rs).error == rs[k].error
  {
    assert forall j :: 0 <= j < k ==> rs[j] == rs[..k][j];
    var r := Collect(rs);
    if r.Err? {
      var m :| 0 <= m < |rs| && rs[m].Err? && rs[m].error == r.error && forall j :: 0 <= j < m ==> rs[j].Ok?;
      assert m == k;
    }
  }

  /** How many leading elements succeeded before the first failure. */
  function OkCount<T, E>(rs: seq<Result<T, E>>): (m: nat)
    ensures m <= |rs| && (forall j :: 0 <= j < m ==> rs[j].Ok?) && (m < |rs| ==> rs[m].Err?)
  {
    if |rs| == 0 || rs[0].Err? then 0
    else
      var t := OkCount(rs[1..]);
      assert forall j :: 0 < j < |rs| ==> rs[j] == rs[1..][j - 1];
      t + 1
  }

  /** The values of the successful elements before the first failure: what a loop that
      stops at the first raise has produced. */
  function OkPrefix<T, E(==)>(rs: seq<Result<T, E>>): (r: seq<T>)
    ensures |r| == OkCount(rs)
    ensures forall j :: 0 <= j < |r| ==> r[j] == rs[j].value
  {
    var m := OkCount(rs);
    assert forall j :: 0 <= j < m ==> rs[..m][j] == rs[j];
    Collect(rs[..m]).value
  }

  /** The first failure, if any. */
  function FirstError<T, E>(rs: seq<Result<T, E>>): (r: Option<E>)
    ensures r.None? <==> forall j :: 0 <= j < |rs| ==> rs[j].Ok?
    ensures r.Some? ==> rs[OkCount(rs)].Err? && r.value == rs[OkCount(rs)].error
  {
    var m := OkCount(rs);
    if m < |rs| then Some(rs[m].error) else None
  }

  /** `list.pop(index)`: the slot is removed and the later elements shift down. */
  function RemoveAt<T>(s: seq<T>, k: nat): (r: seq<T>)
    requires k < |s|
    ensures |r| == |s| - 1
    ensures forall j :: 0 <= j < k ==> r[j] == s[j]
    ensures forall j :: k <= j < |r| ==> r[j] == s[j + 1]
  {
    s[..k] + s[k + 1..]
  }
}
