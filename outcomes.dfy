/** Failure values of the report code.
    `Error` names the Python exceptions that escape the modelled functions (they
    end the whole program); `Result` carries either a value or the first such
    exception, in the order Python evaluates the expressions that raise it. */
module Outcomes {

  datatype Option<+T> = None | Some(value: T)

  /** An exception the source does not catch. */
  datatype Error =
    | KeyError(key: string)   // `d[key]` on a dict without that key
    | ValueError              // tuple unpacking with the wrong number of parts
    | IndexError              // `xs[i]` past the end of a list

  datatype Result<+T> = Ok(value: T) | Err(error: Error) {
    predicate IsFailure() { Err? }

    function PropagateFailure<U>(): Result<U>
      requires Err?
    {
      Err(error)
    }

    function Extract(): T
      requires Ok?
    {
      value
    }
  }

  /** `d[key]` on a Python dict of strings. */
  function Lookup(d: map<string, string>, key: string): (r: Result<string>)
    ensures r.Ok? <==> key in d
    ensures r.Ok? ==> r.value == d[key]
    ensures r.Err? ==> r.error == KeyError(key)
  {
    if key in d then Ok(d[key]) else Err(KeyError(key))
  }

  /** `[f(x) for x in xs]` where `f` may raise: the first exception, from the
      left, ends the comprehension. */
  function MapAll<T, U>(f: T -> Result<U>, xs: seq<T>): (r: Result<seq<U>>)
    ensures r.Ok? <==> forall i :: 0 <= i < |xs| ==> f(xs[i]).Ok?
    ensures r.Ok? ==> |r.value| == |xs| && forall i :: 0 <= i < |xs| ==> r.value[i] == f(xs[i]).value
    ensures r.Err? ==> exists i :: 0 <= i < |xs| && f(xs[i]) == Err(r.error)
                                   && forall j :: 0 <= j < i ==> f(xs[j]).Ok?
    decreases |xs|
  {
    if xs == [] then Ok([])
    else
      match f(xs[0])
      case Err(e) => Err(e)
      case Ok(y) =>
        match MapAll(f, xs[1..])
        case Err(e) =>
          assert forall i :: 1 <= i < |xs| ==> xs[1..][i - 1] == xs[i];
          Err(e)
        case Ok(ys) => Ok([y] + ys)
  }

  /** A one-element comprehension that does not raise. */
  lemma MapAllOne<T, U>(f: T -> Result<U>, x: T)
    requires f(x).Ok?
    ensures MapAll(f, [x]) == Ok([f(x).value])
  {
    var r := MapAll(f, [x]);
    assert [x][0] == x;
    assert r.Ok? && |r.value| == 1 && r.value[0] == f(x).value;
    assert r.value == [f(x).value];
  }

  /** The exception of the first element that raises is the one raised. */
  lemma {:induction false} MapAllFirstError<T, U>(f: T -> Result<U>, xs: seq<T>, k: nat)
    requires k < |xs| && f(xs[k]).Err?
    requires forall j :: 0 <= j < k ==> f(xs[j]).Ok?
    ensures MapAll(f, xs) == Err(f(xs[k]).error)
    decreases k
  {
    if k > 0 {
      assert forall j :: 0 <= j < k - 1 ==> xs[1..][j] == xs[j + 1];
      MapAllFirstError(f, xs[1..], k - 1);
    }
  }

  /** A comprehension over a concatenation: the first part's exception
      wins, then the second part's. */
  lemma {:induction false} MapAllAppend<T, U>(f: T -> Result<U>, a: seq<T>, b: seq<T>)
    ensures MapAll(f, a + b) == match MapAll(f, a)
                                case Err(e) => Err(e)
                                case Ok(x) => match MapAll(f, b)
                                              case Err(e) => Err(e)
                                              case Ok(y) => Ok(x + y)
    decreases |a|
  {
    if a == [] {
      assert a + b == b;
      assert MapAll(f, a) == Ok([]);
      if MapAll(f, b).Ok? {
        assert [] + MapAll(f, b).value == MapAll(f, b).value;
      }
    } else {
      assert (a + b)[0] == a[0];
      assert (a + b)[1..] == a[1..] + b;
      MapAllAppend(f, a[1..], b);
      if f(a[0]).Ok? && MapAll(f, a[1..]).Ok? && MapAll(f, b).Ok? {
        var y, x, z := f(a[0]).value, MapAll(f, a[1..]).value, MapAll(f, b).value;
        assert [y] + (x + z) == ([y] + x) + z;
      }
    }
  }

  /** A comprehension over a prefix that does not raise, extended by one
      element that does not raise either. */
  lemma MapAllSnoc<T, U>(f: T -> Result<U>, xs: seq<T>, k: nat)
    requires k < |xs| && MapAll(f, xs[..k]).Ok? && f(xs[k]).Ok?
    ensures MapAll(f, xs[..k + 1]) == Ok(MapAll(f, xs[..k]).value + [f(xs[k]).value])
  {
    assert xs[..k + 1] == xs[..k] + [xs[k]];
    MapAllAppend(f, xs[..k], [xs[k]]);
    MapAllOne(f, xs[k]);
  }

  /** A prefix that does not raise, followed by an element that raises: the
      whole comprehension raises that element's exception. */
  lemma MapAllPrefixError<T, U>(f: T -> Result<U>, xs: seq<T>, k: nat)
    requires k < |xs| && MapAll(f, xs[..k]).Ok? && f(xs[k]).Err?
    ensures MapAll(f, xs) == Err(f(xs[k]).error)
  {
    forall j | 0 <= j < k
      ensures f(xs[j]).Ok?
    {
      assert xs[..k][j] == xs[j];
    }
    MapAllFirstError(f, xs, k);
  }

  /** A one-element comprehension that raises. */
  lemma MapAllOneError<T, U>(f: T -> Result<U>, x: T)
    requires f(x).Err?
    ensures MapAll(f, [x]) == Err(f(x).error)
  {
    assert [x][0] == x;
  }
}
