/** Small shared vocabulary: optional values, the uncaught Python exceptions
    the modelled code can raise, and a few sequence helpers. */
module Common {

  datatype Option<+T> = None | Some(value: T)

  /** The exceptions the modelled code raises and never catches; any of them
      ends the whole run, so the model returns them as a failed result. */
  datatype Failure =
    | ValueError   // int() or float() applied to text that is not a number
    | IndexError   // a list index past its end (short marker line, slot without a quality token)

  datatype Result<+T> = Ok(value: T) | Err(error: Failure) {
    predicate IsFailure() { Err? }

    function PropagateFailure<U>(): Result<U>
      requires Err?
    {
      Err(error)
    }

    function Extract(): T
      requires Ok?
    {
      value
    }
  }

  /** The absolute difference |a - b|. */
  function Dist(a: int, b: int): (d: nat)
    ensures a <= b ==> a + d == b
    ensures b <= a ==> b + d == a
  {
    if a >= b then a - b else b - a
  }

  /** The present values of `xs`, in order. */
  function Somes<T>(xs: seq<Option<T>>): (r: seq<T>)
    ensures |r| <= |xs|
    ensures forall x :: x in r ==> Some(x) in xs
    decreases |xs|
  {
    if xs == [] then []
    else (if xs[0].Some? then [xs[0].value] else []) + Somes(xs[1..])
  }

  lemma SomesCons<T>(x: Option<T>, xs: seq<Option<T>>)
    ensures Somes([x] + xs) == (if x.Some? then [x.value] else []) + Somes(xs)
  {
    assert ([x] + xs)[1..] == xs;
  }

  /** A value present at the end of the sequence comes last. */
  lemma {:induction false} SomesSnoc<T>(xs: seq<Option<T>>, x: Option<T>)
    ensures Somes(xs + [x]) == Somes(xs) + (if x.Some? then [x.value] else [])
    decreases |xs|
  {
    if xs == [] {
      SomesCons(x, []);
    } else {
      assert xs + [x] == [xs[0]] + (xs[1..] + [x]);
      SomesCons(xs[0], xs[1..] + [x]);
      SomesSnoc(xs[1..], x);
      SomesCons(xs[0], xs[1..]);
      assert [xs[0]] + xs[1..] == xs;
    }
  }

  /** `f` applied to each element, in order. */
  function MapSeq<A, B>(xs: seq<A>, f: A -> B): (ys: seq<B>)
    ensures |ys| == |xs|
    ensures forall i :: 0 <= i < |xs| ==> ys[i] == f(xs[i])
  {
    seq(|xs|, i requires 0 <= i < |xs| => f(xs[i]))
  }

  /** Mapping commutes with removing element i. */
  lemma MapSeqSkip<A, B>(xs: seq<A>, f: A -> B, i: nat)
    requires i < |xs|
    ensures MapSeq(xs[..i] + xs[i + 1..], f) == MapSeq(xs, f)[..i] + MapSeq(xs, f)[i + 1..]
  {
    assert MapSeq(xs[..i] + xs[i + 1..], f) == MapSeq(xs, f)[..i] + MapSeq(xs, f)[i + 1..];
  }

  /** Each result's present value; an error stands as None. */
  function Present<T>(rs: seq<Result<Option<T>>>): (xs: seq<Option<T>>)
    ensures |xs| == |rs|
  {
    seq(|rs|, i requires 0 <= i < |rs| => if rs[i].Ok? then rs[i].value else None)
  }

  /** Result i is the first error of the run. */
  predicate FirstErr<T>(rs: seq<Result<Option<T>>>, i: int) {
    0 <= i < |rs| && rs[i].Err? && forall j :: 0 <= j < i ==> rs[j].Ok?
  }

  /** A loop that appends each present value and lets the first exception
      escape: it fails exactly when some result is an error, with the first
      such error, and otherwise yields the present values in order. */
  function Gather<T>(rs: seq<Result<Option<T>>>): (r: Result<seq<T>>)
    ensures r.Ok? <==> forall i :: 0 <= i < |rs| ==> rs[i].Ok?
    ensures r.Ok? ==> r.value == Somes(Present(rs))
    ensures r.Err? ==> exists i :: FirstErr(rs, i) && r.error == rs[i].error
    decreases |rs|
  {
    if rs == [] then Ok([])
    else
      var rest := Gather(rs[1..]);
      if rs[0].Err? then
        assert FirstErr(rs, 0);
        Err(rs[0].error)
      else if rest.Err? then
        FirstErrShift(rs);
        Err(rest.error)
      else
        PresentCons(rs);
        SomesCons(Present(rs)[0], Present(rs[1..]));
        Ok((if rs[0].value.Some? then [rs[0].value.value] else []) + rest.value)
  }

  lemma PresentCons<T>(rs: seq<Result<Option<T>>>)
    requires rs != []
    ensures Present(rs) == [Present(rs)[0]] + Present(rs[1..])
  {
    assert Present(rs) == [Present(rs)[0]] + Present(rs[1..]);
  }

  /** After a result that is not an error, the first error of the rest is the first error of the whole. */
  lemma FirstErrShift<T>(rs: seq<Result<Option<T>>>)
    requires rs != [] && rs[0].Ok?
    ensures forall i :: FirstErr(rs[1..], i) ==> FirstErr(rs, i + 1) && rs[1..][i] == rs[i + 1]
  {
  }

  /** `Err` left as it is, `Ok(ys)` prefixed with `xs`. */
  function Prefixed<T>(xs: seq<T>, r: Result<seq<T>>): Result<seq<T>> {
    match r
    case Ok(ys) => Ok(xs + ys)
    case Err(e) => Err(e)
  }

  lemma PrefixedTwice<T>(xs: seq<T>, ys: seq<T>, r: Result<seq<T>>)
    ensures Prefixed(xs, Prefixed(ys, r)) == Prefixed(xs + ys, r)
  {
    if r.Ok? {
      assert xs + (ys + r.value) == (xs + ys) + r.value;
    }
  }

  /** One result of the fold: an error ends it, a present value is prefixed. */
  lemma GatherStep<T>(rs: seq<Result<Option<T>>>, i: nat)
    requires i < |rs|
    ensures Gather(rs[i..]) ==
      match rs[i]
      case Err(e) => Err(e)
      case Ok(c) => Prefixed(if c.Some? then [c.value] else [], Gather(rs[i + 1..]))
  {
    assert rs[i..][0] == rs[i];
    assert rs[i..][1..] == rs[i + 1..];
  }

  /** Removing a result that holds no value leaves the fold unchanged, errors included. */
  lemma {:induction false} GatherSkipsNone<T>(rs: seq<Result<Option<T>>>, i: nat)
    requires i < |rs| && rs[i] == Ok(None)
    ensures Gather(rs) == Gather(rs[..i] + rs[i + 1..])
    decreases i
  {
    var shorter := rs[..i] + rs[i + 1..];
    if i == 0 {
      assert shorter == rs[1..];
      var rest := Gather(rs[1..]);
      if rest.Ok? {
        assert [] + rest.value == rest.value;
      }
    } else {
      GatherSkipsNone(rs[1..], i - 1);
      assert shorter[0] == rs[0];
      assert shorter[1..] == rs[1..][..i - 1] + rs[1..][i..];
    }
  }

  /** A non-empty set has an element. */
  lemma HasElement(s: set<int>)
    requires |s| > 0
    ensures exists x :: x in s
  {
    if forall x :: x !in s {
      assert false;
    }
  }

  /** A one-element set is the singleton of any of its elements. */
  lemma SingletonSet(s: set<int>, x: int)
    requires |s| == 1 && x in s
    ensures s == {x}
  {
    RemoveOne(s, x);
  }

  /** Removing a member lowers the cardinality by one. */
  lemma RemoveOne(s: set<int>, x: int)
    requires x in s
    ensures |s - {x}| == |s| - 1
  {
    assert s == (s - {x}) + {x};
  }
}
