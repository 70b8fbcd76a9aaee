/** Values shared by every service model: optional JSON fields, JavaScript
    truthiness of such fields, and HTTP replies. */
module Wrappers {

  /** A JSON field that may be absent (`undefined`). */
  datatype Option<+T> = None | Some(value: T) {

    /** The field's value, or `default` when it is absent. */
    function GetOr(default: T): T {
      match this
      case Some(v) => v
      case None => default
    }
  }

  /** JavaScript truthiness of an optional string: `undefined` and `""` are
      falsy, every other string is truthy. Every `!field` guard of the
      services is the negation of this predicate. */
  predicate Truthy(s: Option<string>) {
    s.Some? && s.value != ""
  }

  /** An HTTP response: a status with a JSON body, or a status with the
      `error` message the handler sends. Both carry `status`. */
  datatype Reply<+T> = Ok(status: nat, value: T) | Err(status: nat, message: string)
}

/** Generic queries over sequences: the `Array.prototype.filter` and
    `Array.prototype.find` shapes the services use. */
module Seqs {

  /** The elements of `s` that satisfy `p`, in their original order. */
  function Filter<T>(s: seq<T>, p: T -> bool): (r: seq<T>)
    ensures |r| <= |s|
    ensures forall i :: 0 <= i < |r| ==> r[i] in s && p(r[i])
    ensures forall i :: 0 <= i < |s| && p(s[i]) ==> s[i] in r
  {
    if |s| == 0 then []
    else if p(s[0]) then [s[0]] + Filter(s[1..], p)
    else Filter(s[1..], p)
  }

  /** Filtering distributes over concatenation, so it keeps the relative
      order of the elements it keeps. */
  lemma {:induction false} FilterAppend<T>(a: seq<T>, b: seq<T>, p: T -> bool)
    ensures Filter(a + b, p) == Filter(a, p) + Filter(b, p)
  {
    if |a| == 0 {
      assert a + b == b;
    } else {
      assert (a + b)[0] == a[0];
      assert (a + b)[1..] == a[1..] + b;
      FilterAppend(a[1..], b, p);
    }
  }

  /** The index of the first element satisfying `p`, or -1 when none does. */
  function First<T>(s: seq<T>, p: T -> bool): (i: int)
    ensures -1 <= i < |s|
    ensures i == -1 <==> forall j :: 0 <= j < |s| ==> !p(s[j])
    ensures 0 <= i ==> p(s[i]) && forall j :: 0 <= j < i ==> !p(s[j])
  {
    if |s| == 0 then -1
    else if p(s[0]) then 0
    else
      var j := First(s[1..], p);
      if j < 0 then -1 else j + 1
  }

  /** `find` over a filtered list picks the element that `find` with the same
      predicate picks over the whole list. */
  lemma {:induction false} FirstOfFilter<T>(s: seq<T>, p: T -> bool)
    ensures Filter(s, p) == [] <==> First(s, p) == -1
    ensures Filter(s, p) != [] ==> Filter(s, p)[0] == s[First(s, p)]
  {
    if |s| > 0 && !p(s[0]) {
      FirstOfFilter(s[1..], p);
      assert Filter(s, p) == Filter(s[1..], p);
    }
  }
}
