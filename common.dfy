/** Shared vocabulary of the model: optional values, handler results, the
    first-match lookup that stands for every `findOne`, the order-preserving
    filter that stands for every `find`, and the keep-first deduplication
    that stands for `Array.from(new Set(...))`. */
module Common {

  datatype Option<T> = None | Some(value: T)

  /** Document ids (Mongo ObjectIds rendered as strings). */
  type Id = string

  /** How a handler fails; the HTTP status code is given by StatusCode. */
  datatype Failure =
    | BadRequest       // 400
    | Unauthorized     // 401
    | Forbidden        // 403
    | NotFound         // 404
    | ServerError      // 500, or an error handed to Express' error middleware

  function StatusCode(f: Failure): (code: nat)
    ensures 400 <= code <= 500
    ensures code == 500 <==> f == ServerError
  {
    match f
    case BadRequest => 400
    case Unauthorized => 401
    case Forbidden => 403
    case NotFound => 404
    case ServerError => 500
  }

  datatype Result<T> = Ok(value: T) | Fail(error: Failure)

  /** JavaScript truthiness of a request-body string. A missing field
      (`undefined`) and the empty string are both falsy; the model writes a
      missing field as "". */
  predicate Truthy(s: string) {
    s != ""
  }

  /** The index of the first element satisfying `p` (what `findOne` returns
      over a collection in its natural order). */
  function FindFirst<T>(s: seq<T>, p: T -> bool): (r: Option<nat>)
    ensures r.Some? ==> r.value < |s| && p(s[r.value])
    ensures r.Some? ==> forall j :: 0 <= j < r.value ==> !p(s[j])
    ensures r.None? <==> forall j :: 0 <= j < |s| ==> !p(s[j])
  {
    if |s| == 0 then None
    else if p(s[0]) then Some(0)
    else match FindFirst(s[1..], p)
      case None => None
      case Some(k) => Some(k + 1)
  }

  /** Any index whose element satisfies `p` and is preceded only by elements
      that do not is the one FindFirst returns. */
  lemma FindFirstUnique<T>(s: seq<T>, p: T -> bool, i: nat)
    requires i < |s| && p(s[i])
    requires forall j :: 0 <= j < i ==> !p(s[j])
    ensures FindFirst(s, p) == Some(i)
  {
  }

  /** The elements of `s` satisfying `p`, in their original order. */
  function Filter<T(!new)>(s: seq<T>, p: T -> bool): (r: seq<T>)
    ensures |r| <= |s|
    ensures forall x :: x in r <==> x in s && p(x)
  {
    if |s| == 0 then []
    else
      var rest := Filter(s[1..], p);
      assert s == [s[0]] + s[1..];
      if p(s[0]) then [s[0]] + rest else rest
  }

  /** The position of the first occurrence of `x` in `s`. */
  function FirstIndex<T(==)>(s: seq<T>, x: T): (i: nat)
    requires x in s
    ensures i < |s| && s[i] == x
    ensures forall j :: 0 <= j < i ==> s[j] != x
  {
    if s[0] == x then 0 else 1 + FirstIndex(s[1..], x)
  }

  predicate NoDuplicates<T(==)>(s: seq<T>) {
    forall i, j :: 0 <= i < j < |s| ==> s[i] != s[j]
  }

  /** Keep the first occurrence of every element, in order, skipping the ones
      already in `seen`. */
  function DedupeFrom<T(==,!new)>(s: seq<T>, seen: set<T>): (r: seq<T>)
    ensures |r| <= |s|
    ensures forall x :: x in r <==> x in s && x !in seen
    ensures NoDuplicates(r)
    ensures forall i, j :: 0 <= i < j < |r| ==> FirstIndex(s, r[i]) < FirstIndex(s, r[j])
  {
    if |s| == 0 then []
    else if s[0] in seen then
      var rest := DedupeFrom(s[1..], seen);
      assert forall x :: x in s[1..] ==> x in s;
      assert forall k :: 0 <= k < |rest| ==> FirstIndex(s, rest[k]) == 1 + FirstIndex(s[1..], rest[k]);
      rest
    else
      var rest := DedupeFrom(s[1..], seen + {s[0]});
      assert s[0] !in rest;
      assert forall x :: x in s[1..] ==> x in s;
      assert forall k :: 0 <= k < |rest| ==> FirstIndex(s, rest[k]) == 1 + FirstIndex(s[1..], rest[k]);
      [s[0]] + rest
  }

  /** `Array.from(new Set(s))`: the distinct elements of `s`, each at the
      place of its first occurrence. */
  function Dedupe<T(==,!new)>(s: seq<T>): (r: seq<T>)
    ensures |r| <= |s|
    ensures forall x :: x in r <==> x in s
    ensures NoDuplicates(r)
    ensures forall i, j :: 0 <= i < j < |r| ==> FirstIndex(s, r[i]) < FirstIndex(s, r[j])
  {
    DedupeFrom(s, {})
  }

  /** In a sequence without duplicates an element occurs exactly once. */
  lemma {:induction false} OccursOnce<T>(s: seq<T>, x: T)
    requires NoDuplicates(s) && x in s
    ensures multiset(s)[x] == 1
  {
    if s[0] == x {
      assert x !in s[1..];
      assert s == [s[0]] + s[1..];
    } else {
      assert NoDuplicates(s[1..]);
      OccursOnce(s[1..], x);
      assert s == [s[0]] + s[1..];
    }
  }
}
