/** Values shared by the whole model: optional values, results of calls that may
    throw, JavaScript identifiers and the lookups the services perform on them. */
module Common {

  datatype Option<T> = None | Some(value: T) {
    function GetOr(default: T): T {
      if Some? then value else default
    }
  }

  /** The outcome of a service call that either returns a value or throws an Error with a message. */
  datatype Result<T> = Ok(value: T) | Err(message: string)

  /** The outcome of an async handler that returns nothing or throws. */
  datatype Outcome = Done | Thrown(message: string)

  /** A record identifier as JavaScript holds it: a number or a string.
      Strict equality (`===`) never equates a number with a string, and the
      two constructors never compare equal either. */
  datatype Id = NumId(n: nat) | StrId(s: string)

  /** A category reference stored on a task: `null`, a bare identifier, or an
      object that carries an identifier in its `Id` field. */
  datatype Ref = Null | Bare(id: Id) | Obj(id: Id)

  /** JavaScript truthiness of a reference (`null`, `0` and `""` are falsy). */
  predicate Truthy(r: Ref) {
    match r
    case Null => false
    case Bare(NumId(n)) => n != 0
    case Bare(StrId(s)) => s != ""
    case Obj(_) => true
  }

  /** No identifier occurs twice. */
  predicate Distinct(ids: seq<Id>) {
    forall i, j :: 0 <= i < j < |ids| ==> ids[i] != ids[j]
  }

  /** `findIndex(x => x.Id === id)` over the identifiers of a store: the first
      position holding `id`, or -1 when there is none. */
  function IndexOf(ids: seq<Id>, id: Id): (r: int)
    ensures -1 <= r < |ids|
    ensures r == -1 <==> id !in ids
    ensures 0 <= r ==> ids[r] == id && id !in ids[..r]
  {
    if |ids| == 0 then -1
    else if ids[0] == id then 0
    else
      var k := IndexOf(ids[1..], id);
      if k == -1 then -1
      else
        assert ids[..k + 1] == [ids[0]] + ids[1..][..k];
        k + 1
  }

  /** On distinct identifiers the first position holding `ids[i]` is `i` itself. */
  lemma {:induction false} IndexOfDistinct(ids: seq<Id>, i: nat)
    requires Distinct(ids) && i < |ids|
    ensures IndexOf(ids, ids[i]) == i
  {
  }

  /** `Math.max(...xs, 0)`: the largest element, or 0 for no elements. */
  function MaxOf(xs: seq<nat>): (m: nat)
    ensures forall i :: 0 <= i < |xs| ==> xs[i] <= m
    ensures m == 0 || m in xs
  {
    if |xs| == 0 then 0
    else
      var rest := MaxOf(xs[1..]);
      assert forall i :: 1 <= i < |xs| ==> xs[i] == xs[1..][i - 1];
      if xs[0] >= rest then xs[0] else rest
  }

  /** Appending an identifier that does not occur keeps the identifiers distinct. */
  lemma AppendFresh(ids: seq<Id>, x: Id)
    requires Distinct(ids) && x !in ids
    ensures Distinct(ids + [x])
  {
  }

  /** Splicing one position out keeps the identifiers distinct and removes the
      only occurrence of the identifier that was there. */
  lemma RemoveAt(ids: seq<Id>, i: nat)
    requires Distinct(ids) && i < |ids|
    ensures Distinct(ids[..i] + ids[i + 1..])
    ensures ids[i] !in ids[..i] + ids[i + 1..]
  {
    var rest := ids[..i] + ids[i + 1..];
    forall k | 0 <= k < |rest|
      ensures rest[k] == (if k < i then ids[k] else ids[k + 1])
    {
    }
  }
}
