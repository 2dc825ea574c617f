/** The plain JavaScript values the frontend stores hold: JSON values,
    objects as maps from keys to values (so `{...a, ...b}` is `a + b`),
    and the list operations the mutations use, keyed by a property such
    as `_id` or `id`. */
module JsObjects {
  import opened Wrappers

  /** A JSON value; numbers are integers. */
  datatype Json = JNull | JBool(b: bool) | JNum(n: int) | JStr(s: string) | JArr(items: seq<Json>)
                | JObj(fields: map<string, Json>)

  /** A plain object: its own keys and their values. */
  type Obj = map<string, Json>

  /** `o[k]`, where `None` is `undefined`. */
  function Get(o: Obj, k: string): Option<Json> {
    if k in o then Some(o[k]) else None
  }

  /** JavaScript truthiness of a value that may be `undefined`. */
  predicate Truthy(v: Option<Json>) {
    match v
    case None => false
    case Some(j) =>
      match j
      case JNull => false
      case JBool(b) => b
      case JNum(n) => n != 0
      case JStr(s) => s != ""
      case _ => true
  }

  /** `items.findIndex(o => o[k] === id)`: the first match, or -1. */
  function FindIndex(items: seq<Obj>, k: string, id: Option<Json>): (r: int)
    ensures -1 <= r < |items|
    ensures r >= 0 ==> Get(items[r], k) == id && forall j :: 0 <= j < r ==> Get(items[j], k) != id
    ensures r == -1 <==> forall j :: 0 <= j < |items| ==> Get(items[j], k) != id
    decreases |items|
  {
    if |items| == 0 then -1
    else if Get(items[0], k) == id then 0
    else
      var r := FindIndex(items[1..], k, id);
      if r == -1 then -1 else r + 1
  }

  /** `items.filter(o => o[k] !== id)`. */
  function FilterOut(items: seq<Obj>, k: string, id: Option<Json>): (r: seq<Obj>)
    ensures |r| <= |items|
    ensures forall o :: o in r <==> o in items && Get(o, k) != id
    decreases |items|
  {
    if |items| == 0 then []
    else
      var rest := FilterOut(items[1..], k, id);
      if Get(items[0], k) == id then rest else [items[0]] + rest
  }

  /** Filtering distributes over concatenation, so the kept elements stay
      in their order. */
  lemma {:induction false} FilterOutAppend(a: seq<Obj>, b: seq<Obj>, k: string, id: Option<Json>)
    ensures FilterOut(a + b, k, id) == FilterOut(a, k, id) + FilterOut(b, k, id)
    decreases |a|
  {
    if |a| > 0 {
      assert (a + b)[1..] == a[1..] + b;
      FilterOutAppend(a[1..], b, k, id);
    } else {
      assert a + b == b;
    }
  }

  /** Filtering is idempotent, and leaves a list without a match alone. */
  lemma {:induction false} FilterOutIdempotent(items: seq<Obj>, k: string, id: Option<Json>)
    ensures FilterOut(FilterOut(items, k, id), k, id) == FilterOut(items, k, id)
    ensures (forall j :: 0 <= j < |items| ==> Get(items[j], k) != id) ==> FilterOut(items, k, id) == items
    decreases |items|
  {
    if |items| > 0 {
      FilterOutIdempotent(items[1..], k, id);
      var rest := FilterOut(items[1..], k, id);
      if Get(items[0], k) != id {
        assert ([items[0]] + rest)[1..] == rest;
      }
    }
  }

  /** The number of elements whose `k` is `id`. */
  function Matching(items: seq<Obj>, k: string, id: Option<Json>): nat
    decreases |items|
  {
    if |items| == 0 then 0
    else (if Get(items[0], k) == id then 1 else 0) + Matching(items[1..], k, id)
  }

  /** Filtering drops exactly the matching elements. */
  lemma {:induction false} FilterOutLength(items: seq<Obj>, k: string, id: Option<Json>)
    ensures |FilterOut(items, k, id)| == |items| - Matching(items, k, id)
    decreases |items|
  {
    if |items| > 0 {
      FilterOutLength(items[1..], k, id);
    }
  }

  /** `findIndex` and `splice(i, 1, o)`: the first element with the same
      `k` as `o` is replaced by `o`; a list without one is unchanged. */
  function Replaced(items: seq<Obj>, k: string, o: Obj): (r: seq<Obj>)
    ensures |r| == |items|
  {
    var i := FindIndex(items, k, Get(o, k));
    if i == -1 then items else items[i := o]
  }

  /** After a replacement the object is found where the old one was,
      nothing else moved, and replacing again changes nothing. */
  lemma ReplacedFinds(items: seq<Obj>, k: string, o: Obj)
    ensures var i := FindIndex(items, k, Get(o, k));
            var r := Replaced(items, k, o);
            (i == -1 ==> r == items)
            && (i >= 0 ==> FindIndex(r, k, Get(o, k)) == i && r[i] == o
                           && forall j :: 0 <= j < |items| && j != i ==> r[j] == items[j])
            && Replaced(r, k, o) == r
  {
    var i := FindIndex(items, k, Get(o, k));
    if i >= 0 {
      var r := items[i := o];
      assert Replaced(items, k, o) == r;
      SetKeepsFirst(items, k, i, o);
      assert Replaced(r, k, o) == r[i := o];
      assert r[i := o] == r;
    }
  }

  /** Putting an object with the same key at the first match keeps that
      index the first match. */
  lemma SetKeepsFirst(items: seq<Obj>, k: string, i: nat, o: Obj)
    requires i < |items| && FindIndex(items, k, Get(o, k)) == i
    ensures FindIndex(items[i := o], k, Get(o, k)) == i
  {
    var r := items[i := o];
    assert Get(r[i], k) == Get(o, k);
    forall j | 0 <= j < i ensures Get(r[j], k) != Get(o, k) {
      assert r[j] == items[j];
    }
  }

  /** `findIndex`, then `splice(i, 1, o)` or `push(o)`: an upsert by `k`. */
  function Upserted(items: seq<Obj>, k: string, o: Obj): (r: seq<Obj>)
    ensures o in r
  {
    var i := FindIndex(items, k, Get(o, k));
    if i == -1 then items + [o]
    else
      var r := items[i := o];
      assert r[i] == o;
      r
  }

  /** An upsert grows the list by at most one, appends only when no
      element had the key, and a second upsert of the same object changes
      nothing. */
  lemma UpsertedOnce(items: seq<Obj>, k: string, o: Obj)
    ensures var r := Upserted(items, k, o);
            (FindIndex(items, k, Get(o, k)) == -1 ==> r == items + [o])
            && (FindIndex(items, k, Get(o, k)) >= 0 ==> r == Replaced(items, k, o))
            && |items| <= |r| <= |items| + 1
            && Upserted(r, k, o) == r
  {
    var i := FindIndex(items, k, Get(o, k));
    var r := Upserted(items, k, o);
    if i == -1 {
      assert r[|items|] == o;
      assert forall j :: 0 <= j < |items| ==> r[j] == items[j];
      assert FindIndex(r, k, Get(o, k)) == |items|;
    } else {
      ReplacedFinds(items, k, o);
    }
  }
}
