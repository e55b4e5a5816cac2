/** Values shared by the whole model of the blog's domain layer: optional
    values and results, the JSON values a signed token or a request body can
    carry, and the "first row that matches" search every ORM query in the
    model boils down to. */
module Base {

  datatype Option<+T> = None | Some(value: T)

  datatype Result<+T, +E> = Success(value: T) | Failure(error: E)

  /** A JSON value as the deserializer hands it to Python. Numbers with a
      fraction, arrays and objects are folded into `JOther`. */
  datatype Json = JNull | JBool(b: bool) | JInt(i: int) | JStr(s: string) | JOther

  /** A JSON object: a decoded token payload or a request body. */
  type Payload = map<string, Json>

  /** Python's `d.get(key)`: a missing key reads as `None`, exactly like a
      key whose value is JSON `null`. */
  function Get(d: Payload, key: string): Json {
    if key in d then d[key] else JNull
  }

  /** Python's `v == n` for a decoded JSON value and an integer id. `bool` is a
      subclass of `int`, so `True == 1` and `False == 0`; `None`, strings and
      containers never equal an integer. */
  predicate PyEqualsInt(v: Json, n: int) {
    match v
    case JInt(i) => i == n
    case JBool(b) => (if b then 1 else 0) == n
    case _ => false
  }

  /** `k` is the position of the first element of `xs` that `want` accepts. */
  ghost predicate IsFirst<T>(xs: seq<T>, k: int, want: T -> bool) {
    && 0 <= k < |xs|
    && want(xs[k])
    && forall j :: 0 <= j < k ==> !want(xs[j])
  }

  /** The position of the first element `want` accepts, or `None`: the
      `query.filter_by(...).first()` of the model, the sequence being the
      table in the store's own row order. */
  function Find<T>(xs: seq<T>, want: T -> bool): (r: Option<nat>)
    ensures r.Some? ==> IsFirst(xs, r.value, want)
    ensures r.None? <==> forall j :: 0 <= j < |xs| ==> !want(xs[j])
  {
    if |xs| == 0 then None
    else if want(xs[0]) then Some(0)
    else match Find(xs[1..], want)
      case None => None
      case Some(i) => Some(i + 1)
  }

  /** Two sequences on which `want` accepts exactly the same positions give
      the same answer to `Find`. */
  lemma FindSamePattern<T>(xs: seq<T>, ys: seq<T>, want: T -> bool)
    requires |xs| <= |ys|
    requires forall j :: 0 <= j < |xs| ==> want(xs[j]) == want(ys[j])
    requires forall j :: |xs| <= j < |ys| ==> !want(ys[j])
    ensures Find(xs, want) == Find(ys, want)
  {
  }

  /** Appending an accepted element to a sequence `want` rejects everywhere
      makes that element the first match. */
  lemma FindAppend<T>(xs: seq<T>, y: T, want: T -> bool)
    requires Find(xs, want).None?
    requires want(y)
    ensures Find(xs + [y], want) == Some(|xs|)
  {
    assert want((xs + [y])[|xs|]);
  }
}
