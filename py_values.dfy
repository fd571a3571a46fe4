/** Python values as the two core files see them: JSON-shaped protocol
    payloads, Python truthiness, and exceptions as values. */
module PyValues {

  datatype Option<T> = None | Some(value: T) {
    function GetOr(default: T): T {
      match this
      case Some(v) => v
      case None => default
    }
  }

  /** A decoded JSON value (floats are not modelled). */
  datatype Json =
    | JNull
    | JBool(b: bool)
    | JInt(i: int)
    | JStr(s: string)
    | JArray(items: seq<Json>)
    | JObject(fields: map<string, Json>)

  /** Python's `bool(x)` for a decoded JSON value. */
  predicate Truthy(j: Json) {
    match j
    case JNull => false
    case JBool(b) => b
    case JInt(i) => i != 0
    case JStr(s) => s != ""
    case JArray(items) => items != []
    case JObject(fields) => fields != map[]
  }

  type Dict = map<string, Json>

  /** What the DevTools socket hands back for a command: a result dictionary,
      or None when the command got no usable result. */
  type Reply = Option<Dict>

  /** `not reply` is false exactly for a non-empty dictionary. */
  predicate ReplyTruthy(r: Reply) {
    r.Some? && r.value != map[]
  }

  /** The Python exceptions the modelled code can raise. */
  datatype PyError = KeyError(key: string) | IndexError | TypeError

  /** The outcome of Python code that either returns a value or raises. */
  datatype Outcome<T> = Ok(value: T) | Raised(error: PyError)

  /** `[f(x) for x in xs]` where `f` may raise: the first exception, in
      iteration order, escapes; otherwise every result is collected. */
  function Collect<A, B>(f: A -> Outcome<B>, xs: seq<A>): Outcome<seq<B>>
    decreases |xs|
  {
    if xs == [] then Ok([])
    else
      match Collect(f, xs[..|xs| - 1])
      case Raised(e) => Raised(e)
      case Ok(ys) =>
        match f(xs[|xs| - 1])
        case Raised(e) => Raised(e)
        case Ok(y) => Ok(ys + [y])
  }

  /** One more step of the loop behind `Collect`. */
  lemma CollectStep<A, B>(f: A -> Outcome<B>, xs: seq<A>, i: nat)
    requires i < |xs|
    ensures Collect(f, xs[..i + 1]) ==
      match Collect(f, xs[..i])
      case Raised(e) => Raised(e)
      case Ok(ys) =>
        match f(xs[i])
        case Raised(e) => Raised(e)
        case Ok(y) => Ok(ys + [y])
  {
    assert xs[..i + 1][..i] == xs[..i];
  }

  /** Once an exception has escaped, the rest of the elements do not matter. */
  lemma {:induction false} CollectRaisedPrefix<A, B>(f: A -> Outcome<B>, xs: seq<A>, i: nat)
    requires i <= |xs| && Collect(f, xs[..i]).Raised?
    ensures Collect(f, xs) == Collect(f, xs[..i])
    decreases |xs| - i
  {
    if i == |xs| {
      assert xs[..i] == xs;
    } else {
      CollectStep(f, xs, i);
      CollectRaisedPrefix(f, xs, i + 1);
    }
  }

  /** `Collect` succeeds iff every element succeeds, and then it holds every
      element's result, in order. */
  lemma {:induction false} CollectOk<A, B>(f: A -> Outcome<B>, xs: seq<A>)
    ensures Collect(f, xs).Ok? <==> forall i :: 0 <= i < |xs| ==> f(xs[i]).Ok?
    ensures Collect(f, xs).Ok? ==>
      |Collect(f, xs).value| == |xs| &&
      forall i :: 0 <= i < |xs| ==> f(xs[i]) == Ok(Collect(f, xs).value[i])
    decreases |xs|
  {
    if xs != [] {
      var init := xs[..|xs| - 1];
      CollectOk(f, init);
      assert forall i :: 0 <= i < |init| ==> init[i] == xs[i];
    }
  }

  /** When `Collect` raises, it raises the exception of the first element
      that fails, and every earlier element succeeded. */
  lemma {:induction false} CollectRaised<A, B>(f: A -> Outcome<B>, xs: seq<A>)
    requires Collect(f, xs).Raised?
    ensures exists k :: (0 <= k < |xs| && f(xs[k]) == Raised(Collect(f, xs).error) &&
                         forall j :: 0 <= j < k ==> f(xs[j]).Ok?)
    decreases |xs|
  {
    var init := xs[..|xs| - 1];
    assert forall i :: 0 <= i < |init| ==> init[i] == xs[i];
    if Collect(f, init).Raised? {
      CollectRaised(f, init);
    } else {
      CollectOk(f, init);
      var k := |xs| - 1;
      assert f(xs[k]) == Raised(Collect(f, xs).error);
    }
  }
}
