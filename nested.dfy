/** `_get_nested`: a defensive walk of a decoded JSON value along a path of
    string keys, where positions in a list are given as strings ("0"). The
    walk never fails: whenever it would leave the structure it yields the
    caller's default instead. */
module Nested {
  import opened PyJson

  /** One step of the walk from `current` along `part`; `None` where the
      Python loop returns the default: a null or scalar node, an object
      without the key, or a list given a non-integer or out-of-range index. */
  function Step(current: Json, part: string): Option<Json> {
    match current
    case JArr(items) =>
      (match ParseInt(part)
       case Some(idx) => if 0 <= idx < |items| then Some(items[idx]) else None
       case None => None)
    case JObj(fields) => if part in fields then Some(fields[part]) else None
    case _ => None
  }

  /** Where `path` leads from `d`: `Some(v)` when every step stays inside the
      structure, `None` ("absent") as soon as one does not. */
  function Walk(d: Json, path: seq<string>): Option<Json>
    decreases |path|
  {
    if |path| == 0 then Some(d)
    else
      match Step(d, path[0])
      case None => None
      case Some(next) => Walk(next, path[1..])
  }

  /** `_get_nested(d, path, default)`. */
  function GetNested(d: Json, path: seq<string>, default: Json): (r: Json)
    ensures |path| == 0 ==> r == d
    ensures r != default ==> Walk(d, path) == Some(r)
  {
    Walk(d, path).GetOr(default)
  }

  /** The loop of `_get_nested` as written: `current` is reassigned step by
      step and the default is returned as soon as a step fails. */
  method GetNestedLoop(d: Json, path: seq<string>, default: Json) returns (r: Json)
    ensures r == GetNested(d, path, default)
  {
    var current := d;
    var i := 0;
    while i < |path|
      invariant 0 <= i <= |path|
      invariant Walk(d, path) == Walk(current, path[i..])
    {
      assert path[i..][1..] == path[i + 1..];
      var part := path[i];
      if current.JNull? {
        return default;
      }
      match current {
        case JArr(items) =>
          var idx := ParseInt(part);
          if idx.None? {
            return default;
          }
          if 0 <= idx.value < |items| {
            current := items[idx.value];
          } else {
            return default;
          }
        case JObj(fields) =>
          if part !in fields {
            return default;
          }
          current := fields[part];
        case _ =>
          return default;
      }
      i := i + 1;
    }
    assert path[i..] == [];
    return current;
  }

  // ---------------------------------------------------------------------
  // Properties of the walk
  // ---------------------------------------------------------------------

  /** Walking `p + q` is walking `p`, then `q` from where `p` ended; once
      `p` leaves the structure, so does `p + q`. */
  lemma {:induction false} WalkAppend(d: Json, p: seq<string>, q: seq<string>)
    ensures Walk(d, p + q) == match Walk(d, p) case None => None case Some(v) => Walk(v, q)
    decreases |p|
  {
    if |p| == 0 {
      assert p + q == q;
    } else {
      assert (p + q)[0] == p[0];
      assert (p + q)[1..] == p[1..] + q;
      match Step(d, p[0]) {
        case None =>
        case Some(next) => WalkAppend(next, p[1..], q);
      }
    }
  }

  /** Null is only checked before a step: a null reached at the last step is
      returned as it is, while a null or a scalar reached earlier makes the
      rest of the path yield the default. */
  lemma NullAndScalarStops(d: Json, p: seq<string>, q: seq<string>, default: Json)
    requires Walk(d, p).Some? && !Walk(d, p).value.JArr? && !Walk(d, p).value.JObj?
    ensures Walk(d, p) == Some(JNull) ==> GetNested(d, p, default) == JNull
    ensures |q| > 0 ==> GetNested(d, p + q, default) == default
  {
    WalkAppend(d, p, q);
  }

  /** A list index that does not parse, is negative or is past the end
      yields the default, whatever follows it in the path. */
  lemma BadListIndex(d: Json, p: seq<string>, part: string, q: seq<string>, default: Json)
    requires Walk(d, p).Some? && Walk(d, p).value.JArr?
    requires ParseInt(part).None? || ParseInt(part).value < 0
             || ParseInt(part).value >= |Walk(d, p).value.items|
    ensures GetNested(d, p + [part] + q, default) == default
  {
    WalkAppend(d, p, [part] + q);
    assert p + [part] + q == p + ([part] + q);
  }

  /** A walk that resolves never depends on the default; one that does not
      resolve yields exactly the default. So the result tells "absent"
      apart from any value the structure holds only when the default is a
      value the structure cannot produce. */
  lemma DefaultOnlyWhenAbsent(d: Json, path: seq<string>, default1: Json, default2: Json)
    ensures Walk(d, path).Some? ==> GetNested(d, path, default1) == GetNested(d, path, default2)
    ensures Walk(d, path).None? ==> GetNested(d, path, default1) == default1
  {
  }

  /** Replacing a falsy value with `{}` (the `x or {}` idiom) does not
      change any walk of a non-empty path: no falsy value has children. */
  lemma {:induction false} FalsyHasNoChildren(v: Json, q: seq<string>)
    requires !Truthy(v) && |q| > 0
    ensures Walk(v, q) == None
    ensures Walk(EmptyObject, q) == None
  {
    match v {
      case JArr(items) =>
        assert |items| == 0;
      case _ =>
    }
  }

  /** A key no list accepts as an index. */
  predicate IsName(key: string) {
    |key| > 0 && 'a' <= key[0] <= 'z'
  }

  /** `int()` refuses every key whose first character is neither blank,
      digit nor sign, so such a key never indexes a list. */
  lemma NameIsNoIndex(key: string)
    requires |key| > 0 && !IsSpace(key[0]) && !IsDigit(key[0]) && key[0] != '-' && key[0] != '+'
    ensures ParseInt(key) == None
  {
    assert StripLeft(key) == key;
    var t := Strip(key);
    StripRightCuts(key);
    if |t| > 0 {
      assert t[0] == key[0];
    }
  }

  /** One named step of a walk: only an object holding the key goes on. */
  lemma WalkName(x: Json, key: string, rest: seq<string>)
    requires IsName(key)
    ensures Walk(x, [key] + rest) == if x.JObj? && key in x.fields then Walk(x.fields[key], rest) else None
  {
    NameIsNoIndex(key);
    assert ([key] + rest)[0] == key;
    assert ([key] + rest)[1..] == rest;
  }
}
