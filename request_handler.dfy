/**
 * The request side of the provider calls: `{key}` substitution from a
 * credential's requestDict, the `{lpr}`/`{gracePeriod}` path parameters,
 * dotted-path lookups into a task, the (method, url, body, headers) record
 * built from a request schema, and the name-to-value rewrite of a JSON
 * schema against the task and its neighbours.
 */
module RequestHandler {
  import opened Wrappers
  import opened Text
  import opened Json
  import SchemaMapping

  // ---- map_value ----

  const REQUEST_DICT := "requestDict"
  const PLATE_NUMBER := "plateNumber"
  const PARKING_SPOT_ID := "parking_spot_id"
  const PARKING_LOT_ID := "parking_lot_id"
  const FACILITY_ID := "facility_id"

  /** What `request_dict.update(...)` raises when the credential has no requestDict dict. */
  const NO_UPDATE := "object has no attribute 'update'"

  /**
   * The CommonSchema record map_value merges into the requestDict: every
   * field of the schema, in declaration order, unset ones as None. The plate
   * goes in when the task has a non-empty one, the spot otherwise.
   */
  function CommonSchemaFields(plate: Option<string>, spotId: Option<int>, lotId: int): Fields
  {
    if plate.Some? && plate.value != "" then
      [(PLATE_NUMBER, JStr(plate.value)), (PARKING_SPOT_ID, JNull), (PARKING_LOT_ID, JNum(lotId)), (FACILITY_ID, JNull)]
    else
      [(PLATE_NUMBER, JNull), (PARKING_SPOT_ID, if spotId.Some? then JNum(spotId.value) else JNull),
       (PARKING_LOT_ID, JNum(lotId)), (FACILITY_ID, JNull)]
  }

  /** Which value of the CommonSchema record each key ends with. */
  lemma CommonSchemaLast(plate: Option<string>, spotId: Option<int>, lotId: int, k: string)
    ensures var pairs := CommonSchemaFields(plate, spotId, lotId);
            var plated := plate.Some? && plate.value != "";
            LastGet(pairs, PLATE_NUMBER) == Some(if plated then JStr(plate.value) else JNull) &&
            LastGet(pairs, PARKING_SPOT_ID) == Some(if !plated && spotId.Some? then JNum(spotId.value) else JNull) &&
            LastGet(pairs, PARKING_LOT_ID) == Some(JNum(lotId)) &&
            (k != PLATE_NUMBER && k != PARKING_SPOT_ID && k != PARKING_LOT_ID && k != FACILITY_ID ==>
               LastGet(pairs, k).None?)
  {
    var pairs := CommonSchemaFields(plate, spotId, lotId);
    assert |PLATE_NUMBER| == 11 && |PARKING_SPOT_ID| == 15 && |PARKING_LOT_ID| == 14 && |FACILITY_ID| == 11;
    assert PLATE_NUMBER[0] != FACILITY_ID[0];
    LastGetOfFour(pairs[0], pairs[1], pairs[2], pairs[3], PLATE_NUMBER);
    LastGetOfFour(pairs[0], pairs[1], pairs[2], pairs[3], PARKING_SPOT_ID);
    LastGetOfFour(pairs[0], pairs[1], pairs[2], pairs[3], PARKING_LOT_ID);
    LastGetOfFour(pairs[0], pairs[1], pairs[2], pairs[3], k);
    assert pairs == [pairs[0], pairs[1], pairs[2], pairs[3]];
  }

  lemma LastGetOfFour(a: (string, Json), b: (string, Json), c: (string, Json), e: (string, Json), k: string)
    ensures LastGet([a, b, c, e], k) ==
            if e.0 == k then Some(e.1) else if c.0 == k then Some(c.1)
            else if b.0 == k then Some(b.1) else if a.0 == k then Some(a.1) else None
  {
    assert [e][1..] == [];
    assert LastGet([e], k) == if e.0 == k then Some(e.1) else None;
    assert [c, e][1..] == [e];
    assert LastGet([c, e], k) == if e.0 == k then Some(e.1) else if c.0 == k then Some(c.1) else None;
    assert [b, c, e][1..] == [c, e];
    assert [a, b, c, e][1..] == [b, c, e];
  }

  /** `d.update(pairs)`: each pair set in turn. */
  function Update(d: Fields, pairs: Fields): Fields
    decreases |pairs|
  {
    if pairs == [] then d else Update(Set(d, pairs[0].0, pairs[0].1), pairs[1..])
  }

  /** The value the last pair with key `k` carries, if any. */
  function LastGet(pairs: Fields, k: string): Option<Json>
    decreases |pairs|
  {
    if pairs == [] then None
    else
      var later := LastGet(pairs[1..], k);
      if later.Some? then later else if pairs[0].0 == k then Some(pairs[0].1) else None
  }

  /** After `d.update(pairs)` a key holds what the last pair gave it, or what it held before. */
  lemma {:induction false} UpdateGet(d: Fields, pairs: Fields, k: string)
    ensures Get(Update(d, pairs), k) == if LastGet(pairs, k).Some? then LastGet(pairs, k) else Get(d, k)
    decreases |pairs|
  {
    if pairs != [] {
      UpdateGet(Set(d, pairs[0].0, pairs[0].1), pairs[1..], k);
      SetGet(d, pairs[0].0, pairs[0].1);
    }
  }

  /**
   * The regex `\{(k1|k2|...)\}` at the start of `t` (the text after a `{`):
   * the first key, in dict order, that `t` starts with, followed by `}`.
   */
  function MatchKey(t: string, d: Fields): (r: Option<string>)
    ensures r.Some? ==> HasKey(d, r.value) && r.value + "}" <= t
    decreases |d|
  {
    if d == [] then None
    else if d[0].0 + "}" <= t then Some(d[0].0)
    else MatchKey(t, d[1..])
  }

  /** `pattern.sub(replace, s)`: each `{key}` becomes `str(d[key])`, left to right. */
  function SubKeys(s: string, d: Fields): string
    decreases |s|
  {
    if s == [] then []
    else if s[0] == '{' && MatchKey(s[1..], d).Some? then
      var k := MatchKey(s[1..], d).value;
      PyStr(Get(d, k).value) + SubKeys(s[|k| + 2..], d)
    else [s[0]] + SubKeys(s[1..], d)
  }

  /**
   * map_value: the credential's requestDict takes the task's plate (or spot)
   * and lot, then every `{key}` of the request text is replaced by its value.
   * The result holds the new text and the requestDict as the credential now
   * holds it. The early return on an empty requestDict cannot happen: the
   * update always adds the four schema fields.
   */
  function MapValue(requestData: string, jsonToMap: Fields, plate: Option<string>, spotId: Option<int>,
                    lotId: int): (r: Result<(string, Fields)>)
    ensures r.Err? <==> !(Get(jsonToMap, REQUEST_DICT).Some? && Get(jsonToMap, REQUEST_DICT).value.JObj?)
    ensures r.Err? ==> r.msg == NO_UPDATE
    ensures r.Ok? ==> r.value.0 == SubKeys(requestData, r.value.1)
  {
    match Get(jsonToMap, REQUEST_DICT)
    case Some(JObj(rd)) =>
      var d := Update(rd, CommonSchemaFields(plate, spotId, lotId));
      Ok((SubKeys(requestData, d), d))
    case _ => Err(NO_UPDATE)
  }

  /** The merged requestDict holds the task's plate (or None), its spot when there is no plate, and its lot. */
  lemma MapValueMerges(requestData: string, jsonToMap: Fields, plate: Option<string>, spotId: Option<int>,
                       lotId: int, k: string)
    requires MapValue(requestData, jsonToMap, plate, spotId, lotId).Ok?
    ensures var d := MapValue(requestData, jsonToMap, plate, spotId, lotId).value.1;
            var plated := plate.Some? && plate.value != "";
            Get(d, PLATE_NUMBER) == Some(if plated then JStr(plate.value) else JNull) &&
            Get(d, PARKING_SPOT_ID) == Some(if !plated && spotId.Some? then JNum(spotId.value) else JNull) &&
            Get(d, PARKING_LOT_ID) == Some(JNum(lotId)) &&
            (k != PLATE_NUMBER && k != PARKING_SPOT_ID && k != PARKING_LOT_ID && k != FACILITY_ID ==>
               Get(d, k) == Get(Get(jsonToMap, REQUEST_DICT).value.fields, k))
  {
    var rd := Get(jsonToMap, REQUEST_DICT).value.fields;
    var pairs := CommonSchemaFields(plate, spotId, lotId);
    CommonSchemaLast(plate, spotId, lotId, k);
    UpdateGet(rd, pairs, PLATE_NUMBER);
    UpdateGet(rd, pairs, PARKING_SPOT_ID);
    UpdateGet(rd, pairs, PARKING_LOT_ID);
    UpdateGet(rd, pairs, k);
  }

  /** Text where no `{` opens a key of the dict comes back unchanged. */
  lemma {:induction false} SubKeysUntouched(s: string, d: Fields)
    requires forall i :: 0 <= i < |s| && s[i] == '{' ==> MatchKey(s[i + 1..], d).None?
    ensures SubKeys(s, d) == s
    decreases |s|
  {
    if s != [] {
      forall i | 0 <= i < |s[1..]| && s[1..][i] == '{' ensures MatchKey(s[1..][i + 1..], d).None? {
        assert s[1..][i + 1..] == s[i + 2..];
      }
      SubKeysUntouched(s[1..], d);
      assert [s[0]] + s[1..] == s;
    }
  }

  /** A prefix without `{` is copied as it is. */
  lemma {:induction false} SubKeysSkip(pre: string, t: string, d: Fields)
    requires '{' !in pre
    ensures SubKeys(pre + t, d) == pre + SubKeys(t, d)
    decreases |pre|
  {
    if pre == [] {
      assert pre + t == t;
    } else {
      assert pre[0] in pre;
      assert (pre + t)[1..] == pre[1..] + t;
      SubKeysSkip(pre[1..], t, d);
      assert [pre[0]] + (pre[1..] + SubKeys(t, d)) == pre + SubKeys(t, d);
    }
  }

  /** No key of the dict holds a `}`. */
  predicate CloseFreeKeys(d: Fields)
  {
    forall i :: 0 <= i < |d| ==> '}' !in d[i].0
  }

  lemma OtherKeyNoMatch(k: string, k': string, post: string)
    requires k' != k && '}' !in k && '}' !in k'
    ensures !(k' + "}" <= k + "}" + post)
  {
    var t := k + "}" + post;
    var m := k' + "}";
    if |k'| < |k| {
      assert m[|k'|] == '}' && t[|k'|] == k[|k'|];
    } else if |k'| == |k| {
      assert m[..|k'|] == k' && t[..|k|] == k;
    } else {
      assert m[|k|] == k'[|k|] && t[|k|] == '}';
    }
  }

  /** With keys free of `}`, the only key matching `k}` is `k` itself. */
  lemma {:induction false} MatchKeyExact(k: string, post: string, d: Fields)
    requires HasKey(d, k) && '}' !in k
    requires CloseFreeKeys(d)
    ensures MatchKey(k + "}" + post, d) == Some(k)
    decreases |d|
  {
    var t := k + "}" + post;
    var k' := d[0].0;
    assert '}' !in k' by { assert '}' !in d[0].0; }
    if k' != k {
      OtherKeyNoMatch(k, k', post);
      assert CloseFreeKeys(d[1..]) by {
        forall i | 0 <= i < |d[1..]| ensures '}' !in d[1..][i].0 {
          assert d[1..][i] == d[i + 1];
        }
      }
      MatchKeyExact(k, post, d[1..]);
    }
  }

  /** A `{k}` whose key matches is replaced by the key's value. */
  lemma SubKeysAtKey(k: string, post: string, d: Fields)
    requires '}' !in k && HasKey(d, k)
    requires CloseFreeKeys(d)
    ensures SubKeys("{" + k + "}" + post, d) == PyStr(Get(d, k).value) + SubKeys(post, d)
  {
    var t := "{" + k + "}" + post;
    assert t[1..] == k + "}" + post;
    MatchKeyExact(k, post, d);
    assert t[|k| + 2..] == post;
  }

  /** A `{k}` followed by brace-free text: only the placeholder changes. */
  lemma SubKeysTail(k: string, post: string, d: Fields)
    requires '{' !in post && '}' !in k && HasKey(d, k)
    requires CloseFreeKeys(d)
    ensures SubKeys("{" + k + "}" + post, d) == PyStr(Get(d, k).value) + post
  {
    SubKeysAtKey(k, post, d);
    SubKeysSkip(post, [], d);
    assert post + [] == post;
  }

  /** In a text with one `{k}`, `k` a key, exactly that placeholder is replaced by the key's value. */
  lemma SubKeysOne(pre: string, k: string, post: string, d: Fields)
    requires '{' !in pre && '{' !in post && '}' !in k && HasKey(d, k)
    requires CloseFreeKeys(d)
    ensures SubKeys(pre + ("{" + k + "}" + post), d) == pre + (PyStr(Get(d, k).value) + post)
  {
    SubKeysSkip(pre, "{" + k + "}" + post, d);
    SubKeysTail(k, post, d);
  }

  // ---- map_path_params ----

  const LPR := "{lpr}"
  const GRACE_PERIOD := "{gracePeriod}"

  /** An optional value as the source's `str(...)` of it: None when it is missing. */
  function OptText(v: Option<string>): Json { if v.Some? then JStr(v.value) else JNull }

  function OptNum(v: Option<int>): Json { if v.Some? then JNum(v.value) else JNull }

  /** map_path_params: `{lpr}` becomes the plate, then `{gracePeriod}` the lot's grace period. */
  function MapPathParams(url: string, plate: Option<string>, gracePeriod: Option<int>): (r: string)
    ensures !Contains(url, LPR) && !Contains(url, GRACE_PERIOD) ==> r == url
  {
    ReplaceAbsentWhen(url, LPR, PyStr(OptText(plate)));
    ReplaceAbsentWhen(url, GRACE_PERIOD, PyStr(OptNum(gracePeriod)));
    ReplaceAll(ReplaceAll(url, LPR, PyStr(OptText(plate))), GRACE_PERIOD, PyStr(OptNum(gracePeriod)))
  }

  /** `{gracePeriod}...` does not hold `{lpr}` when no brace follows. */
  lemma GraceHasNoLpr(post: string)
    requires '{' !in post
    ensures !Contains(GRACE_PERIOD + post, LPR)
  {
    var t := GRACE_PERIOD + post;
    assert t[1] == 'g' && LPR[1] == 'l';
    assert !(LPR <= t);
    assert t[1..] == GRACE_PERIOD[1..] + post;
    assert '{' !in GRACE_PERIOD[1..];
    NotContainsHead(t[1..], LPR);
  }

  /** The first replacement: the one `{lpr}` becomes the plate, the rest is kept. */
  lemma LprReplaced(pre: string, mid: string, post: string, p: string)
    requires '{' !in pre && '{' !in mid && '{' !in post
    ensures ReplaceAll(pre + (LPR + (mid + (GRACE_PERIOD + post))), LPR, p) == pre + (p + (mid + (GRACE_PERIOD + post)))
  {
    ReplaceSkipsPrefix(pre, LPR + (mid + (GRACE_PERIOD + post)), LPR, p);
    ReplaceLeading(LPR, mid + (GRACE_PERIOD + post), p);
    ReplaceSkipsPrefix(mid, GRACE_PERIOD + post, LPR, p);
    GraceHasNoLpr(post);
    ReplaceAbsent(GRACE_PERIOD + post, LPR, p);
  }

  /** A url `pre{lpr}mid{gracePeriod}post` gets the plate and the grace period in those two places. */
  lemma MapPathParamsFills(pre: string, mid: string, post: string, plate: Option<string>, gracePeriod: Option<int>)
    requires '{' !in pre && '{' !in mid && '{' !in post
    requires '{' !in PyStr(OptText(plate))
    ensures MapPathParams(pre + LPR + mid + GRACE_PERIOD + post, plate, gracePeriod) ==
            pre + PyStr(OptText(plate)) + mid + PyStr(OptNum(gracePeriod)) + post
  {
    var p := PyStr(OptText(plate));
    var g := PyStr(OptNum(gracePeriod));
    LprReplaced(pre, mid, post, p);
    assert pre + LPR + mid + GRACE_PERIOD + post == pre + (LPR + (mid + (GRACE_PERIOD + post)));
    assert pre + (p + (mid + (GRACE_PERIOD + post))) == (pre + p + mid) + GRACE_PERIOD + post;
    ReplaceOnce(pre + p + mid, GRACE_PERIOD, post, g);
  }

  /** A url with neither placeholder comes back unchanged. */
  lemma MapPathParamsUntouched(url: string, plate: Option<string>, gracePeriod: Option<int>)
    requires !Contains(url, LPR) && !Contains(url, GRACE_PERIOD)
    ensures MapPathParams(url, plate, gracePeriod) == url
  {
    ReplaceAbsent(url, LPR, PyStr(OptText(plate)));
    ReplaceAbsent(url, GRACE_PERIOD, PyStr(OptNum(gracePeriod)));
  }

  // ---- get_nested_values ----

  /** The walk along `keys` without original_value: a missing step gives None and ends the walk. */
  function PathWalk(v: Json, keys: seq<string>): Json
    decreases |keys|
  {
    if keys == [] then v
    else
      var w := SchemaMapping.Member(v, keys[0]);
      if w == JNull then JNull else PathWalk(w, keys[1..])
  }

  /** The value a dotted path names inside an object. */
  function PathValue(obj: Json, path: string): Json
  {
    PathWalk(obj, Split(path, '.'))
  }

  /** The inner loop of get_nested_values for one path. */
  method LookupPath(obj: Json, path: string) returns (value: Json)
    ensures value == PathValue(obj, path)
  {
    var keys := Split(path, '.');
    value := obj;
    var i := 0;
    while i < |keys|
      invariant 0 <= i <= |keys|
      invariant PathWalk(value, keys[i..]) == PathValue(obj, path)
    {
      assert keys[i..][1..] == keys[i + 1..];
      value := SchemaMapping.Member(value, keys[i]);
      i := i + 1;
      if value == JNull {
        return;
      }
    }
  }

  /**
   * get_nested_values: every entry of `keyPaths` whose value is a path text
   * is overwritten, in place, with what the path names inside `obj`; other
   * entries are left alone.
   */
  method GetNestedValues(obj: Json, keyPaths: Fields) returns (out: Fields)
    ensures |out| == |keyPaths|
    ensures forall i :: 0 <= i < |out| ==> out[i].0 == keyPaths[i].0
    ensures forall i :: 0 <= i < |out| && !keyPaths[i].1.JStr? ==> out[i].1 == keyPaths[i].1
    ensures forall i :: 0 <= i < |out| && keyPaths[i].1.JStr? ==> out[i].1 == PathValue(obj, keyPaths[i].1.s)
  {
    out := keyPaths;
    var i := 0;
    while i < |out|
      invariant 0 <= i <= |out| == |keyPaths|
      invariant forall j :: 0 <= j < |out| ==> out[j].0 == keyPaths[j].0
      invariant forall j :: i <= j < |out| ==> out[j].1 == keyPaths[j].1
      invariant forall j :: 0 <= j < i && !keyPaths[j].1.JStr? ==> out[j].1 == keyPaths[j].1
      invariant forall j :: 0 <= j < i && keyPaths[j].1.JStr? ==> out[j].1 == PathValue(obj, keyPaths[j].1.s)
    {
      if out[i].1.JStr? {
        var value := LookupPath(obj, out[i].1.s);
        out := out[i := (out[i].0, value)];
      }
      i := i + 1;
    }
  }

  /** A path walks its first segment, then the rest inside what that segment found, unless it found None. */
  lemma PathValueFirstSegment(obj: Json, a: string, b: string)
    requires '.' !in a
    ensures PathValue(obj, a + "." + b) ==
            (var w := SchemaMapping.Member(obj, a); if w == JNull then JNull else PathWalk(w, Split(b, '.')))
  {
    assert a + "." + b == a + ['.'] + b;
    SplitAtFirst(a, b, '.');
    assert Split(a + "." + b, '.')[1..] == Split(b, '.');
  }

  /** A step that finds nothing makes the whole path None, wherever it is. */
  lemma {:induction false} MissingStepGivesNone(v: Json, before: seq<string>, k: string, after: seq<string>)
    requires PathWalk(v, before) != JNull
    requires SchemaMapping.Member(PathWalk(v, before), k) == JNull
    ensures PathWalk(v, before + [k] + after) == JNull
    decreases |before|
  {
    if before == [] {
      assert before + [k] + after == [k] + after;
    } else {
      assert (before + [k] + after)[1..] == before[1..] + [k] + after;
      MissingStepGivesNone(SchemaMapping.Member(v, before[0]), before[1..], k, after);
    }
  }

  // ---- make_request_data ----

  const POST := "POST"

  /** What `'x' in c` raises on a number, a bool or None. */
  const NOT_ITERABLE := "argument is not iterable"

  /** What `c['x']` raises on anything but a dict. */
  const NOT_SUBSCRIPTABLE := "string indices must be integers"

  /** What `c['x']` raises on a dict without `x`. */
  const MISSING_KEY := "KeyError"

  /** What adding a non-text value to the url text raises. */
  const NOT_CONCATENABLE := "can only concatenate str to str"

  /** A body key that is a list or a dict. */
  const UNHASHABLE_KEY := "unhashable type"

  /** What `dict.update` raises when given something that is not a dict. */
  const NOT_A_DICT := "cannot convert dictionary update sequence element"

  /** Python's `k in c`: a dict tests its keys, a list its items, a text its substrings. */
  function PyIn(k: string, c: Json): Result<bool>
  {
    match c
    case JObj(f) => Ok(HasKey(f, k))
    case JArr(items) => Ok(JStr(k) in items)
    case JStr(s) => Ok(Contains(s, k))
    case _ => Err(NOT_ITERABLE)
  }

  /** Python's `c[k]` with a text key. */
  function PyIndex(c: Json, k: string): Result<Json>
  {
    if !c.JObj? then Err(NOT_SUBSCRIPTABLE)
    else if HasKey(c.fields, k) then Ok(Get(c.fields, k).value)
    else Err(MISSING_KEY)
  }

  /** The record make_request_data returns. */
  datatype RequestData = RequestData(verb: Json, url: string, body: Fields, headers: Fields)

  /** The method as written: read from the request only when the TOP-LEVEL schema has a `method` key. */
  function MethodAsWritten(schema: Fields, request: Json): Result<Json>
  {
    if HasKey(schema, "method") then PyIndex(request, "method") else Ok(JStr(POST))
  }

  /** The method as intended: read from the request when the request has a `method` key. */
  function MethodOfRequest(request: Json): Result<Json>
  {
    match PyIn("method", request)
    case Err(e) => Err(e)
    case Ok(has) => if has then PyIndex(request, "method") else Ok(JStr(POST))
  }

  /** The headers: the request's `headers` dict merged into an empty one. */
  function HeadersOf(request: Json): Result<Fields>
  {
    match PyIn("headers", request)
    case Err(e) => Err(e)
    case Ok(has) =>
      if !has then Ok([])
      else
        match PyIndex(request, "headers")
        case Err(e) => Err(e)
        case Ok(h) => if h.JObj? then Ok(Update([], h.fields)) else Err(NOT_A_DICT)
  }

  /** What `for x in c` visits: the items of a list, the keys of a dict, the characters of a text. */
  function Iterated(c: Json): Result<seq<Json>>
  {
    match c
    case JArr(items) => Ok(items)
    case JObj(f) => Ok(seq(|f|, i requires 0 <= i < |f| => JStr(f[i].0)))
    case JStr(s) => Ok(seq(|s|, i requires 0 <= i < |s| => JStr([s[i]])))
    case _ => Err(NOT_ITERABLE)
  }

  /**
   * One body entry: its `value` passed through original_value under its
   * `key`, then stored under that key.
   */
  function BodyStep(body: Fields, item: Json, decrypt: string -> string): Result<Fields>
  {
    match PyIndex(item, "key")
    case Err(e) => Err(e)
    case Ok(key) =>
      match PyIndex(item, "value")
      case Err(e) => Err(e)
      case Ok(value) =>
        if !key.JStr? then Err(UNHASHABLE_KEY)
        else Ok(Set(body, key.s, SchemaMapping.OriginalValue(key.s, value, decrypt)))
  }

  /** The body loop over `items`, from the body built so far. */
  function BodyFold(body: Fields, items: seq<Json>, decrypt: string -> string): Result<Fields>
    decreases |items|
  {
    if items == [] then Ok(body)
    else
      match BodyStep(body, items[0], decrypt)
      case Err(e) => Err(e)
      case Ok(b) => BodyFold(b, items[1..], decrypt)
  }

  /** The body: every entry of the request's `body`, in order. */
  function BodyOf(request: Json, decrypt: string -> string): Result<Fields>
  {
    match PyIn("body", request)
    case Err(e) => Err(e)
    case Ok(has) =>
      if !has then Ok([])
      else
        match PyIndex(request, "body")
        case Err(e) => Err(e)
        case Ok(b) =>
          match Iterated(b)
          case Err(e) => Err(e)
          case Ok(items) => BodyFold([], items, decrypt)
  }

  /** One optional part of the url: the text `k` names in `u`, or nothing when `u` has no `k`. */
  function UrlPart(u: Json, k: string, asText: bool): Result<string>
  {
    match PyIn(k, u)
    case Err(e) => Err(e)
    case Ok(has) =>
      if !has then Ok("")
      else
        match PyIndex(u, k)
        case Err(e) => Err(e)
        case Ok(v) =>
          if asText then Ok("/" + PyStr(v))
          else if v.JStr? then Ok(v.s)
          else Err(NOT_CONCATENABLE)
  }

  /** The url: host, then `/` and the tenant id, then the path, each when the request's `url` has it. */
  function UrlOf(request: Json): Result<string>
  {
    match PyIn("url", request)
    case Err(e) => Err(e)
    case Ok(has) =>
      if !has then Ok("")
      else
        match PyIndex(request, "url")
        case Err(e) => Err(e)
        case Ok(u) =>
          match UrlPart(u, "host", false)
          case Err(e) => Err(e)
          case Ok(host) =>
            match UrlPart(u, "tenant_id", true)
            case Err(e) => Err(e)
            case Ok(tenant) =>
              match UrlPart(u, "path", false)
              case Err(e) => Err(e)
              case Ok(path) => Ok(host + tenant + path)
  }

  /** The four parts in the order the source computes them; the first failure wins. */
  function Assemble(verb: Result<Json>, headers: Result<Fields>, body: Result<Fields>, url: Result<string>)
    : Result<RequestData>
  {
    if verb.Err? then Err(verb.msg)
    else if headers.Err? then Err(headers.msg)
    else if body.Err? then Err(body.msg)
    else if url.Err? then Err(url.msg)
    else Ok(RequestData(verb.value, url.value, body.value, headers.value))
  }

  /** make_request_data as written. */
  function RequestDataOf(schema: Fields, decrypt: string -> string): Result<RequestData>
  {
    match Get(schema, "request")
    case None => Ok(RequestData(JStr(POST), "", [], []))
    case Some(request) =>
      Assemble(MethodAsWritten(schema, request), HeadersOf(request), BodyOf(request, decrypt), UrlOf(request))
  }

  /** make_request_data with the method read from the request itself. */
  function RequestDataCorrected(schema: Fields, decrypt: string -> string): (r: Result<RequestData>)
    ensures Get(schema, "request").None? ==> r == Ok(RequestData(JStr(POST), "", [], []))
    ensures RequestDataOf(schema, decrypt).Ok? && r.Ok? ==>
              RequestDataOf(schema, decrypt).value.(verb := r.value.verb) == r.value
    ensures (!HasKey(schema, "method") && Get(schema, "request").Some? && Get(schema, "request").value.JObj? &&
             !HasKey(Get(schema, "request").value.fields, "method")) ==> r == RequestDataOf(schema, decrypt)
  {
    match Get(schema, "request")
    case None => Ok(RequestData(JStr(POST), "", [], []))
    case Some(request) =>
      Assemble(MethodOfRequest(request), HeadersOf(request), BodyOf(request, decrypt), UrlOf(request))
  }

  /** The body loop of make_request_data. */
  method BuildBody(items: seq<Json>, decrypt: string -> string) returns (r: Result<Fields>)
    ensures r == BodyFold([], items, decrypt)
  {
    var body: Fields := [];
    var i := 0;
    while i < |items|
      invariant 0 <= i <= |items|
      invariant BodyFold(body, items[i..], decrypt) == BodyFold([], items, decrypt)
    {
      assert items[i..][1..] == items[i + 1..];
      var step := BodyStep(body, items[i], decrypt);
      if step.Err? {
        return Err(step.msg);
      }
      body := step.value;
      i := i + 1;
    }
    return Ok(body);
  }

  /** make_request_data: verb, headers, body and url, each filled in when the request has it. */
  method MakeRequestData(schema: Fields, decrypt: string -> string) returns (r: Result<RequestData>)
    ensures r == RequestDataOf(schema, decrypt)
  {
    var verb := JStr(POST);
    var header: Fields := [];
    var body: Fields := [];
    var url := "";
    if !HasKey(schema, "request") {
      return Ok(RequestData(verb, url, body, header));
    }
    var request := Get(schema, "request").value;
    if HasKey(schema, "method") {
      var m := PyIndex(request, "method");
      if m.Err? {
        return Err(m.msg);
      }
      verb := m.value;
    }
    var headers := HeadersOf(request);
    if headers.Err? {
      return Err(headers.msg);
    }
    header := headers.value;
    var hasBody := PyIn("body", request);
    if hasBody.Err? {
      return Err(hasBody.msg);
    }
    if hasBody.value {
      var b := PyIndex(request, "body");
      if b.Err? {
        return Err(b.msg);
      }
      var items := Iterated(b.value);
      if items.Err? {
        return Err(items.msg);
      }
      var built := BuildBody(items.value, decrypt);
      if built.Err? {
        return Err(built.msg);
      }
      body := built.value;
    }
    var u := UrlOf(request);
    if u.Err? {
      return Err(u.msg);
    }
    url := u.value;
    r := Ok(RequestData(verb, url, body, header));
  }

  /** Without a `method` in the request the method is POST, as written and as intended. */
  lemma DefaultMethodPost(schema: Fields, decrypt: string -> string)
    requires HasKey(schema, "request") && Get(schema, "request").value.JObj?
    requires !HasKey(Get(schema, "request").value.fields, "method")
    requires RequestDataCorrected(schema, decrypt).Ok?
    ensures RequestDataCorrected(schema, decrypt).value.verb == JStr(POST)
    ensures RequestDataOf(schema, decrypt).Ok? && !HasKey(schema, "method") ==>
              RequestDataOf(schema, decrypt).value.verb == JStr(POST)
  {
  }

  /** As intended, a request's own `method` is the verb. */
  lemma MethodFromRequest(schema: Fields, decrypt: string -> string)
    requires HasKey(schema, "request") && Get(schema, "request").value.JObj?
    requires HasKey(Get(schema, "request").value.fields, "method")
    requires RequestDataCorrected(schema, decrypt).Ok?
    ensures RequestDataCorrected(schema, decrypt).value.verb == Get(Get(schema, "request").value.fields, "method").value
  {
  }

  /** As written, a request's own `method` is ignored when the top-level schema has none. */
  lemma MethodIgnoredAsWritten(decrypt: string -> string)
    ensures var schema := [("request", JObj([("method", JStr("GET"))]))];
            RequestDataOf(schema, decrypt) == Ok(RequestData(JStr(POST), "", [], [])) &&
            RequestDataCorrected(schema, decrypt) == Ok(RequestData(JStr("GET"), "", [], []))
  {
    var request := JObj([("method", JStr("GET"))]);
    var schema := [("request", request)];
    assert Get(schema, "request") == Some(request);
    assert !HasKey(schema, "method");
    assert !Contains("GET", "headers") by { NotContainsHead("GET", "headers"); }
    assert PyIn("headers", request) == Ok(false);
    assert PyIn("body", request) == Ok(false);
    assert PyIn("url", request) == Ok(false);
    assert PyIn("method", request) == Ok(true);
  }

  /** A url block with host, tenant id and path gives `host/tenant_id` followed by the path. */
  lemma UrlJoined(request: Json, host: string, tenant: Json, path: string)
    requires request.JObj? && HasKey(request.fields, "url")
    requires var u := Get(request.fields, "url").value;
             u.JObj? && Get(u.fields, "host") == Some(JStr(host)) && Get(u.fields, "tenant_id") == Some(tenant) &&
             Get(u.fields, "path") == Some(JStr(path))
    ensures UrlOf(request) == Ok(host + "/" + PyStr(tenant) + path)
  {
    var u := Get(request.fields, "url").value;
    assert PyIndex(request, "url") == Ok(u);
    assert UrlPart(u, "host", false) == Ok(host);
    assert UrlPart(u, "tenant_id", true) == Ok("/" + PyStr(tenant));
    assert UrlPart(u, "path", false) == Ok(path);
    assert PyIn("url", request) == Ok(true);
    assert host + ("/" + PyStr(tenant)) + path == host + "/" + PyStr(tenant) + path;
  }

  /** A request without a url block gives the empty url. */
  lemma NoUrlBlock(request: Json)
    requires request.JObj? && !HasKey(request.fields, "url")
    ensures UrlOf(request) == Ok("")
  {
  }

  /** The body loop over two parts is the loop over the second from where the first left off. */
  lemma {:induction false} BodyFoldAppend(body: Fields, items: seq<Json>, more: seq<Json>, decrypt: string -> string)
    ensures BodyFold(body, items + more, decrypt) ==
            (match BodyFold(body, items, decrypt) case Err(e) => Err(e) case Ok(b) => BodyFold(b, more, decrypt))
    decreases |items|
  {
    if items == [] {
      assert items + more == more;
    } else {
      assert (items + more)[0] == items[0] && (items + more)[1..] == items[1..] + more;
      if BodyStep(body, items[0], decrypt).Ok? {
        BodyFoldAppend(BodyStep(body, items[0], decrypt).value, items[1..], more, decrypt);
      }
    }
  }

  /** The last entry for a key decides its body value, passed through original_value. */
  lemma BodyLastEntryWins(items: seq<Json>, item: Json, key: string, value: Json, decrypt: string -> string)
    requires BodyFold([], items, decrypt).Ok?
    requires PyIndex(item, "key") == Ok(JStr(key)) && PyIndex(item, "value") == Ok(value)
    ensures BodyFold([], items + [item], decrypt).Ok?
    ensures Get(BodyFold([], items + [item], decrypt).value, key) ==
            Some(SchemaMapping.OriginalValue(key, value, decrypt))
  {
    BodyFoldAppend([], items, [item], decrypt);
    var b := BodyFold([], items, decrypt).value;
    assert [item][1..] == [];
    SetGet(b, key, SchemaMapping.OriginalValue(key, value, decrypt));
  }

  /** Keys no body entry names keep what the body held. */
  lemma {:induction false} BodyKeepsOtherKeys(body: Fields, items: seq<Json>, k: string, decrypt: string -> string)
    requires BodyFold(body, items, decrypt).Ok?
    requires forall i :: 0 <= i < |items| ==> PyIndex(items[i], "key") != Ok(JStr(k))
    ensures Get(BodyFold(body, items, decrypt).value, k) == Get(body, k)
    decreases |items|
  {
    if items != [] {
      var key := PyIndex(items[0], "key").value;
      var b := BodyStep(body, items[0], decrypt).value;
      SetGet(body, key.s, SchemaMapping.OriginalValue(key.s, PyIndex(items[0], "value").value, decrypt));
      assert key != JStr(k);
      assert Get(b, k) == Get(body, k);
      forall i | 0 <= i < |items[1..]| ensures PyIndex(items[1..][i], "key") != Ok(JStr(k)) {
        assert items[1..][i] == items[i + 1];
      }
      BodyKeepsOtherKeys(b, items[1..], k, decrypt);
    }
  }

  // ---- replace_json_values ----

  const CURRENT_TIMESTAMP := "current_timestamp"
  const LOCATION_ID := "location_id"

  /** What a read of the provider connection raises when it was never looked up. */
  const UNBOUND := "NameError: free variable 'provider_connect' referenced before assignment"

  /**
   * The provider connection: never looked up (no parking lot or no
   * credentials), looked up and missing, or found.
   */
  datatype ProviderConnect = Unbound | NotFound | Connect(facilityId: Json)

  /**
   * What the rewrite reads, each as the attributes it exposes (None when
   * the object is absent or exposes none): the task, the sub-task, the
   * session's payment violation, the provider credentials, the parking
   * lot and the alert body; then the clock's text and the connection.
   */
  datatype Lookups = Lookups(task: Option<Fields>, subTask: Option<Fields>, violation: Option<Fields>,
                             creds: Option<Fields>, lot: Option<Fields>, alertBody: Option<Fields>,
                             now: string, connect: ProviderConnect)

  /** The sources in the order they are asked. */
  function Sources(l: Lookups): seq<Option<Fields>>
  {
    [l.task, l.subTask, l.violation, l.creds, l.lot, l.alertBody]
  }

  predicate Holds(src: Option<Fields>, name: string)
  {
    src.Some? && HasKey(src.value, name)
  }

  /** The value of the first source that has `name`. */
  function FirstHit(srcs: seq<Option<Fields>>, name: string): (r: Option<Json>)
    ensures r.None? <==> forall i :: 0 <= i < |srcs| ==> !Holds(srcs[i], name)
    ensures r.Some? ==> exists i :: 0 <= i < |srcs| && Holds(srcs[i], name) && r == Get(srcs[i].value, name)
    decreases |srcs|
  {
    if srcs == [] then None
    else if Holds(srcs[0], name) then Get(srcs[0].value, name)
    else
      var r := FirstHit(srcs[1..], name);
      assert forall i :: 1 <= i < |srcs| ==> srcs[i] == srcs[1..][i - 1];
      r
  }

  /** The earliest source holding a name decides its value. */
  lemma {:induction false} FirstHitEarliest(srcs: seq<Option<Fields>>, name: string, k: nat)
    requires k < |srcs| && Holds(srcs[k], name)
    requires forall i :: 0 <= i < k ==> !Holds(srcs[i], name)
    ensures FirstHit(srcs, name) == Get(srcs[k].value, name)
    decreases k
  {
    if k > 0 {
      assert !Holds(srcs[0], name);
      assert srcs[1..][k - 1] == srcs[k];
      forall i | 0 <= i < k - 1 ensures !Holds(srcs[1..][i], name) {
        assert srcs[1..][i] == srcs[i + 1];
      }
      FirstHitEarliest(srcs[1..], name, k - 1);
    }
  }

  /** The new value of one dict entry; nested dicts and lists are rewritten themselves. */
  function RewriteEntry(p: (string, Json), l: Lookups): Result<Json>
    decreases p, 1
  {
    var value := p.1;
    if value == JStr(CURRENT_TIMESTAMP) then Ok(JStr(l.now))
    else if value == JStr(LOCATION_ID) then
      match l.connect
      case Unbound => Err(UNBOUND)
      case NotFound => Ok(value)
      case Connect(f) => Ok(f)
    else if value.JStr? then Ok(FirstHit(Sources(l), value.s).GetOr(value))
    else if value.JObj? || value.JArr? then Rewrite(value, l)
    else Ok(value)
  }

  /** A value after the rewrite; text and scalars standing alone (or in a list) are left alone. */
  function Rewrite(j: Json, l: Lookups): Result<Json>
    decreases j, 0
  {
    match j
    case JObj(fs) =>
      (match RewriteFields([], fs, l)
       case Err(e) => Err(e)
       case Ok(out) => Ok(JObj(out)))
    case JArr(items) =>
      (match RewriteItems([], items, l)
       case Err(e) => Err(e)
       case Ok(out) => Ok(JArr(out)))
    case _ => Ok(j)
  }

  /** The dict loop: `done` rewritten, `rest` still to go; each entry keeps its key. */
  function RewriteFields(done: Fields, rest: Fields, l: Lookups): Result<Fields>
    decreases rest, 2
  {
    if rest == [] then Ok(done)
    else
      match RewriteEntry(rest[0], l)
      case Err(e) => Err(e)
      case Ok(v) => RewriteFields(done + [(rest[0].0, v)], rest[1..], l)
  }

  /** The list loop: each item rewritten on its own. */
  function RewriteItems(done: seq<Json>, rest: seq<Json>, l: Lookups): Result<seq<Json>>
    decreases rest, 2
  {
    if rest == [] then Ok(done)
    else
      match Rewrite(rest[0], l)
      case Err(e) => Err(e)
      case Ok(v) => RewriteItems(done + [v], rest[1..], l)
  }

  /** replace_json_values: a schema that does not parse comes back as its own text. */
  function ReplacedSchema(schema: string, parsed: Option<Json>, l: Lookups): Result<Json>
  {
    match parsed
    case None => Ok(JStr(schema))
    case Some(j) => Rewrite(j, l)
  }

  /** One entry of replace_values' dict loop. */
  method ReplaceValue(p: (string, Json), l: Lookups) returns (r: Result<Json>)
    ensures r == RewriteEntry(p, l)
    decreases p, 1
  {
    var value := p.1;
    if value == JStr(CURRENT_TIMESTAMP) {
      r := Ok(JStr(l.now));
    } else if value == JStr(LOCATION_ID) {
      if l.connect.Unbound? {
        return Err(UNBOUND);
      }
      r := if l.connect.Connect? then Ok(l.connect.facilityId) else Ok(value);
    } else if value.JStr? {
      r := Ok(value);
      var hit := FirstHit(Sources(l), value.s);
      if hit.Some? {
        r := Ok(hit.value);
      }
    } else if value.JObj? || value.JArr? {
      r := ReplaceValues(value, l);
    } else {
      r := Ok(value);
    }
  }

  /** replace_values: rewrites a dict's entries and a list's items, one at a time. */
  method ReplaceValues(j: Json, l: Lookups) returns (r: Result<Json>)
    ensures r == Rewrite(j, l)
    decreases j, 0
  {
    if j.JObj? {
      var fs := j.fields;
      var fields := fs;
      var i := 0;
      while i < |fields|
        invariant 0 <= i <= |fields| == |fs|
        invariant fields[i..] == fs[i..]
        invariant RewriteFields(fields[..i], fields[i..], l) == RewriteFields([], fs, l)
      {
        assert fields[i] == fs[i..][0] == fs[i];
        assert fields[i..][1..] == fields[i + 1..];
        var v := ReplaceValue(fields[i], l);
        if v.Err? {
          return Err(v.msg);
        }
        SchemaMapping.UpdateSplit(fields, i, (fields[i].0, v.value));
        fields := fields[i := (fields[i].0, v.value)];
        i := i + 1;
      }
      assert fields[..i] == fields;
      r := Ok(JObj(fields));
    } else if j.JArr? {
      var orig := j.items;
      var items := orig;
      var i := 0;
      while i < |items|
        invariant 0 <= i <= |items| == |orig|
        invariant items[i..] == orig[i..]
        invariant RewriteItems(items[..i], items[i..], l) == RewriteItems([], orig, l)
      {
        assert items[i] == orig[i..][0] == orig[i];
        assert items[i..][1..] == items[i + 1..];
        var v := ReplaceValues(items[i], l);
        if v.Err? {
          return Err(v.msg);
        }
        SchemaMapping.UpdateSplit(items, i, v.value);
        items := items[i := v.value];
        i := i + 1;
      }
      assert items[..i] == items;
      r := Ok(JArr(items));
    } else {
      r := Ok(j);
    }
  }

  /** replace_json_values: parse the schema, then rewrite it. */
  method ReplaceJsonValues(schema: string, parsed: Option<Json>, l: Lookups) returns (r: Result<Json>)
    ensures r == ReplacedSchema(schema, parsed, l)
  {
    if parsed.None? {
      return Ok(JStr(schema));
    }
    r := ReplaceValues(parsed.value, l);
  }

  // ---- properties of replace_json_values ----

  /** The dict loop keeps every key in its place and gives each the entry's new value. */
  lemma {:induction false} RewriteFieldsShape(done: Fields, rest: Fields, l: Lookups)
    requires RewriteFields(done, rest, l).Ok?
    ensures var out := RewriteFields(done, rest, l).value;
            |out| == |done| + |rest| && out[..|done|] == done &&
            forall i :: 0 <= i < |rest| ==>
              out[|done| + i].0 == rest[i].0 && RewriteEntry(rest[i], l) == Ok(out[|done| + i].1)
    decreases rest
  {
    if rest != [] {
      var v := RewriteEntry(rest[0], l).value;
      var done' := done + [(rest[0].0, v)];
      RewriteFieldsShape(done', rest[1..], l);
      var out := RewriteFields(done, rest, l).value;
      assert out[..|done|] == out[..|done'|][..|done|];
      assert out[|done|] == out[..|done'|][|done|];
      forall i | 0 <= i < |rest|
        ensures out[|done| + i].0 == rest[i].0 && RewriteEntry(rest[i], l) == Ok(out[|done| + i].1)
      {
        if i > 0 {
          assert rest[i] == rest[1..][i - 1];
        }
      }
    } else {
      assert done[..|done|] == done;
    }
  }

  /** The dict loop raises exactly when one of its entries does. */
  lemma {:induction false} RewriteFieldsRaises(done: Fields, rest: Fields, l: Lookups)
    ensures RewriteFields(done, rest, l).Err? <==> exists i :: 0 <= i < |rest| && RewriteEntry(rest[i], l).Err?
    decreases rest
  {
    if rest != [] {
      if RewriteEntry(rest[0], l).Ok? {
        RewriteFieldsRaises(done + [(rest[0].0, RewriteEntry(rest[0], l).value)], rest[1..], l);
        if exists i :: 0 <= i < |rest| && RewriteEntry(rest[i], l).Err? {
          var i :| 0 <= i < |rest| && RewriteEntry(rest[i], l).Err?;
          assert rest[1..][i - 1] == rest[i];
        }
        if exists i :: 0 <= i < |rest[1..]| && RewriteEntry(rest[1..][i], l).Err? {
          var i :| 0 <= i < |rest[1..]| && RewriteEntry(rest[1..][i], l).Err?;
          assert rest[i + 1] == rest[1..][i];
        }
      }
    }
  }

  /** The list loop keeps the length and rewrites each item on its own. */
  lemma {:induction false} RewriteItemsShape(done: seq<Json>, rest: seq<Json>, l: Lookups)
    requires RewriteItems(done, rest, l).Ok?
    ensures var out := RewriteItems(done, rest, l).value;
            |out| == |done| + |rest| && out[..|done|] == done &&
            forall i :: 0 <= i < |rest| ==> Rewrite(rest[i], l) == Ok(out[|done| + i])
    decreases rest
  {
    if rest != [] {
      var v := Rewrite(rest[0], l).value;
      var done' := done + [v];
      RewriteItemsShape(done', rest[1..], l);
      var out := RewriteItems(done, rest, l).value;
      assert out[..|done|] == out[..|done'|][..|done|];
      assert out[|done|] == out[..|done'|][|done|];
      forall i | 0 <= i < |rest| ensures Rewrite(rest[i], l) == Ok(out[|done| + i]) {
        if i > 0 {
          assert rest[i] == rest[1..][i - 1];
        }
      }
    } else {
      assert done[..|done|] == done;
    }
  }

  /**
   * A dict keeps its keys in place: a `current_timestamp` value becomes the
   * clock's text, a found `location_id` the facility id, another text the
   * first source's attribute of that name, and anything not nested stays.
   */
  lemma RewriteObject(fs: Fields, l: Lookups)
    requires Rewrite(JObj(fs), l).Ok?
    ensures var out := Rewrite(JObj(fs), l).value;
            out.JObj? && |out.fields| == |fs| &&
            forall i :: 0 <= i < |fs| ==>
              out.fields[i].0 == fs[i].0 &&
              (fs[i].1 == JStr(CURRENT_TIMESTAMP) ==> out.fields[i].1 == JStr(l.now)) &&
              (fs[i].1 == JStr(LOCATION_ID) && l.connect.Connect? ==> out.fields[i].1 == l.connect.facilityId) &&
              (fs[i].1 == JStr(LOCATION_ID) && l.connect.NotFound? ==> out.fields[i].1 == fs[i].1) &&
              (fs[i].1.JStr? && fs[i].1.s != CURRENT_TIMESTAMP && fs[i].1.s != LOCATION_ID ==>
                 out.fields[i].1 == FirstHit(Sources(l), fs[i].1.s).GetOr(fs[i].1)) &&
              (fs[i].1.JNum? || fs[i].1.JBool? || fs[i].1.JNull? ==> out.fields[i].1 == fs[i].1)
  {
    RewriteFieldsShape([], fs, l);
  }

  /** A `location_id` value without a looked-up connection makes the whole call raise. */
  lemma LocationIdUnboundRaises(fs: Fields, k: nat, l: Lookups)
    requires k < |fs| && fs[k].1 == JStr(LOCATION_ID) && l.connect.Unbound?
    ensures Rewrite(JObj(fs), l).Err?
  {
    assert RewriteEntry(fs[k], l).Err?;
    RewriteFieldsRaises([], fs, l);
  }

  /** The list loop raises exactly when one of its items does. */
  lemma {:induction false} RewriteItemsRaises(done: seq<Json>, rest: seq<Json>, l: Lookups)
    ensures RewriteItems(done, rest, l).Err? <==> exists i :: 0 <= i < |rest| && Rewrite(rest[i], l).Err?
    decreases rest
  {
    if rest != [] {
      if Rewrite(rest[0], l).Ok? {
        RewriteItemsRaises(done + [Rewrite(rest[0], l).value], rest[1..], l);
        if exists i :: 0 <= i < |rest| && Rewrite(rest[i], l).Err? {
          var i :| 0 <= i < |rest| && Rewrite(rest[i], l).Err?;
          assert rest[1..][i - 1] == rest[i];
        }
        if exists i :: 0 <= i < |rest[1..]| && Rewrite(rest[1..][i], l).Err? {
          var i :| 0 <= i < |rest[1..]| && Rewrite(rest[1..][i], l).Err?;
          assert rest[i + 1] == rest[1..][i];
        }
      }
    }
  }

  /** A list keeps its length; text items are never looked up, only nested dicts and lists change. */
  lemma RewriteList(items: seq<Json>, l: Lookups)
    requires Rewrite(JArr(items), l).Ok?
    ensures var out := Rewrite(JArr(items), l).value;
            out.JArr? && |out.items| == |items| &&
            forall i :: 0 <= i < |items| ==>
              (!items[i].JObj? && !items[i].JArr? ==> out.items[i] == items[i]) &&
              (items[i].JObj? || items[i].JArr? ==> Rewrite(items[i], l) == Ok(out.items[i]))
  {
    RewriteItemsShape([], items, l);
  }

  /** The task is asked first: a name the task has takes the task's value, whatever the others hold. */
  lemma TaskFirst(l: Lookups, name: string)
    requires Holds(l.task, name)
    ensures FirstHit(Sources(l), name) == Get(l.task.value, name)
  {
    FirstHitEarliest(Sources(l), name, 0);
  }

  /** The alert body is asked last: it decides only names no other source has. */
  lemma AlertBodyLast(l: Lookups, name: string)
    requires Holds(l.alertBody, name)
    requires !Holds(l.task, name) && !Holds(l.subTask, name) && !Holds(l.violation, name)
    requires !Holds(l.creds, name) && !Holds(l.lot, name)
    ensures FirstHit(Sources(l), name) == Get(l.alertBody.value, name)
  {
    FirstHitEarliest(Sources(l), name, 5);
  }
}
