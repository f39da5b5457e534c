/**
 * Placeholder substitution in the JSON templates sent to providers: every
 * `{model.attr}` inside a string value is replaced by that attribute of the
 * model found in a context, dicts are rewritten in place key by key, lists
 * item by item, and `{"type": "base64", "value": url}` leaves become the
 * image the url points at.
 */
module SchemaMapping {
  import opened Wrappers
  import opened Text
  import opened Json
  import opened Common

  /** The columns stored encrypted; reading them through a template decrypts them. */
  const SECRET_COLUMNS: seq<string> := ["access_token", "client_secret"]

  /** The string value that becomes today's date. */
  const CURRENT_UTC := "current_utc"

  /** The `type` of a leaf whose url is replaced by the image it points at. */
  const BASE64 := "base64"

  /** What the traversal lets escape: a base64 leaf without `value`. */
  const NO_VALUE_KEY := "KeyError: 'value'"

  /** A base64 leaf whose `value` is not a string. */
  const NOT_TEXT := "expected string or bytes-like object"

  /** A `key` entry that is a list or a dict, looked up in a requestDict. */
  const UNHASHABLE := "unhashable type"

  /** A requestDict entry that is not a string, taken as the text to rewrite. */
  const NO_REPLACE := "object has no attribute 'replace'"

  /** A context entry: an object whose attributes `hasattr`/`getattr` see, or a plain dict. */
  datatype Source = Obj(attrs: Fields) | Dict(attrs: Fields)

  /** The models a template may name, by name. */
  type Context = map<string, Source>

  /**
   * What the substitution depends on besides the template: the models, the
   * decryption of secret columns (which gives back its input when it fails),
   * today's date as text, and the image download (None when it fails).
   */
  datatype Env = Env(ctx: Context, decrypt: string -> string, today: string, fetch: string -> Option<string>)

  // ---- original_value ----

  /**
   * original_value: a secret column is decrypted, any other None becomes ''.
   * decrypt_encrypted_value gives back a non-text value unchanged.
   */
  function OriginalValue(key: string, v: Json, decrypt: string -> string): (r: Json)
    ensures key !in SECRET_COLUMNS ==> r != JNull && (v != JNull ==> r == v)
    ensures key in SECRET_COLUMNS ==> (v.JStr? ==> r == JStr(decrypt(v.s))) && (!v.JStr? ==> r == v)
  {
    if key in SECRET_COLUMNS then (if v.JStr? then JStr(decrypt(v.s)) else v)
    else if v == JNull then JStr("")
    else v
  }

  // ---- get_key_path_mapping_values ----

  /** One step of a key path: `value.get(key)` on a dict, `getattr(value, key, None)` otherwise. */
  function Member(v: Json, key: string): Json
  {
    if v.JObj? then Get(v.fields, key).GetOr(JNull) else JNull
  }

  /** The walk along `keys`, one segment at a time, stopping at the first None. */
  function Walk(v: Json, keys: seq<string>, decrypt: string -> string): Json
    decreases |keys|
  {
    if keys == [] then v
    else
      var w := OriginalValue(keys[0], Member(v, keys[0]), decrypt);
      if w == JNull then JNull else Walk(w, keys[1..], decrypt)
  }

  /** The value a dotted path names inside a model. */
  function KeyPath(src: Source, path: string, decrypt: string -> string): Json
  {
    Walk(JObj(src.attrs), Split(path, '.'), decrypt)
  }

  /** get_key_path_mapping_values */
  method GetKeyPathMappingValues(src: Source, path: string, decrypt: string -> string) returns (value: Json)
    ensures value == KeyPath(src, path, decrypt)
  {
    var keys := Split(path, '.');
    value := JObj(src.attrs);
    var i := 0;
    while i < |keys|
      invariant 0 <= i <= |keys|
      invariant Walk(value, keys[i..], decrypt) == KeyPath(src, path, decrypt)
    {
      assert keys[i..][1..] == keys[i + 1..];
      value := OriginalValue(keys[i], Member(value, keys[i]), decrypt);
      i := i + 1;
      if value == JNull {
        return;
      }
    }
  }

  /** Walking a path in two parts: the second part starts where the first stopped, unless it stopped at None. */
  lemma {:induction false} WalkAppend(v: Json, ks1: seq<string>, ks2: seq<string>, decrypt: string -> string)
    ensures Walk(v, ks1 + ks2, decrypt) ==
            (var w := Walk(v, ks1, decrypt); if ks1 != [] && w == JNull then JNull else Walk(w, ks2, decrypt))
    decreases |ks1|
  {
    if ks1 == [] {
      assert ks1 + ks2 == ks2;
    } else {
      assert (ks1 + ks2)[0] == ks1[0] && (ks1 + ks2)[1..] == ks1[1..] + ks2;
      var w := OriginalValue(ks1[0], Member(v, ks1[0]), decrypt);
      if w != JNull {
        WalkAppend(w, ks1[1..], ks2, decrypt);
      }
    }
  }

  /** `a.b` names, inside a model, what `b` names inside the value of its attribute `a`. */
  lemma KeyPathFirstSegment(src: Source, a: string, b: string, decrypt: string -> string)
    requires '.' !in a
    ensures KeyPath(src, a + "." + b, decrypt) ==
            (var w := OriginalValue(a, Get(src.attrs, a).GetOr(JNull), decrypt);
             if w == JNull then JNull else Walk(w, Split(b, '.'), decrypt))
  {
    assert a + "." + b == a + ['.'] + b;
    SplitAtFirst(a, b, '.');
    WalkAppend(JObj(src.attrs), [a], Split(b, '.'), decrypt);
    assert [a] + Split(b, '.') == Split(a + "." + b, '.');
  }

  /**
   * A segment that finds nothing yields '' rather than None, and so does
   * every non-secret segment after it: the path never ends in None.
   */
  lemma {:induction false} MissingSegmentGivesEmpty(v: Json, keys: seq<string>, decrypt: string -> string)
    requires keys != [] && forall k :: 0 <= k < |keys| ==> keys[k] !in SECRET_COLUMNS
    requires v.JObj? ==> !HasKey(v.fields, keys[0])
    ensures Walk(v, keys, decrypt) == JStr("")
    decreases |keys|
  {
    assert Member(v, keys[0]) == JNull;
    if |keys| > 1 {
      MissingSegmentGivesEmpty(JStr(""), keys[1..], decrypt);
    }
  }

  // ---- placeholders ----

  predicate IsBrace(c: char) { c == '{' || c == '}' }

  /** The first brace at or after position `i`, or `|s|` when there is none. */
  function NextBrace(s: string, i: nat): (j: nat)
    requires i <= |s|
    ensures i <= j <= |s|
    ensures j < |s| ==> IsBrace(s[j])
    decreases |s| - i
  {
    if i == |s| || IsBrace(s[i]) then i else NextBrace(s, i + 1)
  }

  /**
   * `re.findall(r'\{([^{}]*)}', s)`: a `{` opens a placeholder exactly when
   * the next brace after it is a `}`; the search goes on after that `}`.
   */
  function Placeholders(s: string): seq<string>
    decreases |s|
  {
    if s == [] then []
    else if s[0] != '{' then Placeholders(s[1..])
    else
      var j := NextBrace(s, 1);
      if j < |s| && s[j] == '}' then [s[1..j]] + Placeholders(s[j + 1..])
      else Placeholders(s[1..])
  }

  lemma {:induction false} NextBraceAt(s: string, i: nat, j: nat)
    requires i <= j < |s| && IsBrace(s[j])
    requires forall k :: i <= k < j ==> !IsBrace(s[k])
    ensures NextBrace(s, i) == j
    decreases j - i
  {
    if i < j {
      NextBraceAt(s, i + 1, j);
    }
  }

  /** Text without an opening brace holds no placeholder, wherever it stands. */
  lemma {:induction false} PlaceholdersSkip(pre: string, s: string)
    requires '{' !in pre
    ensures Placeholders(pre + s) == Placeholders(s)
    decreases |pre|
  {
    if pre != [] {
      assert pre[0] in pre;
      var t := pre + s;
      assert t[0] == pre[0] && t[1..] == pre[1..] + s;
      assert Placeholders(t) == Placeholders(t[1..]);
      PlaceholdersSkip(pre[1..], s);
    } else {
      assert pre + s == s;
    }
  }

  /** A `{name}` with no brace inside is a placeholder. */
  lemma PlaceholderFirst(ph: string, post: string)
    requires '{' !in ph && '}' !in ph
    ensures Placeholders("{" + ph + "}" + post) == [ph] + Placeholders(post)
  {
    var s := "{" + ph + "}" + post;
    assert s[|ph| + 1] == '}';
    forall k | 1 <= k < |ph| + 1 ensures !IsBrace(s[k]) {
      assert s[k] == ph[k - 1];
    }
    NextBraceAt(s, 1, |ph| + 1);
    assert s[1..|ph| + 1] == ph;
    assert s[|ph| + 2..] == post;
  }

  /** The placeholders of a template with exactly one `{name}` in it. */
  lemma PlaceholdersOfTemplate(pre: string, ph: string, post: string)
    requires '{' !in pre && '{' !in ph && '}' !in ph && '{' !in post
    ensures Placeholders(pre + "{" + ph + "}" + post) == [ph]
  {
    assert pre + "{" + ph + "}" + post == pre + ("{" + ph + "}" + post);
    PlaceholdersSkip(pre, "{" + ph + "}" + post);
    PlaceholderFirst(ph, post);
    PlaceholdersSkip(post, []);
    assert post + [] == post;
  }

  // ---- resolve_placeholder ----

  /** The text being rewritten and the value `json_obj[key]` holds so far. */
  datatype Resolved = Resolved(val: string, entry: Json)

  /** The dict as the nested helper sees it: the keys already done, this key's current value, the keys still to do. */
  function Current(done: Fields, key: string, entry: Json, rest: Fields): Fields
  {
    done + [(key, entry)] + rest
  }

  predicate HasAttr(src: Source, attr: string)
  {
    src.Obj? && HasKey(src.attrs, attr)
  }

  /** A placeholder that names a model of the context. */
  predicate Known(ph: string, ctx: Context)
  {
    var m := SplitFirstDot(ph);
    m.Pair? && m.head in ctx
  }

  /**
   * When the attribute is a dict with a dict `requestDict` holding
   * `json_obj.get("key", "")`, the entry found there. Looking up a list or a
   * dict raises.
   */
  function RequestDictValue(data: Json, keyEntry: Json): Result<Option<Json>>
  {
    if !data.JObj? then Ok(None)
    else
      var rd := Get(data.fields, "requestDict").GetOr(JObj([]));
      if !rd.JObj? then Ok(None)
      else if keyEntry.JArr? || keyEntry.JObj? then Err(UNHASHABLE)
      else if keyEntry.JStr? && HasKey(rd.fields, keyEntry.s) then Ok(Get(rd.fields, keyEntry.s))
      else Ok(None)
  }

  /** `val.replace("{ph}", str(data))`, and `json_obj[key]` becomes that text, or `data` when it is empty. */
  function Replaced(val: string, ph: string, data: Json): Resolved
  {
    var v := ReplaceAll(val, "{" + ph + "}", PyStr(data));
    Resolved(v, if v != "" then JStr(v) else data)
  }

  /** The value a placeholder stands for when its model is an object with that attribute. */
  function AttrValue(model: string, attr: string, env: Env): Json
    requires model in env.ctx && HasAttr(env.ctx[model], attr)
  {
    OriginalValue(attr, Get(env.ctx[model].attrs, attr).value, env.decrypt)
  }

  /** One placeholder of resolve_placeholder. */
  function ResolveStep(r: Resolved, ph: string, done: Fields, key: string, rest: Fields, env: Env): Result<Resolved>
  {
    match SplitFirstDot(ph)
    case Whole(_) => Ok(r)
    case Pair(model, attr) =>
      if model !in env.ctx then Ok(r)
      else if HasAttr(env.ctx[model], attr) then
        var data := AttrValue(model, attr, env);
        match RequestDictValue(data, Get(Current(done, key, r.entry, rest), "key").GetOr(JStr("")))
        case Err(e) => Err(e)
        case Ok(None) => Ok(Replaced(r.val, ph, data))
        case Ok(Some(v)) => if v.JStr? then Ok(Replaced(v.s, ph, data)) else Err(NO_REPLACE)
      else if '.' in attr then Ok(Replaced(r.val, ph, KeyPath(env.ctx[model], attr, env.decrypt)))
      else Ok(r)
  }

  /** resolve_placeholder over a list of placeholders, first to last. */
  function ResolveAll(phs: seq<string>, r: Resolved, done: Fields, key: string, rest: Fields, env: Env): Result<Resolved>
    decreases |phs|
  {
    if phs == [] then Ok(r)
    else
      match ResolveStep(r, phs[0], done, key, rest, env)
      case Err(e) => Err(e)
      case Ok(r') => ResolveAll(phs[1..], r', done, key, rest, env)
  }

  /** The body of resolve_placeholder's loop for one placeholder. */
  method ResolveOne(r: Resolved, ph: string, done: Fields, key: string, rest: Fields, env: Env)
    returns (next: Result<Resolved>)
    ensures next == ResolveStep(r, ph, done, key, rest, env)
  {
    var model := SplitFirstDot(ph);
    if model.Whole? || model.head !in env.ctx {
      return Ok(r);
    }
    var src := env.ctx[model.head];
    var attr := model.tail;
    if HasAttr(src, attr) {
      var data := AttrValue(model.head, attr, env);
      var val := r.val;
      var found := RequestDictValue(data, Get(Current(done, key, r.entry, rest), "key").GetOr(JStr("")));
      if found.Err? {
        return Err(found.msg);
      }
      if found.value.Some? {
        if !found.value.value.JStr? {
          return Err(NO_REPLACE);
        }
        val := found.value.value.s;
      }
      next := Ok(Replaced(val, ph, data));
    } else if '.' in attr {
      var data := GetKeyPathMappingValues(src, attr, env.decrypt);
      next := Ok(Replaced(r.val, ph, data));
    } else {
      next := Ok(r);
    }
  }

  /** resolve_placeholder: every placeholder of `val`, in order; the first exception ends it. */
  method ResolvePlaceholder(val: string, entry: Json, done: Fields, key: string, rest: Fields, env: Env)
    returns (r: Result<Resolved>)
    ensures r == ResolveAll(Placeholders(val), Resolved(val, entry), done, key, rest, env)
  {
    var phs := Placeholders(val);
    var cur := Resolved(val, entry);
    var i := 0;
    while i < |phs|
      invariant 0 <= i <= |phs|
      invariant ResolveAll(phs[i..], cur, done, key, rest, env) == ResolveAll(phs, Resolved(val, entry), done, key, rest, env)
    {
      assert phs[i..][1..] == phs[i + 1..];
      var next := ResolveOne(cur, phs[i], done, key, rest, env);
      if next.Err? {
        return Err(next.msg);
      }
      cur := next.value;
      i := i + 1;
    }
    return Ok(cur);
  }

  /** Placeholders that name no model of the context leave the text and the entry as they are. */
  lemma {:induction false} UnknownModelsUntouched(phs: seq<string>, r: Resolved, done: Fields, key: string,
                                                  rest: Fields, env: Env)
    requires forall k :: 0 <= k < |phs| ==> !Known(phs[k], env.ctx)
    ensures ResolveAll(phs, r, done, key, rest, env) == Ok(r)
    decreases |phs|
  {
    if phs != [] {
      assert !Known(phs[0], env.ctx);
      UnknownModelsUntouched(phs[1..], r, done, key, rest, env);
    }
  }

  // ---- replace_json_placeholder_with_mapped_pointers ----

  predicate IsBase64(v: Json)
  {
    v.JObj? && Get(v.fields, "type") == Some(JStr(BASE64))
  }

  /** What a base64 leaf becomes once its url is resolved. */
  function Base64Entry(url: string, env: Env): Json
  {
    if url != "" && url != "None" then
      match env.fetch(url)
      case Some(b) => JStr(b)
      case None => JNull
    else JStr("")
  }

  /** The new value of `json_obj[key]`, the keys in `done` already rewritten and those in `rest` not yet. */
  function NewEntry(done: Fields, p: (string, Json), rest: Fields, env: Env): Result<Json>
    decreases p, 1
  {
    var (key, value) := p;
    match value
    case JStr(s) =>
      var entry := if s == CURRENT_UTC then JStr(env.today) else value;
      (match ResolveAll(Placeholders(s), Resolved(s, entry), done, key, rest, env)
       case Err(e) => Err(e)
       case Ok(r) => Ok(r.entry))
    case JObj(vf) =>
      if IsBase64(value) then
        match Get(vf, "value")
        case None => Err(NO_VALUE_KEY)
        case Some(u) =>
          if !u.JStr? then Err(NOT_TEXT)
          else
            (match ResolveAll(Placeholders(u.s), Resolved(u.s, value), done, key, rest, env)
             case Err(e) => Err(e)
             case Ok(r) => Ok(Base64Entry(r.val, env)))
      else Subst(value, env)
    case JArr(_) => Subst(value, env)
    case _ => Ok(value)
  }

  /** The whole substitution: dicts key by key, lists item by item, anything else as it is. */
  function Subst(j: Json, env: Env): Result<Json>
    decreases j, 0
  {
    match j
    case JObj(fs) =>
      (match SubstFields([], fs, env)
       case Err(e) => Err(e)
       case Ok(fs') => Ok(JObj(fs')))
    case JArr(items) =>
      (match SubstItems([], items, env)
       case Err(e) => Err(e)
       case Ok(items') => Ok(JArr(items')))
    case _ => Ok(j)
  }

  /** The dict loop: `done` rewritten, `rest` still as it was. */
  function SubstFields(done: Fields, rest: Fields, env: Env): Result<Fields>
    decreases rest, 2
  {
    if rest == [] then Ok(done)
    else
      match NewEntry(done, rest[0], rest[1..], env)
      case Err(e) => Err(e)
      case Ok(v) => SubstFields(done + [(rest[0].0, v)], rest[1..], env)
  }

  /** The list loop: each item rewritten on its own. */
  function SubstItems(done: seq<Json>, rest: seq<Json>, env: Env): Result<seq<Json>>
    decreases rest, 2
  {
    if rest == [] then Ok(done)
    else
      match Subst(rest[0], env)
      case Err(e) => Err(e)
      case Ok(v) => SubstItems(done + [v], rest[1..], env)
  }

  lemma UpdateSplit<T>(s: seq<T>, i: nat, x: T)
    requires i < |s|
    ensures s[i := x][..i + 1] == s[..i] + [x]
    ensures s[i := x][i + 1..] == s[i + 1..]
  {
  }

  /** One key of the dict loop of replace_json_placeholder_with_mapped_pointers. */
  method ReplaceEntry(done: Fields, p: (string, Json), rest: Fields, env: Env) returns (r: Result<Json>)
    ensures r == NewEntry(done, p, rest, env)
    decreases p, 1
  {
    var (key, value) := p;
    if value.JStr? {
      var entry := value;
      if value.s == CURRENT_UTC {
        entry := JStr(env.today);
      }
      var res := ResolvePlaceholder(value.s, entry, done, key, rest, env);
      if res.Err? {
        return Err(res.msg);
      }
      r := Ok(res.value.entry);
    } else if IsBase64(value) {
      var u := Get(value.fields, "value");
      if u.None? {
        return Err(NO_VALUE_KEY);
      }
      if !u.value.JStr? {
        return Err(NOT_TEXT);
      }
      var res := ResolvePlaceholder(u.value.s, value, done, key, rest, env);
      if res.Err? {
        return Err(res.msg);
      }
      var url := res.value.val;
      if url != "" && url != "None" {
        var image := env.fetch(url);
        r := if image.Some? then Ok(JStr(image.value)) else Ok(JNull);
      } else {
        r := Ok(JStr(""));
      }
    } else if value.JObj? || value.JArr? {
      r := ReplaceJsonPlaceholderWithMappedPointers(value, env);
    } else {
      r := Ok(value);
    }
  }

  /**
   * replace_json_placeholder_with_mapped_pointers: a dict has each value
   * rewritten in place, in key order; a list has each item rewritten in
   * place; anything else comes back as it is.
   */
  method ReplaceJsonPlaceholderWithMappedPointers(j: Json, env: Env) returns (r: Result<Json>)
    ensures r == Subst(j, env)
    decreases j, 0
  {
    if j.JObj? {
      var fs := j.fields;
      var fields := fs;
      var i := 0;
      while i < |fields|
        invariant 0 <= i <= |fields| == |fs|
        invariant fields[i..] == fs[i..]
        invariant SubstFields(fields[..i], fields[i..], env) == SubstFields([], fs, env)
      {
        assert fields[i] == fs[i..][0] == fs[i];
        assert fields[i..][1..] == fields[i + 1..];
        var v := ReplaceEntry(fields[..i], fields[i], fields[i + 1..], env);
        if v.Err? {
          return Err(v.msg);
        }
        UpdateSplit(fields, i, (fields[i].0, v.value));
        fields := fields[i := (fields[i].0, v.value)];
        i := i + 1;
      }
      assert fields[..i] == fields;
      r := Ok(JObj(fields));
    } else if j.JArr? {
      var orig := j.items;
      var items := orig;
      var i := 0;
      while i < |items|
        invariant 0 <= i <= |items| == |orig|
        invariant items[i..] == orig[i..]
        invariant SubstItems(items[..i], items[i..], env) == SubstItems([], orig, env)
      {
        assert items[i] == orig[i..][0] == orig[i];
        assert items[i..][1..] == items[i + 1..];
        var v := ReplaceJsonPlaceholderWithMappedPointers(items[i], env);
        if v.Err? {
          return Err(v.msg);
        }
        UpdateSplit(items, i, v.value);
        items := items[i := v.value];
        i := i + 1;
      }
      assert items[..i] == items;
      r := Ok(JArr(items));
    } else {
      r := Ok(j);
    }
  }

  // ---- properties ----

  /** A placeholder naming an attribute (not a dict) of a model in the context replaces its `{...}` text. */
  lemma KnownStep(r: Resolved, model: string, attr: string, done: Fields, key: string, rest: Fields, env: Env)
    requires '.' !in model && model in env.ctx && HasAttr(env.ctx[model], attr)
    requires !AttrValue(model, attr, env).JObj?
    ensures ResolveStep(r, model + "." + attr, done, key, rest, env) ==
            Ok(Replaced(r.val, model + "." + attr, AttrValue(model, attr, env)))
  {
    SplitFirstDotOf(model, attr);
  }

  /** A single placeholder resolves as its one step. */
  lemma ResolveSingle(ph: string, r: Resolved, done: Fields, key: string, rest: Fields, env: Env)
    ensures ResolveAll([ph], r, done, key, rest, env) == ResolveStep(r, ph, done, key, rest, env)
  {
    assert [ph][1..] == [];
  }

  /** The template `pre{model.attr}post` resolves to the attribute's string value between `pre` and `post`. */
  lemma TemplateResolves(pre: string, model: string, attr: string, post: string, e: Json, done: Fields,
                         key: string, rest: Fields, env: Env)
    requires '{' !in pre && '{' !in post
    requires '.' !in model && '{' !in model && '}' !in model && '{' !in attr && '}' !in attr
    requires model in env.ctx && HasAttr(env.ctx[model], attr)
    requires !AttrValue(model, attr, env).JObj?
    ensures var s := pre + "{" + model + "." + attr + "}" + post;
            var data := AttrValue(model, attr, env);
            var text := pre + PyStr(data) + post;
            ResolveAll(Placeholders(s), Resolved(s, e), done, key, rest, env) ==
            Ok(Resolved(text, if text != "" then JStr(text) else data))
  {
    var data := AttrValue(model, attr, env);
    var ph := model + "." + attr;
    var pat := "{" + ph + "}";
    var s := pre + pat + post;
    assert pre + "{" + model + "." + attr + "}" + post == s;
    assert pre + "{" + ph + "}" + post == s;
    PlaceholdersOfTemplate(pre, ph, post);
    ResolveSingle(ph, Resolved(s, e), done, key, rest, env);
    KnownStep(Resolved(s, e), model, attr, done, key, rest, env);
    ReplaceOnce(pre, pat, post, PyStr(data));
  }

  /**
   * A template with one `{model.attr}`, the model an object with that
   * attribute: the entry becomes the text with the attribute's string value
   * in place of the placeholder, or the value itself when that text is empty.
   */
  lemma KnownPlaceholderReplaced(done: Fields, key: string, pre: string, model: string, attr: string,
                                 post: string, rest: Fields, env: Env)
    requires '{' !in pre && '{' !in post
    requires '.' !in model && '{' !in model && '}' !in model && '{' !in attr && '}' !in attr
    requires model in env.ctx && HasAttr(env.ctx[model], attr)
    requires !AttrValue(model, attr, env).JObj?
    ensures var data := AttrValue(model, attr, env);
            var text := pre + PyStr(data) + post;
            NewEntry(done, (key, JStr(pre + "{" + model + "." + attr + "}" + post)), rest, env) ==
            Ok(if text != "" then JStr(text) else data)
  {
    var s := pre + "{" + model + "." + attr + "}" + post;
    TemplateResolves(pre, model, attr, post, if s == CURRENT_UTC then JStr(env.today) else JStr(s),
                     done, key, rest, env);
  }

  /** Text whose placeholders name no model of the context is kept as it is. */
  lemma TextWithoutKnownModelKept(done: Fields, key: string, s: string, rest: Fields, env: Env)
    requires s != CURRENT_UTC
    requires forall k :: 0 <= k < |Placeholders(s)| ==> !Known(Placeholders(s)[k], env.ctx)
    ensures NewEntry(done, (key, JStr(s)), rest, env) == Ok(JStr(s))
  {
    UnknownModelsUntouched(Placeholders(s), Resolved(s, JStr(s)), done, key, rest, env);
  }

  /** The text `current_utc` becomes today's date. */
  lemma CurrentUtcBecomesToday(done: Fields, key: string, rest: Fields, env: Env)
    ensures NewEntry(done, (key, JStr(CURRENT_UTC)), rest, env) == Ok(JStr(env.today))
  {
    assert '{' !in CURRENT_UTC;
    PlaceholdersSkip(CURRENT_UTC, []);
    assert CURRENT_UTC + [] == CURRENT_UTC;
  }

  /** The url `{model.attr}` of an attribute that is None resolves to the empty text. */
  lemma MissingAttrResolvesEmpty(model: string, attr: string, e: Json, done: Fields, key: string,
                                 rest: Fields, env: Env)
    requires '.' !in model && '{' !in model && '}' !in model && '{' !in attr && '}' !in attr
    requires attr !in SECRET_COLUMNS
    requires model in env.ctx && env.ctx[model].Obj? && Get(env.ctx[model].attrs, attr) == Some(JNull)
    ensures var pat := "{" + model + "." + attr + "}";
            ResolveAll(Placeholders(pat), Resolved(pat, e), done, key, rest, env) == Ok(Resolved("", JStr("")))
  {
    var ph := model + "." + attr;
    var pat := "{" + ph + "}";
    assert "{" + model + "." + attr + "}" == pat;
    assert [] + "{" + ph + "}" + [] == pat;
    PlaceholdersOfTemplate([], ph, []);
    assert AttrValue(model, attr, env) == JStr("");
    ResolveSingle(ph, Resolved(pat, e), done, key, rest, env);
    KnownStep(Resolved(pat, e), model, attr, done, key, rest, env);
    ReplaceWhole(pat, "");
  }

  /** A base64 leaf whose url is `{model.attr}`, that attribute being None, becomes "". */
  lemma Base64MissingImage(done: Fields, key: string, vf: Fields, model: string, attr: string,
                           rest: Fields, env: Env)
    requires IsBase64(JObj(vf)) && Get(vf, "value") == Some(JStr("{" + model + "." + attr + "}"))
    requires '.' !in model && '{' !in model && '}' !in model && '{' !in attr && '}' !in attr
    requires attr !in SECRET_COLUMNS
    requires model in env.ctx && env.ctx[model].Obj? && Get(env.ctx[model].attrs, attr) == Some(JNull)
    ensures NewEntry(done, (key, JObj(vf)), rest, env) == Ok(JStr(""))
  {
    MissingAttrResolvesEmpty(model, attr, JObj(vf), done, key, rest, env);
  }

  /** A base64 leaf whose url names no model is downloaded as written, unless it is '' or 'None'. */
  lemma Base64PlainUrl(done: Fields, key: string, vf: Fields, u: string, rest: Fields, env: Env)
    requires IsBase64(JObj(vf)) && Get(vf, "value") == Some(JStr(u))
    requires forall k :: 0 <= k < |Placeholders(u)| ==> !Known(Placeholders(u)[k], env.ctx)
    ensures NewEntry(done, (key, JObj(vf)), rest, env) ==
            Ok(if u == "" || u == "None" then JStr("")
               else match env.fetch(u) case Some(b) => JStr(b) case None => JNull)
  {
    UnknownModelsUntouched(Placeholders(u), Resolved(u, JObj(vf)), done, key, rest, env);
  }

  /** A dict or list value that is not a base64 leaf; it is rewritten on its own. */
  predicate Nested(v: Json)
  {
    v.JArr? || (v.JObj? && !IsBase64(v))
  }

  /** What the dict loop keeps of an entry: its key, the rewrite of a nested value, and a number, bool or None as it was. */
  predicate EntryKept(p: (string, Json), q: (string, Json), env: Env)
  {
    q.0 == p.0 &&
    (Nested(p.1) ==> Subst(p.1, env) == Ok(q.1)) &&
    (p.1.JNum? || p.1.JBool? || p.1.JNull? ==> q.1 == p.1)
  }

  lemma {:induction false} SubstFieldsShape(done: Fields, rest: Fields, env: Env)
    requires SubstFields(done, rest, env).Ok?
    ensures var out := SubstFields(done, rest, env).value;
            |out| == |done| + |rest| && out[..|done|] == done &&
            forall i :: 0 <= i < |rest| ==> EntryKept(rest[i], out[|done| + i], env)
    decreases rest
  {
    if rest != [] {
      var v := NewEntry(done, rest[0], rest[1..], env).value;
      var done' := done + [(rest[0].0, v)];
      SubstFieldsShape(done', rest[1..], env);
      var out := SubstFields(done, rest, env).value;
      assert out[..|done|] == out[..|done'|][..|done|];
      assert out[|done|] == out[..|done'|][|done|];
      forall i | 0 <= i < |rest| ensures EntryKept(rest[i], out[|done| + i], env) {
        if i > 0 {
          assert rest[i] == rest[1..][i - 1];
        }
      }
    } else {
      assert done[..|done|] == done;
    }
  }

  /** Every key of a dict survives the substitution, in its place. */
  lemma SubstKeepsKeys(fs: Fields, env: Env)
    requires Subst(JObj(fs), env).Ok?
    ensures var out := Subst(JObj(fs), env).value;
            out.JObj? && |out.fields| == |fs| &&
            forall i :: 0 <= i < |fs| ==> EntryKept(fs[i], out.fields[i], env)
  {
    SubstFieldsShape([], fs, env);
  }

  lemma {:induction false} SubstItemsShape(done: seq<Json>, rest: seq<Json>, env: Env)
    requires SubstItems(done, rest, env).Ok?
    ensures var out := SubstItems(done, rest, env).value;
            |out| == |done| + |rest| && out[..|done|] == done &&
            forall i :: 0 <= i < |rest| ==> Subst(rest[i], env) == Ok(out[|done| + i])
    decreases rest
  {
    if rest != [] {
      var v := Subst(rest[0], env).value;
      var done' := done + [v];
      SubstItemsShape(done', rest[1..], env);
      var out := SubstItems(done, rest, env).value;
      assert out[..|done|] == out[..|done'|][..|done|];
      assert out[|done|] == out[..|done'|][|done|];
      forall i | 0 <= i < |rest| ensures Subst(rest[i], env) == Ok(out[|done| + i]) {
        if i > 0 {
          assert rest[i] == rest[1..][i - 1];
        }
      }
    } else {
      assert done[..|done|] == done;
    }
  }

  /** A list is rewritten item by item; text directly inside a list stays as it is. */
  lemma SubstItemwise(items: seq<Json>, env: Env)
    requires Subst(JArr(items), env).Ok?
    ensures var out := Subst(JArr(items), env).value;
            out.JArr? && |out.items| == |items| &&
            (forall i :: 0 <= i < |items| ==> Subst(items[i], env) == Ok(out.items[i])) &&
            (forall i :: 0 <= i < |items| && items[i].JStr? ==> out.items[i] == items[i])
  {
    SubstItemsShape([], items, env);
  }

  /** A list fails exactly when one of its items fails. */
  lemma {:induction false} SubstItemsRaises(done: seq<Json>, rest: seq<Json>, env: Env)
    ensures SubstItems(done, rest, env).Err? <==> exists i :: 0 <= i < |rest| && Subst(rest[i], env).Err?
    decreases rest
  {
    if rest != [] {
      if Subst(rest[0], env).Ok? {
        SubstItemsRaises(done + [Subst(rest[0], env).value], rest[1..], env);
        if exists i :: 0 <= i < |rest| && Subst(rest[i], env).Err? {
          var i :| 0 <= i < |rest| && Subst(rest[i], env).Err?;
          assert rest[1..][i - 1] == rest[i];
        }
        if exists i :: 0 <= i < |rest[1..]| && Subst(rest[1..][i], env).Err? {
          var i :| 0 <= i < |rest[1..]| && Subst(rest[1..][i], env).Err?;
          assert rest[i + 1] == rest[1..][i];
        }
      }
    }
  }
}
