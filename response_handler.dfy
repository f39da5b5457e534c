/**
 * Turning provider responses into records: the XML tree of a SOAP or XML
 * response into a dict, the depth-first key search, and projecting a
 * response through the feature's response template.
 */
module ResponseHandler {
  import opened Wrappers
  import opened Text
  import opened Json
  import opened Common

  // ---------------------------------------------------------------- strip_namespace

  /**
   * strip_namespace: a tag of the form `{uri}name` loses its namespace. The
   * source takes the second piece of `tag.split('}')`, so the result is the
   * text after the first '}' up to the next one, if any.
   */
  function StripNamespace(tag: string): (r: string)
    ensures '}' !in tag ==> r == tag
    ensures '}' in tag ==> '}' !in r
  {
    if '}' in tag then
      var rest := tag[IndexOf(tag, '}') + 1..];
      if '}' in rest then rest[..IndexOf(rest, '}')] else rest
    else tag
  }

  /** The first piece of a split ends at the first separator, and the others split what follows it. */
  lemma {:induction false} SplitAtFirst(s: string, c: char)
    requires c in s
    ensures Split(s, c) == [s[..IndexOf(s, c)]] + Split(s[IndexOf(s, c) + 1..], c)
    decreases |s|
  {
    if s[0] != c {
      SplitAtFirst(s[1..], c);
      assert s[1..][IndexOf(s[1..], c) + 1..] == s[IndexOf(s, c) + 1..];
      assert [s[0]] + s[1..][..IndexOf(s[1..], c)] == s[..IndexOf(s, c)];
    }
  }

  /** Without a separator the first piece is the whole text; with one, it is the text before it. */
  lemma FirstPiece(s: string, c: char)
    ensures Split(s, c)[0] == if c in s then s[..IndexOf(s, c)] else s
  {
    if c in s {
      SplitAtFirst(s, c);
    } else {
      SplitNoSeparator(s, c);
    }
  }

  /** The direct definition agrees with `tag.split('}')[1]`. */
  lemma StripNamespaceIsSecondPiece(tag: string)
    requires '}' in tag
    ensures StripNamespace(tag) == Split(tag, '}')[1]
  {
    SplitAtFirst(tag, '}');
    FirstPiece(tag[IndexOf(tag, '}') + 1..], '}');
  }

  /** A qualified tag `{uri}name` strips to `name`. */
  lemma StripQualified(ns: string, name: string)
    requires '}' !in ns && '}' !in name
    ensures StripNamespace(ns + "}" + name) == name
  {
    var tag := ns + "}" + name;
    assert tag[|ns|] == '}';
    assert '}' !in tag[..|ns|] by { assert tag[..|ns|] == ns; }
    assert IndexOf(tag, '}') == |ns| by {
      var i := IndexOf(tag, '}');
      assert i <= |ns| by { assert tag[|ns|] == '}'; }
      assert i >= |ns| by { assert forall j :: 0 <= j < |ns| ==> tag[j] == ns[j]; }
    }
    assert tag[|ns| + 1..] == name;
  }

  // ---------------------------------------------------------------- xml_to_dict

  /** An XML element: its tag (possibly namespace-qualified), its text, and its child elements. */
  datatype Element = Element(tag: string, text: Option<string>, children: seq<Element>)

  /** A leaf's value: its text, or None when it has none. */
  function TextValue(text: Option<string>): Json
  {
    if text.Some? then JStr(text.value) else JNull
  }

  /**
   * The entry a child's dict makes under a tag that held `prev`: the first
   * one is stored as it is, a second one turns the entry into a list of
   * both, later ones are appended to the list.
   */
  function Merged(prev: Option<Json>, v: Json): Json
  {
    match prev
    case None => v
    case Some(p) => if p.JArr? then JArr(p.items + [v]) else JArr([p, v])
  }

  /** The dict xml_to_dict builds from the first n children of an element. */
  function DictOfFirst(e: Element, n: nat): Fields
    requires n <= |e.children|
    decreases e, n
  {
    if n == 0 then []
    else
      var d := DictOfFirst(e, n - 1);
      var c := e.children[n - 1];
      assert c in e.children;
      var tag := StripNamespace(c.tag);
      Set(d, tag, if c.children != [] then Merged(Get(d, tag), JObj(DictOfFirst(c, |c.children|))) else TextValue(c.text))
  }

  function DictOf(e: Element): Fields
  {
    DictOfFirst(e, |e.children|)
  }

  /** The entry child n - 1 leaves under its tag. */
  function ChildEntry(e: Element, n: nat): Json
    requires 0 < n <= |e.children|
  {
    var c := e.children[n - 1];
    if c.children != [] then Merged(Get(DictOfFirst(e, n - 1), StripNamespace(c.tag)), JObj(DictOf(c)))
    else TextValue(c.text)
  }

  lemma DictOfFirstStep(e: Element, n: nat)
    requires 0 < n <= |e.children|
    ensures DictOfFirst(e, n) == Set(DictOfFirst(e, n - 1), StripNamespace(e.children[n - 1].tag), ChildEntry(e, n))
  {
  }

  /** Adding child n - 1 sets the entry under its tag and leaves every other entry as it was. */
  lemma DictOfFirstGet(e: Element, n: nat, t: string)
    requires 0 < n <= |e.children|
    ensures Get(DictOfFirst(e, n), t) ==
              if t == StripNamespace(e.children[n - 1].tag) then Some(ChildEntry(e, n)) else Get(DictOfFirst(e, n - 1), t)
  {
    DictOfFirstStep(e, n);
    SetGet(DictOfFirst(e, n - 1), StripNamespace(e.children[n - 1].tag), ChildEntry(e, n));
  }

  /** xml_to_dict, the loop over the children of one element. */
  method XmlToDict(e: Element) returns (result: Fields)
    ensures result == DictOf(e)
    decreases e
  {
    result := [];
    var i := 0;
    while i < |e.children|
      invariant 0 <= i <= |e.children|
      invariant result == DictOfFirst(e, i)
    {
      var child := e.children[i];
      assert child in e.children;
      DictOfFirstStep(e, i + 1);
      var tag := StripNamespace(child.tag);
      // The value the child leaves under its tag.
      var value: Json;
      if child.children != [] {
        var childData := XmlToDict(child);
        var existing := Get(result, tag);
        if existing.Some? {
          if existing.value.JArr? {
            value := JArr(existing.value.items + [JObj(childData)]);
          } else {
            value := JArr([existing.value, JObj(childData)]);
          }
        } else {
          value := JObj(childData);
        }
      } else {
        value := TextValue(child.text);
      }
      assert value == ChildEntry(e, i + 1);
      result := Set(result, tag, value);
      i := i + 1;
    }
  }

  /** The namespace-stripped tags of the first n children, in document order. */
  function Tags(e: Element, n: nat): (tags: seq<string>)
    requires n <= |e.children|
    ensures |tags| == n && forall i :: 0 <= i < n ==> tags[i] == StripNamespace(e.children[i].tag)
  {
    if n == 0 then [] else Tags(e, n - 1) + [StripNamespace(e.children[n - 1].tag)]
  }

  /** The dict's keys are exactly the tags of the children. */
  lemma {:induction false} DictKeys(e: Element, n: nat, t: string)
    requires n <= |e.children|
    ensures HasKey(DictOfFirst(e, n), t) <==> t in Tags(e, n)
  {
    if n > 0 {
      DictKeys(e, n - 1, t);
      DictOfFirstGet(e, n, t);
      var d, d' := DictOfFirst(e, n - 1), DictOfFirst(e, n);
      assert HasKey(d, t) <==> Get(d, t).Some?;
      assert HasKey(d', t) <==> Get(d', t).Some?;
      assert Tags(e, n) == Tags(e, n - 1) + [StripNamespace(e.children[n - 1].tag)];
    }
  }

  /** The child dicts, in document order, of those among the first n children whose tag strips to t. */
  function TagValues(e: Element, n: nat, t: string): (vs: seq<Json>)
    requires n <= |e.children|
    ensures |vs| <= n
    decreases n
  {
    if n == 0 then []
    else
      var c := e.children[n - 1];
      TagValues(e, n - 1, t) + (if StripNamespace(c.tag) == t then [JObj(DictOf(c))] else [])
  }

  /** The grouped values are all dicts. */
  lemma {:induction false} TagValuesAreDicts(e: Element, n: nat, t: string)
    requires n <= |e.children|
    ensures forall i :: 0 <= i < |TagValues(e, n, t)| ==> TagValues(e, n, t)[i].JObj?
    decreases n
  {
    if n > 0 {
      TagValuesAreDicts(e, n - 1, t);
    }
  }

  /** How xml_to_dict stores the dicts of the children sharing one tag. */
  function Grouped(vs: seq<Json>): Option<Json>
  {
    if vs == [] then None else if |vs| == 1 then Some(vs[0]) else Some(JArr(vs))
  }

  /** One more dict for a tag merges into what the earlier ones grouped into. */
  lemma GroupedSnoc(vs: seq<Json>, v: Json)
    requires |vs| == 1 ==> vs[0].JObj?
    ensures Grouped(vs + [v]) == Some(Merged(Grouped(vs), v))
  {
    if |vs| == 1 {
      assert vs + [v] == [vs[0], v];
    }
  }

  /**
   * Repeated tags become a list in document order: when every child with
   * tag t has children of its own, the entry under t is absent, the one
   * child's dict, or the list of all their dicts.
   */
  lemma {:induction false} RepeatedTagsBecomeList(e: Element, n: nat, t: string)
    requires n <= |e.children|
    requires forall i :: 0 <= i < n && StripNamespace(e.children[i].tag) == t ==> e.children[i].children != []
    ensures Get(DictOfFirst(e, n), t) == Grouped(TagValues(e, n, t))
  {
    if n > 0 {
      RepeatedTagsBecomeList(e, n - 1, t);
      DictOfFirstGet(e, n, t);
      var c := e.children[n - 1];
      var vs := TagValues(e, n - 1, t);
      if StripNamespace(c.tag) == t {
        assert c.children != [];
        TagValuesAreDicts(e, n - 1, t);
        GroupedSnoc(vs, JObj(DictOf(c)));
        assert TagValues(e, n, t) == vs + [JObj(DictOf(c))];
        assert ChildEntry(e, n) == Merged(Grouped(vs), JObj(DictOf(c)));
      } else {
        assert TagValues(e, n, t) == vs;
        assert Get(DictOfFirst(e, n), t) == Get(DictOfFirst(e, n - 1), t);
      }
    }
  }

  /** A leaf child maps to its text, unless a later child has the same tag. */
  lemma {:induction false} LeafMapsToText(e: Element, n: nat, k: nat)
    requires k < n <= |e.children| && e.children[k].children == []
    requires forall i :: k < i < n ==> StripNamespace(e.children[i].tag) != StripNamespace(e.children[k].tag)
    ensures Get(DictOfFirst(e, n), StripNamespace(e.children[k].tag)) == Some(TextValue(e.children[k].text))
  {
    var t := StripNamespace(e.children[k].tag);
    DictOfFirstGet(e, n, t);
    if n - 1 > k {
      assert t != StripNamespace(e.children[n - 1].tag);
      LeafMapsToText(e, n - 1, k);
    } else {
      assert ChildEntry(e, n) == TextValue(e.children[k].text);
    }
  }

  // ---------------------------------------------------------------- find_nested_value

  /** A template entry: one key to look for, or a list of keys whose values are collected. */
  datatype Target = Key(key: string) | Keys(keys: seq<string>)

  /** What calling `.items()` on something that is not a dict raises. */
  const NOT_A_DICT := "object has no attribute 'items'"

  /**
   * find_nested_value for one key over the pairs of a dict, depth first: a
   * pair whose key matches answers with its value (even a None one); a dict
   * or list value is searched before the next pair, and a non-None result
   * from it is the answer. A list item that is not a dict raises.
   */
  function FindInFields(fields: Fields, key: string): Result<Json>
    decreases fields
  {
    if fields == [] then Ok(JNull)
    else if fields[0].0 == key then Ok(fields[0].1)
    else
      var r := FindInValue(fields[0], key);
      if r.Err? || r.value != JNull then r else FindInFields(fields[1..], key)
  }

  function FindInValue(p: (string, Json), key: string): Result<Json>
    decreases p
  {
    match p.1
    case JObj(fields) => FindInFields(fields, key)
    case JArr(items) => FindInItems(items, key)
    case _ => Ok(JNull)
  }

  function FindInItems(items: seq<Json>, key: string): Result<Json>
    decreases items
  {
    if items == [] then Ok(JNull)
    else if !items[0].JObj? then Err(NOT_A_DICT)
    else
      var r := FindInFields(items[0].fields, key);
      if r.Err? || r.value != JNull then r else FindInItems(items[1..], key)
  }

  /** The lookups of several keys in one dict, in order; the first failure raises. */
  function LookupAll(fields: Fields, keys: seq<string>): (r: Result<seq<Json>>)
    ensures r.Ok? ==> |r.value| == |keys|
  {
    if keys == [] then Ok([])
    else
      var first := FindInFields(fields, keys[0]);
      if first.Err? then Err(first.msg)
      else
        var rest := LookupAll(fields, keys[1..]);
        if rest.Err? then rest else Ok([first.value] + rest.value)
  }

  /**
   * find_nested_value: the data must be a dict. A list of keys gives the
   * list of their lookups, except on an empty dict, whose loop never runs.
   */
  function FindNestedValue(data: Json, target: Target): Result<Json>
  {
    if !data.JObj? then Err(NOT_A_DICT)
    else match target
      case Key(k) => FindInFields(data.fields, k)
      case Keys(ks) =>
        if data.fields == [] then Ok(JNull)
        else
          var r := LookupAll(data.fields, ks);
          if r.Err? then Err(r.msg) else Ok(JArr(r.value))
  }

  /** Whatever the search returns (other than None) is stored under the key somewhere in the dict. */
  lemma {:induction false} FindSound(fields: Fields, key: string)
    ensures FindInFields(fields, key).Ok? && FindInFields(fields, key).value != JNull ==>
              OccursInFields(fields, key, FindInFields(fields, key).value)
    decreases fields
  {
    if fields != [] && fields[0].0 != key {
      FindSoundValue(fields[0], key);
      FindSound(fields[1..], key);
    }
  }

  lemma {:induction false} FindSoundValue(p: (string, Json), key: string)
    ensures FindInValue(p, key).Ok? && FindInValue(p, key).value != JNull ==>
              Occurs(p.1, key, FindInValue(p, key).value)
    decreases p
  {
    match p.1
    case JObj(fields) => FindSound(fields, key);
    case JArr(items) => FindSoundItems(items, key);
    case _ =>
  }

  lemma {:induction false} FindSoundItems(items: seq<Json>, key: string)
    ensures FindInItems(items, key).Ok? && FindInItems(items, key).value != JNull ==>
              OccursInItems(items, key, FindInItems(items, key).value)
    decreases items
  {
    if items != [] && items[0].JObj? {
      FindSound(items[0].fields, key);
      FindSoundItems(items[1..], key);
    }
  }

  /** Every list in the document holds dicts only (at any depth). */
  predicate ListsOfDicts(fields: Fields)
    decreases fields
  {
    fields != [] ==> ValueListsOfDicts(fields[0]) && ListsOfDicts(fields[1..])
  }

  predicate ValueListsOfDicts(p: (string, Json))
    decreases p
  {
    match p.1
    case JObj(fields) => ListsOfDicts(fields)
    case JArr(items) => ItemsAreDicts(items)
    case _ => true
  }

  predicate ItemsAreDicts(items: seq<Json>)
    decreases items
  {
    items != [] ==> items[0].JObj? && ListsOfDicts(items[0].fields) && ItemsAreDicts(items[1..])
  }

  /** The search raises only on a list item that is not a dict. */
  lemma {:induction false} FindNeverRaises(fields: Fields, key: string)
    requires ListsOfDicts(fields)
    ensures FindInFields(fields, key).Ok?
    decreases fields
  {
    if fields != [] && fields[0].0 != key {
      FindNeverRaisesValue(fields[0], key);
      FindNeverRaises(fields[1..], key);
    }
  }

  lemma {:induction false} FindNeverRaisesValue(p: (string, Json), key: string)
    requires ValueListsOfDicts(p)
    ensures FindInValue(p, key).Ok?
    decreases p
  {
    match p.1
    case JObj(fields) => FindNeverRaises(fields, key);
    case JArr(items) => FindNeverRaisesItems(items, key);
    case _ =>
  }

  lemma {:induction false} FindNeverRaisesItems(items: seq<Json>, key: string)
    requires ItemsAreDicts(items)
    ensures FindInItems(items, key).Ok?
    decreases items
  {
    if items != [] {
      FindNeverRaises(items[0].fields, key);
      FindNeverRaisesItems(items[1..], key);
    }
  }

  /**
   * Depth first, first match: a key at the top level is found when no
   * earlier pair has it, neither as its own key nor anywhere inside its
   * value, and every list in those earlier values holds dicts.
   */
  lemma {:induction false} TopLevelKeyFound(fields: Fields, key: string, i: nat)
    requires i < |fields| && fields[i].0 == key
    requires forall j :: 0 <= j < i ==> fields[j].0 != key && ValueListsOfDicts(fields[j])
    requires forall j, v :: 0 <= j < i ==> !Occurs(fields[j].1, key, v)
    ensures FindInFields(fields, key) == Ok(fields[i].1)
    decreases i
  {
    if i > 0 {
      FindNeverRaisesValue(fields[0], key);
      FindSoundValue(fields[0], key);
      assert FindInValue(fields[0], key).value == JNull;
      TopLevelKeyFound(fields[1..], key, i - 1);
    }
  }

  // ---------------------------------------------------------------- replace_json_values

  /** A mapping: new key to the key (or keys) whose nested value it takes. */
  type Mapping = seq<(string, Target)>

  /** The dict replace_json_values has built after the given mapping entries. */
  function Projection(input: Json, mapping: Mapping): Result<Fields>
    decreases |mapping|
  {
    if mapping == [] then Ok([])
    else
      var prev := Projection(input, mapping[..|mapping| - 1]);
      var entry := mapping[|mapping| - 1];
      if prev.Err? then prev
      else match FindNestedValue(input, entry.1)
        case Err(m) => Err(m)
        case Ok(v) => if v == JNull then prev else Ok(Set(prev.value, entry.0, v))
  }

  /** Once a lookup has raised, the rest of the mapping is never looked at. */
  lemma {:induction false} ProjectionErrSticks(input: Json, mapping: Mapping, i: nat)
    requires i <= |mapping| && Projection(input, mapping[..i]).Err?
    ensures Projection(input, mapping) == Projection(input, mapping[..i])
    decreases |mapping|
  {
    if i < |mapping| {
      assert mapping[..|mapping| - 1][..i] == mapping[..i];
      ProjectionErrSticks(input, mapping[..|mapping| - 1], i);
    } else {
      assert mapping[..i] == mapping;
    }
  }

  /**
   * replace_json_values: each mapping entry, in order, stores the nested
   * value it finds under its new key; a None lookup stores nothing and a
   * lookup that raises aborts the whole call.
   */
  method ReplaceJsonValues(input: Json, mapping: Mapping) returns (r: Result<Fields>)
    ensures r == Projection(input, mapping)
  {
    var result: Fields := [];
    var i := 0;
    while i < |mapping|
      invariant 0 <= i <= |mapping|
      invariant Projection(input, mapping[..i]) == Ok(result)
    {
      var entry := mapping[i];
      var found := FindNestedValue(input, entry.1);
      assert mapping[..i + 1][..i] == mapping[..i];
      if found.Err? {
        ProjectionErrSticks(input, mapping, i + 1);
        return Err(found.msg);
      }
      if found.value != JNull {
        result := Set(result, entry.0, found.value);
      }
      i := i + 1;
    }
    assert mapping[..i] == mapping;
    r := Ok(result);
  }

  /** The call raises exactly when one of the lookups raises. */
  lemma {:induction false} ProjectionRaises(input: Json, mapping: Mapping)
    ensures Projection(input, mapping).Err? <==>
              exists j :: 0 <= j < |mapping| && FindNestedValue(input, mapping[j].1).Err?
    decreases |mapping|
  {
    if mapping != [] {
      var init := mapping[..|mapping| - 1];
      ProjectionRaises(input, init);
      if exists j :: 0 <= j < |init| && FindNestedValue(input, init[j].1).Err? {
        var j :| 0 <= j < |init| && FindNestedValue(input, init[j].1).Err?;
        assert mapping[j] == init[j];
      }
      if exists j :: 0 <= j < |mapping| && FindNestedValue(input, mapping[j].1).Err? {
        var j :| 0 <= j < |mapping| && FindNestedValue(input, mapping[j].1).Err?;
        if j < |init| { assert init[j] == mapping[j]; }
      }
    }
  }

  /**
   * The keys of the result are exactly the new keys whose lookup found a
   * value other than None, and each holds a value one of its lookups found.
   */
  lemma {:induction false} ProjectionContents(input: Json, mapping: Mapping, k: string)
    requires Projection(input, mapping).Ok?
    ensures Get(Projection(input, mapping).value, k).Some? ==>
              Get(Projection(input, mapping).value, k).value != JNull &&
              exists j :: 0 <= j < |mapping| && mapping[j].0 == k &&
                FindNestedValue(input, mapping[j].1) == Ok(Get(Projection(input, mapping).value, k).value)
    ensures forall j :: 0 <= j < |mapping| && mapping[j].0 == k && FindNestedValue(input, mapping[j].1).Ok? &&
                        FindNestedValue(input, mapping[j].1).value != JNull ==>
                          Get(Projection(input, mapping).value, k).Some?
    decreases |mapping|
  {
    if mapping != [] {
      var init := mapping[..|mapping| - 1];
      var last := mapping[|mapping| - 1];
      ProjectionContents(input, init, k);
      var prev := Projection(input, init).value;
      var r := Projection(input, mapping).value;
      var found := FindNestedValue(input, last.1);
      if found.value != JNull {
        SetGet(prev, last.0, found.value);
      }
      if Get(r, k).Some? && Get(r, k) != Get(prev, k) {
        assert mapping[|mapping| - 1].0 == k;
      } else if Get(r, k).Some? {
        var j :| 0 <= j < |init| && init[j].0 == k && FindNestedValue(input, init[j].1) == Ok(Get(prev, k).value);
        assert mapping[j] == init[j];
      }
      forall j | 0 <= j < |mapping| && mapping[j].0 == k && FindNestedValue(input, mapping[j].1).Ok? &&
                 FindNestedValue(input, mapping[j].1).value != JNull
        ensures Get(r, k).Some?
      {
        if j < |init| { assert init[j] == mapping[j]; }
      }
    }
  }

  // ---------------------------------------------------------------- replace_json_values_v2

  /** A mapping value as the Python value it is (a key, or a list of keys). */
  function TargetJson(t: Target): Json
  {
    match t
    case Key(k) => JStr(k)
    case Keys(ks) => JArr(seq(|ks|, i requires 0 <= i < |ks| => JStr(ks[i])))
  }

  /** `str(mapping.values())`, the text the v2 key test searches. */
  function ValuesText(mapping: Mapping): string
  {
    "dict_values([" + ReprItems(seq(|mapping|, i requires 0 <= i < |mapping| => TargetJson(mapping[i].1))) + "])"
  }

  /** Some key of the dict occurs, as a substring, in `text`. */
  predicate KeyMentioned(fields: Fields, text: string)
    decreases fields
  {
    fields != [] && (Contains(text, fields[0].0) || KeyMentioned(fields[1..], text))
  }

  /**
   * find_first_list_or_dict: a non-empty list is taken whole; a dict one of
   * whose keys occurs in `text` is taken as a one-item list; otherwise the
   * first hit among its values, else the dict itself when it is not empty.
   */
  function FirstListOrDict(data: Json, text: string): (r: Option<Json>)
    ensures r.Some? ==> Truthy(r.value) && (r.value.JArr? || r.value.JObj?)
    decreases data
  {
    match data
    case JArr(items) => if items != [] then Some(data) else None
    case JObj(fields) =>
      if KeyMentioned(fields, text) then Some(JArr([data]))
      else
        var inner := FirstInValues(fields, text);
        if inner.Some? then inner else if fields == [] then None else Some(data)
    case _ => None
  }

  function FirstInValues(fields: Fields, text: string): (r: Option<Json>)
    ensures r.Some? ==> Truthy(r.value) && (r.value.JArr? || r.value.JObj?)
    decreases fields
  {
    if fields == [] then None
    else
      var first := FirstInPair(fields[0], text);
      if first.Some? then first else FirstInValues(fields[1..], text)
  }

  function FirstInPair(p: (string, Json), text: string): (r: Option<Json>)
    ensures r.Some? ==> Truthy(r.value) && (r.value.JArr? || r.value.JObj?)
    decreases p
  {
    FirstListOrDict(p.1, text)
  }

  /** What v2 stores for one mapping entry: an empty merged list becomes None. */
  function Stored(target: Target, v: Json): Json
  {
    if target.Keys? && !Truthy(v) then JNull else v
  }

  /** The dict v2 builds for one item after the given mapping entries. */
  function Transformed(item: Json, mapping: Mapping): Result<Fields>
    decreases |mapping|
  {
    if mapping == [] then Ok([])
    else
      var prev := Transformed(item, mapping[..|mapping| - 1]);
      var entry := mapping[|mapping| - 1];
      if prev.Err? then prev
      else match FindNestedValue(item, entry.1)
        case Err(m) => Err(m)
        case Ok(v) => Ok(Set(prev.value, entry.0, Stored(entry.1, v)))
  }

  /** `any(d.values())` */
  predicate AnyTruthy(fields: Fields)
    decreases fields
  {
    fields != [] && (Truthy(fields[0].1) || AnyTruthy(fields[1..]))
  }

  /** The transformed items kept after the given items: only those with a truthy value. */
  function Transforms(items: seq<Json>, mapping: Mapping): Result<seq<Fields>>
    decreases |items|
  {
    if items == [] then Ok([])
    else
      var prev := Transforms(items[..|items| - 1], mapping);
      if prev.Err? then prev
      else match Transformed(items[|items| - 1], mapping)
        case Err(m) => Err(m)
        case Ok(t) => if AnyTruthy(t) then Ok(prev.value + [t]) else prev
  }

  /** The items v2 transforms: the list it found, or the dict it found as a one-item list. */
  function ItemsOf(found: Json): seq<Json>
  {
    if found.JArr? then found.items else [found]
  }

  /** replace_json_values_v2 as a whole: None when nothing is found or nothing is kept. */
  function ReplacedV2(input: Json, mapping: Mapping): Result<Option<seq<Fields>>>
  {
    match FirstListOrDict(input, ValuesText(mapping))
    case None => Ok(None)
    case Some(found) =>
      match Transforms(ItemsOf(found), mapping)
      case Err(m) => Err(m)
      case Ok(rows) => Ok(if rows == [] then None else Some(rows))
  }

  /** The inner loop of v2: one item transformed through every mapping entry. */
  method TransformItem(item: Json, mapping: Mapping) returns (r: Result<Fields>)
    ensures r == Transformed(item, mapping)
  {
    var transformed: Fields := [];
    var i := 0;
    while i < |mapping|
      invariant 0 <= i <= |mapping|
      invariant Transformed(item, mapping[..i]) == Ok(transformed)
    {
      var entry := mapping[i];
      var value := FindNestedValue(item, entry.1);
      assert mapping[..i + 1][..i] == mapping[..i];
      if value.Err? {
        TransformedErrSticks(item, mapping, i + 1);
        return Err(value.msg);
      }
      transformed := Set(transformed, entry.0, Stored(entry.1, value.value));
      i := i + 1;
    }
    assert mapping[..i] == mapping;
    r := Ok(transformed);
  }

  lemma {:induction false} TransformedErrSticks(item: Json, mapping: Mapping, i: nat)
    requires i <= |mapping| && Transformed(item, mapping[..i]).Err?
    ensures Transformed(item, mapping) == Transformed(item, mapping[..i])
    decreases |mapping|
  {
    if i < |mapping| {
      assert mapping[..|mapping| - 1][..i] == mapping[..i];
      TransformedErrSticks(item, mapping[..|mapping| - 1], i);
    } else {
      assert mapping[..i] == mapping;
    }
  }

  lemma {:induction false} TransformsErrSticks(items: seq<Json>, mapping: Mapping, i: nat)
    requires i <= |items| && Transforms(items[..i], mapping).Err?
    ensures Transforms(items, mapping) == Transforms(items[..i], mapping)
    decreases |items|
  {
    if i < |items| {
      assert items[..|items| - 1][..i] == items[..i];
      TransformsErrSticks(items[..|items| - 1], mapping, i);
    } else {
      assert items[..i] == items;
    }
  }

  /** replace_json_values_v2 */
  method ReplaceJsonValuesV2(input: Json, mapping: Mapping) returns (r: Result<Option<seq<Fields>>>)
    ensures r == ReplacedV2(input, mapping)
  {
    var dataList := FirstListOrDict(input, ValuesText(mapping));
    if dataList.None? {
      return Ok(None);
    }
    var items := ItemsOf(dataList.value);
    var result: seq<Fields> := [];
    var i := 0;
    while i < |items|
      invariant 0 <= i <= |items|
      invariant Transforms(items[..i], mapping) == Ok(result)
    {
      var transformed := TransformItem(items[i], mapping);
      assert items[..i + 1][..i] == items[..i];
      if transformed.Err? {
        TransformsErrSticks(items, mapping, i + 1);
        return Err(transformed.msg);
      }
      if AnyTruthy(transformed.value) {
        result := result + [transformed.value];
      }
      i := i + 1;
    }
    assert items[..i] == items;
    r := Ok(if result == [] then None else Some(result));
  }

  /** The new keys of a mapping are distinct, as the keys of a Python dict are. */
  predicate DistinctNewKeys(mapping: Mapping)
  {
    forall i, j :: 0 <= i < j < |mapping| ==> mapping[i].0 != mapping[j].0
  }

  /**
   * Every transformed item holds exactly the mapping's new keys, each with
   * what its lookup found (an empty merged list stored as None); a list of
   * keys yields None or a non-empty list with one entry per key.
   */
  lemma {:induction false} TransformedContents(item: Json, mapping: Mapping, k: string)
    requires DistinctNewKeys(mapping) && Transformed(item, mapping).Ok?
    ensures Get(Transformed(item, mapping).value, k).Some? <==> exists j :: 0 <= j < |mapping| && mapping[j].0 == k
    ensures forall j :: 0 <= j < |mapping| && mapping[j].0 == k ==>
              FindNestedValue(item, mapping[j].1).Ok? &&
              Get(Transformed(item, mapping).value, k) == Some(Stored(mapping[j].1, FindNestedValue(item, mapping[j].1).value))
    ensures forall j :: 0 <= j < |mapping| && mapping[j].0 == k && mapping[j].1.Keys? ==>
              var stored := Get(Transformed(item, mapping).value, k).value;
              stored == JNull || (stored.JArr? && |stored.items| == |mapping[j].1.keys| > 0)
    decreases |mapping|
  {
    if mapping != [] {
      var init := mapping[..|mapping| - 1];
      var last := mapping[|mapping| - 1];
      TransformedContents(item, init, k);
      var prev := Transformed(item, init).value;
      var found := FindNestedValue(item, last.1);
      SetGet(prev, last.0, Stored(last.1, found.value));
      if exists j :: 0 <= j < |init| && init[j].0 == k {
        var j :| 0 <= j < |init| && init[j].0 == k;
        assert mapping[j] == init[j];
      }
      forall j | 0 <= j < |mapping| && mapping[j].0 == k
        ensures FindNestedValue(item, mapping[j].1).Ok? &&
                Get(Transformed(item, mapping).value, k) == Some(Stored(mapping[j].1, FindNestedValue(item, mapping[j].1).value))
      {
        if j < |init| {
          assert init[j] == mapping[j];
          assert last.0 != k;
        }
      }
    }
  }

  /** Transforming the items raises exactly when transforming one of them raises. */
  lemma {:induction false} TransformsRaises(items: seq<Json>, mapping: Mapping)
    ensures Transforms(items, mapping).Err? <==> exists j :: 0 <= j < |items| && Transformed(items[j], mapping).Err?
    decreases |items|
  {
    if items != [] {
      var init := items[..|items| - 1];
      TransformsRaises(init, mapping);
      if exists j :: 0 <= j < |init| && Transformed(init[j], mapping).Err? {
        var j :| 0 <= j < |init| && Transformed(init[j], mapping).Err?;
        assert items[j] == init[j];
      }
      if exists j :: 0 <= j < |items| && Transformed(items[j], mapping).Err? {
        var j :| 0 <= j < |items| && Transformed(items[j], mapping).Err?;
        if j < |init| { assert init[j] == items[j]; }
      }
    }
  }

  /** Every kept row has a truthy value and is the transform of one of the items. */
  lemma {:induction false} TransformsSound(items: seq<Json>, mapping: Mapping)
    ensures Transforms(items, mapping).Ok? ==>
              var rows := Transforms(items, mapping).value;
              |rows| <= |items| &&
              forall i :: 0 <= i < |rows| ==>
                AnyTruthy(rows[i]) && exists j :: 0 <= j < |items| && Transformed(items[j], mapping) == Ok(rows[i])
    decreases |items|
  {
    if items != [] && Transforms(items, mapping).Ok? {
      var init := items[..|items| - 1];
      TransformsSound(init, mapping);
      var prev := Transforms(init, mapping).value;
      var rows := Transforms(items, mapping).value;
      forall i | 0 <= i < |rows|
        ensures AnyTruthy(rows[i]) && exists j :: 0 <= j < |items| && Transformed(items[j], mapping) == Ok(rows[i])
      {
        if i < |prev| {
          assert rows[i] == prev[i];
          var j :| 0 <= j < |init| && Transformed(init[j], mapping) == Ok(prev[i]);
          assert items[j] == init[j];
        } else {
          assert Transformed(items[|items| - 1], mapping) == Ok(rows[i]);
        }
      }
    }
  }

  /** Every item whose transform has a truthy value is kept. */
  lemma {:induction false} TransformsComplete(items: seq<Json>, mapping: Mapping)
    ensures Transforms(items, mapping).Ok? ==>
              forall j :: 0 <= j < |items| && Transformed(items[j], mapping).Ok? && AnyTruthy(Transformed(items[j], mapping).value) ==>
                Transformed(items[j], mapping).value in Transforms(items, mapping).value
    decreases |items|
  {
    if items != [] && Transforms(items, mapping).Ok? {
      var init := items[..|items| - 1];
      TransformsComplete(init, mapping);
      var prev := Transforms(init, mapping).value;
      var rows := Transforms(items, mapping).value;
      assert forall x :: x in prev ==> x in rows;
      forall j | 0 <= j < |items| && Transformed(items[j], mapping).Ok? && AnyTruthy(Transformed(items[j], mapping).value)
        ensures Transformed(items[j], mapping).value in rows
      {
        if j < |init| {
          assert init[j] == items[j];
        }
      }
    }
  }

  /**
   * v2 answers None when it finds no non-empty list or dict, and otherwise a
   * non-empty list of rows that each carry a truthy value and come from the
   * items it found: the list found, or the dict found on its own.
   */
  lemma ReplacedV2Shape(input: Json, mapping: Mapping)
    ensures FirstListOrDict(input, ValuesText(mapping)).None? ==> ReplacedV2(input, mapping) == Ok(None)
    ensures ReplacedV2(input, mapping).Ok? && ReplacedV2(input, mapping).value.Some? ==>
              var found := FirstListOrDict(input, ValuesText(mapping)).value;
              var rows := ReplacedV2(input, mapping).value.value;
              0 < |rows| <= |ItemsOf(found)| &&
              forall i :: 0 <= i < |rows| ==>
                AnyTruthy(rows[i]) && exists j :: 0 <= j < |ItemsOf(found)| && Transformed(ItemsOf(found)[j], mapping) == Ok(rows[i])
  {
    var found := FirstListOrDict(input, ValuesText(mapping));
    if found.Some? {
      TransformsSound(ItemsOf(found.value), mapping);
    }
  }

  /** The text searched always contains "values", whatever the mapping. */
  lemma ValuesTextMentionsValues(mapping: Mapping)
    ensures Contains(ValuesText(mapping), "values")
  {
    var text := ValuesText(mapping);
    assert text[5..][..6] == "values";
    ContainsAt(text, "values", 5);
  }

  /**
   * The key test is a substring test on the text of the mapping's values: a
   * dict with a key named "values" is taken as the one record whatever the
   * mapping says, before any of its values is searched.
   */
  lemma {:induction false} ValuesKeyTakesDict(fields: Fields, mapping: Mapping, i: nat)
    requires i < |fields| && fields[i].0 == "values"
    ensures FirstListOrDict(JObj(fields), ValuesText(mapping)) == Some(JArr([JObj(fields)]))
  {
    ValuesTextMentionsValues(mapping);
    MentionedAt(fields, ValuesText(mapping), i);
  }

  lemma {:induction false} MentionedAt(fields: Fields, text: string, i: nat)
    requires i < |fields| && Contains(text, fields[i].0)
    ensures KeyMentioned(fields, text)
    decreases i
  {
    if i > 0 {
      MentionedAt(fields[1..], text, i - 1);
    }
  }
}
