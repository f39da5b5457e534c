/**
 * The lot record shared by the scheduling code, and the pure helpers of
 * the engine: task scheduling time, overstay limit, dict merging, dotted
 * names, depth-first key search, the max-park-time converters, violation
 * ids, record-id extraction, log sanitising and request-body formatting.
 * Times are integer seconds since the epoch; durations configured in
 * minutes are multiplied by 60.
 */
module Common {
  import opened Wrappers
  import opened Text
  import opened Json

  /** Seconds since midnight. */
  type TimeOfDay = t: int | 0 <= t < 86400

  const DAY := 86400

  /** A paid-parking window of one day, both ends inclusive. */
  datatype Slot = Slot(start: TimeOfDay, end: TimeOfDay)

  /** The four operating modes of a lot; any other stored text is `OtherOperation`. */
  datatype ParkingOperation =
    | SpotBased24HoursFree
    | LprBased24HoursFree
    | Paid24Hours
    | SpecifyLprBasedPaidTime
    | OtherOperation(name: string)

  /** The columns of a connected parking lot that the engine reads. */
  datatype Lot = Lot(
    id: int,
    operation: ParkingOperation,
    maxParkMinutes: Option<int>,
    gracePeriod: int,
    slots: seq<Slot>,
    retryMechanism: int,
    facilityId: string)

  /** The fields of an incoming event that scheduling reads. */
  datatype EventTiming = EventTiming(
    timestamp: int,
    spotGracePeriod: Option<int>,
    licensePlate: Option<string>)

  // ---- next_at_for_task ----

  /** The grace period, in minutes, that applies to an event. */
  function EffectiveGrace(event: EventTiming, lot: Lot): (g: int)
    ensures event.licensePlate.Some? ==> g == lot.gracePeriod
    ensures event.spotGracePeriod.None? ==> g == lot.gracePeriod
    ensures event.licensePlate.None? && event.spotGracePeriod.Some? && event.spotGracePeriod.value != 0 ==>
              g == event.spotGracePeriod.value
  {
    if event.spotGracePeriod.Some? && event.spotGracePeriod.value != 0 && event.licensePlate.None?
    then event.spotGracePeriod.value
    else lot.gracePeriod
  }

  /** When a new task for `event` becomes due. */
  function NextAtForTask(event: EventTiming, lot: Lot, timestamp: Option<int>, windowStatus: bool): (r: int)
    ensures timestamp.Some? ==> r == timestamp.value
    ensures timestamp.None? && windowStatus ==> r == event.timestamp + 60 * EffectiveGrace(event, lot)
    ensures timestamp.None? && !windowStatus ==> r == event.timestamp
  {
    if timestamp.Some? then timestamp.value
    else if windowStatus then event.timestamp + 60 * EffectiveGrace(event, lot)
    else event.timestamp
  }

  // ---- parkinglot_overstay_limit ----

  /** The overstay allowance in minutes, or `None` when the lot has none. */
  function ParkinglotOverstayLimit(lot: Lot): (r: Option<int>)
    ensures r.Some? <==>
      lot.operation != Paid24Hours && lot.operation != SpotBased24HoursFree &&
      lot.maxParkMinutes.Some? && lot.maxParkMinutes.value >= 0
    ensures r.Some? ==> r.value == lot.maxParkMinutes.value && r.value >= 0
  {
    if lot.operation != Paid24Hours && lot.operation != SpotBased24HoursFree &&
       lot.maxParkMinutes.Some? && lot.maxParkMinutes.value >= 0
    then lot.maxParkMinutes
    else None
  }

  // ---- update_without_replacement ----

  /** The value a merge leaves under `k`: the target's if it has one, else the update's. */
  function MergedValue(target: Fields, update: Fields, k: string): Option<Json>
  {
    if HasKey(target, k) then Get(target, k) else Get(update, k)
  }

  /** Adds to `target` every key of `update` it lacks; present keys keep their value and position. */
  method UpdateWithoutReplacement(target: Fields, update: Fields) returns (r: Fields)
    ensures |r| >= |target| && r[..|target|] == target
    ensures forall k :: Get(r, k) == MergedValue(target, update, k)
  {
    r := target;
    var i := 0;
    while i < |update|
      invariant 0 <= i <= |update|
      invariant |r| >= |target| && r[..|target|] == target
      invariant forall k :: Get(r, k) == MergedValue(target, update[..i], k)
    {
      var (key, value) := update[i];
      PrefixGetExtend(update, i);
      assert Get(r, key) == MergedValue(target, update[..i], key);
      if !HasKey(r, key) {
        assert !HasKey(target, key) && !HasKey(update[..i], key);
        assert r[..|target|] == (r + [(key, value)])[..|target|];
        SetShape(r, key, value);
        SetGet(r, key, value);
        r := Set(r, key, value);
        assert Get(r, key) == MergedValue(target, update[..i + 1], key);
      } else {
        assert Get(r, key) == MergedValue(target, update[..i + 1], key);
      }
      i := i + 1;
    }
    assert update[..i] == update;
  }

  /** Extending a prefix by one pair changes the lookup of that pair's key only where it was absent. */
  lemma PrefixGetExtend(d: Fields, i: nat)
    requires i < |d|
    ensures forall k :: k != d[i].0 ==> Get(d[..i + 1], k) == Get(d[..i], k)
    ensures Get(d[..i + 1], d[i].0) == (if HasKey(d[..i], d[i].0) then Get(d[..i], d[i].0) else Some(d[i].1))
  {
    GetAppend(d[..i], d[i]);
    assert d[..i + 1] == d[..i] + [d[i]];
  }

  lemma {:induction false} GetAppend(d: Fields, p: (string, Json))
    ensures forall k :: k != p.0 ==> Get(d + [p], k) == Get(d, k)
    ensures Get(d + [p], p.0) == (if HasKey(d, p.0) then Get(d, p.0) else Some(p.1))
  {
    if d != [] {
      GetAppend(d[1..], p);
      assert (d + [p])[1..] == d[1..] + [p];
    }
  }

  // ---- split_first_dot ----

  datatype DotSplit = Pair(head: string, tail: string) | Whole(text: string)

  /** `text.split('.', 1)`: a pair when there is a dot, the text itself otherwise. */
  function SplitFirstDot(text: string): (r: DotSplit)
    ensures r.Pair? <==> '.' in text
    ensures r.Pair? ==> text == r.head + "." + r.tail && '.' !in r.head
    ensures r.Whole? ==> r.text == text
  {
    if '.' in text then
      var i := IndexOf(text, '.');
      assert text == text[..i] + "." + text[i + 1..];
      Pair(text[..i], text[i + 1..])
    else Whole(text)
  }

  /** A head without a dot is split off at the dot that follows it. */
  lemma SplitFirstDotOf(head: string, tail: string)
    requires '.' !in head
    ensures SplitFirstDot(head + "." + tail) == Pair(head, tail)
  {
    var text := head + "." + tail;
    var i := IndexOf(text, '.');
    assert text[|head|] == '.';
    assert text[..|head|] == head;
    assert i == |head|;
    assert text[i + 1..] == tail;
  }

  // ---- find_key_in_dict ----

  /** Depth-first search for `target`: a dict answers its own key first, then its values in order. */
  function FindKeyInDict(data: Json, target: string): (r: Json)
    ensures data.JObj? && HasKey(data.fields, target) ==> Some(r) == Get(data.fields, target)
    ensures !data.JObj? && !data.JArr? ==> r == JNull
    decreases data
  {
    match data
    case JObj(fields) =>
      if HasKey(fields, target) then Get(fields, target).value else FindKeyInValues(fields, target)
    case JArr(items) => FindKeyInItems(items, target)
    case _ => JNull
  }

  function FindKeyInValues(fields: Fields, target: string): Json
    decreases fields
  {
    if fields == [] then JNull
    else
      var r := FindKeyInPair(fields[0], target);
      if r != JNull then r else FindKeyInValues(fields[1..], target)
  }

  function FindKeyInPair(p: (string, Json), target: string): Json
    decreases p
  {
    FindKeyInDict(p.1, target)
  }

  function FindKeyInItems(items: seq<Json>, target: string): Json
    decreases items
  {
    if items == [] then JNull
    else
      var r := FindKeyInDict(items[0], target);
      if r != JNull then r else FindKeyInItems(items[1..], target)
  }

  /** `(target, v)` is stored somewhere in `data`, at any depth. */
  predicate Occurs(data: Json, target: string, v: Json)
    decreases data
  {
    match data
    case JObj(fields) => OccursInFields(fields, target, v)
    case JArr(items) => OccursInItems(items, target, v)
    case _ => false
  }

  predicate OccursInFields(fields: Fields, target: string, v: Json)
    decreases fields
  {
    fields != [] && (OccursInPair(fields[0], target, v) || OccursInFields(fields[1..], target, v))
  }

  predicate OccursInPair(p: (string, Json), target: string, v: Json)
    decreases p
  {
    (p.0 == target && p.1 == v) || Occurs(p.1, target, v)
  }

  predicate OccursInItems(items: seq<Json>, target: string, v: Json)
    decreases items
  {
    items != [] && (Occurs(items[0], target, v) || OccursInItems(items[1..], target, v))
  }

  lemma {:induction false} GetOccurs(fields: Fields, k: string)
    requires HasKey(fields, k)
    ensures OccursInFields(fields, k, Get(fields, k).value)
    decreases fields
  {
    if fields[0].0 != k {
      GetOccurs(fields[1..], k);
    }
  }

  /** Whatever the search returns (other than None) is a value stored under `target`. */
  lemma {:induction false} FindKeySound(data: Json, target: string)
    ensures FindKeyInDict(data, target) != JNull ==> Occurs(data, target, FindKeyInDict(data, target))
    decreases data
  {
    match data
    case JObj(fields) =>
      if HasKey(fields, target) {
        GetOccurs(fields, target);
      } else {
        FindKeySoundValues(fields, target);
      }
    case JArr(items) => FindKeySoundItems(items, target);
    case _ =>
  }

  lemma {:induction false} FindKeySoundValues(fields: Fields, target: string)
    ensures FindKeyInValues(fields, target) != JNull ==> OccursInFields(fields, target, FindKeyInValues(fields, target))
    decreases fields
  {
    if fields != [] {
      FindKeySoundPair(fields[0], target);
      FindKeySoundValues(fields[1..], target);
    }
  }

  lemma {:induction false} FindKeySoundPair(p: (string, Json), target: string)
    ensures FindKeyInPair(p, target) != JNull ==> OccursInPair(p, target, FindKeyInPair(p, target))
    decreases p
  {
    FindKeySound(p.1, target);
  }

  lemma {:induction false} FindKeySoundItems(items: seq<Json>, target: string)
    ensures FindKeyInItems(items, target) != JNull ==> OccursInItems(items, target, FindKeyInItems(items, target))
    decreases items
  {
    if items != [] {
      FindKeySound(items[0], target);
      FindKeySoundItems(items[1..], target);
    }
  }

  /**
   * A value other than None stored under `target` is always found, unless
   * some dict on the way stores None under `target` (that dict answers
   * None for everything below it).
   */
  lemma {:induction false} FindKeyComplete(data: Json, target: string, v: Json)
    requires Occurs(data, target, v) && v != JNull && !Occurs(data, target, JNull)
    ensures FindKeyInDict(data, target) != JNull
    decreases data
  {
    match data
    case JObj(fields) =>
      if HasKey(fields, target) {
        GetOccurs(fields, target);
      } else {
        FindKeyCompleteValues(fields, target, v);
      }
    case JArr(items) => FindKeyCompleteItems(items, target, v);
  }

  lemma {:induction false} FindKeyCompleteValues(fields: Fields, target: string, v: Json)
    requires OccursInFields(fields, target, v) && v != JNull && !OccursInFields(fields, target, JNull)
    requires !HasKey(fields, target)
    ensures FindKeyInValues(fields, target) != JNull
    decreases fields
  {
    if OccursInPair(fields[0], target, v) {
      FindKeyCompletePair(fields[0], target, v);
    } else {
      FindKeyCompleteValues(fields[1..], target, v);
    }
  }

  lemma {:induction false} FindKeyCompletePair(p: (string, Json), target: string, v: Json)
    requires OccursInPair(p, target, v) && v != JNull && !OccursInPair(p, target, JNull) && p.0 != target
    ensures FindKeyInPair(p, target) != JNull
    decreases p
  {
    FindKeyComplete(p.1, target, v);
  }

  lemma {:induction false} FindKeyCompleteItems(items: seq<Json>, target: string, v: Json)
    requires OccursInItems(items, target, v) && v != JNull && !OccursInItems(items, target, JNull)
    ensures FindKeyInItems(items, target) != JNull
    decreases items
  {
    if Occurs(items[0], target, v) {
      FindKeyComplete(items[0], target, v);
    } else {
      FindKeyCompleteItems(items[1..], target, v);
    }
  }

  /**
   * The answers the search can give, in the order it visits them: a dict
   * holding `target` offers only its own value; any other dict offers
   * those of its values, and a list those of its items, in order.
   */
  function Candidates(data: Json, target: string): seq<Json>
    decreases data
  {
    match data
    case JObj(fields) => if HasKey(fields, target) then [Get(fields, target).value] else CandidatesOfValues(fields, target)
    case JArr(items) => CandidatesOfItems(items, target)
    case _ => []
  }

  function CandidatesOfValues(fields: Fields, target: string): seq<Json>
    decreases fields
  {
    if fields == [] then [] else CandidatesOfPair(fields[0], target) + CandidatesOfValues(fields[1..], target)
  }

  function CandidatesOfPair(p: (string, Json), target: string): seq<Json>
    decreases p
  {
    Candidates(p.1, target)
  }

  function CandidatesOfItems(items: seq<Json>, target: string): seq<Json>
    decreases items
  {
    if items == [] then [] else Candidates(items[0], target) + CandidatesOfItems(items[1..], target)
  }

  /** The first candidate other than None, or None. */
  function FirstNonNull(vs: seq<Json>): (r: Json)
    ensures r != JNull ==> r in vs
    ensures r == JNull <==> forall i :: 0 <= i < |vs| ==> vs[i] == JNull
  {
    if vs == [] then JNull else if vs[0] != JNull then vs[0] else FirstNonNull(vs[1..])
  }

  lemma {:induction false} FirstNonNullAppend(a: seq<Json>, b: seq<Json>)
    ensures FirstNonNull(a + b) == if FirstNonNull(a) != JNull then FirstNonNull(a) else FirstNonNull(b)
    decreases |a|
  {
    if a != [] {
      assert (a + b)[0] == a[0];
      assert (a + b)[1..] == a[1..] + b;
      FirstNonNullAppend(a[1..], b);
    } else {
      assert a + b == b;
    }
  }

  /** find_key_in_dict answers with the first candidate, in depth-first order, that is not None. */
  lemma {:induction false} FindKeyFirst(data: Json, target: string)
    ensures FindKeyInDict(data, target) == FirstNonNull(Candidates(data, target))
    decreases data
  {
    match data
    case JObj(fields) =>
      if !HasKey(fields, target) {
        FindKeyFirstValues(fields, target);
      }
    case JArr(items) => FindKeyFirstItems(items, target);
    case _ =>
  }

  lemma {:induction false} FindKeyFirstValues(fields: Fields, target: string)
    ensures FindKeyInValues(fields, target) == FirstNonNull(CandidatesOfValues(fields, target))
    decreases fields
  {
    if fields != [] {
      FindKeyFirstPair(fields[0], target);
      FindKeyFirstValues(fields[1..], target);
      FirstNonNullAppend(CandidatesOfPair(fields[0], target), CandidatesOfValues(fields[1..], target));
    }
  }

  lemma {:induction false} FindKeyFirstPair(p: (string, Json), target: string)
    ensures FindKeyInPair(p, target) == FirstNonNull(CandidatesOfPair(p, target))
    decreases p
  {
    FindKeyFirst(p.1, target);
  }

  lemma {:induction false} FindKeyFirstItems(items: seq<Json>, target: string)
    ensures FindKeyInItems(items, target) == FirstNonNull(CandidatesOfItems(items, target))
    decreases items
  {
    if items != [] {
      FindKeyFirst(items[0], target);
      FindKeyFirstItems(items[1..], target);
      FirstNonNullAppend(Candidates(items[0], target), CandidatesOfItems(items[1..], target));
    }
  }

  // ---- max park time ----

  /** The hours/minutes form of a maximum park time, as zero-padded text. */
  datatype MaxParkTime = MaxParkTime(hours: string, minutes: string)

  /** Total minutes to hours and minutes; a missing or zero total gives empty fields. */
  function MaxParkTimeToHourMinutes(total: Option<int>): (r: MaxParkTime)
    ensures total.None? || total.value == 0 <==> r == MaxParkTime("", "")
    ensures total.Some? && total.value != 0 ==> |r.hours| >= 2 && |r.minutes| == 2
  {
    if total.None? || total.value == 0 then MaxParkTime("", "")
    else
      var m := total.value;
      var minutes := ZFill(IntToString(m % 60), 2);
      assert |minutes| == 2 by {
        if m % 60 < 10 { assert |IntToString(m % 60)| == 1; }
        else { assert IntToString(m % 60) == NatToString(m % 60 / 10) + [DigitChar(m % 60 % 10)]; }
      }
      MaxParkTime(ZFill(IntToString(m / 60), 2), minutes)
  }

  /** Hours and minutes back to total minutes; empty text counts as "0", non-numeric text raises. */
  function MaxParkTimeToMinutes(t: Option<MaxParkTime>): (r: Result<Option<int>>)
    ensures t.None? <==> r == Ok(None)
    ensures t.Some? && t.value.hours == "" && t.value.minutes == "" ==> r == Ok(Some(0))
    ensures r.Err? ==> r.msg == "invalid literal for int()"
  {
    match t
    case None => Ok(None)
    case Some(x) =>
      var h := FieldValue(x.hours);
      var m := FieldValue(x.minutes);
      if h.None? || m.None? then Err("invalid literal for int()")
      else Ok(Some(h.value * 60 + m.value))
  }

  /** `int(field or "0")`: an empty field reads as 0 (see FieldValueIsInt). */
  function FieldValue(s: string): Option<int>
  {
    if s == "" then Some(0) else ParseInt(s)
  }

  /** FieldValue is int() of the field, with "0" standing in for an empty one. */
  lemma FieldValueIsInt(s: string)
    ensures FieldValue(s) == ParseInt(if s == "" then "0" else s)
  {
    if s == "" {
      assert "0"[..0] == [] && AllDigits("0");
    }
  }

  /** Converting a total to hours/minutes and back gives the total again. */
  lemma {:induction false} MaxParkTimeRoundTrip(m: int)
    ensures MaxParkTimeToMinutes(Some(MaxParkTimeToHourMinutes(Some(m)))) == Ok(Some(m))
  {
    var r := MaxParkTimeToHourMinutes(Some(m));
    if m != 0 {
      assert r == MaxParkTime(ZFill(IntToString(m / 60), 2), ZFill(IntToString(m % 60), 2));
      PaddedFieldsReadBack(m / 60, m % 60);
      HoursAndMinutes(m, m / 60, m % 60, MaxParkTimeToMinutes(Some(r)));
    } else {
      assert r == MaxParkTime("", "");
    }
  }

  /** Euclidean division by 60 splits a total into whole hours and the minutes left. */
  lemma HoursAndMinutes(m: int, h: int, mm: int, read: Result<Option<int>>)
    requires h == m / 60 && mm == m % 60
    requires read == Ok(Some(h * 60 + mm))
    ensures read == Ok(Some(m))
  {
  }

  /** Hours and minutes written with str() and zfill(2) read back as the same hours and minutes. */
  lemma {:induction false} PaddedFieldsReadBack(h: int, m: int)
    ensures MaxParkTimeToMinutes(Some(MaxParkTime(ZFill(IntToString(h), 2), ZFill(IntToString(m), 2)))) ==
            Ok(Some(h * 60 + m))
  {
    ZFillTwoRoundTrip(h);
    ZFillTwoRoundTrip(m);
    var t := MaxParkTime(ZFill(IntToString(h), 2), ZFill(IntToString(m), 2));
    assert t.hours != "" && t.minutes != "" by {
      TextLengths(h);
      TextLengths(m);
    }
    FieldsReadBack(t, h, m);
  }

  /** str(n) is never empty, so neither is its zfill. */
  lemma TextLengths(n: int)
    ensures |ZFill(IntToString(n), 2)| >= 1
  {
  }

  /** Two non-empty fields that int() reads as h and m give h hours and m minutes. */
  lemma {:induction false} FieldsReadBack(t: MaxParkTime, h: int, m: int)
    requires t.hours != "" && t.minutes != ""
    requires ParseInt(t.hours) == Some(h) && ParseInt(t.minutes) == Some(m)
    ensures MaxParkTimeToMinutes(Some(t)) == Ok(Some(h * 60 + m))
  {
  }

  // ---- get_violation_id ----

  /** The alert-type id of a violation event key. */
  function GetViolationId(violationType: string): (id: int)
    ensures violationType == "payment.violation" <==> id == 39
    ensures violationType == "overstay.violation" <==> id == 2
    ensures violationType != "payment.violation" && violationType != "overstay.violation" <==> id == 0
  {
    if violationType == "payment.violation" then 39
    else if violationType == "overstay.violation" then 2
    else 0
  }

  // ---- extract_record_id ----

  /** Bounds of the first run of digits in `s`. */
  function FirstDigitRun(s: string): (r: Option<(nat, nat)>)
    ensures r.None? ==> forall i :: 0 <= i < |s| ==> !IsDigit(s[i])
    ensures r.Some? ==>
      var (lo, hi) := r.value;
      lo < hi <= |s| && (forall i :: 0 <= i < lo ==> !IsDigit(s[i]))
      && (forall i :: lo <= i < hi ==> IsDigit(s[i])) && (hi == |s| || !IsDigit(s[hi]))
  {
    if s == [] then None
    else if IsDigit(s[0]) then Some((0, 1 + RunLength(s[1..])))
    else match FirstDigitRun(s[1..])
      case None => None
      case Some((lo, hi)) => Some((lo + 1, hi + 1))
  }

  function RunLength(s: string): (n: nat)
    ensures n <= |s| && (forall i :: 0 <= i < n ==> IsDigit(s[i])) && (n == |s| || !IsDigit(s[n]))
  {
    if s != [] && IsDigit(s[0]) then 1 + RunLength(s[1..]) else 0
  }

  datatype RecordId = RecordId(id: Option<int>, success: Json)

  /** The first integer in the response's `Message`, with its `Success` flag. */
  function ExtractRecordId(data: Fields): (r: Result<RecordId>)
    ensures Get(data, "Message").Some? && !Get(data, "Message").value.JStr? <==> r.Err?
    ensures r.Ok? ==> r.value.success == Get(data, "Success").GetOr(JBool(false))
    ensures r.Ok? ==>
      var msg := if Get(data, "Message").None? then "" else Get(data, "Message").value.s;
      (r.value.id.None? <==> forall i :: 0 <= i < |msg| ==> !IsDigit(msg[i]))
    ensures r.Ok? && r.value.id.Some? ==>
      var msg := if Get(data, "Message").None? then "" else Get(data, "Message").value.s;
      FirstDigitRun(msg).Some? &&
      var (lo, hi) := FirstDigitRun(msg).value;
      AllDigits(msg[lo..hi]) && r.value.id.value == DigitsValue(msg[lo..hi])
  {
    var message := Get(data, "Message").GetOr(JStr(""));
    var success := Get(data, "Success").GetOr(JBool(false));
    if !message.JStr? then Err("expected string or bytes-like object")
    else
      var s := message.s;
      match FirstDigitRun(s)
      case None => Ok(RecordId(None, success))
      case Some((lo, hi)) =>
        assert AllDigits(s[lo..hi]);
        Ok(RecordId(Some(DigitsValue(s[lo..hi])), success))
  }

  // ---- sanitize_logged_data ----

  const KEYS_TO_TRUNCATE: seq<string> :=
    ["LRPlateImage", "LRContextImage", "LPROverviewImage", "FRContextImage", "FROverviewImage", "FRPlateImage"]

  function Truncate20(s: string): string { if |s| <= 20 then s else s[..20] }

  /** The value under `k` once the excluded keys are gone and the keys in `truncate` are cut. */
  function SanitizedUpTo(data: Fields, exclude: seq<string>, truncate: seq<string>, k: string): Option<Json>
  {
    if k in exclude then None
    else match Get(data, k)
      case Some(JStr(s)) => if k in truncate then Some(JStr(Truncate20(s))) else Some(JStr(s))
      case other => other
  }

  /** What sanitising does to the value stored under `k`. */
  function SanitizedValue(data: Fields, exclude: seq<string>, k: string): Option<Json>
  {
    SanitizedUpTo(data, exclude, KEYS_TO_TRUNCATE, k)
  }

  /** A copy of a logged payload without the excluded keys and with image texts cut to 20 characters. */
  method SanitizeLoggedData(data: Fields, exclude: seq<string>) returns (r: Fields)
    ensures forall k :: Get(r, k) == SanitizedValue(data, exclude, k)
  {
    r := data;
    var i := 0;
    while i < |exclude|
      invariant 0 <= i <= |exclude|
      invariant forall k :: Get(r, k) == (if k in exclude[..i] then None else Get(data, k))
    {
      ExcludedStep(r, data, exclude, i);
      if r != [] && HasKey(r, exclude[i]) {
        r := Remove(r, exclude[i]);
      }
      i := i + 1;
    }
    assert exclude[..i] == exclude;
    var j := 0;
    while j < |KEYS_TO_TRUNCATE|
      invariant 0 <= j <= |KEYS_TO_TRUNCATE|
      invariant forall k :: Get(r, k) == SanitizedUpTo(data, exclude, KEYS_TO_TRUNCATE[..j], k)
    {
      var key := KEYS_TO_TRUNCATE[j];
      TruncatedStep(r, data, exclude, KEYS_TO_TRUNCATE, j);
      if r != [] && HasKey(r, key) {
        var value := Get(r, key).GetOr(JStr(""));
        if value.JStr? {
          r := Set(r, key, JStr(Truncate20(value.s)));
        }
      }
      j := j + 1;
    }
    assert KEYS_TO_TRUNCATE[..j] == KEYS_TO_TRUNCATE;
  }

  /** One more excluded key removed. */
  lemma ExcludedStep(r: Fields, data: Fields, exclude: seq<string>, i: nat)
    requires i < |exclude|
    requires forall k :: Get(r, k) == (if k in exclude[..i] then None else Get(data, k))
    ensures var next := if r != [] && HasKey(r, exclude[i]) then Remove(r, exclude[i]) else r;
            forall k :: Get(next, k) == (if k in exclude[..i + 1] then None else Get(data, k))
  {
    assert exclude[..i + 1] == exclude[..i] + [exclude[i]];
  }

  /** The value under the j-th key once cut, whether or not an earlier key was the same. */
  lemma TruncatedAt(value: Json, data: Fields, exclude: seq<string>, keys: seq<string>, j: nat)
    requires j < |keys| && value.JStr?
    requires Some(value) == SanitizedUpTo(data, exclude, keys[..j], keys[j])
    ensures Some(JStr(Truncate20(value.s))) == SanitizedUpTo(data, exclude, keys[..j + 1], keys[j])
  {
    assert keys[j] in keys[..j + 1];
  }

  /** A missing or non-text value under the j-th key is left as it is. */
  lemma UntruncatedAt(value: Option<Json>, data: Fields, exclude: seq<string>, keys: seq<string>, j: nat)
    requires j < |keys| && !(value.Some? && value.value.JStr?)
    requires value == SanitizedUpTo(data, exclude, keys[..j], keys[j])
    ensures value == SanitizedUpTo(data, exclude, keys[..j + 1], keys[j])
  {
  }

  /** Cutting the j-th key leaves the other keys' values alone. */
  lemma TruncatedOther(data: Fields, exclude: seq<string>, keys: seq<string>, j: nat, k: string)
    requires j < |keys| && k != keys[j]
    ensures SanitizedUpTo(data, exclude, keys[..j + 1], k) == SanitizedUpTo(data, exclude, keys[..j], k)
  {
    assert keys[..j + 1] == keys[..j] + [keys[j]];
  }

  /** One more key cut to 20 characters, when it holds a text. */
  lemma TruncatedStep(r: Fields, data: Fields, exclude: seq<string>, keys: seq<string>, j: nat)
    requires j < |keys|
    requires forall k :: Get(r, k) == SanitizedUpTo(data, exclude, keys[..j], k)
    ensures var key := keys[j];
            var value := Get(r, key).GetOr(JStr(""));
            var next := if r != [] && HasKey(r, key) && value.JStr? then Set(r, key, JStr(Truncate20(value.s))) else r;
            forall k :: Get(next, k) == SanitizedUpTo(data, exclude, keys[..j + 1], k)
  {
    var key := keys[j];
    var value := Get(r, key).GetOr(JStr(""));
    if r != [] && HasKey(r, key) && value.JStr? {
      var next := Set(r, key, JStr(Truncate20(value.s)));
      SetGet(r, key, JStr(Truncate20(value.s)));
      forall k ensures Get(next, k) == SanitizedUpTo(data, exclude, keys[..j + 1], k) {
        if k == key {
          TruncatedAt(Get(r, key).value, data, exclude, keys, j);
        } else {
          TruncatedOther(data, exclude, keys, j, k);
        }
      }
    } else {
      forall k ensures Get(r, k) == SanitizedUpTo(data, exclude, keys[..j + 1], k) {
        if k == key {
          UntruncatedAt(Get(r, key), data, exclude, keys, j);
        } else {
          TruncatedOther(data, exclude, keys, j, k);
        }
      }
    }
  }

  // ---- format_body ----

  /** The value of the last pair for `k`, as a dict built pair by pair keeps it. */
  function LastValue(body: Fields, k: string): Option<Json>
  {
    if body == [] then None
    else if body[|body| - 1].0 == k then Some(body[|body| - 1].1)
    else LastValue(body[..|body| - 1], k)
  }

  /** The value a formatted body holds under `k`. */
  function FormattedValue(body: Fields, utcNow: string, k: string): Option<Json>
  {
    if k == "Timestamp" && LastValue(body, k).Some? then Some(JStr(utcNow)) else LastValue(body, k)
  }

  /** A request body built from key/value pairs; a "Timestamp" entry takes the current time. */
  method FormatBody(body: Fields, utcNow: string) returns (r: Fields)
    ensures forall k :: Get(r, k) == FormattedValue(body, utcNow, k)
  {
    r := [];
    var i := 0;
    while i < |body|
      invariant 0 <= i <= |body|
      invariant forall k :: Get(r, k) == FormattedValue(body[..i], utcNow, k)
    {
      var (key, value) := body[i];
      if key == "Timestamp" {
        value := JStr(utcNow);
      }
      SetGet(r, key, value);
      r := Set(r, key, value);
      assert body[..i + 1][..i] == body[..i];
      i := i + 1;
    }
    assert body[..i] == body;
  }
}
