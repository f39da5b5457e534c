/**
 * Fuzzy plate matching of provider records (payments, reservations,
 * passes) against a task's plate. A record is looked at only while its
 * paid/expiry interval contains "now"; its plates are ranked by Levenshtein
 * distance, an exact match wins at once, and otherwise the first plate
 * with the smallest distance within the threshold is kept.
 */
module DataFilter {
  import opened Wrappers
  import opened Text
  import opened Enums
  import opened TaskModel

  /** 1990-01-01T12:00:00 UTC, the date a record without paid or expiry date is given. */
  const DEFAULT_DATE := 631195200

  /** The `plate_number` entry of a record: missing, null, one plate, or a list of plates. */
  datatype Plates = NoPlateKey | NullPlate | OnePlate(plate: string) | PlateList(plates: seq<string>)

  /** A paid or expiry date: absent, parsed, or present but unreadable (null or in no known format). */
  datatype Date = Absent | At(t: int) | Unreadable

  /** The parts of a provider record the matching reads and writes. */
  datatype Record = Record(
    plates: Plates,
    paidDate: Date,
    expiryDate: Date,
    filteredLprKeys: Option<seq<string>>,
    matchLpr: Option<string>)

  function Min3(a: nat, b: nat, c: nat): nat
  {
    if a <= b && a <= c then a else if b <= c then b else c
  }

  /** Levenshtein edit distance: insertions, deletions and substitutions of one character. */
  function Levenshtein(a: string, b: string): (d: nat)
    ensures d >= |a| - |b| && d >= |b| - |a|
    ensures d <= if |a| >= |b| then |a| else |b|
    decreases |a| + |b|
  {
    if a == [] then |b|
    else if b == [] then |a|
    else Min3(Levenshtein(a[1..], b) + 1, Levenshtein(a, b[1..]) + 1,
              Levenshtein(a[1..], b[1..]) + if a[0] == b[0] then 0 else 1)
  }

  /** Distance zero means the very same text. */
  lemma {:induction false} LevenshteinZero(a: string, b: string)
    ensures Levenshtein(a, b) == 0 <==> a == b
    decreases |a| + |b|
  {
    if a != [] && b != [] {
      LevenshteinZero(a[1..], b[1..]);
      if a == b {
        assert a[1..] == b[1..];
      }
      if Levenshtein(a, b) == 0 {
        assert Levenshtein(a[1..], b[1..]) == 0 && a[0] == b[0];
        assert a == [a[0]] + a[1..] && b == [b[0]] + b[1..];
      }
    }
  }

  // ---------------------------------------------------------------- the records, as one stream of plates

  /** The plates of a record, a single plate string being a one-element list. */
  function PlatesOf(p: Plates): seq<string>
  {
    match p
    case OnePlate(s) => [s]
    case PlateList(ps) => ps
    case _ => []
  }

  /** Python truthiness of the plate entry. */
  predicate HasPlates(p: Plates)
  {
    match p
    case OnePlate(s) => s != ""
    case PlateList(ps) => ps != []
    case _ => false
  }

  function DateValue(d: Date): int
    requires d != Unreadable
  {
    if d.At? then d.t else DEFAULT_DATE
  }

  /** A record the loop can read without raising: it has a plate entry and readable dates. */
  predicate Readable(r: Record)
  {
    !r.plates.NoPlateKey? && r.paidDate != Unreadable && r.expiryDate != Unreadable
  }

  /** Both ends inclusive. */
  predicate InWindow(r: Record, now: int)
    requires Readable(r)
  {
    DateValue(r.paidDate) <= now <= DateValue(r.expiryDate)
  }

  /** What the loop meets: a record it cannot read (which raises), or one plate of a record to compare. */
  datatype Item = Failure | Candidate(record: Record, plate: string)

  /** The plates of one record, each paired with the record. */
  function Candidates(r: Record, plates: seq<string>): (items: seq<Item>)
    ensures |items| == |plates|
  {
    if plates == [] then []
    else Candidates(r, plates[..|plates| - 1]) + [Candidate(r, plates[|plates| - 1])]
  }

  lemma {:induction false} CandidatesAppend(r: Record, p: seq<string>, q: seq<string>)
    ensures Candidates(r, p + q) == Candidates(r, p) + Candidates(r, q)
    decreases |q|
  {
    if q == [] {
      assert p + q == p;
    } else {
      var init := q[..|q| - 1];
      CandidatesAppend(r, p, init);
      assert (p + q)[..|p + q| - 1] == p + init;
    }
  }

  /** What one record contributes: a failure, its plates when it is valid now, or nothing. */
  function RecordItems(r: Record, now: int): seq<Item>
  {
    if !Readable(r) then [Failure]
    else if InWindow(r, now) && HasPlates(r.plates) then Candidates(r, PlatesOf(r.plates))
    else []
  }

  function Items(records: seq<Record>, now: int): seq<Item>
  {
    if records == [] then []
    else Items(records[..|records| - 1], now) + RecordItems(records[|records| - 1], now)
  }

  // ---------------------------------------------------------------- the scan

  /** The two output fields: the matched record and the plate it matched with. */
  datatype Match = Match(record: Option<Record>, plate: Option<string>)

  const NO_MATCH := Match(None, None)

  /** The scan state: still going with the best so far and its distance (None is infinity), or stopped. */
  datatype Scan = Scanning(found: Match, minDistance: Option<nat>) | Stopped(result: Match)

  /** The case-insensitive distance of a plate to the task's plate. */
  function Distance(plate: string, target: string): nat
  {
    Levenshtein(Upper(plate), Upper(target))
  }

  /** A record carrying the plate it matched with (`record.update({"match_lpr": plate})`). */
  function Matched(r: Record, plate: string): Record
  {
    r.(matchLpr := Some(plate))
  }

  /**
   * One step of the loop. An unreadable record, or a task without a plate,
   * raises: the exception is caught and the output so far is returned. An
   * exact match returns at once; a closer match within the threshold
   * replaces the best so far.
   */
  function Step(s: Scan, item: Item, target: Option<string>, maxDistance: int): Scan
  {
    match s
    case Stopped(_) => s
    case Scanning(found, minDistance) =>
      match item
      case Failure => Stopped(found)
      case Candidate(r, p) =>
        if target.None? then Stopped(found)
        else
          var d := Distance(p, target.value);
          if d == 0 then Stopped(Match(Some(Matched(r, p)), target))
          else if d <= maxDistance && (minDistance.None? || d < minDistance.value) then
            Scanning(Match(Some(Matched(r, p)), Some(p)), Some(d))
          else s
  }

  const START := Scanning(NO_MATCH, None)

  function Fold(items: seq<Item>, target: Option<string>, maxDistance: int): Scan
  {
    if items == [] then START
    else Step(Fold(items[..|items| - 1], target, maxDistance), items[|items| - 1], target, maxDistance)
  }

  function Outcome(s: Scan): Match
  {
    match s
    case Scanning(found, _) => found
    case Stopped(result) => result
  }

  /** What find_closest_match returns. */
  function Closest(records: seq<Record>, target: Option<string>, maxDistance: int, now: int): Match
  {
    Outcome(Fold(Items(records, now), target, maxDistance))
  }

  lemma FoldSnoc(items: seq<Item>, x: Item, target: Option<string>, maxDistance: int)
    ensures Fold(items + [x], target, maxDistance) == Step(Fold(items, target, maxDistance), x, target, maxDistance)
  {
    assert (items + [x])[..|items|] == items;
  }

  lemma ItemsSnoc(records: seq<Record>, r: Record, now: int)
    ensures Items(records + [r], now) == Items(records, now) + RecordItems(r, now)
  {
    assert (records + [r])[..|records|] == records;
  }

  lemma ItemsNext(records: seq<Record>, i: nat, now: int)
    requires i < |records|
    ensures Items(records[..i + 1], now) == Items(records[..i], now) + RecordItems(records[i], now)
  {
    assert records[..i + 1][..i] == records[..i];
  }

  // ---------------------------------------------------------------- the loop

  /**
   * find_closest_match, the loop over the records. The record dictionaries
   * it updates in place are returned as values.
   */
  method FindClosestMatch(records: seq<Record>, target: Option<string>, maxDistance: int, now: int)
    returns (output: Match)
    ensures output == Closest(records, target, maxDistance, now)
  {
    output := NO_MATCH;
    var minDistance: Option<nat> := None;
    var i := 0;
    while i < |records|
      invariant 0 <= i <= |records|
      invariant Fold(Items(records[..i], now), target, maxDistance) == Scanning(output, minDistance)
    {
      var scan := ScanRecord(records, i, target, maxDistance, now, output, minDistance);
      if scan.Stopped? {
        return scan.result;
      }
      output, minDistance := scan.found, scan.minDistance;
      i := i + 1;
    }
    AllRecordsRead(records);
  }

  lemma AllRecordsRead(records: seq<Record>)
    ensures records[..|records|] == records
  {
  }

  /** One pass of the outer loop of find_closest_match: record i. */
  method ScanRecord(records: seq<Record>, i: nat, target: Option<string>, maxDistance: int, now: int,
                    found: Match, minDistance: Option<nat>)
    returns (scan: Scan)
    requires i < |records|
    requires Fold(Items(records[..i], now), target, maxDistance) == Scanning(found, minDistance)
    ensures scan == Fold(Items(records[..i + 1], now), target, maxDistance)
    ensures scan.Stopped? ==> scan.result == Closest(records, target, maxDistance, now)
  {
    var record := records[i];
    ghost var before := Items(records[..i], now);
    ItemsNext(records, i, now);
    if !Readable(record) {
      FoldSnoc(before, Failure, target, maxDistance);
      StoppedPrefix(records, i + 1, now, target, maxDistance);
      return Stopped(found);
    }
    if InWindow(record, now) && HasPlates(record.plates) {
      scan := ScanPlates(record, PlatesOf(record.plates), target, maxDistance, found, minDistance, before);
      if scan.Stopped? {
        StoppedPrefix(records, i + 1, now, target, maxDistance);
      }
    } else {
      assert before + RecordItems(record, now) == before;
      scan := Scanning(found, minDistance);
    }
  }

  /** The inner loop of find_closest_match, over the plates of one record. */
  method ScanPlates(record: Record, plates: seq<string>, target: Option<string>, maxDistance: int,
                    found: Match, minDistance: Option<nat>, ghost before: seq<Item>)
    returns (scan: Scan)
    requires Fold(before, target, maxDistance) == Scanning(found, minDistance)
    ensures scan == Fold(before + Candidates(record, plates), target, maxDistance)
  {
    var output, best := found, minDistance;
    var j := 0;
    CandidatesNone(before, record, plates);
    while j < |plates|
      invariant 0 <= j <= |plates|
      invariant Fold(before + Candidates(record, plates[..j]), target, maxDistance) == Scanning(output, best)
    {
      var plate := plates[j];
      ghost var seen := before + Candidates(record, plates[..j]);
      CandidatesNext(before, record, plates, j);
      FoldSnoc(seen, Candidate(record, plate), target, maxDistance);
      if target.None? {
        StoppedInCandidates(before, record, plates, j, target, maxDistance);
        return Stopped(output);
      }
      var distance := Distance(plate, target.value);
      if distance == 0 {
        StoppedInCandidates(before, record, plates, j, target, maxDistance);
        return Stopped(Match(Some(Matched(record, plate)), target));
      }
      if distance <= maxDistance && (best.None? || distance < best.value) {
        output := Match(Some(Matched(record, plate)), Some(plate));
        best := Some(distance);
      }
      j := j + 1;
    }
    CandidatesAll(before, record, plates);
    scan := Scanning(output, best);
  }

  lemma CandidatesNone(before: seq<Item>, r: Record, plates: seq<string>)
    ensures before + Candidates(r, plates[..0]) == before
  {
  }

  lemma CandidatesNext(before: seq<Item>, r: Record, plates: seq<string>, j: nat)
    requires j < |plates|
    ensures before + Candidates(r, plates[..j + 1]) == (before + Candidates(r, plates[..j])) + [Candidate(r, plates[j])]
  {
    assert plates[..j + 1][..j] == plates[..j];
  }

  lemma CandidatesAll(before: seq<Item>, r: Record, plates: seq<string>)
    ensures before + Candidates(r, plates[..|plates|]) == before + Candidates(r, plates)
  {
    assert plates[..|plates|] == plates;
  }

  /** Once stopped, the scan stays stopped with the same output. */
  lemma {:induction false} FoldStoppedStays(items: seq<Item>, more: seq<Item>, target: Option<string>, maxDistance: int)
    requires Fold(items, target, maxDistance).Stopped?
    ensures Fold(items + more, target, maxDistance) == Fold(items, target, maxDistance)
    decreases |more|
  {
    if more != [] {
      var init := more[..|more| - 1];
      FoldStoppedStays(items, init, target, maxDistance);
      assert items + more == (items + init) + [more[|more| - 1]];
      FoldSnoc(items + init, more[|more| - 1], target, maxDistance);
    } else {
      assert items + more == items;
    }
  }

  /** The stream of a list of records is the streams of its parts, one after the other. */
  lemma {:induction false} ItemsAppend(a: seq<Record>, b: seq<Record>, now: int)
    ensures Items(a + b, now) == Items(a, now) + Items(b, now)
    decreases |b|
  {
    if b == [] {
      assert a + b == a;
    } else {
      var init, last := b[..|b| - 1], b[|b| - 1];
      ItemsAppend(a, init, now);
      ItemsAppendLast(a, b, now);
      AppendAssoc(Items(a, now), Items(init, now), RecordItems(last, now));
    }
  }

  lemma ItemsAppendLast(a: seq<Record>, b: seq<Record>, now: int)
    requires b != []
    ensures Items(a + b, now) == Items(a + b[..|b| - 1], now) + RecordItems(b[|b| - 1], now)
  {
    var ab := a + b;
    assert ab[..|ab| - 1] == a + b[..|b| - 1];
  }

  lemma AppendAssoc<T>(x: seq<T>, y: seq<T>, z: seq<T>)
    ensures (x + y) + z == x + (y + z)
  {
  }

  /** A scan stopped on the first n records is the scan of all of them. */
  lemma StoppedPrefix(records: seq<Record>, n: nat, now: int, target: Option<string>, maxDistance: int)
    requires n <= |records| && Fold(Items(records[..n], now), target, maxDistance).Stopped?
    ensures Closest(records, target, maxDistance, now) == Outcome(Fold(Items(records[..n], now), target, maxDistance))
  {
    assert records == records[..n] + records[n..];
    ItemsAppend(records[..n], records[n..], now);
    FoldStoppedStays(Items(records[..n], now), Items(records[n..], now), target, maxDistance);
  }

  /** A scan stopped at plate j of a record is stopped after all its plates. */
  lemma StoppedInCandidates(before: seq<Item>, r: Record, plates: seq<string>, j: nat, target: Option<string>, maxDistance: int)
    requires j < |plates| && Fold(before + Candidates(r, plates[..j + 1]), target, maxDistance).Stopped?
    ensures Fold(before + Candidates(r, plates), target, maxDistance) ==
              Fold(before + Candidates(r, plates[..j + 1]), target, maxDistance)
  {
    var head, tail := plates[..j + 1], plates[j + 1..];
    var stopped := before + Candidates(r, head);
    assert Candidates(r, plates) == Candidates(r, head) + Candidates(r, tail) by {
      assert plates == head + tail;
      CandidatesAppend(r, head, tail);
    }
    assert before + Candidates(r, plates) == stopped + Candidates(r, tail);
    FoldStoppedStays(stopped, Candidates(r, tail), target, maxDistance);
  }

  // ---------------------------------------------------------------- what the scan finds

  /** A plate the scan would take: an exact match, or one within the threshold. */
  predicate Qualifies(item: Item, target: string, maxDistance: int)
    requires item.Candidate?
  {
    Distance(item.plate, target) == 0 || Distance(item.plate, target) <= maxDistance
  }

  /** No record in the stream fails to read. */
  predicate AllCandidates(items: seq<Item>)
  {
    forall m :: 0 <= m < |items| ==> items[m].Candidate?
  }

  lemma AllCandidatesPrefix(items: seq<Item>)
    requires items != [] && AllCandidates(items)
    ensures AllCandidates(items[..|items| - 1])
  {
  }

  /**
   * With a plate to compare and nothing failing, the scan has found a record
   * exactly when some plate qualifies; while it goes on it remembers a
   * distance exactly when it has found one. Whenever a record is found, so is
   * the plate it matched with, and the record carries that plate.
   */
  lemma {:induction false} FoundIffQualifies(items: seq<Item>, target: string, maxDistance: int)
    requires AllCandidates(items)
    ensures var s := Fold(items, Some(target), maxDistance);
            (s.Stopped? ==> s.result.record.Some?) &&
            (s.Scanning? ==> (s.found.record.None? <==> s.minDistance.None?)) &&
            (Outcome(s).record.Some? <==> exists m :: 0 <= m < |items| && Qualifies(items[m], target, maxDistance))
    decreases |items|
  {
    if items != [] {
      var init := items[..|items| - 1];
      var last := items[|items| - 1];
      FoundIffQualifies(init, target, maxDistance);
      var s := Fold(init, Some(target), maxDistance);
      var t := Fold(items, Some(target), maxDistance);
      assert t == Step(s, last, Some(target), maxDistance);
      if Outcome(t).record.Some? && s.Scanning? && s.found.record.None? {
        assert Qualifies(items[|items| - 1], target, maxDistance);
      }
      if exists m :: 0 <= m < |items| && Qualifies(items[m], target, maxDistance) {
        var m :| 0 <= m < |items| && Qualifies(items[m], target, maxDistance);
        if m < |items| - 1 {
          assert init[m] == items[m];
        }
      }
      if exists m :: 0 <= m < |init| && Qualifies(init[m], target, maxDistance) {
        var m :| 0 <= m < |init| && Qualifies(init[m], target, maxDistance);
        assert items[m] == init[m];
      }
    }
  }

  /** A scan that has not stopped has met no exact match (and no failure). */
  lemma {:induction false} ScanningMeansNoExact(items: seq<Item>, target: string, maxDistance: int)
    requires Fold(items, Some(target), maxDistance).Scanning?
    ensures AllCandidates(items)
    ensures forall m :: 0 <= m < |items| ==> Distance(items[m].plate, target) != 0
    decreases |items|
  {
    if items != [] {
      var init := items[..|items| - 1];
      assert Fold(items, Some(target), maxDistance) ==
               Step(Fold(init, Some(target), maxDistance), items[|items| - 1], Some(target), maxDistance);
      ScanningMeansNoExact(init, target, maxDistance);
      forall m | 0 <= m < |items| ensures items[m].Candidate? && Distance(items[m].plate, target) != 0 {
        if m < |items| - 1 {
          assert items[m] == init[m];
        }
      }
    }
  }

  /**
   * The first exact match wins: when every plate before position k is
   * compared without an exact match, and the plate at k matches exactly,
   * the result is that record, carrying that plate, with the task's plate.
   */
  lemma FirstExactMatchWins(items: seq<Item>, k: nat, target: string, maxDistance: int)
    requires k < |items| && items[k].Candidate? && Distance(items[k].plate, target) == 0
    requires forall m :: 0 <= m < k ==> items[m].Candidate? && Distance(items[m].plate, target) != 0
    ensures Outcome(Fold(items, Some(target), maxDistance)) ==
              Match(Some(Matched(items[k].record, items[k].plate)), Some(target))
  {
    var head := items[..k];
    NoExactKeepsScanning(head, target, maxDistance);
    FoldSnoc(head, items[k], Some(target), maxDistance);
    assert items[..k + 1] == head + [items[k]];
    assert items == items[..k + 1] + items[k + 1..];
    FoldStoppedStays(items[..k + 1], items[k + 1..], Some(target), maxDistance);
  }

  /** Plates compared without an exact match keep the scan going. */
  lemma {:induction false} NoExactKeepsScanning(items: seq<Item>, target: string, maxDistance: int)
    requires forall m :: 0 <= m < |items| ==> items[m].Candidate? && Distance(items[m].plate, target) != 0
    ensures Fold(items, Some(target), maxDistance).Scanning?
    decreases |items|
  {
    if items != [] {
      var init := items[..|items| - 1];
      NoExactKeepsScanning(init, target, maxDistance);
    }
  }

  /**
   * The best fuzzy match: when the scan ends without an exact match but
   * with a record, that record and plate come from some position k whose
   * distance is within the threshold, strictly smaller than the distance of
   * every earlier plate and no larger than that of every later one. Among
   * equally close plates the first is therefore kept.
   */
  lemma {:induction false} BestFuzzyMatch(items: seq<Item>, target: string, maxDistance: int) returns (k: nat)
    requires Fold(items, Some(target), maxDistance).Scanning?
    requires Fold(items, Some(target), maxDistance).found.record.Some?
    ensures k < |items| && AllCandidates(items)
    ensures var d := Distance(items[k].plate, target);
            0 < d <= maxDistance &&
            Fold(items, Some(target), maxDistance) ==
              Scanning(Match(Some(Matched(items[k].record, items[k].plate)), Some(items[k].plate)), Some(d)) &&
            (forall m :: 0 <= m < k ==> Distance(items[m].plate, target) > d) &&
            (forall m :: k < m < |items| ==> Distance(items[m].plate, target) >= d)
    decreases |items|
  {
    ScanningMeansNoExact(items, target, maxDistance);
    var init := items[..|items| - 1];
    var last := items[|items| - 1];
    var s := Fold(init, Some(target), maxDistance);
    var t := Fold(items, Some(target), maxDistance);
    assert t == Step(s, last, Some(target), maxDistance);
    ScanningMeansNoExact(init, target, maxDistance);
    FoundIffQualifies(init, target, maxDistance);
    var dl := Distance(last.plate, target);
    if t != s {
      k := |items| - 1;
      assert t == Scanning(Match(Some(Matched(last.record, last.plate)), Some(last.plate)), Some(dl));
      if s.found.record.Some? {
        var k0 := BestFuzzyMatch(init, target, maxDistance);
        assert dl < Distance(init[k0].plate, target);
        CloserThanBest(items, init, target, k0, dl);
      } else {
        CloserThanNone(items, init, target, maxDistance, dl);
      }
    } else {
      k := BestFuzzyMatch(init, target, maxDistance);
      assert dl >= Distance(init[k].plate, target);
      BestKept(items, init, target, k);
    }
  }

  /** A last plate closer than the best of the earlier ones is closer than every earlier one. */
  lemma CloserThanBest(items: seq<Item>, init: seq<Item>, target: string, k0: nat, dl: nat)
    requires items != [] && init == items[..|items| - 1] && AllCandidates(items)
    requires k0 < |init| && dl < Distance(init[k0].plate, target)
    requires forall m :: 0 <= m < k0 ==> Distance(init[m].plate, target) > Distance(init[k0].plate, target)
    requires forall m :: k0 < m < |init| ==> Distance(init[m].plate, target) >= Distance(init[k0].plate, target)
    ensures forall m :: 0 <= m < |items| - 1 ==> Distance(items[m].plate, target) > dl
  {
    forall m | 0 <= m < |items| - 1 ensures Distance(items[m].plate, target) > dl {
      assert items[m] == init[m];
    }
  }

  /** A last plate within the threshold, after none qualified, is closer than every earlier one. */
  lemma CloserThanNone(items: seq<Item>, init: seq<Item>, target: string, maxDistance: int, dl: nat)
    requires items != [] && init == items[..|items| - 1] && AllCandidates(items) && dl <= maxDistance
    requires !exists m :: 0 <= m < |init| && Qualifies(init[m], target, maxDistance)
    ensures forall m :: 0 <= m < |items| - 1 ==> Distance(items[m].plate, target) > dl
  {
    forall m | 0 <= m < |items| - 1 ensures Distance(items[m].plate, target) > dl {
      assert items[m] == init[m];
      assert !Qualifies(init[m], target, maxDistance);
    }
  }

  /** A last plate no closer than the best keeps the best where it was. */
  lemma BestKept(items: seq<Item>, init: seq<Item>, target: string, k: nat)
    requires items != [] && init == items[..|items| - 1] && AllCandidates(items)
    requires k < |init| && Distance(items[|items| - 1].plate, target) >= Distance(init[k].plate, target)
    requires forall m :: 0 <= m < k ==> Distance(init[m].plate, target) > Distance(init[k].plate, target)
    requires forall m :: k < m < |init| ==> Distance(init[m].plate, target) >= Distance(init[k].plate, target)
    ensures items[k] == init[k]
    ensures forall m :: 0 <= m < k ==> Distance(items[m].plate, target) > Distance(items[k].plate, target)
    ensures forall m :: k < m < |items| ==> Distance(items[m].plate, target) >= Distance(items[k].plate, target)
  {
    forall m | 0 <= m < k ensures Distance(items[m].plate, target) > Distance(items[k].plate, target) {
      assert items[m] == init[m];
    }
    forall m | k < m < |items| ensures Distance(items[m].plate, target) >= Distance(items[k].plate, target) {
      if m < |items| - 1 { assert items[m] == init[m]; }
    }
  }

  // ---------------------------------------------------------------- the same, in terms of the records

  /** Record `r` of the list offers plate `p` now: it is readable, valid now, and lists `p`. */
  predicate Offers(records: seq<Record>, now: int, r: Record, p: string)
  {
    r in records && Readable(r) && InWindow(r, now) && HasPlates(r.plates) && p in PlatesOf(r.plates)
  }

  predicate AllReadable(records: seq<Record>)
  {
    forall k :: 0 <= k < |records| ==> Readable(records[k])
  }

  lemma {:induction false} CandidatesMembership(r: Record, plates: seq<string>)
    ensures forall q, p :: Candidate(q, p) in Candidates(r, plates) <==> q == r && p in plates
    ensures forall m :: 0 <= m < |plates| ==> Candidates(r, plates)[m].Candidate?
    decreases |plates|
  {
    if plates != [] {
      var init := plates[..|plates| - 1];
      CandidatesMembership(r, init);
      assert plates == init + [plates[|plates| - 1]];
    }
  }

  /** The stream holds exactly the plates the records offer, and no failure when all are readable. */
  lemma {:induction false} ItemsMembership(records: seq<Record>, now: int)
    ensures forall r, p :: Candidate(r, p) in Items(records, now) <==> Offers(records, now, r, p)
    ensures AllReadable(records) ==> AllCandidates(Items(records, now))
    decreases |records|
  {
    if records != [] {
      var init := records[..|records| - 1];
      var last := records[|records| - 1];
      ItemsMembership(init, now);
      assert records == init + [last];
      assert Items(records, now) == Items(init, now) + RecordItems(last, now);
      if Readable(last) && InWindow(last, now) && HasPlates(last.plates) {
        CandidatesMembership(last, PlatesOf(last.plates));
      }
      forall r, p ensures Candidate(r, p) in Items(records, now) <==> Offers(records, now, r, p) {
        assert r in records <==> r in init || r == last;
      }
      if AllReadable(records) {
        assert AllReadable(init) by {
          forall k | 0 <= k < |init| ensures Readable(init[k]) { assert init[k] == records[k]; }
        }
        forall m | 0 <= m < |Items(records, now)| ensures Items(records, now)[m].Candidate? {
          var items := Items(records, now);
          if m >= |Items(init, now)| {
            assert items[m] in RecordItems(last, now);
            CandidatesMembership(last, PlatesOf(last.plates));
          }
        }
      }
    }
  }

  /**
   * With every record readable and a plate to compare, find_closest_match
   * returns no record exactly when no plate any record offers now is an
   * exact match or within the threshold.
   */
  lemma NoMatchIffNoneQualifies(records: seq<Record>, target: string, maxDistance: int, now: int)
    requires AllReadable(records)
    ensures Closest(records, Some(target), maxDistance, now).record.None? <==>
              forall r, p :: Offers(records, now, r, p) ==> Distance(p, target) != 0 && Distance(p, target) > maxDistance
  {
    var items := Items(records, now);
    ItemsMembership(records, now);
    FoundIffQualifies(items, target, maxDistance);
    if exists m :: 0 <= m < |items| && Qualifies(items[m], target, maxDistance) {
      var m :| 0 <= m < |items| && Qualifies(items[m], target, maxDistance);
      assert items[m] in items;
      assert Offers(records, now, items[m].record, items[m].plate);
    }
    if exists r, p :: Offers(records, now, r, p) && !(Distance(p, target) != 0 && Distance(p, target) > maxDistance) {
      var r, p :| Offers(records, now, r, p) && !(Distance(p, target) != 0 && Distance(p, target) > maxDistance);
      assert Candidate(r, p) in items;
      var m := PositionOf(items, Candidate(r, p));
      assert Qualifies(items[m], target, maxDistance);
    }
  }

  lemma PositionOf(items: seq<Item>, x: Item) returns (m: nat)
    requires x in items
    ensures m < |items| && items[m] == x
  {
    m :| 0 <= m < |items| && items[m] == x;
  }

  /** A record that cannot be read ends the scan with whatever was found before it. */
  lemma UnreadableStops(records: seq<Record>, k: nat, target: Option<string>, maxDistance: int, now: int)
    requires k < |records| && !Readable(records[k])
    requires Fold(Items(records[..k], now), target, maxDistance).Scanning?
    ensures Closest(records, target, maxDistance, now) == Fold(Items(records[..k], now), target, maxDistance).found
  {
    var before := Fold(Items(records[..k], now), target, maxDistance);
    ItemsNext(records, k, now);
    assert RecordItems(records[k], now) == [Failure];
    FoldSnoc(Items(records[..k], now), Failure, target, maxDistance);
    assert Fold(Items(records[..k + 1], now), target, maxDistance) == Stopped(before.found);
    StoppedPrefix(records, k + 1, now, target, maxDistance);
  }

  /**
   * A record without an expiry date expires at the default date, so once
   * that date is past it is never looked at, whatever its plates.
   */
  lemma MissingExpiryIgnored(records: seq<Record>, r: Record, now: int, target: Option<string>, maxDistance: int)
    requires Readable(r) && r.expiryDate.Absent? && now > DEFAULT_DATE
    ensures Closest(records + [r], target, maxDistance, now) == Closest(records, target, maxDistance, now)
  {
    ItemsSnoc(records, r, now);
    assert Items(records, now) + [] == Items(records, now);
  }

  // ---------------------------------------------------------------- the TIBA peer-car check

  /** The record's other plates: its `filtered_lpr_keys` without the matched plate. */
  function OtherPlates(keys: seq<string>, plate: string): (r: seq<string>)
    ensures forall x :: x in r <==> x in keys && x != plate
    ensures |r| <= |keys|
  {
    if keys == [] then []
    else (if keys[0] != plate then [keys[0]] else []) + OtherPlates(keys[1..], plate)
  }

  /** tiba_other_cars_available: another plate of the record has an open task in the lot. */
  predicate OtherCarParked(tasks: seq<Task>, lotId: int, keys: seq<string>, plate: string)
  {
    var others := OtherPlates(keys, plate);
    |others| > 0 && HasOpenTaskFor(tasks, others, lotId)
  }

  /**
   * filter_tiba_data as intended: a monthly pass shared by several cars is
   * refused while one of the other cars has an open task in the lot;
   * otherwise the record is returned with its plate entry set to the
   * matched plate. A record without `filtered_lpr_keys` has no other cars.
   */
  function FilterTiba(tasks: seq<Task>, lotId: int, record: Record, plate: string): (r: Option<Record>)
    ensures r.None? <==> record.filteredLprKeys.Some? && OtherCarParked(tasks, lotId, record.filteredLprKeys.value, plate)
    ensures r.Some? ==> r.value == record.(plates := OnePlate(plate))
  {
    match record.filteredLprKeys
    case Some(keys) => if OtherCarParked(tasks, lotId, keys, plate) then None else Some(record.(plates := OnePlate(plate)))
    case None => Some(record.(plates := OnePlate(plate)))
  }

  /**
   * filter_tiba_data as written: the peer-car check reads
   * `filtered_lpr_keys` before the test that the key exists, so a record
   * without it raises, the exception is logged, and the function returns
   * None.
   */
  function FilterTibaAsWritten(tasks: seq<Task>, lotId: int, record: Record, plate: string): (r: Option<Record>)
    ensures record.filteredLprKeys.None? ==> r.None?
    ensures record.filteredLprKeys.Some? ==> r == FilterTiba(tasks, lotId, record, plate)
  {
    match record.filteredLprKeys
    case None => None
    case Some(keys) => if OtherCarParked(tasks, lotId, keys, plate) then None else Some(record.(plates := OnePlate(plate)))
  }

  /** A TIBA pass for one plate with no `filtered_lpr_keys` is dropped as written and kept as intended. */
  lemma MissingKeysExample()
    ensures var record := Record(OnePlate("ABC123"), Absent, At(DEFAULT_DATE + 1000), None, None);
            FilterTibaAsWritten([], 7, record, "ABC123") == None &&
            FilterTiba([], 7, record, "ABC123") == Some(record)
  {
  }

  /**
   * DataFilter.filter: the closest record, then for the TIBA provider the
   * peer-car check on it.
   */
  method Filter(providerKey: string, tasks: seq<Task>, lotId: int, records: seq<Record>,
                target: Option<string>, maxDistance: int, now: int)
    returns (r: Option<Record>)
    ensures var m := Closest(records, target, maxDistance, now);
            (providerKey != PROVIDER_RESERVATION_TIBA || m.record.None? ==> r == m.record) &&
            (providerKey == PROVIDER_RESERVATION_TIBA && m.record.Some? ==>
               m.plate.Some? && r == FilterTiba(tasks, lotId, m.record.value, m.plate.value))
  {
    var m := FindClosestMatch(records, target, maxDistance, now);
    if providerKey == PROVIDER_RESERVATION_TIBA && m.record.Some? {
      ClosestHasPlate(records, target, maxDistance, now);
      r := FilterTiba(tasks, lotId, m.record.value, m.plate.value);
    } else {
      r := m.record;
    }
  }

  /** Whenever a record is found, so is the plate it matched with, and the record carries it. */
  lemma ClosestHasPlate(records: seq<Record>, target: Option<string>, maxDistance: int, now: int)
    ensures var m := Closest(records, target, maxDistance, now);
            m.record.Some? ==> m.plate.Some? && m.record.value.matchLpr.Some?
  {
    FoundCarriesPlate(Items(records, now), target, maxDistance);
  }

  lemma {:induction false} FoundCarriesPlate(items: seq<Item>, target: Option<string>, maxDistance: int)
    ensures var m := Outcome(Fold(items, target, maxDistance));
            m.record.Some? ==> m.plate.Some? && m.record.value.matchLpr.Some?
    decreases |items|
  {
    if items != [] {
      FoundCarriesPlate(items[..|items| - 1], target, maxDistance);
    }
  }
}
