/**
 * The session table: one row per vehicle visit, opened by an entry or an
 * occupied spot and closed by an exit, a free spot or a system close.
 */
module SessionModel {
  import opened Wrappers
  import opened Rows

  datatype Session = Session(
    id: nat,
    entryEvent: Option<string>,
    exitEvent: Option<string>,
    lprNumber: Option<string>,
    spotId: Option<string>,
    spotName: Option<string>,
    isActive: bool,
    lotId: int,
    startTime: int,
    isWaitingForPayment: Option<bool>,
    notPaidCounter: int,
    lprRecordId: Option<int>,
    totalPaidAmount: Option<real>,
    hasNphTask: bool,
    isLprToSpot: Option<bool>)

  /** One `key: value` pair of the attribute dictionaries the engine writes onto a session. */
  datatype Attr =
    | SetActive(active: bool)
    | SetWaitingForPayment(waiting: Option<bool>)
    | SetHasNphTask(hasNph: bool)
    | SetNotPaidCounter(counter: int)
    | SetTotalPaidAmount(total: Option<real>)
    | SetExitEvent(exitEvent: Option<string>)
    | SetSpotId(spotId: Option<string>)
    | SetSpotName(spotName: Option<string>)
    | SetLprToSpot(lprToSpot: Option<bool>)

  function ApplyAttr(s: Session, a: Attr): Session
  {
    match a
    case SetActive(v) => s.(isActive := v)
    case SetWaitingForPayment(v) => s.(isWaitingForPayment := v)
    case SetHasNphTask(v) => s.(hasNphTask := v)
    case SetNotPaidCounter(v) => s.(notPaidCounter := v)
    case SetTotalPaidAmount(v) => s.(totalPaidAmount := v)
    case SetExitEvent(v) => s.(exitEvent := v)
    case SetSpotId(v) => s.(spotId := v)
    case SetSpotName(v) => s.(spotName := v)
    case SetLprToSpot(v) => s.(isLprToSpot := v)
  }

  /** update_attributes_in_session_audit: the pairs are applied in dictionary order. */
  function ApplyAttrs(s: Session, attrs: seq<Attr>): (r: Session)
    ensures r.id == s.id && r.lotId == s.lotId && r.entryEvent == s.entryEvent &&
            r.lprNumber == s.lprNumber && r.lprRecordId == s.lprRecordId && r.startTime == s.startTime
    ensures attrs == [] ==> r == s
    decreases |attrs|
  {
    if attrs == [] then s else ApplyAttrs(ApplyAttr(s, attrs[0]), attrs[1..])
  }

  /** The columns an attribute pair can write. */
  datatype Column = Active | Waiting | NphTask | Counter | TotalPaid | Exit | Spot | SpotName | MappedToSpot

  /** The column a pair writes. */
  function ColumnOf(a: Attr): Column
  {
    match a
    case SetActive(_) => Active
    case SetWaitingForPayment(_) => Waiting
    case SetHasNphTask(_) => NphTask
    case SetNotPaidCounter(_) => Counter
    case SetTotalPaidAmount(_) => TotalPaid
    case SetExitEvent(_) => Exit
    case SetSpotId(_) => Spot
    case SetSpotName(_) => SpotName
    case SetLprToSpot(_) => MappedToSpot
  }

  /** The value a session holds in column c, as the pair that would write it. */
  function Current(s: Session, c: Column): (a: Attr)
    ensures ColumnOf(a) == c
  {
    match c
    case Active => SetActive(s.isActive)
    case Waiting => SetWaitingForPayment(s.isWaitingForPayment)
    case NphTask => SetHasNphTask(s.hasNphTask)
    case Counter => SetNotPaidCounter(s.notPaidCounter)
    case TotalPaid => SetTotalPaidAmount(s.totalPaidAmount)
    case Exit => SetExitEvent(s.exitEvent)
    case Spot => SetSpotId(s.spotId)
    case SpotName => SetSpotName(s.spotName)
    case MappedToSpot => SetLprToSpot(s.isLprToSpot)
  }

  /** The last pair in `attrs` that writes column c, if any. */
  function LastWrite(attrs: seq<Attr>, c: Column): (r: Option<Attr>)
    ensures r.Some? ==> r.value in attrs && ColumnOf(r.value) == c
    ensures r.None? <==> forall i :: 0 <= i < |attrs| ==> ColumnOf(attrs[i]) != c
  {
    if attrs == [] then None
    else match LastWrite(attrs[1..], c)
      case Some(v) => Some(v)
      case None => if ColumnOf(attrs[0]) == c then Some(attrs[0]) else None
  }

  /**
   * Each column ends with the last value written to it, and a column no
   * pair writes keeps its value.
   */
  lemma {:induction false} ApplyAttrsLastWins(s: Session, attrs: seq<Attr>)
    ensures forall c :: Current(ApplyAttrs(s, attrs), c) == LastWrite(attrs, c).GetOr(Current(s, c))
    decreases |attrs|
  {
    if attrs != [] {
      var s1 := ApplyAttr(s, attrs[0]);
      ApplyAttrsLastWins(s1, attrs[1..]);
      ApplyAttrColumns(s, attrs[0]);
      assert ApplyAttrs(s, attrs) == ApplyAttrs(s1, attrs[1..]);
    }
  }

  /** One pair writes its own column and leaves every other. */
  lemma ApplyAttrColumns(s: Session, a: Attr)
    ensures forall c :: Current(ApplyAttr(s, a), c) == if ColumnOf(a) == c then a else Current(s, c)
  {
  }

  predicate WellNumbered(rows: seq<Session>)
  {
    forall i :: 0 <= i < |rows| ==> rows[i].id == i + 1
  }

  /** get_session_by_id on a well-numbered table. */
  function IndexOfId(rows: seq<Session>, id: int): (r: Option<nat>)
    requires WellNumbered(rows)
    ensures r.Some? <==> 1 <= id <= |rows|
    ensures r.Some? ==> r.value < |rows| && rows[r.value].id == id
  {
    if 1 <= id <= |rows| then Some(id - 1) else None
  }



  /** An active session that was opened by an event (its entry event is not JSON null). */
  predicate OpenedActive(s: Session, lotId: int)
  {
    s.lotId == lotId && s.isActive && s.entryEvent.Some?
  }

  /** get_session_by_plate: the newest opened active session of the plate in the lot. */
  function SessionByPlate(rows: seq<Session>, lpr: Option<string>, lotId: int): (r: Option<nat>)
    ensures r.Some? ==> r.value < |rows| && rows[r.value].lprNumber == lpr && OpenedActive(rows[r.value], lotId)
    ensures r.Some? ==> forall i :: r.value < i < |rows| ==> !(rows[i].lprNumber == lpr && OpenedActive(rows[i], lotId))
    ensures r.None? ==> forall i :: 0 <= i < |rows| ==> !(rows[i].lprNumber == lpr && OpenedActive(rows[i], lotId))
  {
    LastWhere(rows, (s: Session) => s.lprNumber == lpr && OpenedActive(s, lotId))
  }

  /** get_session_by_spot: the newest opened active session of the spot in the lot. */
  function SessionBySpot(rows: seq<Session>, spotId: Option<string>, lotId: int): (r: Option<nat>)
    ensures r.Some? ==> r.value < |rows| && rows[r.value].spotId == spotId && OpenedActive(rows[r.value], lotId)
    ensures r.Some? ==> forall i :: r.value < i < |rows| ==> !(rows[i].spotId == spotId && OpenedActive(rows[i], lotId))
    ensures r.None? ==> forall i :: 0 <= i < |rows| ==> !(rows[i].spotId == spotId && OpenedActive(rows[i], lotId))
  {
    LastWhere(rows, (s: Session) => s.spotId == spotId && OpenedActive(s, lotId))
  }

  /** get_by_lpr_record_id: the newest session of that plate and LPR record, active or not. */
  function SessionByRecord(rows: seq<Session>, lpr: Option<string>, recordId: Option<int>): (r: Option<nat>)
    ensures r.Some? ==> r.value < |rows| && rows[r.value].lprNumber == lpr && rows[r.value].lprRecordId == recordId
    ensures r.Some? ==> forall i :: r.value < i < |rows| ==> !(rows[i].lprNumber == lpr && rows[i].lprRecordId == recordId)
    ensures r.None? ==> forall i :: 0 <= i < |rows| ==> !(rows[i].lprNumber == lpr && rows[i].lprRecordId == recordId)
  {
    LastWhere(rows, (s: Session) => s.lprNumber == lpr && s.lprRecordId == recordId)
  }

  /** get_session_by_lpr_parking_lot_and_lpr_record_id: an active session of that lot, plate and record. */
  function SessionForViolation(rows: seq<Session>, lotId: int, lpr: Option<string>, recordId: Option<int>)
    : (r: Option<nat>)
    ensures r.Some? ==> r.value < |rows| && rows[r.value].lotId == lotId && rows[r.value].lprNumber == lpr &&
                        rows[r.value].lprRecordId == recordId && rows[r.value].isActive
    ensures r.None? ==> forall i :: 0 <= i < |rows| ==>
                          !(rows[i].lotId == lotId && rows[i].lprNumber == lpr &&
                            rows[i].lprRecordId == recordId && rows[i].isActive)
  {
    FirstWhere(rows, (s: Session) => s.lotId == lotId && s.lprNumber == lpr && s.lprRecordId == recordId && s.isActive)
  }

  class SessionTable {
    var rows: seq<Session>

    ghost predicate Valid()
      reads this
    {
      WellNumbered(rows)
    }

    constructor ()
      ensures rows == [] && Valid()
    {
      rows := [];
    }

    /** insert_sg_admin_events: the row receives the next id. */
    method Insert(s: Session) returns (created: Session)
      requires Valid()
      modifies this
      ensures Valid()
      ensures created == s.(id := |old(rows)| + 1)
      ensures rows == old(rows) + [created]
    {
      created := s.(id := |rows| + 1);
      rows := rows + [created];
    }

    /** update_attributes_in_session_audit: None when the id is unknown. */
    method UpdateAttributes(sessionId: int, attrs: seq<Attr>) returns (r: Option<Session>)
      requires Valid()
      modifies this
      ensures Valid()
      ensures !(1 <= sessionId <= |old(rows)|) ==> rows == old(rows) && r.None?
      ensures 1 <= sessionId <= |old(rows)| ==>
                rows == old(rows)[sessionId - 1 := ApplyAttrs(old(rows)[sessionId - 1], attrs)] &&
                r == Some(rows[sessionId - 1])
    {
      var k := IndexOfId(rows, sessionId);
      if k.None? {
        return None;
      }
      var updated := ApplyAttrs(rows[k.value], attrs);
      rows := rows[k.value := updated];
      r := Some(updated);
    }
  }
}
