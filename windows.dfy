/** The requisition-window handlers: one window per profile type, during
    which that level may raise requisitions. Creating a window for a type that
    already has one replaces its dates; deleting only deactivates it; the
    status check places the current time against the active window. */
module Windows {
  import opened Wrappers
  import opened Profiles

  /** A stored window; times are milliseconds since the epoch. */
  datatype Window = Window(id: string, kind: Profile, startDate: int, endDate: int, isActive: bool)

  /** The store's promises: one window per type, and every window created by
      the handler starts strictly before it ends. */
  predicate Valid(ws: seq<Window>) {
    && (forall i, j :: 0 <= i < j < |ws| ==> ws[i].kind != ws[j].kind)
    && (forall i :: 0 <= i < |ws| ==> ws[i].startDate < ws[i].endDate)
  }

  /** The position of the window of type `t`. */
  function FindKind(ws: seq<Window>, t: Profile): (r: Option<nat>)
    ensures r.Some? ==> r.value < |ws| && ws[r.value].kind == t
    ensures r.Some? ==> forall j :: 0 <= j < r.value ==> ws[j].kind != t
    ensures r.None? <==> forall j :: 0 <= j < |ws| ==> ws[j].kind != t
  {
    if ws == [] then None
    else if ws[0].kind == t then Some(0)
    else
      match FindKind(ws[1..], t)
      case None => None
      case Some(i) => Some(i + 1)
  }

  /** The position of the window with store id `id`. */
  function FindId(ws: seq<Window>, id: string): (r: Option<nat>)
    ensures r.Some? ==> r.value < |ws| && ws[r.value].id == id
    ensures r.Some? ==> forall j :: 0 <= j < r.value ==> ws[j].id != id
    ensures r.None? <==> forall j :: 0 <= j < |ws| ==> ws[j].id != id
  {
    if ws == [] then None
    else if ws[0].id == id then Some(0)
    else
      match FindId(ws[1..], id)
      case None => None
      case Some(i) => Some(i + 1)
  }

  const Required := "Type, start date, and end date are required"
  const DateOrder := "Start date must be before end date"

  /** The three fields are given and the type names a profile. */
  predicate FieldsAccepted(kind: Option<string>, startDate: Option<DateField>, endDate: Option<DateField>) {
    Truthy(kind) && Given(startDate) && Given(endDate) && ProfileOf(kind.value).Some?
  }

  /** Both dates parse. */
  predicate DatesParse(startDate: Option<DateField>, endDate: Option<DateField>)
    requires Given(startDate) && Given(endDate)
  {
    startDate.value.time.Some? && endDate.value.time.Some?
  }

  /** `createOrUpdateRequisitionWindow` as a function of the table: the three
      fields are required, the type must name a profile exactly, the start
      must come before the end; then the window of that type is replaced (its
      id kept) or created, active either way. A date that does not parse
      passes the comparison and makes the store write fail (500). */
  function UpsertOutcome(ws: seq<Window>, kind: Option<string>, startDate: Option<DateField>, endDate: Option<DateField>,
                         newId: string): (r: (Reply<Window>, seq<Window>))
    ensures !Truthy(kind) || !Given(startDate) || !Given(endDate) <==> r == (Err(400, Required), ws)
    ensures Truthy(kind) && Given(startDate) && Given(endDate) ==>
              (ProfileOf(kind.value).None? <==> r == (Err(400, "Invalid profile type"), ws))
    ensures FieldsAccepted(kind, startDate, endDate) ==>
              (!DatesParse(startDate, endDate) <==> r == (Err(500, "Internal server error"), ws))
    ensures FieldsAccepted(kind, startDate, endDate) && DatesParse(startDate, endDate) ==>
              (startDate.value.time.value >= endDate.value.time.value <==> r == (Err(400, DateOrder), ws))
    ensures FieldsAccepted(kind, startDate, endDate) && DatesParse(startDate, endDate) ==>
              (startDate.value.time.value < endDate.value.time.value ==> r.0.Ok?)
    ensures r.0.Ok? && FindKind(ws, r.0.value.kind).Some? ==>
              var k := FindKind(ws, r.0.value.kind).value;
              r.0.value.id == ws[k].id && r.1 == ws[k := r.0.value]
    ensures r.0.Ok? && FindKind(ws, r.0.value.kind).None? ==>
              r.0.value.id == newId && r.1 == ws + [r.0.value]
    ensures r.0.Ok? ==>
              var w := r.0.value;
              && r.0.code == 201
              && Some(ProfileName(w.kind)) == kind
              && Some(w.startDate) == startDate.value.time && Some(w.endDate) == endDate.value.time
              && w.startDate < w.endDate && w.isActive
              && (forall j :: 0 <= j < |ws| && ws[j].kind != w.kind ==> ws[j] in r.1)
              && (forall x :: x in r.1 && x.kind != w.kind ==> x in ws)
              && w in r.1
    ensures r.0.Err? ==> r.1 == ws
  {
    if !Truthy(kind) || !Given(startDate) || !Given(endDate) then (Err(400, Required), ws)
    else
      match ProfileOf(kind.value)
      case None => (Err(400, "Invalid profile type"), ws)
      case Some(t) =>
        var start, end := startDate.value.time, endDate.value.time;
        if start.None? || end.None? then (Err(500, "Internal server error"), ws)
        else if start.value >= end.value then (Err(400, DateOrder), ws)
        else
          match FindKind(ws, t)
          case Some(k) =>
            var w := ws[k].(startDate := start.value, endDate := end.value, isActive := true);
            var ws' := ws[k := w];
            assert ws'[k] == w;
            assert forall j :: 0 <= j < |ws| && ws[j].kind != t ==> ws'[j] == ws[j];
            assert forall x :: x in ws' && x.kind != t ==> x in ws by {
              forall x | x in ws' && x.kind != t ensures x in ws {
                var j :| 0 <= j < |ws'| && ws'[j] == x;
                assert ws[j] == x;
              }
            }
            (Ok(201, w), ws')
          case None =>
            var w := Window(newId, t, start.value, end.value, true);
            (Ok(201, w), ws + [w])
  }

  /** After a successful upsert the table is still valid and holds exactly one
      window of that type, the one reported back. */
  lemma UpsertKeepsValid(ws: seq<Window>, kind: Option<string>, startDate: Option<DateField>, endDate: Option<DateField>,
                         newId: string)
    requires Valid(ws)
    ensures var r := UpsertOutcome(ws, kind, startDate, endDate, newId);
            && Valid(r.1)
            && (r.0.Ok? ==> forall j :: 0 <= j < |r.1| && r.1[j].kind == r.0.value.kind ==> r.1[j] == r.0.value)
  {
    var r := UpsertOutcome(ws, kind, startDate, endDate, newId);
    if r.0.Ok? {
      var w := r.0.value;
      match FindKind(ws, w.kind)
      case Some(k) =>
        assert r.1 == ws[k := w];
      case None =>
        assert r.1 == ws + [w];
    }
  }

  /** `deleteRequisitionWindow`: the window is deactivated, never removed. An
      unknown id makes the store update fail (500). */
  function DeactivateOutcome(ws: seq<Window>, id: string): (r: (Reply<string>, seq<Window>))
    ensures FindId(ws, id).None? <==> r == (Err(500, "Internal server error"), ws)
    ensures FindId(ws, id).Some? ==> r.0.Ok?
    ensures r.0.Ok? ==>
              var k := FindId(ws, id).value;
              && r.0 == Ok(200, "Requisition window deactivated successfully")
              && |r.1| == |ws| && r.1[k] == ws[k].(isActive := false)
              && forall j :: 0 <= j < |ws| && j != k ==> r.1[j] == ws[j]
  {
    match FindId(ws, id)
    case None => (Err(500, "Internal server error"), ws)
    case Some(k) => (Ok(200, "Requisition window deactivated successfully"), ws[k := ws[k].(isActive := false)])
  }

  lemma DeactivateKeepsValid(ws: seq<Window>, id: string)
    requires Valid(ws)
    ensures Valid(DeactivateOutcome(ws, id).1)
  {
  }

  /** What the status check reports. */
  datatype WindowStatus =
    | NoWindow(message: string)
    | Current(isOpen: bool, hasStarted: bool, hasEnded: bool, window: Window, message: string)

  predicate Open(s: WindowStatus) {
    s.Current? && s.isOpen
  }

  /** The active window of type `t`. */
  function FindActive(ws: seq<Window>, t: Profile): (r: Option<nat>)
    ensures r.Some? ==> r.value < |ws| && ws[r.value].kind == t && ws[r.value].isActive
    ensures r.None? <==> forall j :: 0 <= j < |ws| ==> !(ws[j].kind == t && ws[j].isActive)
  {
    if ws == [] then None
    else if ws[0].kind == t && ws[0].isActive then Some(0)
    else
      match FindActive(ws[1..], t)
      case None => None
      case Some(i) => Some(i + 1)
  }

  const OpenMessage := "Requisition window is currently open"
  const EndedMessage := "Requisition window has ended"
  const NotStartedMessage := "Requisition window has not started yet"

  /** `checkRequisitionWindowStatus` at time `now`. */
  function StatusOutcome(ws: seq<Window>, kind: string, now: int): (r: Reply<WindowStatus>)
    ensures ProfileOf(kind).None? <==> r == Err(400, "Invalid profile type")
    ensures ProfileOf(kind).Some? ==> r.Ok?
    ensures r.Ok? ==> r.code == 200
    ensures r.Ok? ==> (FindActive(ws, ProfileOf(kind).value).None? <==> r.value.NoWindow?)
    ensures r.Ok? && r.value.Current? ==>
              var s := r.value;
              && s.window == ws[FindActive(ws, ProfileOf(kind).value).value]
              && (s.isOpen <==> s.window.startDate <= now <= s.window.endDate)
              && (s.hasStarted <==> now >= s.window.startDate)
              && (s.hasEnded <==> now > s.window.endDate)
              && s.message == (if s.isOpen then OpenMessage else if s.hasEnded then EndedMessage else NotStartedMessage)
  {
    match ProfileOf(kind)
    case None => Err(400, "Invalid profile type")
    case Some(t) =>
      match FindActive(ws, t)
      case None => Ok(200, NoWindow("No requisition window is currently active for this type"))
      case Some(k) =>
        var w := ws[k];
        var isOpen := now >= w.startDate && now <= w.endDate;
        var hasStarted := now >= w.startDate;
        var hasEnded := now > w.endDate;
        Ok(200, Current(isOpen, hasStarted, hasEnded, w,
                        if isOpen then OpenMessage else if hasEnded then EndedMessage else NotStartedMessage))
  }

  /** The three flags agree: open means started and not ended, and for a
      window that starts before it ends exactly one message applies, the
      "not started yet" one only before the start. */
  lemma StatusPhases(ws: seq<Window>, kind: string, now: int)
    requires Valid(ws) && StatusOutcome(ws, kind, now).Ok? && StatusOutcome(ws, kind, now).value.Current?
    ensures var s := StatusOutcome(ws, kind, now).value;
            && (s.isOpen <==> s.hasStarted && !s.hasEnded)
            && !(s.hasEnded && !s.hasStarted)
            && (s.message == NotStartedMessage <==> now < s.window.startDate)
            && (s.message == EndedMessage <==> now > s.window.endDate)
  {
  }

  /** A deactivated window closes its type: the status check finds no window. */
  lemma DeactivatedIsClosed(ws: seq<Window>, id: string, now: int)
    requires Valid(ws) && DeactivateOutcome(ws, id).0.Ok?
    ensures var t := ws[FindId(ws, id).value].kind;
            StatusOutcome(DeactivateOutcome(ws, id).1, ProfileName(t), now) == Ok(200, NoWindow("No requisition window is currently active for this type"))
  {
    var k := FindId(ws, id).value;
    var t := ws[k].kind;
    var ws' := DeactivateOutcome(ws, id).1;
    assert ProfileOf(ProfileName(t)) == Some(t);
    assert forall j :: 0 <= j < |ws'| ==> !(ws'[j].kind == t && ws'[j].isActive);
  }

  /** After an upsert the type's window is open exactly between the new dates. */
  lemma UpsertThenStatus(ws: seq<Window>, kind: Option<string>, startDate: Option<DateField>, endDate: Option<DateField>,
                         newId: string, now: int)
    requires Valid(ws) && UpsertOutcome(ws, kind, startDate, endDate, newId).0.Ok?
    ensures var r := UpsertOutcome(ws, kind, startDate, endDate, newId);
            var st := StatusOutcome(r.1, kind.value, now);
            && st.Ok? && st.value.Current?
            && (Open(st.value) <==> r.0.value.startDate <= now <= r.0.value.endDate)
  {
    var r := UpsertOutcome(ws, kind, startDate, endDate, newId);
    UpsertKeepsValid(ws, kind, startDate, endDate, newId);
    var w := r.0.value;
    assert ProfileOf(kind.value) == Some(w.kind);
    assert w in r.1;
    var k :| 0 <= k < |r.1| && r.1[k] == w;
    assert FindActive(r.1, w.kind).Some?;
  }

  /** The window table. */
  class WindowStore {
    var windows: seq<Window>

    constructor ()
      ensures windows == []
    {
      windows := [];
    }

    /** The store's lookup of the window of a type: a scan from the front. */
    method IndexOfKind(t: Profile) returns (k: Option<nat>)
      ensures k == FindKind(windows, t)
    {
      var i := 0;
      while i < |windows|
        invariant 0 <= i <= |windows|
        invariant forall j :: 0 <= j < i ==> windows[j].kind != t
      {
        if windows[i].kind == t {
          return Some(i);
        }
        i := i + 1;
      }
      return None;
    }

    /** The store's lookup by id: a scan from the front. */
    method IndexOf(id: string) returns (k: Option<nat>)
      ensures k == FindId(windows, id)
    {
      var i := 0;
      while i < |windows|
        invariant 0 <= i <= |windows|
        invariant forall j :: 0 <= j < i ==> windows[j].id != id
      {
        if windows[i].id == id {
          return Some(i);
        }
        i := i + 1;
      }
      return None;
    }

    /** `createOrUpdateRequisitionWindow`: the checks, then the upsert keyed
        by type. */
    method Upsert(kind: Option<string>, startDate: Option<DateField>, endDate: Option<DateField>, newId: string)
      returns (r: Reply<Window>)
      requires Valid(windows)
      modifies this
      ensures (r, windows) == UpsertOutcome(old(windows), kind, startDate, endDate, newId)
      ensures Valid(windows)
    {
      UpsertKeepsValid(windows, kind, startDate, endDate, newId);
      if !Truthy(kind) || !Given(startDate) || !Given(endDate) {
        return Err(400, Required);
      }
      var t := ProfileOf(kind.value);
      if t.None? {
        return Err(400, "Invalid profile type");
      }
      var start, end := startDate.value.time, endDate.value.time;
      if start.None? || end.None? {
        return Err(500, "Internal server error");
      }
      if start.value >= end.value {
        return Err(400, DateOrder);
      }
      var k := IndexOfKind(t.value);
      var w;
      if k.Some? {
        w := windows[k.value].(startDate := start.value, endDate := end.value, isActive := true);
        windows := windows[k.value := w];
      } else {
        w := Window(newId, t.value, start.value, end.value, true);
        windows := windows + [w];
      }
      r := Ok(201, w);
    }

    /** `deleteRequisitionWindow`: the window stays, inactive. */
    method Deactivate(id: string) returns (r: Reply<string>)
      requires Valid(windows)
      modifies this
      ensures (r, windows) == DeactivateOutcome(old(windows), id)
      ensures Valid(windows)
    {
      DeactivateKeepsValid(windows, id);
      var k := IndexOf(id);
      if k.None? {
        return Err(500, "Internal server error");
      }
      windows := windows[k.value := windows[k.value].(isActive := false)];
      r := Ok(200, "Requisition window deactivated successfully");
    }
  }
}
