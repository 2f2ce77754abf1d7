/**
  The board update endpoint (server/api/board/update.php): a JSON delta of note and connection
  changes applied to the database inside one transaction, notes first, then connections, and
  rolled back when an item is malformed, when a connection is given with its ends out of order,
  when an UPDATE has nothing to set, or when a connection is left pointing at a missing note.
  The tables are lists of rows without the schema's constraints; the access query is a map from
  board uuid to the board the user may write.
 */
module BoardUpdate {
  import opened Wrappers
  import opened PhpValues
  import opened Validation
  import Decimal

  datatype NoteRow = NoteRow(board: int, noteId: real, x: Option<real>, y: Option<real>, image: Option<real>, text: Option<string>)

  datatype ConnRow = ConnRow(
    board: int, note1: real, note2: real, pos1: real, pos2: real,
    color: Option<string>, size: Option<real>, dash: Option<string>)

  datatype Tables = Tables(notes: seq<NoteRow>, conns: seq<ConnRow>)

  /** How the request ends: committed, an error with its status, a 400 with the errors, a throw. */
  datatype Response = Committed | Failed(status: int, message: string) | InvalidInput(errors: map<string, string>) | Aborted

  /** The request: its HTTP method, content type and decoded body (None when the JSON is malformed). */
  datatype UpdateRequest = UpdateRequest(verb: string, contentType: Option<string>, body: Option<Value>)

  const TypeCreate := 0.0
  const TypeEdit := 1.0
  const TypeDelete := 2.0

  const RequestRules: seq<(string, seq<Rule>)> := [
    ("id", [Required(None), IsString(None)]),
    ("conn", [Required(None)]),
    ("note", [Required(None)])
  ]

  const NoteRules: seq<(string, seq<Rule>)> := [
    ("type", [Required(None), IsNumber(None)]),
    ("id", [Required(None), IsNumber(None)]),
    ("x", [Optional(), IsNumber(None)]),
    ("y", [Optional(), IsNumber(None)]),
    ("text", [Optional(), IsString(None)]),
    ("img", [Optional(), IsNumber(None)])
  ]

  const ConnRules: seq<(string, seq<Rule>)> := [
    ("type", [Required(None), IsNumber(None)]),
    ("a", [Required(None), IsNumber(None)]),
    ("b", [Required(None), IsNumber(None)]),
    ("pa", [Required(None), IsNumber(None)]),
    ("pb", [Required(None), IsNumber(None)]),
    ("color", [Optional(), IsHex(None), ExactLength(6, None)]),
    ("size", [Optional(), IsNumber(None)]),
    ("dash", [Optional(), IsString(None)])
  ]

  /** A validated numeric field's number (validation leaves no other kind of value there). */
  function AsNumber(v: Value): real {
    if IsNumeric(v) then NumValue(v) else 0.0
  }

  /** An optional numeric field: NULL for null. */
  function OptNumber(v: Value): Option<real> {
    if v.Null? then None else Some(AsNumber(v))
  }

  function OptString(v: Value): Option<string> {
    if v.Str? then Some(v.s) else None
  }

  /** `$img == 0 ? null : $img`: loose comparison makes null and every zero NULL. */
  function ImageOf(v: Value): (r: Option<real>)
    ensures r.None? <==> v.Null? || AsNumber(v) == 0.0
  {
    if v.Null? || AsNumber(v) == 0.0 then None else Some(AsNumber(v))
  }

  /** What `foreach` visits: an array's values; nothing (with a warning) for anything else. */
  function Items(v: Value): seq<Value> {
    if v.Arr? then Values(v) else []
  }

  // ---------------------------------------------------------------------------------------------
  // Notes

  predicate IsNote(r: NoteRow, board: int, id: real) {
    r.board == board && r.noteId == id
  }

  /** DELETE FROM notes WHERE note_id = id AND board_id = board */
  function DeleteNotes(rows: seq<NoteRow>, board: int, id: real): (r: seq<NoteRow>)
    ensures forall k :: 0 <= k < |r| ==> !IsNote(r[k], board, id)
    ensures forall row :: row in rows && !IsNote(row, board, id) ==> row in r
    ensures forall row :: row in r ==> row in rows
    decreases |rows|
  {
    if |rows| == 0 then []
    else
      var rest := DeleteNotes(rows[..|rows| - 1], board, id);
      var last := rows[|rows| - 1];
      assert forall row :: row in rows ==> row in rows[..|rows| - 1] || row == last;
      if IsNote(last, board, id) then rest else rest + [last]
  }

  /**
    edit_note: the UPDATE sets x and y when both are given, text and the image when given (an image
    of 0 as NULL). None when nothing is given: the statement `SET  WHERE` is a syntax error.
   */
  function EditNote(rows: seq<NoteRow>, board: int, n: Value): (r: Option<seq<NoteRow>>)
    requires n.Arr?
    ensures r.None? <==> (Read(n, "x").Null? || Read(n, "y").Null?) && Read(n, "text").Null? && Read(n, "img").Null?
    ensures r.Some? ==> |r.value| == |rows|
    ensures r.Some? ==> forall k :: 0 <= k < |rows| && !IsNote(rows[k], board, AsNumber(Read(n, "id"))) ==> r.value[k] == rows[k]
    ensures r.Some? ==> forall k :: 0 <= k < |rows| && IsNote(rows[k], board, AsNumber(Read(n, "id"))) ==>
      var row, edited := rows[k], r.value[k];
      var both := !Read(n, "x").Null? && !Read(n, "y").Null?;
      && edited.(x := row.x, y := row.y, text := row.text, image := row.image) == row
      && edited.x == (if both then OptNumber(Read(n, "x")) else row.x)
      && edited.y == (if both then OptNumber(Read(n, "y")) else row.y)
      && edited.text == (if Read(n, "text").Null? then row.text else OptString(Read(n, "text")))
      && edited.image == (if Read(n, "img").Null? then row.image else ImageOf(Read(n, "img")))
  {
    var id := AsNumber(Read(n, "id"));
    var x, y, text, img := Read(n, "x"), Read(n, "y"), Read(n, "text"), Read(n, "img");
    var setPosition := !x.Null? && !y.Null?;
    if !setPosition && text.Null? && img.Null? then None
    else
      Some(seq(|rows|, k requires 0 <= k < |rows| =>
        var row := rows[k];
        if !IsNote(row, board, id) then row
        else
          row.(x := if setPosition then OptNumber(x) else row.x,
               y := if setPosition then OptNumber(y) else row.y,
               text := if text.Null? then row.text else OptString(text),
               image := if img.Null? then row.image else ImageOf(img))))
  }

  /** Where a loop stands: the tables so far, or the response that ended the request. */
  datatype Applied = Applied(t: Tables) | Stopped(response: Response)

  const RunFailed := Failed(409, "Run failed")

  /** The switch on a validated note's type; any other type changes nothing. */
  function NoteAction(t: Tables, board: int, verdict: Verdict): (r: Applied)
    ensures r.Applied? ==> r.t.conns == t.conns
    ensures r.Stopped? ==> r.response != Committed
  {
    match verdict
    case Crashed => Stopped(Aborted)
    case Invalid(errors) => Stopped(InvalidInput(errors))
    case Validated(n) =>
      if !n.Arr? then Stopped(Aborted)
      else
        var kind := AsNumber(Read(n, "type"));
        var id := AsNumber(Read(n, "id"));
        if kind == TypeCreate then
          var row := NoteRow(board, id, OptNumber(Read(n, "x")), OptNumber(Read(n, "y")), ImageOf(Read(n, "img")), OptString(Read(n, "text")));
          Applied(t.(notes := t.notes + [row]))
        else if kind == TypeEdit then
          match EditNote(t.notes, board, n)
          case None => Stopped(RunFailed)
          case Some(rows) => Applied(t.(notes := rows))
        else if kind == TypeDelete then Applied(t.(notes := DeleteNotes(t.notes, board, id)))
        else Applied(t)
  }

  /** One pass of a foreach: the item validated against the rules, then acted on. */
  function StepOf(action: (Tables, int, Verdict) -> Applied, board: int, rules: seq<(string, seq<Rule>)>): (Tables, Value) -> Applied {
    (t: Tables, item: Value) => action(t, board, Outcome(Run(item, rules)))
  }

  function NoteStep(board: int): (Tables, Value) -> Applied {
    StepOf(NoteAction, board, NoteRules)
  }

  // ---------------------------------------------------------------------------------------------
  // Connections

  predicate IsConn(r: ConnRow, board: int, a: real, b: real, pa: real, pb: real) {
    r.board == board && r.note1 == a && r.note2 == b && r.pos1 == pa && r.pos2 == pb
  }

  function DeleteConns(rows: seq<ConnRow>, board: int, a: real, b: real, pa: real, pb: real): (r: seq<ConnRow>)
    ensures forall k :: 0 <= k < |r| ==> !IsConn(r[k], board, a, b, pa, pb)
    ensures forall row :: row in rows && !IsConn(row, board, a, b, pa, pb) ==> row in r
    ensures forall row :: row in r ==> row in rows
    decreases |rows|
  {
    if |rows| == 0 then []
    else
      var rest := DeleteConns(rows[..|rows| - 1], board, a, b, pa, pb);
      var last := rows[|rows| - 1];
      assert forall row :: row in rows ==> row in rows[..|rows| - 1] || row == last;
      if IsConn(last, board, a, b, pa, pb) then rest else rest + [last]
  }

  /** The connection rows an item names: its board, both notes and both ports. */
  predicate NamedConn(row: ConnRow, board: int, c: Value)
    requires c.Arr?
  {
    IsConn(row, board, AsNumber(Read(c, "a")), AsNumber(Read(c, "b")), AsNumber(Read(c, "pa")), AsNumber(Read(c, "pb")))
  }

  /**
    edit_conn: the UPDATE sets color (through hex2bin), size and dash when given, on the rows the
    item names; None when none is given.
   */
  function EditConn(rows: seq<ConnRow>, board: int, c: Value): (r: Option<seq<ConnRow>>)
    requires c.Arr?
    ensures r.None? <==> Read(c, "color").Null? && Read(c, "size").Null? && Read(c, "dash").Null?
    ensures r.Some? ==> |r.value| == |rows|
    ensures r.Some? ==> forall k :: 0 <= k < |rows| && !NamedConn(rows[k], board, c) ==> r.value[k] == rows[k]
    ensures r.Some? ==> forall k :: 0 <= k < |rows| && NamedConn(rows[k], board, c) ==>
      var row, edited := rows[k], r.value[k];
      && edited.(color := row.color, size := row.size, dash := row.dash) == row
      && edited.color == (if Read(c, "color").Null? then row.color else Text(Read(c, "color")))
      && edited.size == (if Read(c, "size").Null? then row.size else OptNumber(Read(c, "size")))
      && edited.dash == (if Read(c, "dash").Null? then row.dash else OptString(Read(c, "dash")))
  {
    var a, b := AsNumber(Read(c, "a")), AsNumber(Read(c, "b"));
    var pa, pb := AsNumber(Read(c, "pa")), AsNumber(Read(c, "pb"));
    var color, size, dash := Read(c, "color"), Read(c, "size"), Read(c, "dash");
    if color.Null? && size.Null? && dash.Null? then None
    else
      Some(seq(|rows|, k requires 0 <= k < |rows| =>
        var row := rows[k];
        if !IsConn(row, board, a, b, pa, pb) then row
        else
          row.(color := if color.Null? then row.color else Text(color),
               size := if size.Null? then row.size else OptNumber(size),
               dash := if dash.Null? then row.dash else OptString(dash))))
  }

  const InvalidFormat := Failed(409, "Invalid input format")

  /** A validated connection: rejected when a > b, else the switch on its type. */
  function ConnAction(t: Tables, board: int, verdict: Verdict): (r: Applied)
    ensures r.Applied? ==> r.t.notes == t.notes
    ensures r.Stopped? ==> r.response != Committed
  {
    match verdict
    case Crashed => Stopped(Aborted)
    case Invalid(errors) => Stopped(InvalidInput(errors))
    case Validated(c) =>
      if !c.Arr? then Stopped(Aborted)
      else
        var kind := AsNumber(Read(c, "type"));
        var a, b := AsNumber(Read(c, "a")), AsNumber(Read(c, "b"));
        var pa, pb := AsNumber(Read(c, "pa")), AsNumber(Read(c, "pb"));
        if a > b then Stopped(InvalidFormat)
        else if kind == TypeCreate then
          var row := ConnRow(board, a, b, pa, pb, Text(Read(c, "color")), OptNumber(Read(c, "size")), OptString(Read(c, "dash")));
          Applied(t.(conns := t.conns + [row]))
        else if kind == TypeEdit then
          match EditConn(t.conns, board, c)
          case None => Stopped(RunFailed)
          case Some(rows) => Applied(t.(conns := rows))
        else if kind == TypeDelete then Applied(t.(conns := DeleteConns(t.conns, board, a, b, pa, pb)))
        else Applied(t)
  }

  function ConnStep(board: int): (Tables, Value) -> Applied {
    StepOf(ConnAction, board, ConnRules)
  }

  // ---------------------------------------------------------------------------------------------
  // The request

  /** A foreach over the items: each step on the tables so far, until one stops the request. */
  function Fold(t: Tables, items: seq<Value>, step: (Tables, Value) -> Applied): Applied
    decreases |items|
  {
    if |items| == 0 then Applied(t)
    else match Fold(t, items[..|items| - 1], step)
      case Stopped(r) => Stopped(r)
      case Applied(t') => step(t', items[|items| - 1])
  }

  predicate HasNote(t: Tables, board: int, id: real) {
    exists k :: 0 <= k < |t.notes| && IsNote(t.notes[k], board, id)
  }

  /** The final check: a connection of the board whose either end has no note on the board. */
  predicate Dangling(t: Tables, board: int) {
    exists k :: 0 <= k < |t.conns| && t.conns[k].board == board &&
      (!HasNote(t, board, t.conns[k].note1) || !HasNote(t, board, t.conns[k].note2))
  }

  const BoardNotFound := Failed(404, "Board not found")
  const Rejected := Failed(409, "Invalid result, rejected")

  /**
    The transaction: the note loop, the connection loop and the dangling check; anything that ends
    the request before the commit rolls the tables back.
   */
  function Transact(db: Tables, board: int, noteItems: seq<Value>, connItems: seq<Value>): (Response, Tables) {
    match Fold(db, noteItems, NoteStep(board))
    case Stopped(r) => (r, db)
    case Applied(t1) =>
      match Fold(t1, connItems, ConnStep(board))
      case Stopped(r) => (r, db)
      case Applied(t2) => if Dangling(t2, board) then (Rejected, db) else (Committed, t2)
  }

  /** What the endpoint answers and the tables it leaves behind. */
  function Handle(db: Tables, req: UpdateRequest, writable: map<string, int>): (Response, Tables) {
    if req.verb != "POST" then (Failed(MethodNotAllowed, ""), db)
    else if req.contentType != Some(Json) then (Failed(200, "Expecting json input"), db)
    else if req.body.None? then (Failed(BadRequest, "Malformed input"), db)
    else
      var json := req.body.value;
      if !json.Arr? then (Aborted, db)
      else match Outcome(Run(json, RequestRules))
        case Crashed => (Aborted, db)
        case Invalid(errors) => (InvalidInput(errors), db)
        case Validated(_) =>
          var id := Read(json, "id");
          if !id.Str? then (Aborted, db)
          else if !AllHex(id.s) || id.s !in writable then (BoardNotFound, db)
          else Transact(db, writable[id.s], Items(Read(json, "note")), Items(Read(json, "conn")))
  }

  class Database {
    var notes: seq<NoteRow>
    var conns: seq<ConnRow>

    constructor(t: Tables)
      ensures notes == t.notes && conns == t.conns
    {
      notes, conns := t.notes, t.conns;
    }

    function Contents(): Tables
      reads this
    {
      Tables(notes, conns)
    }

    /**
      One loop of the transaction: each item validated and applied in order; the first item that
      ends the request stops the loop.
     */
    method ApplyItems(board: int, items: seq<Value>, rules: seq<(string, seq<Rule>)>, action: (Tables, int, Verdict) -> Applied)
      returns (stopped: Option<Response>)
      modifies this
      ensures var f := Fold(old(Contents()), items, StepOf(action, board, rules));
        && (stopped.Some? <==> f.Stopped?)
        && (stopped.Some? ==> stopped.value == f.response)
        && (stopped.None? ==> Contents() == f.t)
    {
      var step := StepOf(action, board, rules);
      var i := 0;
      while i < |items|
        invariant 0 <= i <= |items|
        invariant Fold(old(Contents()), items[..i], step) == Applied(Contents())
      {
        assert items[..i + 1][..i] == items[..i];
        var verdict := Validate(items[i], rules);
        var a := action(Contents(), board, verdict);
        if a.Stopped? {
          StoppedStays(old(Contents()), items, step, i + 1);
          return Some(a.response);
        }
        notes, conns := a.t.notes, a.t.conns;
        i := i + 1;
      }
      assert items[..i] == items;
      stopped := None;
    }

    /**
      The endpoint: the checks before the transaction, the note loop, the connection loop and the
      dangling check; a rollback restores the tables the transaction began with.
     */
    method Update(req: UpdateRequest, writable: map<string, int>) returns (resp: Response)
      modifies this
      ensures (resp, Contents()) == Handle(old(Contents()), req, writable)
    {
      if req.verb != "POST" {
        return Failed(MethodNotAllowed, "");
      }
      if req.contentType != Some(Json) {
        return Failed(200, "Expecting json input");
      }
      if req.body.None? {
        return Failed(BadRequest, "Malformed input");
      }
      var json := req.body.value;
      if !json.Arr? {
        return Aborted;
      }
      var verdict := Validate(json, RequestRules);
      if verdict.Crashed? {
        return Aborted;
      }
      if verdict.Invalid? {
        return InvalidInput(verdict.errors);
      }
      var id := Read(json, "id");
      if !id.Str? {
        return Aborted;
      }
      if !AllHex(id.s) || id.s !in writable {
        return BoardNotFound;
      }
      resp := Transaction(writable[id.s], Items(Read(json, "note")), Items(Read(json, "conn")));
    }

    /** beginTransaction, the two loops, the dangling check, then commit or rollBack. */
    method Transaction(board: int, noteItems: seq<Value>, connItems: seq<Value>) returns (resp: Response)
      modifies this
      ensures (resp, Contents()) == Transact(old(Contents()), board, noteItems, connItems)
    {
      var saved := Contents();
      var stopped := ApplyItems(board, noteItems, NoteRules, NoteAction);
      if stopped.Some? {
        notes, conns := saved.notes, saved.conns;
        return stopped.value;
      }
      stopped := ApplyItems(board, connItems, ConnRules, ConnAction);
      if stopped.Some? {
        notes, conns := saved.notes, saved.conns;
        return stopped.value;
      }
      if Dangling(Contents(), board) {
        notes, conns := saved.notes, saved.conns;
        return Rejected;
      }
      resp := Committed;
    }
  }

  /** Once a step stops the request, the later items change nothing. */
  lemma {:induction false} StoppedStays(t: Tables, items: seq<Value>, step: (Tables, Value) -> Applied, k: nat)
    requires k <= |items| && Fold(t, items[..k], step).Stopped?
    ensures Fold(t, items, step) == Fold(t, items[..k], step)
    decreases |items| - k
  {
    if k < |items| {
      assert items[..k + 1][..k] == items[..k];
      StoppedStays(t, items, step, k + 1);
    } else {
      assert items[..k] == items;
    }
  }

  // ---------------------------------------------------------------------------------------------
  // Properties

  /** Anything but a commit leaves the tables as they were. */
  lemma RollbackUnlessCommitted(db: Tables, req: UpdateRequest, writable: map<string, int>)
    ensures Handle(db, req, writable).0 != Committed ==> Handle(db, req, writable).1 == db
  {
  }

  /** A committed transaction leaves no connection of the board pointing at a missing note. */
  lemma CommittedHasNoDangling(db: Tables, board: int, noteItems: seq<Value>, connItems: seq<Value>)
    requires Transact(db, board, noteItems, connItems).0 == Committed
    ensures !Dangling(Transact(db, board, noteItems, connItems).1, board)
  {
    NoteStepFrame(board);
    ConnStepFrame(board);
    var f1 := Fold(db, noteItems, NoteStep(board));
    FoldNeverStopsCommitted(db, noteItems, NoteStep(board));
    assert f1.Applied?;
    var f2 := Fold(f1.t, connItems, ConnStep(board));
    FoldNeverStopsCommitted(f1.t, connItems, ConnStep(board));
    assert f2.Applied? && !Dangling(f2.t, board);
    assert Transact(db, board, noteItems, connItems).1 == f2.t;
  }

  /** A loop whose steps never stop with a commit never stops with one. */
  lemma {:induction false} FoldNeverStopsCommitted(t: Tables, items: seq<Value>, step: (Tables, Value) -> Applied)
    requires forall u, item :: step(u, item).Stopped? ==> step(u, item).response != Committed
    ensures Fold(t, items, step).Stopped? ==> Fold(t, items, step).response != Committed
    decreases |items|
  {
    if |items| > 0 {
      FoldNeverStopsCommitted(t, items[..|items| - 1], step);
    }
  }

  /** A note step keeps the connections, and stops only with a failure. */
  lemma NoteStepFrame(board: int)
    ensures forall u, item :: NoteStep(board)(u, item).Applied? ==> NoteStep(board)(u, item).t.conns == u.conns
    ensures forall u, item :: NoteStep(board)(u, item).Stopped? ==> NoteStep(board)(u, item).response != Committed
  {
    forall u, item
      ensures NoteStep(board)(u, item) == NoteAction(u, board, Outcome(Run(item, NoteRules)))
    {
    }
  }

  /** A connection step keeps the notes, and stops only with a failure. */
  lemma ConnStepFrame(board: int)
    ensures forall u, item :: ConnStep(board)(u, item).Applied? ==> ConnStep(board)(u, item).t.notes == u.notes
    ensures forall u, item :: ConnStep(board)(u, item).Stopped? ==> ConnStep(board)(u, item).response != Committed
  {
    forall u, item
      ensures ConnStep(board)(u, item) == ConnAction(u, board, Outcome(Run(item, ConnRules)))
    {
    }
  }

  /** A loop whose every step keeps the notes table keeps it as a whole. */
  lemma {:induction false} FoldKeepsNotes(t: Tables, items: seq<Value>, step: (Tables, Value) -> Applied)
    requires forall u, item :: step(u, item).Applied? ==> step(u, item).t.notes == u.notes
    ensures Fold(t, items, step).Applied? ==> Fold(t, items, step).t.notes == t.notes
    decreases |items|
  {
    if |items| > 0 {
      FoldKeepsNotes(t, items[..|items| - 1], step);
    }
  }

  /** A loop whose every step keeps the connections table keeps it as a whole. */
  lemma {:induction false} FoldKeepsConns(t: Tables, items: seq<Value>, step: (Tables, Value) -> Applied)
    requires forall u, item :: step(u, item).Applied? ==> step(u, item).t.conns == u.conns
    ensures Fold(t, items, step).Applied? ==> Fold(t, items, step).t.conns == t.conns
    decreases |items|
  {
    if |items| > 0 {
      FoldKeepsConns(t, items[..|items| - 1], step);
    }
  }

  /**
    All note changes come first: a committed transaction's notes are what the note loop made of
    them, its connections are what the connection loop made of the old ones, and the note loop
    leaves the connections alone.
   */
  lemma NotesBeforeConnections(db: Tables, board: int, noteItems: seq<Value>, connItems: seq<Value>)
    requires Transact(db, board, noteItems, connItems).0 == Committed
    ensures var t1 := Fold(db, noteItems, NoteStep(board));
      && t1.Applied? && t1.t.conns == db.conns
      && Transact(db, board, noteItems, connItems).1.notes == t1.t.notes
      && Fold(t1.t, connItems, ConnStep(board)) == Applied(Transact(db, board, noteItems, connItems).1)
  {
    NoteStepFrame(board);
    ConnStepFrame(board);
    FoldNeverStopsCommitted(db, noteItems, NoteStep(board));
    var t1 := Fold(db, noteItems, NoteStep(board));
    FoldKeepsConns(db, noteItems, NoteStep(board));
    assert t1.Applied?;
    var t2 := Fold(t1.t, connItems, ConnStep(board));
    FoldNeverStopsCommitted(t1.t, connItems, ConnStep(board));
    FoldKeepsNotes(t1.t, connItems, ConnStep(board));
    assert t2.Applied? && Transact(db, board, noteItems, connItems).1 == t2.t;
  }

  /** A connection given with a > b is refused, whatever its type. */
  lemma OutOfOrderRefused(t: Tables, board: int, c: Value)
    requires c.Arr? && AsNumber(Read(c, "a")) > AsNumber(Read(c, "b"))
    ensures ConnAction(t, board, Validated(c)) == Stopped(InvalidFormat)
  {
  }

  /** A note of a type other than 0, 1 or 2 is skipped without a change. */
  lemma UnknownTypeIgnored(t: Tables, board: int, n: Value)
    requires n.Arr?
    requires AsNumber(Read(n, "type")) !in {TypeCreate, TypeEdit, TypeDelete}
    ensures NoteAction(t, board, Validated(n)) == Applied(t)
  {
  }

  /** A created note with image 0 (or none) stores NULL for its image. */
  lemma CreatedImageZeroIsNull(t: Tables, board: int, n: Value)
    requires n.Arr? && AsNumber(Read(n, "type")) == TypeCreate
    requires Read(n, "img") == Int(0) || Read(n, "img") == Null
    ensures NoteAction(t, board, Validated(n)).Applied?
    ensures var rows := NoteAction(t, board, Validated(n)).t.notes;
      |rows| == |t.notes| + 1 && rows[|rows| - 1].image.None?
  {
  }

  /** An edit that gives an image of 0 stores NULL for the image of each row it names. */
  lemma EditedImageZeroIsNull(rows: seq<NoteRow>, board: int, n: Value)
    requires n.Arr? && !Read(n, "img").Null? && AsNumber(Read(n, "img")) == 0.0
    ensures EditNote(rows, board, n).Some?
    ensures forall k :: 0 <= k < |rows| && IsNote(rows[k], board, AsNumber(Read(n, "id"))) ==>
      EditNote(rows, board, n).value[k].image.None?
  {
  }

  /**
    A colour given as the JSON number 123456, whole or written 123456.0, passes the colour rules
    through its text "123456", and a created connection stores that text.
   */
  lemma NumericColorStored(t: Tables, board: int, c: Value)
    requires c.Arr? && AsNumber(Read(c, "type")) == TypeCreate
    requires AsNumber(Read(c, "a")) <= AsNumber(Read(c, "b"))
    requires Read(c, "color") == Int(123456) || Read(c, "color") == Float(123456.0)
    ensures CheckKey(Read(c, "color"), ConnRules[5].1) == KeyCheck(true, None, false)
    ensures ConnAction(t, board, Validated(c)).Applied?
    ensures var rows := ConnAction(t, board, Validated(c)).t.conns;
      |rows| == |t.conns| + 1 && rows[|rows| - 1].color == Some("123456")
  {
    var v := Read(c, "color");
    SixDigits();
    assert Text(v) == Some("123456");
    assert AllHex("123456") by {
      forall i | 0 <= i < 6
        ensures HexDigit("123456"[i])
      {
      }
    }
    PassingKey(v, Optional(), IsHex(None), ExactLength(6, None));
  }

  /** The decimal text of 123456. */
  lemma SixDigits()
    ensures Decimal.IntToString(123456) == "123456"
  {
    assert Decimal.NatToString(1) == "1";
    assert Decimal.NatToString(12) == "12";
    assert Decimal.NatToString(123) == "123";
    assert Decimal.NatToString(1234) == "1234";
    assert Decimal.NatToString(12345) == "12345";
    assert Decimal.NatToString(123456) == "123456";
  }

  /** An edit that gives x without y moves nothing: both or neither are written. */
  lemma {:induction false} HalfPositionNotWritten(rows: seq<NoteRow>, board: int, n: Value)
    requires n.Arr? && !Read(n, "x").Null? && Read(n, "y").Null?
    requires EditNote(rows, board, n).Some?
    ensures forall k :: 0 <= k < |rows| ==>
      EditNote(rows, board, n).value[k].x == rows[k].x && EditNote(rows, board, n).value[k].y == rows[k].y
  {
  }

  /** A delete leaves no row of that note on the board, and keeps every other row. */
  lemma DeleteRemovesNote(t: Tables, board: int, n: Value)
    requires n.Arr? && AsNumber(Read(n, "type")) == TypeDelete
    ensures NoteAction(t, board, Validated(n)).Applied?
    ensures var rows := NoteAction(t, board, Validated(n)).t.notes;
      && (forall k :: 0 <= k < |rows| ==> !IsNote(rows[k], board, AsNumber(Read(n, "id"))))
      && forall row :: row in t.notes && !IsNote(row, board, AsNumber(Read(n, "id"))) ==> row in rows
  {
  }

  /**
    A colour of five hex digits and a newline passes the colour rules as written, while the rules
    that check for hex digits alone refuse it.
   */
  lemma ColorNewlineAsWritten()
    ensures CheckKey(Str("abcde\n"), [Optional(), IsHexAsWritten(None), ExactLength(6, None)]) == KeyCheck(true, None, false)
    ensures CheckKey(Str("abcde\n"), [Optional(), IsHex(None), ExactLength(6, None)]).error.Some?
  {
    var v := Str("abcde\n");
    HexAcceptsNewline();
    OptionalPasses(v);
    ExactSix(v);
    PassingKey(v, Optional(), IsHexAsWritten(None), ExactLength(6, None));
    FailingSecond(v, Optional(), IsHex(None), ExactLength(6, None));
  }

  lemma OptionalPasses(v: Value)
    requires v == Str("abcde\n")
    ensures Optional()(v) == Pass(false)
  {
  }

  lemma ExactSix(v: Value)
    requires v == Str("abcde\n")
    ensures ExactLength(6, None)(v) == Pass(false)
  {
    assert |v.s| == 6;
  }

  /** Three rules that all pass without a stop enter the key with no error. */
  lemma PassingKey(v: Value, r0: Rule, r1: Rule, r2: Rule)
    requires r0(v) == Pass(false) && r1(v) == Pass(false) && r2(v) == Pass(false)
    ensures CheckKey(v, [r0, r1, r2]) == KeyCheck(true, None, false)
  {
    assert CheckKey(v, [r2]) == KeyCheck(true, None, false) by {
      assert [r2][1..] == [];
    }
    assert CheckKey(v, [r1, r2]) == KeyCheck(true, None, false) by {
      assert [r1, r2][1..] == [r2];
    }
    assert [r0, r1, r2][1..] == [r1, r2];
  }

  /** A second rule that fails after a first that passes gives the key that error. */
  lemma FailingSecond(v: Value, r0: Rule, r1: Rule, r2: Rule)
    requires r0(v) == Pass(false) && r1(v).Error?
    ensures CheckKey(v, [r0, r1, r2]).error == Some(r1(v).msg)
  {
    var rules := [r0, r1, r2];
    assert rules[1..] == [r1, r2];
  }
}
