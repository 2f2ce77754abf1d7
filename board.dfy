/**
  The document model: a board owning its notes, their connections and the snapshot the notes
  push their changes into (src/model/BoardView.ts, NoteView.ts, ConnectionView.ts). Notes and
  connections are objects that refer to one another: a note maps the id of every note it is
  connected to onto the connection, and a connection knows both its end notes.
 */
module Boards {
  import opened Wrappers
  import opened Snapshots
  import NS = NoteSnapshots
  import CS = ConnectionSnapshots
  import EL = EventListeners

  /** A note given either by id or as the note itself (`number | NoteView`). */
  datatype NoteRef = ById(id: int) | Direct(note: NoteView)

  datatype BoardError = NoteNotFound(id: int) | AlreadyConnected(a: int, b: int)

  /** The value of a board operation that may throw. */
  datatype Outcome<T> = Ok(value: T) | Failed(error: BoardError)

  /** A (backward, forward) pair emitted on the board's connection channel. */
  datatype ConnectionEvent = ConnectionEvent(backward: ConnectionAction, forward: ConnectionAction)

  /** The style the selected connections share; a field they disagree on is None. */
  datatype Style = Style(color: Option<string>, size: Option<int>, dash: Option<seq<int>>)

  /** The largest note id createNote draws, exclusive. */
  const IdBound: int := 0x7fff_ffff

  /** An image of the board's store; notes showing it listen to its `destroyed` event. */
  class StoredImage {
    const id: int
    var destroyed: EL.ListenerState<NoteView>

    constructor(id: int)
      ensures this.id == id && destroyed == EL.Fresh()
    {
      this.id := id;
      destroyed := EL.Fresh();
    }
  }

  function ImageId(img: Option<StoredImage>): (r: Option<int>)
    ensures r.Some? <==> img.Some?
  {
    match img
    case Some(i) => Some(i.id)
    case None => None
  }

  // ---------------------------------------------------------------------------------------------
  // splice with a possibly negative start, and the note list after destroy

  /** `s.splice(i, 1)`: a negative start counts from the end, one past the end removes nothing. */
  function SpliceOne<T>(s: seq<T>, i: int): (r: seq<T>)
    ensures var start := if i < 0 then (if |s| + i < 0 then 0 else |s| + i) else i;
      if start < |s| then r == s[..start] + s[start + 1..] else r == s
  {
    var start := if i < 0 then (if |s| + i < 0 then 0 else |s| + i) else i;
    if start < |s| then s[..start] + s[start + 1..] else s
  }

  /** `s.splice(s.indexOf(x), 1)` unguarded, as destroy writes it for the board's note list. */
  function RemoveFirstAsWritten<T(==)>(s: seq<T>, x: T): seq<T>
  {
    SpliceOne(s, EL.IndexOf(s, x))
  }

  /** The list without the first occurrence of `x`, and unchanged when `x` is not in it. */
  function RemoveFirst<T(==)>(s: seq<T>, x: T): (r: seq<T>)
    ensures x !in s ==> r == s
    ensures x in s ==> |r| == |s| - 1
    ensures forall m :: m in s && m != x ==> m in r
    ensures forall m :: m in r ==> m in s
    ensures EL.NoDuplicates(s) ==> x !in r
  {
    var i := EL.IndexOf(s, x);
    if i == -1 then s
    else
      SpliceKeeps(s, i);
      s[..i] + s[i + 1..]
  }

  /** Cutting out the element at `i` keeps every other element and adds none. */
  lemma SpliceKeeps<T>(s: seq<T>, i: nat)
    requires i < |s|
    ensures var r := s[..i] + s[i + 1..];
      && |r| == |s| - 1
      && (forall m :: m in s && m != s[i] ==> m in r)
      && (forall m :: m in r ==> m in s)
      && (EL.NoDuplicates(s) ==> s[i] !in r)
  {
    var r := s[..i] + s[i + 1..];
    forall m | m in s && m != s[i]
      ensures m in r
    {
      var k :| 0 <= k < |s| && s[k] == m;
      if k < i {
        assert r[k] == m;
      } else {
        assert r[k - 1] == m;
      }
    }
  }

  /** A note already gone from the board takes the board's last note with it when destroyed. */
  lemma DestroyTwiceDropsAnother(m: NoteView, n: NoteView)
    requires m != n
    ensures RemoveFirstAsWritten([m], n) == []
    ensures RemoveFirst([m], n) == [m]
  {
  }

  // ---------------------------------------------------------------------------------------------
  // Comparing and merging connection styles

  /** isDashEqual: same length and equal element by element. */
  method IsDashEqual(a: seq<int>, b: seq<int>) returns (r: bool)
    ensures r <==> a == b
  {
    if |a| != |b| {
      return false;
    }
    for i := 0 to |a|
      invariant a[..i] == b[..i]
    {
      if a[i] != b[i] {
        return false;
      }
      assert a[..i + 1] == a[..i] + [a[i]];
      assert b[..i + 1] == b[..i] + [b[i]];
    }
    assert a == a[..|a|] && b == b[..|b|];
    return true;
  }

  /** The first `n` connections all agree with the first on field `f`. */
  ghost predicate SameUpTo(cs: seq<ConnectionView>, n: nat, f: ConnectionField)
    reads cs
    requires 0 < n <= |cs|
  {
    match f
    case Color => forall j :: 0 <= j < n ==> cs[j].color == cs[0].color
    case Size => forall j :: 0 <= j < n ==> cs[j].size == cs[0].size
    case Dash => forall j :: 0 <= j < n ==> cs[j].dash == cs[0].dash
  }

  /**
    getMatchingStyle: None for no connections; otherwise each field is kept exactly when every
    connection agrees with the first on it, and None again when no field is kept.
   */
  method GetMatchingStyle(cs: seq<ConnectionView>) returns (r: Option<Style>)
    ensures |cs| == 0 ==> r.None?
    ensures |cs| > 0 ==>
      var color := if forall i :: 0 <= i < |cs| ==> cs[i].color == cs[0].color then Some(cs[0].color) else None;
      var size := if forall i :: 0 <= i < |cs| ==> cs[i].size == cs[0].size then Some(cs[0].size) else None;
      var dash := if forall i :: 0 <= i < |cs| ==> cs[i].dash == cs[0].dash then Some(cs[0].dash) else None;
      r == if color.None? && size.None? && dash.None? then None else Some(Style(color, size, dash))
  {
    if |cs| == 0 {
      return None;
    }
    var color: Option<string> := Some(cs[0].color);
    var size: Option<int> := Some(cs[0].size);
    var dash: Option<seq<int>> := Some(cs[0].dash);
    for i := 1 to |cs|
      invariant color == if SameUpTo(cs, i, Color) then Some(cs[0].color) else None
      invariant size == if SameUpTo(cs, i, Size) then Some(cs[0].size) else None
      invariant dash == if SameUpTo(cs, i, Dash) then Some(cs[0].dash) else None
    {
      if color != Some(cs[i].color) {
        color := None;
      }
      if size != Some(cs[i].size) {
        size := None;
      }
      if dash.Some? {
        var same := IsDashEqual(cs[i].dash, dash.value);
        if !same {
          dash := None;
        }
      }
    }
    if color.None? && size.None? && dash.None? {
      return None;
    }
    return Some(Style(color, size, dash));
  }

  // ---------------------------------------------------------------------------------------------
  // The board

  class BoardView {
    const id: string
    var defaultColor: string
    var defaultSize: int
    /** The pattern the last dash change set; the connection's dash setter writes it. */
    var defaultDash: seq<int>
    var notes: seq<NoteView>
    var noteMap: map<int, NoteView>
    var connections: seq<ConnectionView>
    const snapshot: Snapshot
    /** The pairs emitted on the connection channel, oldest first. */
    var connectionEvents: seq<ConnectionEvent>
    /** The notes and connections emitted on noteCreated and connectionCreated. */
    var notesCreated: seq<NoteView>
    var connectionsCreated: seq<ConnectionView>

    constructor(id: string)
      ensures this.id == id && defaultColor == "ff0000" && defaultSize == 5 && defaultDash == []
      ensures notes == [] && noteMap == map[] && connections == []
      ensures fresh(snapshot) && snapshot.Valid() && snapshot.State() == EmptySnapshot(id)
      ensures connectionEvents == [] && notesCreated == [] && connectionsCreated == []
    {
      this.id := id;
      defaultColor := "ff0000";
      defaultSize := 5;
      defaultDash := [];
      notes := [];
      noteMap := map[];
      connections := [];
      snapshot := new Snapshot(id);
      connectionEvents := [];
      notesCreated := [];
      connectionsCreated := [];
    }

    /** The note a reference names, when the board knows it. */
    function Resolve(r: NoteRef): (res: Outcome<NoteView>)
      reads this
      ensures r.Direct? ==> res == Ok(r.note)
      ensures r.ById? ==> (res.Ok? <==> r.id in noteMap)
      ensures r.ById? && res.Ok? ==> res.value == noteMap[r.id]
      ensures res.Failed? ==> res.error == NoteNotFound(r.id)
    {
      match r
      case Direct(n) => Ok(n)
      case ById(i) => if i in noteMap then Ok(noteMap[i]) else Failed(NoteNotFound(i))
    }

    function Resolvable(r: NoteRef): set<NoteView>
      reads this
    {
      match Resolve(r)
      case Ok(n) => {n}
      case Failed(_) => {}
    }

    /**
      isConnected: fails only when `a` is an unknown id; otherwise whether `a` has a connection
      to the note with `b`'s id, on any ports. An id `b` is not looked up.
     */
    function IsConnected(a: NoteRef, b: NoteRef): (r: Outcome<bool>)
      reads this, Resolvable(a)
      ensures r.Failed? <==> a.ById? && a.id !in noteMap
      ensures r.Failed? ==> r.error == NoteNotFound(a.id)
      ensures r.Ok? ==> (r.value <==> IdOf(b) in Resolve(a).value.conn)
    {
      match Resolve(a)
      case Failed(e) => Failed(e)
      case Ok(n) => Ok(IdOf(b) in n.conn)
    }

    /** newNote: appends the note, maps its id onto it and emits noteCreated; ids are not checked. */
    method NewNote(id: int, x: int, y: int, text: string, img: Option<StoredImage>) returns (n: NoteView)
      requires snapshot.Valid()
      modifies this`notes, this`noteMap, this`notesCreated, snapshot, ImageSet(img)
      ensures snapshot.Valid()
      ensures fresh(n) && n.board == this && n.State() == NS.NoteState(id, x, y, text, ImageId(img))
      ensures !n.attached && n.conn == map[] && n.img == img
      ensures notes == old(notes) + [n] && noteMap == old(noteMap)[id := n]
      ensures notesCreated == old(notesCreated) + [n]
      ensures snapshot.State() == PushNote(old(snapshot.State()), NS.Create(n.State()))
      ensures img.Some? ==> img.value.destroyed == EL.Listened(EL.Removed(old(img.value.destroyed), n).0, n)
    {
      n := new NoteView(this, id, x, y, text, img);
      notes := notes + [n];
      noteMap := noteMap[id := n];
      notesCreated := notesCreated + [n];
    }

    /** createNote: a new note under an id drawn at random from those not yet in use. */
    method CreateNote(x: int, y: int, text: string, img: Option<StoredImage>) returns (n: NoteView)
      requires snapshot.Valid()
      requires exists i :: 0 <= i < IdBound && i !in noteMap
      modifies this`notes, this`noteMap, this`notesCreated, snapshot, ImageSet(img)
      ensures snapshot.Valid()
      ensures fresh(n) && n.board == this && 0 <= n.id < IdBound && n.id !in old(noteMap)
      ensures n.State() == NS.NoteState(n.id, x, y, text, ImageId(img))
      ensures !n.attached && n.conn == map[] && n.img == img
      ensures notes == old(notes) + [n] && noteMap == old(noteMap)[n.id := n]
      ensures Resolve(ById(n.id)) == Ok(n) && IsConnected(ById(n.id), Direct(n)) == Ok(false)
      ensures notesCreated == old(notesCreated) + [n]
      ensures snapshot.State() == PushNote(old(snapshot.State()), NS.Create(n.State()))
      ensures img.Some? ==> img.value.destroyed == EL.Listened(EL.Removed(old(img.value.destroyed), n).0, n)
    {
      var id :| 0 <= id < IdBound && id !in noteMap;
      n := NewNote(id, x, y, text, img);
    }

    /**
      newConnection: resolves both ends, then connects them; a failed lookup changes nothing.
     */
    method NewConnection(a: NoteRef, pa: Port, b: NoteRef, pb: Port, color: Option<string>, size: Option<int>, dash: seq<int>)
      returns (r: Outcome<ConnectionView>)
      modifies this, (Resolvable(a) + Resolvable(b))`conn
      ensures old(Resolve(a)).Failed? ==> r == Failed(NoteNotFound(a.id)) && unchanged(this)
      ensures old(Resolve(a)).Ok? && old(Resolve(b)).Failed? ==> r == Failed(NoteNotFound(b.id)) && unchanged(this)
      ensures old(Resolve(a)).Ok? && old(Resolve(b)).Ok? ==>
        var x := old(Resolve(a)).value;
        var y := old(Resolve(b)).value;
        var (first, second) := Ordered(x, y);
        && (r.Failed? <==> second.id in old(first.conn))
        && (r.Failed? ==> r.error == AlreadyConnected(first.id, second.id) && unchanged(this) && unchanged(x, y))
        && (r.Ok? ==> var c := r.value;
             && fresh(c) && Connected(c, first, if x.id > y.id then pb else pa, second, if x.id > y.id then pa else pb)
             && c.color == color.GetOr(old(defaultColor)) && c.size == size.GetOr(old(defaultSize))
             && c.dash == dash
             && (first != second ==> first.conn == old(first.conn)[second.id := c] && second.conn == old(second.conn)[first.id := c])
             && (first == second ==> first.conn == old(first.conn)[first.id := c])
             && connections == old(connections) + [c]
             && connectionsCreated == old(connectionsCreated) + [c]
             && connectionEvents == old(connectionEvents) + [ConnectionEvent(CS.Delete(c.State()), CS.Create(c.State()))]
             && defaultColor == c.color && defaultSize == c.size
             && defaultDash == (if dash == [] then old(defaultDash) else dash)
             && notes == old(notes) && noteMap == old(noteMap)
             && IsConnected(a, Direct(y)) == Ok(true) && IsConnected(b, Direct(x)) == Ok(true))
    {
      var na := Resolve(a);
      if na.Failed? {
        return Failed(na.error);
      }
      var nb := Resolve(b);
      if nb.Failed? {
        return Failed(nb.error);
      }
      r := Connect(na.value, pa, nb.value, pb, color.GetOr(defaultColor), size.GetOr(defaultSize), dash);
    }

    /** A new, detached connection of this board between `first` and `second`, on the given ports. */
    ghost predicate Connected(c: ConnectionView, first: NoteView, p1: Port, second: NoteView, p2: Port)
      reads this, c
    {
      && c.board == this && c.a == first && c.b == second && c.pa == p1 && c.pb == p2 && !c.attached
    }

    /**
      The second half of newConnection: orders the ends so that the first has the smaller id, its
      port going with it, refuses two notes already connected on any ports, and appends the
      connection, whose setters leave its style as the board's defaults.
     */
    method Connect(x: NoteView, px: Port, y: NoteView, py: Port, color: string, size: int, dash: seq<int>)
      returns (r: Outcome<ConnectionView>)
      modifies this, x`conn, y`conn
      ensures var (first, second) := Ordered(x, y);
        && (r.Failed? <==> second.id in old(first.conn))
        && (r.Failed? ==> r.error == AlreadyConnected(first.id, second.id) && unchanged(this) && unchanged(x, y))
        && (r.Ok? ==> var c := r.value;
             && fresh(c) && Connected(c, first, if x.id > y.id then py else px, second, if x.id > y.id then px else py)
             && c.color == color && c.size == size && c.dash == dash
             && (first != second ==> first.conn == old(first.conn)[second.id := c] && second.conn == old(second.conn)[first.id := c])
             && (first == second ==> first.conn == old(first.conn)[first.id := c])
             && connections == old(connections) + [c]
             && connectionsCreated == old(connectionsCreated) + [c]
             && connectionEvents == old(connectionEvents) + [ConnectionEvent(CS.Delete(c.State()), CS.Create(c.State()))]
             && defaultColor == color && defaultSize == size
             && defaultDash == (if dash == [] then old(defaultDash) else dash)
             && notes == old(notes) && noteMap == old(noteMap))
    {
      var first, p1, second, p2 := x, px, y, py;
      if x.id > y.id {
        first, p1, second, p2 := y, py, x, px;
      }
      if second.id in first.conn {
        return Failed(AlreadyConnected(first.id, second.id));
      }
      var c := new ConnectionView(this, first, p1, second, p2, color, size, dash);
      connections := connections + [c];
      connectionsCreated := connectionsCreated + [c];
      r := Ok(c);
    }

    /** The note's part of destroy on the board: out of the list where it is there, and out of the map. */
    method Forget(n: NoteView)
      modifies this`notes, this`noteMap
      ensures notes == RemoveFirst(old(notes), n) && noteMap == old(noteMap) - {n.id}
    {
      var i := EL.IndexOf(notes, n);
      if i != -1 {
        notes := notes[..i] + notes[i + 1..];
      }
      noteMap := noteMap - {n.id};
    }

    /** The connection's part of destroy on the board: out of the list where it is there. */
    method Unlist(c: ConnectionView)
      modifies this`connections
      ensures connections == RemoveFirst(old(connections), c)
    {
      var i := EL.IndexOf(connections, c);
      if i != -1 {
        connections := connections[..i] + connections[i + 1..];
      }
    }
  }

  /** The two ends in the order newConnection stores them: smaller id first. */
  function Ordered(x: NoteView, y: NoteView): (r: (NoteView, NoteView))
    ensures r.0.id <= r.1.id && {r.0, r.1} == {x, y}
  {
    if x.id > y.id then (y, x) else (x, y)
  }

  function IdOf(r: NoteRef): int {
    match r
    case ById(i) => i
    case Direct(n) => n.id
  }

  function ImageSet(img: Option<StoredImage>): set<StoredImage> {
    if img.Some? then {img.value} else {}
  }

  // ---------------------------------------------------------------------------------------------
  // A note

  class NoteView {
    const board: BoardView
    const id: int
    var x: int
    var y: int
    var text: string
    var img: Option<StoredImage>
    /** Whether the note's element is in the document. */
    var attached: bool
    /** The connections of this note, by the id of the note at the other end. */
    var conn: map<int, ConnectionView>

    /** What the change descriptors read from the note. */
    function State(): NS.NoteState
      reads this
    {
      NS.NoteState(id, x, y, text, ImageId(img))
    }

    /**
      Every connection this note holds has it at one end and the note it is filed under at the
      other, and belongs to the same board: what the connection's constructor sets up.
     */
    ghost predicate Linked()
      reads this
    {
      FiledUnder(this, conn)
    }

    /** The connections, and the notes at their far ends. */
    function Connections(): set<ConnectionView>
      reads this
    {
      ConnSet(conn)
    }

    function Ends(): set<NoteView>
      reads this
    {
      FarEnds(this, conn)
    }

    /**
      The constructor: the image setter subscribes the note to its image without recording a
      change, since the note is not attached yet, and one Create is pushed into the snapshot.
     */
    constructor(board: BoardView, id: int, x: int, y: int, text: string, img: Option<StoredImage>)
      requires board.snapshot.Valid()
      modifies board.snapshot, ImageSet(img)
      ensures board.snapshot.Valid()
      ensures this.board == board && State() == NS.NoteState(id, x, y, text, ImageId(img))
      ensures !attached && conn == map[] && this.img == img
      ensures board.snapshot.State() == PushNote(old(board.snapshot.State()), NS.Create(State()))
      ensures img.Some? ==> img.value.destroyed == EL.Listened(EL.Removed(old(img.value.destroyed), this).0, this)
    {
      this.board := board;
      this.id := id;
      this.x := x;
      this.y := y;
      this.text := text;
      this.img := img;
      attached := false;
      conn := map[];
      new;
      // The image setter runs with `_img` already the image: the removal finds nothing to remove
      // and the value does not change, so only the subscription takes effect.
      if img.Some? {
        var l := img.value;
        l.destroyed := EL.Listened(EL.Removed(l.destroyed, this).0, this);
      }
      var _ := board.snapshot.PushNoteAction(NS.Create(State()));
    }

    method Attach()
      modifies this`attached
      ensures attached
    {
      attached := true;
    }

    method Detach()
      modifies this`attached
      ensures !attached
    {
      attached := false;
    }

    /** move: shifts the note and pushes an Edit of x and y, attached or not. */
    method Move(dx: int, dy: int)
      requires board.snapshot.Valid()
      modifies this`x, this`y, board.snapshot
      ensures board.snapshot.Valid()
      ensures x == old(x) + dx && y == old(y) + dy
      ensures board.snapshot.State() == PushNote(old(board.snapshot.State()), NS.Edit(State(), [X, Y]))
    {
      x := x + dx;
      y := y + dy;
      var _ := board.snapshot.PushNoteAction(NS.Edit(State(), [X, Y]));
    }

    /** The text setter: pushes an Edit of the text when attached, changed or not. */
    method SetText(t: string)
      requires board.snapshot.Valid()
      modifies this`text, board.snapshot
      ensures board.snapshot.Valid()
      ensures text == t
      ensures board.snapshot.State() ==
        if attached then PushNote(old(board.snapshot.State()), NS.Edit(State(), [Text]))
        else old(board.snapshot.State())
    {
      text := t;
      if attached {
        var _ := board.snapshot.PushNoteAction(NS.Edit(State(), [Text]));
      }
    }

    /**
      The image setter: the note stops listening to the old image and listens to the new one;
      only a different image is recorded, and only while attached.
     */
    method SetImg(v: Option<StoredImage>)
      requires board.snapshot.Valid()
      modifies this`img, board.snapshot`notes, board.snapshot`stateEvents, ImageSet(img)`destroyed, ImageSet(v)`destroyed
      ensures board.snapshot.Valid()
      ensures img == v
      ensures board.snapshot.State() ==
        if old(img) != v && attached then PushNote(old(board.snapshot.State()), NS.Edit(State(), [Img]))
        else old(board.snapshot.State())
      ensures old(img).Some? && old(img) != v ==>
        old(img).value.destroyed == EL.Removed(old(img.value.destroyed), this).0
      ensures v.Some? && old(img) != v ==> v.value.destroyed == EL.Listened(old(v.value.destroyed), this)
      ensures v.Some? && old(img) == v ==>
        v.value.destroyed == EL.Listened(EL.Removed(old(v.value.destroyed), this).0, this)
    {
      if img.Some? {
        var l := img.value;
        l.destroyed := EL.Removed(l.destroyed, this).0;
      }
      if v.Some? {
        var l := v.value;
        l.destroyed := EL.Listened(l.destroyed, this);
      }
      if img != v {
        img := v;
        if attached {
          var _ := board.snapshot.PushNoteAction(NS.Edit(State(), [Img]));
        }
      }
    }

    /** onImageDestroyed: the image is dropped as if set to null. */
    method OnImageDestroyed()
      requires board.snapshot.Valid()
      modifies this`img, board.snapshot`notes, board.snapshot`stateEvents, ImageSet(img)`destroyed
      ensures board.snapshot.Valid()
      ensures img.None?
      ensures board.snapshot.State() ==
        if old(img).Some? && attached then PushNote(old(board.snapshot.State()), NS.Edit(State(), [Img]))
        else old(board.snapshot.State())
    {
      SetImg(None);
    }

    /**
      destroy: destroys every connection of the note, as DestroyConnections describes, in the
      order `gone`, and, as Retire describes, drops its image, takes it out of the board's list
      (only where it is there) and id map, detaches it and pushes a Delete. The source runs the
      connection loop first; the two halves write disjoint fields, so the model runs Retire
      first and reaches the same state.
     */
    method Destroy() returns (ghost gone: seq<ConnectionView>, ghost states: seq<CS.ConnectionState>)
      requires board.snapshot.Valid() && Linked()
      modifies this`conn, this`img, this`attached, board`notes, board`noteMap
      modifies board`connections, board`connectionEvents, board.snapshot`notes, board.snapshot`stateEvents
      modifies Ends()`conn, Connections()`attached, ImageSet(img)`destroyed
      ensures board.snapshot.Valid()
      ensures conn == map[] && img.None? && !attached
      ensures board.notes == RemoveFirst(old(board.notes), this)
      ensures board.noteMap == old(board.noteMap) - {id}
      ensures EL.NoDuplicates(gone) && forall c :: c in gone <==> c in old(Connections())
      ensures |states| == |gone| && forall i :: 0 <= i < |gone| ==> states[i] == gone[i].State()
      ensures board.connectionEvents == old(board.connectionEvents) + DestroyPairs(states)
      ensures board.connections == RemoveEach(old(board.connections), gone)
      ensures forall c :: c in gone ==> !c.attached
      ensures forall n :: n in old(Ends()) && n != this ==> n.conn == old(n.conn) - {id}
      ensures board.snapshot.State() == DestroyedInto(old(board.snapshot.State()), old(State()), old(attached))
    {
      ghost var ends, conns := Ends(), Connections();
      FarEndsFiled(this, conn);
      Retire();
      assert forall n :: n in ends ==> n.conn == old(n.conn);
      ghost var snapshot, retired := board.snapshot, board.snapshot.State();
      gone, states := DestroyConnections(ends, conns);
      assert board.snapshot == snapshot && snapshot.State() == retired;
    }

    /** The part of destroy that concerns the note itself, after its connection loop. */
    method Retire()
      requires board.snapshot.Valid()
      modifies this`img, this`attached, board`notes, board`noteMap, board.snapshot`notes, board.snapshot`stateEvents
      modifies ImageSet(img)`destroyed
      ensures board.snapshot.Valid()
      ensures img.None? && !attached
      ensures board.notes == RemoveFirst(old(board.notes), this)
      ensures board.noteMap == old(board.noteMap) - {id}
      ensures old(img).Some? ==> old(img).value.destroyed == EL.Removed(old(img.value.destroyed), this).0
      ensures board.snapshot.State() == DestroyedInto(old(board.snapshot.State()), old(State()), old(attached))
    {
      SetImg(None);
      ghost var s1 := board.snapshot.State();
      board.Forget(this);
      Detach();
      assert board.snapshot.State() == s1 && State() == old(State()).(img := None);
      var _ := board.snapshot.PushNoteAction(NS.Delete(State()));
    }

    /**
      onEndDragDot: a drop on something that is not a dot, on this note's own dot, or on a note
      this one is already connected to does nothing (None); otherwise it asks the board for a
      connection from this note's dragged port to the dropped-on port, in the board's style.
     */
    method OnEndDragDot(targetIsDot: bool, dragToId: int, dragToPos: Port, dragFrom: Port)
      returns (r: Option<Outcome<ConnectionView>>)
      modifies board, ({this} + board.Resolvable(ById(dragToId)))`conn
      ensures !targetIsDot || dragToId == id || dragToId in old(conn) ==>
        r.None? && unchanged(board) && unchanged(this)
      ensures targetIsDot && dragToId != id && dragToId !in old(conn) ==> r.Some?
      ensures r.Some? && dragToId !in old(board.noteMap) ==> r.value == Failed(NoteNotFound(dragToId))
      ensures r.Some? && r.value.Ok? ==>
        var c := r.value.value;
        && dragToId in old(board.noteMap)
        && var other := old(board.noteMap[dragToId]);
        && fresh(c) && c.board == board && !c.attached
        && {c.a, c.b} == {this, other}
        && (c.a == this ==> c.pa == dragFrom && c.pb == dragToPos)
        && (c.a != this ==> c.pa == dragToPos && c.pb == dragFrom)
        && c.color == old(board.defaultColor) && c.size == old(board.defaultSize) && c.dash == old(board.defaultDash)
        && (other != this ==> conn == old(conn)[other.id := c] && other.conn == old(other.conn)[id := c])
        && (other == this ==> conn == old(conn)[id := c])
        && board.connections == old(board.connections) + [c]
        && board.connectionsCreated == old(board.connectionsCreated) + [c]
        && board.connectionEvents == old(board.connectionEvents) + [ConnectionEvent(CS.Delete(c.State()), CS.Create(c.State()))]
        && board.defaultColor == old(board.defaultColor) && board.defaultSize == old(board.defaultSize)
        && board.defaultDash == old(board.defaultDash)
        && board.notes == old(board.notes) && board.noteMap == old(board.noteMap)
    {
      if !targetIsDot || id == dragToId {
        return None;
      }
      var connected := board.IsConnected(Direct(this), ById(dragToId));
      if connected.value {
        return None;
      }
      var made := board.NewConnection(Direct(this), dragFrom, ById(dragToId), dragToPos, None, None, board.defaultDash);
      r := Some(made);
    }

    /**
      The loop over the connections, written as a recursion on those left: the connection under
      some key is destroyed, which takes it out of this note's map, and then the rest. `gone`
      lists them in the order visited. Every connection is detached and leaves the board's list
      as its own destroy says, each emits its (Create, Delete) pair, and every note at another
      end forgets this note and keeps the rest of its map. `ends` covers the far ends, and a note
      of `ends` that files this note is the far end of the connection under its own id.
     */
    method DestroyConnections(ghost ends: set<NoteView>, ghost conns: set<ConnectionView>)
      returns (ghost gone: seq<ConnectionView>, ghost states: seq<CS.ConnectionState>)
      requires Linked()
      requires forall j :: j in conn ==> Far(conn[j], this) in ends && conn[j] in conns
      requires forall n :: n in ends && n != this && id in n.conn ==> n.id in conn && Far(conn[n.id], this) == n
      modifies this`conn, board`connections, board`connectionEvents, ends`conn, conns`attached
      ensures conn == map[]
      ensures EL.NoDuplicates(gone) && forall c :: c in gone <==> c in old(Connections())
      ensures |states| == |gone| && forall i :: 0 <= i < |gone| ==> states[i] == gone[i].State()
      ensures board.connectionEvents == old(board.connectionEvents) + DestroyPairs(states)
      ensures board.connections == RemoveEach(old(board.connections), gone)
      ensures forall c :: c in gone ==> !c.attached
      ensures forall n :: n in ends && n != this ==> n.conn == old(n.conn) - {id}
      decreases |conn|
    {
      if conn.Keys == {} {
        return [], [];
      }
      var k := SomeKey(conn);
      var c, far := DestroyFiled(k, ends);
      ghost var st, events := c.State(), board.connectionEvents;
      label Mid:
      ghost var conns' := conns - {c};
      assert c !in conns';
      var rest, restStates := DestroyConnections(ends, conns');
      gone, states := [c] + rest, [st] + restStates;
      DestroyPairsStep(old(board.connectionEvents), events, board.connectionEvents, st, restStates);
      RemoveEachStep(old(board.connections), old@Mid(board.connections), board.connections, c, rest);
      VisitStep(c, rest, old(Connections()), old@Mid(Connections()));
      StatesStep(c, rest, st, restStates);
    }

    /**
      One step of destroy's loop: the connection filed under `k` is destroyed, and with it the
      key; the note at its far end forgets this note, and every other note keeps its map.
     */
    method DestroyFiled(k: int, ghost ends: set<NoteView>) returns (c: ConnectionView, ghost far: NoteView)
      requires Linked() && k in conn
      requires forall n :: n in ends && n != this && id in n.conn ==> n.id in conn && Far(conn[n.id], this) == n
      modifies this`conn, board`connections, board`connectionEvents, conn[k].a`conn, conn[k].b`conn, {conn[k]}`attached
      ensures c == old(conn[k]) && !c.attached
      ensures (c.a == this && c.b == far) || (c.b == this && c.a == far)
      ensures conn == old(conn) - {k} && Linked()
      ensures Connections() == old(Connections()) - {c}
      ensures board.connectionEvents == old(board.connectionEvents) + [DestroyPair(c.State())]
      ensures board.connections == RemoveFirst(old(board.connections), c)
      ensures far != this ==> far.conn == old(far.conn) - {id}
      ensures forall n :: n in ends && n != this && id in n.conn ==> n.id in conn && Far(conn[n.id], this) == n
      ensures forall n :: n in ends && n != this ==> n.conn - {id} == old(n.conn) - {id}
    {
      c := conn[k];
      far := Far(c, this);
      c.Destroy();
      ConnSetRemove(this, old(conn), k);
    }

    /** Drops one key from this note's connection map. */
    method Unfile(k: int)
      modifies this`conn
      ensures conn == old(conn) - {k}
    {
      conn := conn - {k};
    }
  }

  /** Each connection of `m` joins `n` to the note whose id it is filed under, on `n`'s board. */
  ghost predicate FiledUnder(n: NoteView, m: map<int, ConnectionView>)
  {
    forall k :: k in m ==>
      && m[k].board == n.board
      && ((m[k].a == n && m[k].b.id == k) || (m[k].b == n && m[k].a.id == k))
  }

  /** The (Create, Delete) pair each connection of `cs` emits when destroyed, in order. */
  function DestroyPairs(states: seq<CS.ConnectionState>): (r: seq<ConnectionEvent>)
    ensures |r| == |states|
  {
    if |states| == 0 then [] else [DestroyPair(states[0])] + DestroyPairs(states[1..])
  }

  function DestroyPair(st: CS.ConnectionState): ConnectionEvent
  {
    ConnectionEvent(CS.Create(st), CS.Delete(st))
  }

  /** The events of one destroyed connection followed by those of the rest. */
  lemma DestroyPairsStep(e0: seq<ConnectionEvent>, e1: seq<ConnectionEvent>, e2: seq<ConnectionEvent>,
                         st: CS.ConnectionState, rest: seq<CS.ConnectionState>)
    requires e1 == e0 + [DestroyPair(st)] && e2 == e1 + DestroyPairs(rest)
    ensures e2 == e0 + DestroyPairs([st] + rest)
  {
    assert ([st] + rest)[1..] == rest;
  }

  /** The states of one connection and then the rest are those of them all. */
  lemma StatesStep(c: ConnectionView, rest: seq<ConnectionView>, st: CS.ConnectionState, sts: seq<CS.ConnectionState>)
    requires st == c.State() && |sts| == |rest| && forall i :: 0 <= i < |rest| ==> sts[i] == rest[i].State()
    ensures var cs, all := [c] + rest, [st] + sts;
      |all| == |cs| && forall i :: 0 <= i < |cs| ==> all[i] == cs[i].State()
  {
  }

  /** Removing one connection and then the rest removes them all, in that order. */
  lemma RemoveEachStep<T>(s0: seq<T>, s1: seq<T>, s2: seq<T>, c: T, rest: seq<T>)
    requires s1 == RemoveFirst(s0, c) && s2 == RemoveEach(s1, rest)
    ensures s2 == RemoveEach(s0, [c] + rest)
  {
    assert ([c] + rest)[1..] == rest;
  }

  /** One connection visited before a repeat-free visit of all the others visits each once. */
  lemma VisitStep<T>(c: T, rest: seq<T>, before: set<T>, after: set<T>)
    requires c in before && after == before - {c}
    requires EL.NoDuplicates(rest) && forall x :: x in rest <==> x in after
    ensures EL.NoDuplicates([c] + rest) && forall x :: x in [c] + rest <==> x in before
  {
  }

  /** The list with the first occurrence of each of `cs` removed, in that order. */
  function RemoveEach<T(==)>(s: seq<T>, cs: seq<T>): seq<T>
  {
    if |cs| == 0 then s else RemoveEach(RemoveFirst(s, cs[0]), cs[1..])
  }

  function ConnSet(m: map<int, ConnectionView>): set<ConnectionView>
  {
    set k | k in m :: m[k]
  }

  function FarEnds(n: NoteView, m: map<int, ConnectionView>): set<NoteView>
  {
    set k | k in m :: Far(m[k], n)
  }

  /** A connection is filed under one key only, so dropping its key drops it. */
  lemma ConnSetRemove(n: NoteView, m: map<int, ConnectionView>, k: int)
    requires FiledUnder(n, m) && k in m
    ensures ConnSet(m - {k}) == ConnSet(m) - {m[k]}
  {
    forall c | c in ConnSet(m) - {m[k]}
      ensures c in ConnSet(m - {k})
    {
      var j :| j in m && m[j] == c;
      assert j in m - {k};
    }
  }

  /** Each far end other than `n` itself is the far end of the connection filed under its own id. */
  lemma FarEndsFiled(n: NoteView, m: map<int, ConnectionView>)
    requires FiledUnder(n, m)
    ensures forall e :: e in FarEnds(n, m) && e != n ==> e.id in m && Far(m[e.id], n) == e
  {
    forall e | e in FarEnds(n, m) && e != n
      ensures e.id in m && Far(m[e.id], n) == e
    {
      var j :| j in m && Far(m[j], n) == e;
    }
  }

  /** The end of `c` that is not `n`, or `n` itself for a connection from `n` to `n`. */
  function Far(c: ConnectionView, n: NoteView): NoteView
  {
    if c.a == n then c.b else c.a
  }

  /** A key of a non-empty connection map, the one destroy happens to visit next. */
  method SomeKey(m: map<int, ConnectionView>) returns (k: int)
    requires m.Keys != {}
    ensures k in m
  {
    if forall i :: i !in m.Keys {
      assert false;
    }
    k :| k in m.Keys;
  }

  /**
    Destroying a note leaves its pending change a Delete, or nothing when the note was created
    since the last save: a note that was untouched or edited ends up deleted.
   */
  lemma DestroyLeavesDelete(s: SnapshotState, n: NS.NoteState, attached: bool)
    requires s.Valid()
    ensures var e := DestroyedInto(s, n, attached).notes.entries; var k := NoteKey(n.id);
      && (k in e ==> e[k].Delete?)
      && (k !in s.notes.entries ==> k in e)
      && (k in s.notes.entries && s.notes.entries[k].Edit? ==> k in e)
      && (k in s.notes.entries && s.notes.entries[k].Create? ==> k !in e)
  {
    var gone := n.(img := None);
    var k := NoteKey(n.id);
    NS.BuildersWellFormed(gone, [Img]);
    var s1 := if n.img.Some? && attached then PushNote(s, NS.Edit(gone, [Img])) else s;
    assert k in s1.notes.entries ==> s1.notes.entries[k].Create? == (k in s.notes.entries && s.notes.entries[k].Create?);
    assert k in s1.notes.entries ==> s1.notes.entries[k].Delete? == (k in s.notes.entries && s.notes.entries[k].Delete?);
    assert k in s1.notes.entries <==> k in s.notes.entries || (n.img.Some? && attached);
  }

  /**
    A new note whose image is then destroyed while it is shown is saved as created with image 0:
    the Edit of the image merges into the pending Create.
   */
  lemma ImageDestroyedAfterCreate(s: SnapshotState, n: NS.NoteState)
    requires s.Valid() && NoteKey(n.id) !in s.notes.entries
    ensures var e := PushNote(PushNote(s, NS.Create(n)), NS.Edit(n.(img := None), [Img])).notes.entries;
      && NoteKey(n.id) in e && e[NoteKey(n.id)].Create?
      && e[NoteKey(n.id)].fields == NS.Payload(n.(img := None))
  {
    var gone := n.(img := None);
    NS.OverlayPayload(n, gone, [Img]);
    NS.BuildersWellFormed(n, [Img]);
    NS.BuildersWellFormed(gone, [Img]);
    var e := PushNote(PushNote(s, NS.Create(n)), NS.Edit(gone, [Img])).notes.entries;
    assert e[NoteKey(n.id)].fields == NS.Payload(n) + NS.Edit(gone, [Img]).fields;
  }

  /**
    Once a note has moved to another image, the old image no longer lists it, and every other
    note the old image listed is still there: destroying the old image leaves this note alone.
   */
  lemma ReplacedImageForgetsNote(st: EL.ListenerState<NoteView>, n: NoteView)
    requires !st.emitting && EL.NoDuplicates(st.listeners)
    ensures n !in EL.Removed(st, n).0.listeners
    ensures forall m :: m in st.listeners && m != n ==> m in EL.Removed(st, n).0.listeners
  {
    EL.RemoveOutsideEmit(st, n);
    var s := st.listeners;
    var i := EL.IndexOf(s, n);
    if i != -1 {
      var r := EL.Removed(st, n).0.listeners;
      assert r == EL.SpliceOne(s, i as nat);
      forall m | m in s && m != n
        ensures m in r
      {
        var k :| 0 <= k < |s| && s[k] == m;
        if k < i {
          assert r[k] == s[k];
        } else {
          assert r[k - 1] == s[k];
        }
      }
    }
  }

  /**
    The snapshot after destroying a note in state `n`: an Edit of the image where the note had
    one and was attached, then a Delete of the note without its image.
   */
  function DestroyedInto(s: SnapshotState, n: NS.NoteState, attached: bool): (r: SnapshotState)
    requires s.Valid()
    ensures r.Valid()
  {
    var gone := n.(img := None);
    var s1 := if n.img.Some? && attached then PushNote(s, NS.Edit(gone, [Img])) else s;
    PushNote(s1, NS.Delete(gone))
  }

  // ---------------------------------------------------------------------------------------------
  // A connection

  class ConnectionView {
    const board: BoardView
    const a: NoteView
    const pa: Port
    const b: NoteView
    const pb: Port
    var color: string
    var size: int
    var dash: seq<int>
    /** Whether the connection's lines are in the document. */
    var attached: bool

    /** What the change descriptors read from the connection. */
    function State(): CS.ConnectionState
      reads this`color, this`size, this`dash
    {
      CS.ConnectionState(a.id, pa, b.id, pb, color, size, dash)
    }

    /**
      The constructor: files the connection under each end in the other's map, runs the
      setters, which update the board's defaults but record nothing while not attached, and
      emits the (Delete, Create) pair.
     */
    constructor(board: BoardView, a: NoteView, pa: Port, b: NoteView, pb: Port, color: string, size: int, dash: seq<int>)
      modifies a`conn, b`conn, board`defaultColor, board`defaultSize, board`defaultDash, board`connectionEvents
      ensures this.board == board && this.a == a && this.pa == pa && this.b == b && this.pb == pb
      ensures this.color == color && this.size == size && this.dash == dash && !attached
      ensures a != b ==> a.conn == old(a.conn)[b.id := this] && b.conn == old(b.conn)[a.id := this]
      ensures a == b ==> a.conn == old(a.conn)[a.id := this]
      ensures board.defaultColor == color && board.defaultSize == size
      ensures board.defaultDash == if dash == [] then old(board.defaultDash) else dash
      ensures board.connectionEvents == old(board.connectionEvents) + [ConnectionEvent(CS.Delete(State()), CS.Create(State()))]
    {
      this.board := board;
      this.a := a;
      this.pa := pa;
      this.b := b;
      this.pb := pb;
      this.color := "";
      this.size := 0;
      this.dash := [];
      attached := false;
      new;
      a.conn := a.conn[b.id := this];
      b.conn := b.conn[a.id := this];
      SetColor(color);
      SetSize(size);
      SetDash(dash);
      board.connectionEvents := board.connectionEvents + [ConnectionEvent(CS.Delete(State()), CS.Create(State()))];
    }

    method Attach()
      modifies this`attached
      ensures attached
    {
      attached := true;
    }

    /**
      destroy: emits the (Create, Delete) pair, takes the connection out of the board's list
      where it is there, and out of both ends' maps.
     */
    method Destroy()
      modifies this`attached, a`conn, b`conn, board`connections, board`connectionEvents
      ensures !attached
      ensures board.connectionEvents == old(board.connectionEvents) + [ConnectionEvent(CS.Create(State()), CS.Delete(State()))]
      ensures board.connections == RemoveFirst(old(board.connections), this)
      ensures a != b ==> a.conn == old(a.conn) - {b.id} && b.conn == old(b.conn) - {a.id}
      ensures a == b ==> a.conn == old(a.conn) - {a.id}
    {
      board.connectionEvents := board.connectionEvents + [ConnectionEvent(CS.Create(State()), CS.Delete(State()))];
      board.Unlist(this);
      a.Unfile(b.id);
      b.Unfile(a.id);
      attached := false;
    }

    /**
      The color setter: reads the reverse Edit first, makes the color the board's default, and
      emits (reverse, forward) when attached, changed or not.
     */
    method SetColor(v: string)
      modifies this`color, board`defaultColor, board`connectionEvents
      ensures color == v && board.defaultColor == v
      ensures board.connectionEvents == old(board.connectionEvents) +
        if attached then [ConnectionEvent(CS.Edit(old(State()), [Color]), CS.Edit(State(), [Color]))] else []
    {
      var reverse := CS.Edit(State(), [Color]);
      board.defaultColor := v;
      color := v;
      if attached {
        board.connectionEvents := board.connectionEvents + [ConnectionEvent(reverse, CS.Edit(State(), [Color]))];
      }
    }

    /** The size setter, as the color one. */
    method SetSize(v: int)
      modifies this`size, board`defaultSize, board`connectionEvents
      ensures size == v && board.defaultSize == v
      ensures board.connectionEvents == old(board.connectionEvents) +
        if attached then [ConnectionEvent(CS.Edit(old(State()), [Size]), CS.Edit(State(), [Size]))] else []
    {
      var reverse := CS.Edit(State(), [Size]);
      board.defaultSize := v;
      size := v;
      if attached {
        board.connectionEvents := board.connectionEvents + [ConnectionEvent(reverse, CS.Edit(State(), [Size]))];
      }
    }

    /** The dash setter: an equal pattern changes nothing, not even the board's default. */
    method SetDash(d: seq<int>)
      modifies this`dash, board`defaultDash, board`connectionEvents
      ensures dash == d
      ensures old(dash) == d ==> board.defaultDash == old(board.defaultDash) && board.connectionEvents == old(board.connectionEvents)
      ensures old(dash) != d ==> board.defaultDash == d
      ensures old(dash) != d ==>
        board.connectionEvents == old(board.connectionEvents) + (if attached then [ConnectionEvent(CS.Edit(old(State()), [Dash]), CS.Edit(State(), [Dash]))] else [])
    {
      var same := IsDashEqual(dash, d);
      if same {
        return;
      }
      var reverse := CS.Edit(State(), [Dash]);
      board.defaultDash := d;
      dash := d;
      if attached {
        board.connectionEvents := board.connectionEvents + [ConnectionEvent(reverse, CS.Edit(State(), [Dash]))];
      }
    }
  }
}
