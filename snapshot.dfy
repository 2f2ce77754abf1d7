/**
  The board's pending-change record (src/snapshot/Snapshot.ts): two insertion-ordered maps, one
  for notes and one for connections, from a string key to the change pending for that entity.
  Pushing a change merges it after the pending one, shifting merges it before; the record is
  dirty while either map is non-empty and announces every flip of dirtiness on its `state`
  event.

  `SnapshotState` and the functions on it are the specification; class `Snapshot` is the
  board's own mutable record and is proved against them. The snapshots kept in the undo history
  are values of `SnapshotState`.
 */
module Snapshots {
  import opened Wrappers
  import opened Decimal
  import opened OrderedMaps
  import opened SnapshotMerge

  /** ConnPosition: which side of a note a connection is attached to. */
  datatype Port = Left | Top | Right | Bottom {
    /** The enum's numeric value, as a key or a JSON field shows it. */
    function Ordinal(): nat {
      match this
      case Left => 0
      case Top => 1
      case Right => 2
      case Bottom => 3
    }
  }

  datatype NoteField = X | Y | Text | Img
  datatype ConnectionField = Color | Size | Dash

  /** A field value: the numeric ones (coordinates, image id, size) and the string ones. */
  datatype Value = Num(n: int) | Str(s: string)

  /** ConnectionID: the two end notes and their ports, in the connection's stored order. */
  datatype ConnectionId = ConnectionId(a: int, pa: Port, b: int, pb: Port)

  type NoteAction = Action<int, NoteField, Value>
  type ConnectionAction = Action<ConnectionId, ConnectionField, Value>

  const AllNoteFields: set<NoteField> := {X, Y, Text, Img}
  const AllConnectionFields: set<ConnectionField> := {Color, Size, Dash}

  // ---------------------------------------------------------------------------------------------
  // Keys

  /** getNoteKey: the id in decimal. */
  function NoteKey(id: int): (k: string)
    ensures |k| >= 1
  {
    IntToString(id)
  }

  function PortChar(p: Port): (c: char)
    ensures IsDigit(c)
  {
    DigitChar(p.Ordinal())
  }

  /** getConnectionKey: `a,pa>b,pb` with the ports as their enum numbers. */
  function ConnectionKey(c: ConnectionId): string {
    IntToString(c.a) + [','] + KeyTail(c)
  }

  /** The part of a connection key after the first comma: `pa>b,pb`. */
  function KeyTail(c: ConnectionId): string {
    [PortChar(c.pa), '>'] + IntToString(c.b) + [',', PortChar(c.pb)]
  }

  /** Distinct notes have distinct keys. */
  lemma NoteKeyInjective(i: int, j: int)
    requires NoteKey(i) == NoteKey(j)
    ensures i == j
  {
    IntToStringInjective(i, j);
  }

  lemma NoSeparator(i: int, c: char)
    requires c == ',' || c == '>'
    ensures c !in IntToString(i)
  {
  }

  /** In `s + [c] + t` with no `c` in `s`, the first `c` sits at index |s|. */
  lemma FirstSeparator(s: string, t: string, c: char)
    requires c !in s
    ensures forall k :: 0 <= k < |s| ==> (s + [c] + t)[k] != c
    ensures (s + [c] + t)[|s|] == c
  {
  }

  /** Two strings that split at the first occurrence of `c` split into equal parts. */
  lemma SplitAt(s1: string, t1: string, s2: string, t2: string, c: char)
    requires c !in s1 && c !in s2
    requires s1 + [c] + t1 == s2 + [c] + t2
    ensures s1 == s2 && t1 == t2
  {
    var w := s1 + [c] + t1;
    FirstSeparator(s1, t1, c);
    FirstSeparator(s2, t2, c);
    assert |s1| == |s2|;
    assert s1 == w[..|s1|] == s2;
    assert t1 == w[|s1| + 1..] == t2;
  }

  /** Distinct (a, pa, b, pb) give distinct keys. */
  lemma ConnectionKeyInjective(c1: ConnectionId, c2: ConnectionId)
    requires ConnectionKey(c1) == ConnectionKey(c2)
    ensures c1 == c2
  {
    NoSeparator(c1.a, ',');
    NoSeparator(c2.a, ',');
    SplitAt(IntToString(c1.a), KeyTail(c1), IntToString(c2.a), KeyTail(c2), ',');
    IntToStringInjective(c1.a, c2.a);
    KeyTailInjective(c1, c2);
  }

  lemma KeyTailInjective(c1: ConnectionId, c2: ConnectionId)
    requires KeyTail(c1) == KeyTail(c2)
    ensures c1.pa == c2.pa && c1.b == c2.b && c1.pb == c2.pb
  {
    var t1, t2 := KeyTail(c1), KeyTail(c2);
    assert t1[0] == PortChar(c1.pa) && t2[0] == PortChar(c2.pa);
    PortCharInjective(c1.pa, c2.pa);
    assert t1[2..] == IntToString(c1.b) + [','] + [PortChar(c1.pb)];
    assert t2[2..] == IntToString(c2.b) + [','] + [PortChar(c2.pb)];
    NoSeparator(c1.b, ',');
    NoSeparator(c2.b, ',');
    SplitAt(IntToString(c1.b), [PortChar(c1.pb)], IntToString(c2.b), [PortChar(c2.pb)], ',');
    IntToStringInjective(c1.b, c2.b);
    PortCharInjective(c1.pb, c2.pb);
  }

  lemma PortCharInjective(p1: Port, p2: Port)
    requires PortChar(p1) == PortChar(p2)
    ensures p1 == p2
  {
    assert DigitValue(PortChar(p1)) == p1.Ordinal();
    assert DigitValue(PortChar(p2)) == p2.Ordinal();
  }


  function NoteKeyOf(x: NoteAction): string {
    NoteKey(x.id)
  }

  function ConnectionKeyOf(x: ConnectionAction): string {
    ConnectionKey(x.id)
  }

  // ---------------------------------------------------------------------------------------------
  // The specification

  /** The contents of a snapshot: the board it belongs to and both maps. */
  datatype SnapshotState = SnapshotState(
    boardId: string,
    notes: OrderedMap<string, NoteAction>,
    connections: OrderedMap<string, ConnectionAction>)
  {
    /** Both maps are well formed and every change is stored under its own key. */
    ghost predicate Valid() {
      && notes.Valid()
      && connections.Valid()
      && (forall k :: k in notes.entries ==> NoteKeyOf(notes.entries[k]) == k)
      && (forall k :: k in connections.entries ==> ConnectionKeyOf(connections.entries[k]) == k)
    }
  }

  /** Storing a connection change under its own key keeps a snapshot valid. */
  lemma ConnectionSetValid(s: SnapshotState, k: string, x: ConnectionAction)
    requires s.Valid() && ConnectionKeyOf(x) == k
    ensures s.(connections := s.connections.Set(k, x)).Valid()
  {
  }

  /** Dropping a connection change keeps a snapshot valid. */
  lemma ConnectionRemoveValid(s: SnapshotState, k: string)
    requires s.Valid()
    ensures s.(connections := s.connections.Remove(k)).Valid()
  {
  }

  function EmptySnapshot(boardId: string): (s: SnapshotState)
    ensures s.Valid() && !IsDirty(s)
  {
    SnapshotState(boardId, Empty(), Empty())
  }

  /** What push and shift do with a merge result: keep, delete or set the entry under `k`. */
  function StoreResult<A>(m: OrderedMap<string, A>, k: string, r: Merged<A>): (m': OrderedMap<string, A>)
    requires m.Valid()
    ensures m'.Valid()
    ensures m'.entries == Store(m.entries, k, r)
    ensures r.Conflict? ==> m' == m
  {
    match r
    case Conflict => m
    case Cancelled => m.Remove(k)
    case Result(x) => m.Set(k, x)
  }

  function PushNote(s: SnapshotState, x: NoteAction): (r: SnapshotState)
    requires s.Valid()
    ensures r.Valid()
    ensures r.notes.entries == PushInto(s.notes.entries, NoteKeyOf(x), x)
    ensures r.boardId == s.boardId && r.connections == s.connections
  {
    var k := NoteKeyOf(x);
    s.(notes := StoreResult(s.notes, k, Merge(s.notes.Get(k), Some(x))))
  }

  function ShiftNote(s: SnapshotState, x: NoteAction): (r: SnapshotState)
    requires s.Valid()
    ensures r.Valid()
    ensures r.notes.entries == ShiftInto(s.notes.entries, NoteKeyOf(x), x)
    ensures r.boardId == s.boardId && r.connections == s.connections
  {
    var k := NoteKeyOf(x);
    s.(notes := StoreResult(s.notes, k, Merge(Some(x), s.notes.Get(k))))
  }

  function PushConnection(s: SnapshotState, x: ConnectionAction): (r: SnapshotState)
    requires s.Valid()
    ensures r.Valid()
    ensures r.connections.entries == PushInto(s.connections.entries, ConnectionKeyOf(x), x)
    ensures r.boardId == s.boardId && r.notes == s.notes
  {
    var k := ConnectionKeyOf(x);
    s.(connections := StoreResult(s.connections, k, Merge(s.connections.Get(k), Some(x))))
  }

  function ShiftConnection(s: SnapshotState, x: ConnectionAction): (r: SnapshotState)
    requires s.Valid()
    ensures r.Valid()
    ensures r.connections.entries == ShiftInto(s.connections.entries, ConnectionKeyOf(x), x)
    ensures r.boardId == s.boardId && r.notes == s.notes
  {
    var k := ConnectionKeyOf(x);
    s.(connections := StoreResult(s.connections, k, Merge(Some(x), s.connections.Get(k))))
  }

  /** isDirty. */
  function IsDirty(s: SnapshotState): bool {
    s.notes.Size() > 0 || s.connections.Size() > 0
  }

  /** A snapshot is dirty exactly when some change is pending. */
  lemma DirtyIffPending(s: SnapshotState)
    requires s.Valid()
    ensures IsDirty(s) <==> s.notes.entries != map[] || s.connections.entries != map[]
  {
    if s.notes.Size() > 0 {
      assert s.notes.keys[0] in s.notes.entries;
    }
    if s.connections.Size() > 0 {
      assert s.connections.keys[0] in s.connections.entries;
    }
  }

  /** A push that conflicts leaves the snapshot exactly as it was. */
  lemma ConflictKeepsSnapshot(s: SnapshotState, x: NoteAction, y: ConnectionAction)
    requires s.Valid()
    ensures Merge(s.notes.Get(NoteKeyOf(x)), Some(x)).Conflict? ==> PushNote(s, x) == s
    ensures Merge(Some(x), s.notes.Get(NoteKeyOf(x))).Conflict? ==> ShiftNote(s, x) == s
    ensures Merge(s.connections.Get(ConnectionKeyOf(y)), Some(y)).Conflict? ==> PushConnection(s, y) == s
    ensures Merge(Some(y), s.connections.Get(ConnectionKeyOf(y))).Conflict? ==> ShiftConnection(s, y) == s
  {
  }

  /** toRaw's result: the board id and both maps' changes in insertion order. */
  datatype RawSnapshot = RawSnapshot(id: string, note: seq<NoteAction>, conn: seq<ConnectionAction>)

  /** fromRaw's effect: every listed change set under its own key, in order. */
  function LoadRaw(s: SnapshotState, data: RawSnapshot): (r: SnapshotState)
    requires s.Valid()
    ensures r.Valid()
    ensures r.boardId == s.boardId
  {
    LoadKeyed(s.notes, data.note, NoteKeyOf);
    LoadKeyed(s.connections, data.conn, ConnectionKeyOf);
    s.(notes := Load(s.notes, data.note, NoteKeyOf), connections := Load(s.connections, data.conn, ConnectionKeyOf))
  }

  /** Loading keeps every change under the key `key` gives it. */
  lemma {:induction false} LoadKeyed<A>(m: OrderedMap<string, A>, vs: seq<A>, key: A -> string)
    requires m.Valid()
    requires forall k :: k in m.entries ==> key(m.entries[k]) == k
    ensures forall k :: k in Load(m, vs, key).entries ==> key(Load(m, vs, key).entries[k]) == k
    decreases |vs|
  {
    if vs != [] {
      LoadKeyed(m, vs[..|vs| - 1], key);
    }
  }

  function ToRawSpec(s: SnapshotState): RawSnapshot
    requires s.Valid()
  {
    RawSnapshot(s.boardId, s.notes.Values(), s.connections.Values())
  }

  /**
    Serialising a snapshot and loading the result into an empty snapshot of the same board
    rebuilds it, order included.
   */
  lemma RawRoundTrip(s: SnapshotState)
    requires s.Valid()
    ensures LoadRaw(EmptySnapshot(s.boardId), ToRawSpec(s)) == s
  {
    LoadValues(s.notes, NoteKeyOf);
    LoadValues(s.connections, ConnectionKeyOf);
  }

  // ---------------------------------------------------------------------------------------------
  // The board's snapshot object

  class Snapshot {
    var boardId: string
    var notes: OrderedMap<string, NoteAction>
    var connections: OrderedMap<string, ConnectionAction>
    /** The values emitted on `state`, oldest first. */
    var stateEvents: seq<bool>

    function State(): SnapshotState
      reads this
    {
      SnapshotState(boardId, notes, connections)
    }

    ghost predicate Valid()
      reads this
    {
      State().Valid()
    }

    constructor(boardId: string)
      ensures Valid()
      ensures State() == EmptySnapshot(boardId) && stateEvents == []
    {
      this.boardId := boardId;
      notes := Empty();
      connections := Empty();
      stateEvents := [];
    }

    /** isDirty. */
    function Dirty(): (d: bool)
      reads this
      ensures d == IsDirty(State())
    {
      notes.Size() > 0 || connections.Size() > 0
    }

    /** checkDirty: emits the new dirtiness when it differs from `prev`. */
    method CheckDirty(prev: bool)
      modifies this`stateEvents
      ensures State() == old(State())
      ensures stateEvents == old(stateEvents) + (if Dirty() != prev then [Dirty()] else [])
    {
      var curr := Dirty();
      if curr == prev {
        return;
      }
      stateEvents := stateEvents + [curr];
    }

    /** pushNoteSnapshotAction; `inOrder` is false where the source warns and changes nothing. */
    method PushNoteAction(x: NoteAction) returns (inOrder: bool)
      requires Valid()
      modifies this`notes, this`stateEvents
      ensures Valid()
      ensures State() == PushNote(old(State()), x)
      ensures inOrder <==> !Merge(old(notes).Get(NoteKeyOf(x)), Some(x)).Conflict?
      ensures stateEvents == old(stateEvents) + (if Dirty() != old(Dirty()) then [Dirty()] else [])
    {
      var key := NoteKeyOf(x);
      var result := Merge(notes.Get(key), Some(x));
      var isDirty := Dirty();
      ghost var target := PushNote(State(), x);
      inOrder := !result.Conflict?;
      if inOrder {
        notes := StoreResult(notes, key, result);
        CheckDirty(isDirty);
      }
      assert State() == target;
    }

    /** pushConnectionSnapshotAction. */
    method PushConnectionAction(x: ConnectionAction) returns (inOrder: bool)
      requires Valid()
      modifies this`connections, this`stateEvents
      ensures Valid()
      ensures State() == PushConnection(old(State()), x)
      ensures inOrder <==> !Merge(old(connections).Get(ConnectionKeyOf(x)), Some(x)).Conflict?
      ensures stateEvents == old(stateEvents) + (if Dirty() != old(Dirty()) then [Dirty()] else [])
    {
      var key := ConnectionKeyOf(x);
      var result := Merge(connections.Get(key), Some(x));
      var isDirty := Dirty();
      ghost var target := PushConnection(State(), x);
      inOrder := !result.Conflict?;
      if inOrder {
        connections := StoreResult(connections, key, result);
        CheckDirty(isDirty);
      }
      assert State() == target;
    }

    /** shiftNoteSnapshotAction. */
    method ShiftNoteAction(x: NoteAction) returns (inOrder: bool)
      requires Valid()
      modifies this`notes, this`stateEvents
      ensures Valid()
      ensures State() == ShiftNote(old(State()), x)
      ensures inOrder <==> !Merge(Some(x), old(notes).Get(NoteKeyOf(x))).Conflict?
      ensures stateEvents == old(stateEvents) + (if Dirty() != old(Dirty()) then [Dirty()] else [])
    {
      var key := NoteKeyOf(x);
      var result := Merge(Some(x), notes.Get(key));
      var isDirty := Dirty();
      ghost var target := ShiftNote(State(), x);
      inOrder := !result.Conflict?;
      if inOrder {
        notes := StoreResult(notes, key, result);
        CheckDirty(isDirty);
      }
      assert State() == target;
    }

    /** shiftConnectionSnapshotAction. */
    method ShiftConnectionAction(x: ConnectionAction) returns (inOrder: bool)
      requires Valid()
      modifies this`connections, this`stateEvents
      ensures Valid()
      ensures State() == ShiftConnection(old(State()), x)
      ensures inOrder <==> !Merge(Some(x), old(connections).Get(ConnectionKeyOf(x))).Conflict?
      ensures stateEvents == old(stateEvents) + (if Dirty() != old(Dirty()) then [Dirty()] else [])
    {
      var key := ConnectionKeyOf(x);
      var result := Merge(Some(x), connections.Get(key));
      var isDirty := Dirty();
      ghost var target := ShiftConnection(State(), x);
      inOrder := !result.Conflict?;
      if inOrder {
        connections := StoreResult(connections, key, result);
        CheckDirty(isDirty);
      }
      assert State() == target;
    }

    /** reset: empties both maps and emits `false`, even when already clean. */
    method Reset()
      modifies this
      ensures Valid()
      ensures State() == EmptySnapshot(old(boardId))
      ensures stateEvents == old(stateEvents) + [false]
    {
      notes := Empty();
      connections := Empty();
      stateEvents := stateEvents + [false];
    }

    /** toRaw. */
    method ToRaw() returns (r: RawSnapshot)
      requires Valid()
      ensures r == ToRawSpec(State())
    {
      var note := ValueList(notes);
      var conn := ValueList(connections);
      r := RawSnapshot(boardId, note, conn);
    }

    /** fromRaw: sets every listed change under its key, after what is already there. */
    method FromRaw(data: RawSnapshot)
      requires Valid()
      modifies this
      ensures Valid()
      ensures State() == LoadRaw(old(State()), data)
      ensures stateEvents == old(stateEvents)
    {
      ghost var start := State();
      notes := LoadInto(notes, data.note, NoteKeyOf);
      connections := LoadInto(connections, data.conn, ConnectionKeyOf);
      LoadKeyed(start.notes, data.note, NoteKeyOf);
      LoadKeyed(start.connections, data.conn, ConnectionKeyOf);
    }
  }
}
