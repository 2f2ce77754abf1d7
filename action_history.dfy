/**
  The undo/redo history (src/snapshot/ActionHistory.ts): a bounded list of named entries, each a
  (backward, forward) pair of snapshots, and a cursor `index` at the last entry done.

  `History` and the functions on it are the specification. Class `ActionHistory` holds the same
  fields and its methods are proved to take `State()` to what those functions give. An entry's
  snapshots are values here; `curr`, the entry changes are recorded into, is kept as its position
  in the list (or the entry itself once trimming has dropped it from the list).
 */
module ActionHistories {
  import opened Wrappers
  import SM = SnapshotMerge
  import opened Snapshots
  import NS = NoteSnapshots

  /** One named step: `backward` undoes it and `forward` does it again. */
  datatype Entry = Entry(name: string, backward: SnapshotState, forward: SnapshotState)

  /** `curr`: no open entry, the open entry at a position of the list, or an open entry trimmed out of it. */
  datatype Open = Closed | At(pos: int) | Detached(entry: Entry)

  /** The (backward, forward) pair handed to addNoteSnapshotAction or addConnectionSnapshotAction. */
  datatype Change =
    | NoteChange(noteBackward: NoteAction, noteForward: NoteAction)
    | ConnectionChange(connBackward: ConnectionAction, connForward: ConnectionAction)

  /** One entry as toRaw writes it. */
  datatype RawEntry = RawEntry(name: string, backward: RawSnapshot, forward: RawSnapshot)

  /**
    The fields of an ActionHistory. `boardId` stands for the snapshot factory (every new snapshot
    is an empty one of that board) and `changed` counts the `changed` events emitted.
   */
  datatype History = History(
    boardId: string, limit: int, entries: seq<Entry>, index: int,
    name: Option<string>, curr: Open, record: bool, changed: nat)
  {
    /**
      The index points at an entry or just before the first one, the open entry is at or before
      the index, an entry is open exactly when a name is, and every snapshot belongs to the board.
     */
    ghost predicate Valid() {
      && limit >= 0
      && -1 <= index < |entries|
      && (forall i :: 0 <= i < |entries| ==> EntryOf(entries[i], boardId))
      && (curr.At? ==> 0 <= curr.pos <= index)
      && (curr.Detached? ==> EntryOf(curr.entry, boardId))
      && (curr.Closed? <==> name.None?)
    }
  }

  ghost predicate EntryOf(e: Entry, boardId: string) {
    && e.backward.Valid() && e.forward.Valid()
    && e.backward.boardId == boardId && e.forward.boardId == boardId
  }

  /** newAction: a named pair of empty snapshots. */
  function NewEntry(name: string, boardId: string): (e: Entry)
    ensures EntryOf(e, boardId) && e.name == name
    ensures !IsDirty(e.backward) && !IsDirty(e.forward)
  {
    Entry(name, EmptySnapshot(boardId), EmptySnapshot(boardId))
  }

  /** The constructor: no entries, the index before the first one, recording on. */
  function Fresh(boardId: string, limit: int): (h: History)
    requires limit >= 0
    ensures h.Valid() && h.record
    ensures !CanUndo(h) && !CanRedo(h)
  {
    History(boardId, limit, [], -1, None, Closed, true, 0)
  }

  // ---------------------------------------------------------------------------------------------
  // Queries

  /** canUndo. */
  predicate CanUndo(h: History) {
    h.index >= 0
  }

  /** canRedo. */
  predicate CanRedo(h: History) {
    h.index + 1 < |h.entries|
  }

  /** getUndoName: the name of the entry undo would revert, or nothing when undo is not possible. */
  function UndoName(h: History): (r: Option<string>)
    requires h.Valid()
    ensures r.None? <==> !CanUndo(h)
    ensures r.Some? ==> r.value == h.entries[h.index].name
  {
    if !CanUndo(h) then None else Some(h.entries[h.index].name)
  }

  /** getRedoName: the name of the entry redo would replay, or nothing when redo is not possible. */
  function RedoName(h: History): (r: Option<string>)
    requires h.Valid()
    ensures r.None? <==> !CanRedo(h)
    ensures r.Some? ==> r.value == h.entries[h.index + 1].name
  {
    if !CanRedo(h) then None else Some(h.entries[h.index + 1].name)
  }

  // ---------------------------------------------------------------------------------------------
  // Trimming

  /** Where the open entry is once the first `d` entries have been dropped. */
  function ShiftOpen(c: Open, entries: seq<Entry>, d: nat): Open
    requires d <= |entries|
    requires c.At? ==> 0 <= c.pos < |entries|
  {
    if c.At? && c.pos < d then Detached(entries[c.pos])
    else if c.At? then At(c.pos - d)
    else c
  }

  /** Dropping one more entry from the front moves the open entry as dropping them all at once does. */
  lemma TrimStep(c: Open, entries: seq<Entry>, k: nat)
    requires k < |entries|
    requires c.At? ==> 0 <= c.pos < |entries|
    ensures ShiftOpen(ShiftOpen(c, entries, k), entries[k..], 1) == ShiftOpen(c, entries, k + 1)
    ensures entries[k..][1..] == entries[k + 1..]
  {
  }

  /** The index after entries are dropped from the front, never below -1. */
  function DropIndex(index: int, d: nat): int {
    if index - d < -1 then -1 else index - d
  }

  /**
    trimHistory: drops entries from the front until at most `limit` remain, moving the index and
    the open entry back with them.
   */
  function Trimmed(h: History): (r: History)
    requires h.Valid()
    ensures r.Valid()
    ensures |r.entries| == if |h.entries| <= h.limit then |h.entries| else h.limit
    ensures r.entries == h.entries[|h.entries| - |r.entries|..]
    ensures r.index == DropIndex(h.index, |h.entries| - |r.entries|)
    ensures r.limit == h.limit && r.name == h.name && r.record == h.record && r.changed == h.changed
  {
    if |h.entries| <= h.limit then h
    else
      var d := |h.entries| - h.limit;
      h.(entries := h.entries[d..], index := DropIndex(h.index, d), curr := ShiftOpen(h.curr, h.entries, d))
  }

  /** Trimmed as one cut of `d` entries off the front, `d` being zero when the list fits. */
  lemma DroppedFront(h: History)
    requires h.Valid()
    ensures var d := if |h.entries| <= h.limit then 0 else |h.entries| - h.limit;
      Trimmed(h) == h.(entries := h.entries[d..], index := DropIndex(h.index, d), curr := ShiftOpen(h.curr, h.entries, d))
  {
    if |h.entries| <= h.limit {
      assert h.entries[0..] == h.entries;
    }
  }

  /** A list within the limit is left as it is. */
  lemma TrimmedFits(h: History)
    requires h.Valid() && |h.entries| <= h.limit
    ensures Trimmed(h) == h
  {
  }

  /** trimAction: drops the entries after the index, the ones redo would replay. */
  function TrimmedTail(h: History): (r: History)
    requires -1 <= h.index < |h.entries|
    ensures h.Valid() ==> r.Valid()
    ensures !CanRedo(r)
    ensures r.entries == h.entries[..h.index + 1]
    ensures r.index == h.index && r.curr == h.curr
  {
    h.(entries := h.entries[..h.index + 1])
  }

  // ---------------------------------------------------------------------------------------------
  // Transactions

  /** begin: opens a new entry unless one is open under the same name. */
  function Began(h: History, name: string): (r: History)
    requires h.Valid()
    ensures r.Valid()
  {
    if h.name == Some(name) && !h.curr.Closed? then h
    else Trimmed(Opened(h, name))
  }

  /** The entries after the index dropped and an empty entry under `name` appended and opened. */
  function Opened(h: History, name: string): (r: History)
    requires h.Valid()
    ensures r.Valid()
    ensures r.entries == h.entries[..h.index + 1] + [NewEntry(name, h.boardId)]
    ensures r.index == h.index + 1 && r.curr == At(r.index) && r.name == Some(name)
    ensures r.limit == h.limit && r.record == h.record && r.changed == h.changed
  {
    var t := TrimmedTail(h);
    var es := t.entries + [NewEntry(name, h.boardId)];
    assert forall i :: 0 <= i < |es| ==> EntryOf(es[i], h.boardId) by {
      forall i | 0 <= i < |es|
        ensures EntryOf(es[i], h.boardId)
      {
        if i < |t.entries| {
          assert es[i] == t.entries[i];
        }
      }
    }
    t.(name := Some(name), entries := es, index := t.index + 1, curr := At(|t.entries|))
  }

  /** begin warns when it opens an entry with the empty name. */
  predicate BeginWarns(h: History, name: string) {
    name == "" && (h.name != Some(name) || h.curr.Closed?)
  }

  /** end: closes the open entry. */
  function Ended(h: History): (r: History)
    ensures h.Valid() ==> r.Valid()
    ensures r.curr.Closed? && r.name.None?
    ensures r.entries == h.entries && r.index == h.index
  {
    h.(name := None, curr := Closed)
  }

  /** The limit setter: a limit of zero or less becomes 0, then the history is trimmed to it. */
  function LimitSet(h: History, limit: int): (r: History)
    requires h.Valid()
    ensures r.Valid()
    ensures r.limit == if limit <= 0 then 0 else limit
  {
    Trimmed(h.(limit := if limit <= 0 then 0 else limit))
  }

  // ---------------------------------------------------------------------------------------------
  // Undo and redo

  /**
    undo: the entry at the index is reverted (its backward snapshot is applied with recording
    off), the index moves back, the open entry is closed and `changed` is emitted. Where undo is
    not possible the history is left as it is.
   */
  function Undone(h: History): (r: History)
    requires h.Valid()
    ensures r.Valid()
  {
    if !CanUndo(h) then h
    else Ended(h).(index := h.index - 1, changed := h.changed + 1)
  }

  /**
    redo: the entry after the index is replayed (its forward snapshot is applied with recording
    off), the index moves forward and `changed` is emitted; the open entry stays open. Where redo
    is not possible the history is left as it is.
   */
  function Redone(h: History): (r: History)
    requires h.Valid()
    ensures r.Valid()
  {
    if !CanRedo(h) then h
    else h.(index := h.index + 1, changed := h.changed + 1)
  }

  // ---------------------------------------------------------------------------------------------
  // Recording

  /** The open entry with a change recorded: the backward action shifted in front, the forward one pushed after. */
  function Recorded(e: Entry, c: Change): (r: Entry)
    requires e.backward.Valid() && e.forward.Valid()
    ensures r.name == e.name && r.backward.Valid() && r.forward.Valid()
    ensures r.backward.boardId == e.backward.boardId && r.forward.boardId == e.forward.boardId
  {
    match c
    case NoteChange(b, f) => Entry(e.name, ShiftNote(e.backward, b), PushNote(e.forward, f))
    case ConnectionChange(b, f) => Entry(e.name, ShiftConnection(e.backward, b), PushConnection(e.forward, f))
  }

  /** The change recorded into the open entry, wherever it is. */
  function RecordedInto(h: History, c: Change): (r: History)
    requires h.Valid() && !h.curr.Closed?
    ensures r.Valid()
  {
    match h.curr
    case At(p) => h.(entries := h.entries[p := Recorded(h.entries[p], c)])
    case Detached(e) => h.(curr := Detached(Recorded(e, c)))
  }

  /**
    add*SnapshotAction: ignored while recording is off; otherwise an entry named '' is opened if
    none is, the change is recorded into the open entry and `changed` is emitted.
   */
  function Added(h: History, c: Change): (r: History)
    requires h.Valid()
    ensures r.Valid()
  {
    if !h.record then h
    else
      var g := if h.curr.Closed? then Began(h, "") else h;
      assert !g.curr.Closed? by {
        if h.curr.Closed? {
          OpenAfterBegin(h, "");
        }
      }
      var r := RecordedInto(g, c);
      r.(changed := r.changed + 1)
  }

  /** Added taken one step at a time, as the imperative history performs it. */
  lemma AddedSteps(h: History, g: History, c: Change)
    requires h.Valid() && h.record
    requires g == if h.curr.Closed? then Began(h, "") else h
    requires g.Valid() && !g.curr.Closed?
    ensures Added(h, c) == RecordedInto(g, c).(changed := g.changed + 1)
  {
  }

  /** After begin an entry is open under the name given. */
  lemma OpenAfterBegin(h: History, name: string)
    requires h.Valid()
    ensures !Began(h, name).curr.Closed? && Began(h, name).name == Some(name)
  {
  }

  // ---------------------------------------------------------------------------------------------
  // Serialisation

  function RawOf(e: Entry): RawEntry
    requires e.backward.Valid() && e.forward.Valid()
  {
    RawEntry(e.name, ToRawSpec(e.backward), ToRawSpec(e.forward))
  }

  /** toRaw: one record per entry, in order. */
  function Raw(h: History): (r: seq<RawEntry>)
    requires h.Valid()
    ensures |r| == |h.entries|
    ensures forall i :: 0 <= i < |r| ==> r[i] == RawOf(h.entries[i])
  {
    seq(|h.entries|, i requires 0 <= i < |h.entries| => RawOf(h.entries[i]))
  }

  /** An entry read back from its record into fresh snapshots of the board. */
  function EntryFromRaw(boardId: string, r: RawEntry): (e: Entry)
    ensures EntryOf(e, boardId) && e.name == r.name
  {
    Entry(r.name, LoadRaw(EmptySnapshot(boardId), r.backward), LoadRaw(EmptySnapshot(boardId), r.forward))
  }

  /** fromRaw: appends one entry per record; the index, the open entry and the limit stay. */
  function Loaded(h: History, data: seq<RawEntry>): (r: History)
    requires h.Valid()
    ensures r.Valid()
    ensures |r.entries| == |h.entries| + |data|
    ensures r.entries[..|h.entries|] == h.entries
    ensures forall i :: 0 <= i < |data| ==> r.entries[|h.entries| + i] == EntryFromRaw(h.boardId, data[i])
    ensures r.index == h.index && r.curr == h.curr && r.limit == h.limit
  {
    var es := EntriesFromRaw(h.boardId, data);
    var r := h.(entries := h.entries + es);
    assert r.entries[..|h.entries|] == h.entries;
    assert forall i :: 0 <= i < |r.entries| ==> EntryOf(r.entries[i], h.boardId) by {
      forall i | 0 <= i < |r.entries|
        ensures EntryOf(r.entries[i], h.boardId)
      {
        if i < |h.entries| {
          assert r.entries[i] == h.entries[i];
        } else {
          assert r.entries[i] == es[i - |h.entries|];
        }
      }
    }
    r
  }

  /** The entries read back from a list of records, in order. */
  function EntriesFromRaw(boardId: string, data: seq<RawEntry>): (es: seq<Entry>)
    ensures |es| == |data|
    ensures forall i :: 0 <= i < |data| ==> es[i] == EntryFromRaw(boardId, data[i])
    decreases |data|
  {
    if data == [] then [] else EntriesFromRaw(boardId, data[..|data| - 1]) + [EntryFromRaw(boardId, data[|data| - 1])]
  }

  // ---------------------------------------------------------------------------------------------
  // Properties

  /** Beginning twice under the same name opens one entry. */
  lemma BeginIdempotent(h: History, name: string)
    requires h.Valid()
    ensures Began(Began(h, name), name) == Began(h, name)
  {
    OpenAfterBegin(h, name);
  }

  /**
    A begin that opens an entry keeps the entries up to the index, appends an empty entry under
    the name, drops the oldest entries beyond the limit and leaves nothing to redo; with a positive
    limit the new entry is the one undo would revert, and it is the open one.
   */
  lemma BeginStartsEntry(h: History, name: string)
    requires h.Valid()
    requires h.name != Some(name) || h.curr.Closed?
    ensures var r := Began(h, name);
      var kept := h.entries[..h.index + 1] + [NewEntry(name, h.boardId)];
      && |r.entries| == (if |kept| <= h.limit then |kept| else h.limit)
      && r.entries == kept[|kept| - |r.entries|..]
      && r.index == |r.entries| - 1
      && !CanRedo(r)
      && r.name == Some(name)
      && (h.limit > 0 ==> UndoName(r) == Some(name) && r.curr == At(r.index)
                          && r.entries[r.index] == NewEntry(name, h.boardId))
  {
    var o := Opened(h, name);
    assert Began(h, name) == Trimmed(o);
    TrimmedLast(o);
  }

  /** Trimming a history whose last entry is the indexed, open one keeps that entry last and open. */
  lemma TrimmedLast(o: History)
    requires o.Valid() && |o.entries| > 0 && o.index == |o.entries| - 1 && o.curr == At(o.index)
    ensures var r := Trimmed(o);
      && r.index == |r.entries| - 1
      && (o.limit > 0 ==> r.curr == At(r.index) && r.entries[r.index] == o.entries[o.index])
  {
    var d := |o.entries| - o.limit;
    if d > 0 && o.limit > 0 {
      assert Trimmed(o).curr == ShiftOpen(o.curr, o.entries, d);
    }
  }

  /** Below the limit, begin keeps the entries up to the index and appends the new one, open. */
  lemma BeginAppends(h: History, name: string)
    requires h.Valid()
    requires h.name != Some(name) || h.curr.Closed?
    requires h.index + 2 <= h.limit
    ensures Began(h, name) == h.(entries := h.entries[..h.index + 1] + [NewEntry(name, h.boardId)],
                                 index := h.index + 1, name := Some(name), curr := At(h.index + 1))
  {
    var o := Opened(h, name);
    assert Began(h, name) == Trimmed(o) == o;
  }

  /** With an entry open in the list, a recorded change goes into that entry. */
  lemma AddAt(h: History, c: Change)
    requires h.Valid() && h.record && h.curr.At?
    ensures Added(h, c) == h.(entries := h.entries[h.curr.pos := Recorded(h.entries[h.curr.pos], c)],
                              changed := h.changed + 1)
  {
  }

  /** Undo followed by redo gives the history back, with the open entry closed and two events. */
  lemma UndoThenRedo(h: History)
    requires h.Valid() && CanUndo(h)
    ensures CanRedo(Undone(h))
    ensures Redone(Undone(h)) == Ended(h).(changed := h.changed + 2)
  {
  }

  /** Redo followed by undo gives the history back, with the open entry closed and two events. */
  lemma RedoThenUndo(h: History)
    requires h.Valid() && CanRedo(h)
    ensures CanUndo(Redone(h))
    ensures Undone(Redone(h)) == Ended(h).(changed := h.changed + 2)
  {
  }

  /**
    Once an entry is undone, a new transaction discards it: nothing is left to redo and the undone
    entry is no longer in the list.
   */
  lemma NewTransactionDropsRedoTail(h: History, name: string)
    requires h.Valid() && CanUndo(h) && |h.entries| < h.limit
    ensures var r := Began(Undone(h), name);
      && !CanRedo(r)
      && |r.entries| == h.index + 1
      && r.entries[..h.index] == h.entries[..h.index]
      && r.entries[h.index] == NewEntry(name, h.boardId)
  {
    BeginStartsEntry(Undone(h), name);
  }

  /** While recording is off nothing is recorded and no event is emitted. */
  lemma NotRecording(h: History, c: Change)
    requires h.Valid() && !h.record
    ensures Added(h, c) == h
  {
  }

  /**
    With an entry open in the list, a change is recorded into that entry alone; with none open
    and a positive limit, it goes into a new entry named '' at the end. Either way one event is
    emitted.
   */
  lemma AddRecords(h: History, c: Change)
    requires h.Valid() && h.record
    ensures Added(h, c).changed == h.changed + 1
    ensures h.curr.At? ==>
      && Added(h, c).entries == h.entries[h.curr.pos := Recorded(h.entries[h.curr.pos], c)]
      && Added(h, c).index == h.index
    ensures h.curr.Closed? && h.limit > 0 ==>
      var r := Added(h, c);
      && r.index == |r.entries| - 1 && r.curr == At(r.index) && r.name == Some("")
      && r.entries[r.index] == Recorded(NewEntry("", h.boardId), c)
  {
    if h.curr.Closed? && h.limit > 0 {
      BeginStartsEntry(h, "");
    }
  }

  /** The limit setter leaves at most `limit` entries, the newest ones, and the index at -1 or above. */
  lemma LimitBounds(h: History, limit: int)
    requires h.Valid()
    ensures var r := LimitSet(h, limit);
      && |r.entries| <= (if limit <= 0 then 0 else limit)
      && r.entries == h.entries[|h.entries| - |r.entries|..]
      && -1 <= r.index
      && (|h.entries| <= limit ==> r == h.(limit := limit))
  {
    var g := h.(limit := if limit <= 0 then 0 else limit);
    if |h.entries| <= limit {
      TrimmedFits(g);
    }
  }

  /** Loading what toRaw writes into a fresh history of the same board gives back the same entries. */
  lemma RawRoundTrip(h: History, limit: int)
    requires h.Valid() && limit >= 0
    ensures Loaded(Fresh(h.boardId, limit), Raw(h)).entries == h.entries
  {
    var r := Loaded(Fresh(h.boardId, limit), Raw(h));
    forall i | 0 <= i < |h.entries|
      ensures r.entries[i] == h.entries[i]
    {
      var e := h.entries[i];
      assert r.entries[i] == EntryFromRaw(h.boardId, RawOf(e));
      Snapshots.RawRoundTrip(e.backward);
      Snapshots.RawRoundTrip(e.forward);
    }
  }

  // ---------------------------------------------------------------------------------------------
  // What an entry holds: the changes recorded into it, merged

  /** The backward and forward actions of a change concern one entity. */
  predicate Keyed(c: Change) {
    match c
    case NoteChange(b, f) => b.id == f.id
    case ConnectionChange(b, f) => b.id == f.id
  }

  /** An entry with every change of `cs` recorded into it, oldest first. */
  function RecordedAll(e: Entry, cs: seq<Change>): (r: Entry)
    requires e.backward.Valid() && e.forward.Valid()
    ensures r.name == e.name && r.backward.Valid() && r.forward.Valid()
    ensures r.backward.boardId == e.backward.boardId && r.forward.boardId == e.forward.boardId
    decreases |cs|
  {
    if cs == [] then e else Recorded(RecordedAll(e, cs[..|cs| - 1]), cs[|cs| - 1])
  }

  /** The note changes of `cs` as edits of the entity under their key. */
  function NoteEvents(cs: seq<Change>): seq<SM.Event<string, int, NoteField, Value>>
    decreases |cs|
  {
    if cs == [] then []
    else
      var c := cs[|cs| - 1];
      NoteEvents(cs[..|cs| - 1])
        + (if c.NoteChange? then [SM.Event(NoteKeyOf(c.noteForward), c.noteBackward, c.noteForward)] else [])
  }

  /** The connection changes of `cs` as edits of the entity under their key. */
  function ConnectionEvents(cs: seq<Change>): seq<SM.Event<string, ConnectionId, ConnectionField, Value>>
    decreases |cs|
  {
    if cs == [] then []
    else
      var c := cs[|cs| - 1];
      ConnectionEvents(cs[..|cs| - 1])
        + (if c.ConnectionChange? then [SM.Event(ConnectionKeyOf(c.connForward), c.connBackward, c.connForward)] else [])
  }

  /**
    An entry opened empty and fed `cs` holds, in its forward snapshot, the forward actions pushed
    in order and, in its backward snapshot, the backward actions shifted in front in order.
   */
  lemma {:induction false} RecordedAccumulates(name: string, boardId: string, cs: seq<Change>)
    requires forall i :: 0 <= i < |cs| ==> Keyed(cs[i])
    ensures var e := RecordedAll(NewEntry(name, boardId), cs);
      && e.forward.notes.entries == SM.PushAll(map[], NoteEvents(cs))
      && e.backward.notes.entries == SM.ShiftAll(map[], NoteEvents(cs))
      && e.forward.connections.entries == SM.PushAll(map[], ConnectionEvents(cs))
      && e.backward.connections.entries == SM.ShiftAll(map[], ConnectionEvents(cs))
    decreases |cs|
  {
    if cs != [] {
      var n := |cs| - 1;
      var p := cs[..n];
      var c := cs[n];
      RecordedAccumulates(name, boardId, p);
      var prev := RecordedAll(NewEntry(name, boardId), p);
      assert RecordedAll(NewEntry(name, boardId), cs) == Recorded(prev, c);
      var ne, ce := NoteEvents(p), ConnectionEvents(p);
      assert Keyed(c);
      if c.NoteChange? {
        var ev := SM.Event(NoteKeyOf(c.noteForward), c.noteBackward, c.noteForward);
        assert NoteEvents(cs) == ne + [ev];
        assert (ne + [ev])[..|ne|] == ne;
        assert ConnectionEvents(cs) == ce + [];
        assert ce + [] == ce;
      } else {
        var ev := SM.Event(ConnectionKeyOf(c.connForward), c.connBackward, c.connForward);
        assert ConnectionEvents(cs) == ce + [ev];
        assert (ce + [ev])[..|ce|] == ce;
        assert NoteEvents(cs) == ne + [];
        assert ne + [] == ne;
      }
    }
  }

  /**
    When the recorded changes are a run of edits of the notes and of the connections (each
    forward action taking one document to the next, each backward action taking it back), the
    entry's forward snapshot takes the first documents to the last ones (redo) and its backward
    snapshot takes the last documents back to the first ones (undo).
   */
  lemma RecordedEntryReplays(name: string, boardId: string, cs: seq<Change>,
                             noteDocs: seq<SM.Doc<string, NoteField, Value>>,
                             connDocs: seq<SM.Doc<string, ConnectionField, Value>>)
    requires forall i :: 0 <= i < |cs| ==> Keyed(cs[i])
    requires SM.Run(NoteEvents(cs), noteDocs, AllNoteFields)
    requires SM.Run(ConnectionEvents(cs), connDocs, AllConnectionFields)
    ensures var e := RecordedAll(NewEntry(name, boardId), cs);
      && SM.AppliesTo(e.forward.notes.entries, noteDocs[0])
      && SM.ApplyAll(e.forward.notes.entries, noteDocs[0]) == noteDocs[|noteDocs| - 1]
      && SM.AppliesTo(e.backward.notes.entries, noteDocs[|noteDocs| - 1])
      && SM.ApplyAll(e.backward.notes.entries, noteDocs[|noteDocs| - 1]) == noteDocs[0]
      && SM.AppliesTo(e.forward.connections.entries, connDocs[0])
      && SM.ApplyAll(e.forward.connections.entries, connDocs[0]) == connDocs[|connDocs| - 1]
      && SM.AppliesTo(e.backward.connections.entries, connDocs[|connDocs| - 1])
      && SM.ApplyAll(e.backward.connections.entries, connDocs[|connDocs| - 1]) == connDocs[0]
  {
    RecordedAccumulates(name, boardId, cs);
    SM.ForwardReplays(NoteEvents(cs), noteDocs, AllNoteFields);
    SM.BackwardRestores(NoteEvents(cs), noteDocs, AllNoteFields);
    SM.ForwardReplays(ConnectionEvents(cs), connDocs, AllConnectionFields);
    SM.BackwardRestores(ConnectionEvents(cs), connDocs, AllConnectionFields);
  }

  // ---------------------------------------------------------------------------------------------
  // The source as written, where it differs from the functions above

  /** What a call does in the source: returns normally, or throws a TypeError after changing fields. */
  datatype Outcome = Returned(after: History) | Threw(after: History)

  /**
    undo as written: where undo is not possible it warns, turns recording off and then throws
    reading the entry at index -1, so recording stays off.
   */
  function UndoneAsWritten(h: History): (r: Outcome)
    requires h.Valid()
    ensures r.Threw? <==> !CanUndo(h)
    ensures r.Threw? ==> r.after == h.(record := false)
    ensures r.Returned? ==> r.after == Undone(h)
  {
    if CanUndo(h) then Returned(Undone(h)) else Threw(h.(record := false))
  }

  /** redo as written: the same where redo is not possible. */
  function RedoneAsWritten(h: History): (r: Outcome)
    requires h.Valid()
    ensures r.Threw? <==> !CanRedo(h)
    ensures r.Threw? ==> r.after == h.(record := false)
    ensures r.Returned? ==> r.after == Redone(h)
  {
    if CanRedo(h) then Returned(Redone(h)) else Threw(h.(record := false))
  }

  /**
    Undo or redo pressed with nothing to undo or redo on a fresh history leaves recording off, so
    the next change is lost; with undo and redo doing nothing in that case it is recorded.
   */
  lemma UndoWhenEmptyStopsRecording(boardId: string, c: Change)
    ensures var h := Fresh(boardId, 50);
      && UndoneAsWritten(h).Threw? && Added(UndoneAsWritten(h).after, c) == UndoneAsWritten(h).after
      && RedoneAsWritten(h).Threw? && Added(RedoneAsWritten(h).after, c) == RedoneAsWritten(h).after
      && Undone(h) == h && Redone(h) == h
      && CanUndo(Added(Undone(h), c)) && CanUndo(Added(Redone(h), c))
  {
    var h := Fresh(boardId, 50);
    AddRecords(h, c);
  }

  /** trimHistory as written: the index moves back once per dropped entry, with no lower bound. */
  function TrimmedAsWritten(h: History): (r: History)
    requires h.limit >= 0
    ensures |r.entries| == if |h.entries| <= h.limit then |h.entries| else h.limit
    ensures r.index == h.index - (|h.entries| - |r.entries|)
  {
    if |h.entries| <= h.limit then h
    else
      var d := |h.entries| - h.limit;
      h.(entries := h.entries[d..], index := h.index - d)
  }

  /** The limit setter as written. */
  function LimitSetAsWritten(h: History, limit: int): (r: History)
    ensures r == TrimmedAsWritten(h.(limit := if limit <= 0 then 0 else limit))
  {
    TrimmedAsWritten(h.(limit := if limit <= 0 then 0 else limit))
  }

  /** The list after `k` calls of Array.prototype.pop, which does nothing on an empty list. */
  function Popped(s: seq<Entry>, k: nat): (r: seq<Entry>)
    ensures |r| == if k <= |s| then |s| - k else 0
    decreases k
  {
    if k == 0 || s == [] then s else Popped(s[..|s| - 1], k - 1)
  }

  /**
    Three entries all undone, then the limit lowered to 1: as written the index ends at -3, below
    the first entry, and trimAction's loop (pop while the length exceeds index + 1) can then never
    stop, so the next begin hangs. With the index kept at -1 or above the one entry left is still
    there to redo.
   */
  lemma LimitDrivesIndexBelowFirst(e: Entry)
    requires EntryOf(e, "b")
    ensures var h := History("b", 3, [e, e, e], -1, None, Closed, true, 0);
      && h.Valid()
      && LimitSetAsWritten(h, 1).index == -3
      && (forall k: nat :: |Popped(LimitSetAsWritten(h, 1).entries, k)| > LimitSetAsWritten(h, 1).index + 1)
      && LimitSet(h, 1).index == -1 && CanRedo(LimitSet(h, 1))
  {
  }

  // ---------------------------------------------------------------------------------------------
  // The scenarios of ActionHistory.test.ts

  /** A document with one entity: a single pending change applies to it as the change itself does. */
  lemma SingleChange<I, F, V>(k: string, x: SM.Action<I, F, V>, before: SM.Entity<F, V>, after: SM.Entity<F, V>)
    requires SM.Apply(x, before) == Some(after)
    ensures var d := if before.Present? then map[k := before.data] else map[];
      && SM.AppliesTo(map[k := x], d)
      && SM.ApplyAll(map[k := x], d) == (if after.Present? then map[k := after.data] else map[])
  {
    var d: SM.Doc<string, F, V> := if before.Present? then map[k := before.data] else map[];
    var want: SM.Doc<string, F, V> := if after.Present? then map[k := after.data] else map[];
    assert SM.EntityAt(d, k) == before;
    var got := SM.ApplyAll(map[k := x], d);
    assert SM.EntityAt(got, k) == after;
    forall j | j != k
      ensures SM.EntityAt(got, j) == SM.Absent
    {
      assert SM.After(map[k := x], d, j) == Some(SM.Absent);
    }
    SM.DocExt(got, want);
  }

  /** The note the scenarios create: id 123 at (0, 0) with no text and no image. */
  function Note0(): NS.NoteState {
    NS.NoteState(123, 0, 0, "", None)
  }

  /** The note moved to (x, y). */
  function NoteAt(x: int, y: int): NS.NoteState {
    Note0().(x := x, y := y)
  }

  /** Creating a note reports (Delete, Create). */
  function CreateChange(n: NS.NoteState): Change {
    NoteChange(NS.Delete(n), NS.Create(n))
  }

  /** Moving a note reports the (before, after) Edit pair of its position. */
  function MoveChange(before: NS.NoteState, after: NS.NoteState): Change {
    NoteChange(NS.Edit(before, [X, Y]), NS.Edit(after, [X, Y]))
  }

  /** 'start state': nothing to undo or redo. */
  lemma StartState(boardId: string)
    ensures !CanUndo(Fresh(boardId, 50)) && !CanRedo(Fresh(boardId, 50))
    ensures UndoName(Fresh(boardId, 50)).None? && RedoName(Fresh(boardId, 50)).None?
  {
  }

  /** A note change recorded into an empty entry is stored as it is, under the note's key. */
  lemma RecordedIntoEmpty(name: string, boardId: string, b: NoteAction, f: NoteAction)
    ensures var e := Recorded(NewEntry(name, boardId), NoteChange(b, f));
      && e.backward.notes.entries == map[NoteKeyOf(b) := b]
      && e.forward.notes.entries == map[NoteKeyOf(f) := f]
  {
    var empty: map<string, NoteAction> := map[];
    assert SM.ShiftInto(empty, NoteKeyOf(b), b) == map[NoteKeyOf(b) := b];
    assert SM.PushInto(empty, NoteKeyOf(f), f) == map[NoteKeyOf(f) := f];
  }

  /** The history while 'new note' is open after creating a note, as a literal. */
  lemma CreatingHistory(boardId: string)
    ensures Added(Began(Fresh(boardId, 50), "new note"), CreateChange(Note0()))
         == History(boardId, 50, [Recorded(NewEntry("new note", boardId), CreateChange(Note0()))], 0,
                    Some("new note"), At(0), true, 1)
  {
    var h0 := Fresh(boardId, 50);
    BeginAppends(h0, "new note");
    AddAt(Began(h0, "new note"), CreateChange(Note0()));
  }

  /** The history once 'new note' is ended, as a literal. */
  lemma CreatedHistory(boardId: string)
    ensures Ended(Added(Began(Fresh(boardId, 50), "new note"), CreateChange(Note0())))
         == History(boardId, 50, [Recorded(NewEntry("new note", boardId), CreateChange(Note0()))], 0, None, Closed, true, 1)
  {
    CreatingHistory(boardId);
  }

  /**
    'action, undo, redo': after creating a note in one transaction, undo reverts it (its backward
    snapshot removes the note) and redo replays it (its forward snapshot adds it back).
   */
  lemma CreateUndoRedo(boardId: string)
    ensures var h1 := Ended(Added(Began(Fresh(boardId, 50), "new note"), CreateChange(Note0())));
      var h2 := Undone(h1);
      var h3 := Redone(h2);
      var withNote := map[NoteKey(123) := NS.Payload(Note0())];
      var empty: SM.Doc<string, NoteField, Value> := map[];
      && |h1.entries| == 1 && |h2.entries| == 1
      && CanUndo(h1) && !CanRedo(h1)
      && !CanUndo(h2) && CanRedo(h2) && RedoName(h2) == Some("new note")
      && CanUndo(h3) && !CanRedo(h3)
      && SM.AppliesTo(h1.entries[0].backward.notes.entries, withNote)
      && SM.ApplyAll(h1.entries[0].backward.notes.entries, withNote) == empty
      && SM.AppliesTo(h2.entries[0].forward.notes.entries, empty)
      && SM.ApplyAll(h2.entries[0].forward.notes.entries, empty) == withNote
  {
    var n := Note0();
    CreatedHistory(boardId);
    RecordedIntoEmpty("new note", boardId, NS.Delete(n), NS.Create(n));
    SingleChange(NoteKey(123), NS.Delete(n), SM.Present(NS.Payload(n)), SM.Absent);
    SingleChange(NoteKey(123), NS.Create(n), SM.Absent, SM.Present(NS.Payload(n)));
  }

  /** A note created in 'new note', then moved to (100, 200) in 'move note', as a literal. */
  lemma MovedHistory(boardId: string)
    ensures var h := Added(Began(Added(Began(Fresh(boardId, 50), "new note"), CreateChange(Note0())), "move note"),
                           MoveChange(Note0(), NoteAt(100, 200)));
      h == History(boardId, 50,
                   [Recorded(NewEntry("new note", boardId), CreateChange(Note0())),
                    Recorded(NewEntry("move note", boardId), MoveChange(Note0(), NoteAt(100, 200)))],
                   1, Some("move note"), At(1), true, 2)
  {
    CreatingHistory(boardId);
    SecondTransaction(boardId, Recorded(NewEntry("new note", boardId), CreateChange(Note0())), "new note",
                      "move note", MoveChange(Note0(), NoteAt(100, 200)));
  }

  /** A change recorded under a new name, after a one-entry history left open, goes into a second entry. */
  lemma SecondTransaction(boardId: string, e0: Entry, first: string, name: string, c: Change)
    requires EntryOf(e0, boardId) && first != name
    ensures Added(Began(History(boardId, 50, [e0], 0, Some(first), At(0), true, 1), name), c)
         == History(boardId, 50, [e0, Recorded(NewEntry(name, boardId), c)], 1, Some(name), At(1), true, 2)
  {
    var n := NewEntry(name, boardId);
    var b := History(boardId, 50, [e0, n], 1, Some(name), At(1), true, 1);
    calc {
      Added(Began(History(boardId, 50, [e0], 0, Some(first), At(0), true, 1), name), c);
      { BeganSecond(boardId, e0, first, name); }
      Added(b, c);
      { AddAt(b, c); }
      b.(entries := b.entries[1 := Recorded(n, c)], changed := 2);
      { assert b.entries[1 := Recorded(n, c)] == [e0, Recorded(n, c)]; }
      History(boardId, 50, [e0, Recorded(n, c)], 1, Some(name), At(1), true, 2);
    }
  }

  /** Beginning a new name after a one-entry history left open appends and opens a second entry. */
  lemma BeganSecond(boardId: string, e0: Entry, first: string, name: string)
    requires EntryOf(e0, boardId) && first != name
    ensures Began(History(boardId, 50, [e0], 0, Some(first), At(0), true, 1), name)
         == History(boardId, 50, [e0, NewEntry(name, boardId)], 1, Some(name), At(1), true, 1)
  {
    var h1 := History(boardId, 50, [e0], 0, Some(first), At(0), true, 1);
    assert h1.entries[..1] + [NewEntry(name, boardId)] == [e0, NewEntry(name, boardId)];
    BeginAppends(h1, name);
  }

  /** Moving the scenario's note from `before` to `after` and back, as one pending change each way. */
  lemma MoveApplies(before: NS.NoteState, after: NS.NoteState)
    requires before.id == after.id == 123 && before.text == after.text && before.img == after.img
    ensures var at := (n: NS.NoteState) => map[NoteKey(123) := NS.Payload(n)];
      && SM.AppliesTo(map[NoteKey(123) := NS.Edit(after, [X, Y])], at(before))
      && SM.ApplyAll(map[NoteKey(123) := NS.Edit(after, [X, Y])], at(before)) == at(after)
      && SM.AppliesTo(map[NoteKey(123) := NS.Edit(before, [X, Y])], at(after))
      && SM.ApplyAll(map[NoteKey(123) := NS.Edit(before, [X, Y])], at(after)) == at(before)
  {
    NS.EditPairInverse(before, after, [X, Y]);
    SingleChange(NoteKey(123), NS.Edit(after, [X, Y]), SM.Present(NS.Payload(before)), SM.Present(NS.Payload(after)));
    SingleChange(NoteKey(123), NS.Edit(before, [X, Y]), SM.Present(NS.Payload(after)), SM.Present(NS.Payload(before)));
  }

  /**
    '2 action, undo, redo': after creating a note and moving it in a second transaction, undo
    reverts only the move (its backward snapshot takes the note from (100, 200) to (0, 0)) and
    redo replays it.
   */
  lemma MoveUndoRedo(boardId: string)
    ensures var h := Added(Began(Added(Began(Fresh(boardId, 50), "new note"), CreateChange(Note0())), "move note"),
                           MoveChange(Note0(), NoteAt(100, 200)));
      var u := Undone(h);
      var r := Redone(u);
      var at := (n: NS.NoteState) => map[NoteKey(123) := NS.Payload(n)];
      && |h.entries| == 2 && u.index == 0
      && CanUndo(h) && !CanRedo(h)
      && CanUndo(u) && CanRedo(u) && UndoName(u) == Some("new note") && RedoName(u) == Some("move note")
      && CanUndo(r) && !CanRedo(r)
      && SM.AppliesTo(h.entries[1].backward.notes.entries, at(NoteAt(100, 200)))
      && SM.ApplyAll(h.entries[1].backward.notes.entries, at(NoteAt(100, 200))) == at(NoteAt(0, 0))
      && SM.AppliesTo(u.entries[1].forward.notes.entries, at(NoteAt(0, 0)))
      && SM.ApplyAll(u.entries[1].forward.notes.entries, at(NoteAt(0, 0))) == at(NoteAt(100, 200))
  {
    MovedHistory(boardId);
    var m := MoveChange(Note0(), NoteAt(100, 200));
    RecordedIntoEmpty("move note", boardId, m.noteBackward, m.noteForward);
    assert NoteAt(0, 0) == Note0();
    MoveApplies(Note0(), NoteAt(100, 200));
  }

  /** With two entries and the second one done, undoing it and recording a new transaction replaces it. */
  lemma ReplaceSecond(boardId: string, e0: Entry, e1: Entry, open: string, name: string, c: Change, k: nat)
    requires EntryOf(e0, boardId) && EntryOf(e1, boardId)
    ensures var h := History(boardId, 50, [e0, e1], 1, Some(open), At(1), true, k);
      && h.Valid() && CanUndo(Undone(h)) && CanRedo(Undone(h))
      && Added(Began(Undone(h), name), c)
         == History(boardId, 50, [e0, Recorded(NewEntry(name, boardId), c)], 1, Some(name), At(1), true, k + 2)
  {
    var h := History(boardId, 50, [e0, e1], 1, Some(open), At(1), true, k);
    UndoSecond(h, e0, e1);
    var undone := Undone(h);
    BeginAfterFirst(undone, e0, name);
    AddSecond(Began(undone, name), e0, name, c);
  }

  lemma UndoSecond(h: History, e0: Entry, e1: Entry)
    requires h.entries == [e0, e1] && h.index == 1 && h.curr == At(1) && h.name.Some? && h.limit >= 0
    requires EntryOf(e0, h.boardId) && EntryOf(e1, h.boardId)
    ensures h.Valid()
    ensures Undone(h) == h.(index := 0, name := None, curr := Closed, changed := h.changed + 1)
  {
  }

  lemma AddSecond(b: History, e0: Entry, name: string, c: Change)
    requires b.Valid() && b.record && b.entries == [e0, NewEntry(name, b.boardId)] && b.curr == At(1)
    ensures Added(b, c) == b.(entries := [e0, Recorded(NewEntry(name, b.boardId), c)], changed := b.changed + 1)
  {
    AddAt(b, c);
    assert b.entries[1 := Recorded(b.entries[1], c)] == [e0, Recorded(NewEntry(name, b.boardId), c)];
  }

  lemma BeginAfterFirst(u: History, e0: Entry, name: string)
    requires u.Valid() && u.index == 0 && u.entries[0] == e0 && u.curr.Closed? && u.limit >= 2
    ensures Began(u, name) == u.(entries := [e0, NewEntry(name, u.boardId)], index := 1,
                                 name := Some(name), curr := At(1))
  {
    BeginAppends(u, name);
    assert u.entries[..1] == [e0];
  }

  /**
    '2 action, undo, action, undo, redo': a new transaction after the undo replaces the undone
    move, so there is nothing to redo; undoing and redoing then moves between (0, 0) and
    (300, 400).
   */
  lemma NewActionAfterUndo(boardId: string)
    ensures var h := Added(Began(Added(Began(Fresh(boardId, 50), "new note"), CreateChange(Note0())), "move note"),
                           MoveChange(Note0(), NoteAt(100, 200)));
      var h3 := Added(Began(Undone(h), "move note"), MoveChange(Note0(), NoteAt(300, 400)));
      var u := Undone(h3);
      var r := Redone(u);
      var at := (n: NS.NoteState) => map[NoteKey(123) := NS.Payload(n)];
      && |h3.entries| == 2 && u.index == 0
      && CanUndo(Undone(h)) && CanRedo(Undone(h))
      && CanUndo(h3) && !CanRedo(h3)
      && CanUndo(u) && CanRedo(u)
      && CanUndo(r) && !CanRedo(r)
      && SM.AppliesTo(h3.entries[1].backward.notes.entries, at(NoteAt(300, 400)))
      && SM.ApplyAll(h3.entries[1].backward.notes.entries, at(NoteAt(300, 400))) == at(NoteAt(0, 0))
      && SM.AppliesTo(u.entries[1].forward.notes.entries, at(NoteAt(0, 0)))
      && SM.ApplyAll(u.entries[1].forward.notes.entries, at(NoteAt(0, 0))) == at(NoteAt(300, 400))
  {
    MovedHistory(boardId);
    var m := MoveChange(Note0(), NoteAt(300, 400));
    ReplaceSecond(boardId, Recorded(NewEntry("new note", boardId), CreateChange(Note0())),
                  Recorded(NewEntry("move note", boardId), MoveChange(Note0(), NoteAt(100, 200))), "move note", "move note", m, 2);
    RecordedIntoEmpty("move note", boardId, m.noteBackward, m.noteForward);
    assert NoteAt(0, 0) == Note0();
    MoveApplies(Note0(), NoteAt(300, 400));
  }

  // ---------------------------------------------------------------------------------------------
  // The object

  /** The loop of fromRaw: one entry read back per record, in order. */
  method ReadEntries(boardId: string, data: seq<RawEntry>) returns (es: seq<Entry>)
    ensures es == EntriesFromRaw(boardId, data)
  {
    es := [];
    for i := 0 to |data|
      invariant es == EntriesFromRaw(boardId, data[..i])
    {
      assert data[..i + 1][..i] == data[..i];
      es := es + [EntryFromRaw(boardId, data[i])];
    }
    assert data[..|data|] == data;
  }

  class ActionHistory {
    /** Every snapshot the history creates is an empty one of this board. */
    const boardId: string
    var limit: int
    var history: seq<Entry>
    var index: int
    var historyName: Option<string>
    var curr: Open
    var record: bool
    /** The number of `changed` events emitted. */
    var changed: nat

    function State(): History
      reads this
    {
      History(boardId, limit, history, index, historyName, curr, record, changed)
    }

    ghost predicate Valid()
      reads this
    {
      State().Valid()
    }

    constructor(limit: int, boardId: string)
      requires limit >= 0
      ensures Valid() && State() == Fresh(boardId, limit)
    {
      this.boardId := boardId;
      this.limit := limit;
      history := [];
      index := -1;
      historyName := None;
      curr := Closed;
      record := true;
      changed := 0;
    }

    /** begin; `warned` is true where the source warns about an entry with the empty name. */
    method Begin(name: string) returns (warned: bool)
      requires Valid()
      modifies this
      ensures Valid()
      ensures State() == Began(old(State()), name)
      ensures warned == BeginWarns(old(State()), name)
    {
      warned := false;
      if historyName != Some(name) || curr.Closed? {
        ghost var h0 := State();
        warned := name == "";
        historyName := Some(name);
        TrimAction();
        curr := At(|history|);
        history := history + [NewEntry(name, boardId)];
        index := index + 1;
        assert State() == Opened(h0, name);
        TrimHistory();
      }
    }

    /** end. */
    method End()
      modifies this
      ensures old(Valid()) ==> Valid()
      ensures State() == Ended(old(State()))
    {
      historyName := None;
      curr := Closed;
    }

    /** The limit setter. */
    method SetLimit(limit: int)
      requires Valid()
      modifies this
      ensures Valid()
      ensures State() == LimitSet(old(State()), limit)
    {
      var l := limit;
      if l <= 0 {
        l := 0;
      }
      this.limit := l;
      TrimHistory();
    }

    /**
      trimHistory. The open entry is the same object whatever its position: it moves back with
      the list and, once dropped from it, is held on its own.
     */
    method TrimHistory()
      requires Valid()
      modifies this
      ensures Valid()
      ensures State() == Trimmed(old(State()))
    {
      ghost var h0 := State();
      DroppedFront(h0);
      DropFront();
      assert State() == Trimmed(h0);
    }

    /** The loop of trimHistory: shifts entries off the front while more than `limit` remain. */
    method DropFront()
      requires limit >= 0 && -1 <= index < |history|
      requires curr.At? ==> 0 <= curr.pos < |history|
      modifies this`history, this`index, this`curr
      ensures var d := if |old(history)| <= limit then 0 else |old(history)| - limit;
        && history == old(history)[d..]
        && index == DropIndex(old(index), d)
        && curr == ShiftOpen(old(curr), old(history), d)
    {
      ghost var k: nat := 0;
      while |history| > limit
        invariant k <= |old(history)| && (k > 0 ==> |old(history)| - k >= limit)
        invariant history == old(history)[k..]
        invariant index == DropIndex(old(index), k)
        invariant curr == ShiftOpen(old(curr), old(history), k)
        invariant curr.At? ==> 0 <= curr.pos < |history|
        decreases |history|
      {
        TrimStep(old(curr), old(history), k);
        curr := ShiftOpen(curr, history, 1);
        history := history[1..];
        if index > -1 {
          index := index - 1;
        }
        k := k + 1;
      }
      if |old(history)| <= limit {
        assert k == 0;
      } else {
        assert k == |old(history)| - limit;
      }
    }

    /** trimAction: pops the entries after the index. */
    method TrimAction()
      requires -1 <= index < |history|
      modifies this
      ensures State() == TrimmedTail(old(State()))
    {
      while |history| > index + 1
        invariant index + 1 <= |history| <= |old(history)|
        invariant history == old(history)[..|history|]
        invariant index == old(index) && curr == old(curr) && limit == old(limit)
        invariant historyName == old(historyName) && record == old(record) && changed == old(changed)
        decreases |history|
      {
        history := history[..|history| - 1];
      }
    }

    /**
      undo: the entry's backward snapshot is `applied` to the target with recording off;
      `reports` are the changes the target reports meanwhile, which are not recorded. Where undo
      is not possible the history only warns.
     */
    method Undo(reports: seq<Change>) returns (warned: bool, applied: Option<SnapshotState>)
      requires Valid() && record
      modifies this
      ensures Valid() && record
      ensures State() == Undone(old(State()))
      ensures warned <==> !CanUndo(old(State()))
      ensures !warned ==> applied == Some(old(history)[old(index)].backward)
    {
      if index < 0 {
        return true, None;
      }
      warned := false;
      record := false;
      applied := Some(history[index].backward);
      for i := 0 to |reports|
        invariant Valid() && State() == old(State()).(record := false)
      {
        Add(reports[i]);
      }
      record := true;
      index := index - 1;
      End();
      changed := changed + 1;
    }

    /**
      redo: the next entry's forward snapshot is `applied` to the target with recording off;
      `reports` are the changes the target reports meanwhile, which are not recorded. Where redo
      is not possible the history only warns.
     */
    method Redo(reports: seq<Change>) returns (warned: bool, applied: Option<SnapshotState>)
      requires Valid() && record
      modifies this
      ensures Valid() && record
      ensures State() == Redone(old(State()))
      ensures warned <==> !CanRedo(old(State()))
      ensures !warned ==> applied == Some(old(history)[old(index) + 1].forward)
    {
      if index + 1 >= |history| {
        return true, None;
      }
      warned := false;
      record := false;
      applied := Some(history[index + 1].forward);
      for i := 0 to |reports|
        invariant Valid() && State() == old(State()).(record := false)
      {
        Add(reports[i]);
      }
      record := true;
      index := index + 1;
      changed := changed + 1;
    }

    /** The body shared by addNoteSnapshotAction and addConnectionSnapshotAction. */
    method Add(c: Change)
      requires Valid()
      modifies this
      ensures Valid()
      ensures State() == Added(old(State()), c)
    {
      ghost var target := Added(State(), c);
      if record {
        ghost var h0 := State();
        EnsureOpen();
        ghost var g := State();
        RecordIntoOpen(c);
        changed := changed + 1;
        AddedSteps(h0, g, c);
      }
      assert State() == target;
    }

    /** Opens an entry named '' where none is open. */
    method EnsureOpen()
      requires Valid()
      modifies this
      ensures Valid() && !curr.Closed?
      ensures State() == if old(curr).Closed? then Began(old(State()), "") else old(State())
    {
      if curr.Closed? {
        ghost var h0 := State();
        var _ := Begin("");
        OpenAfterBegin(h0, "");
      }
    }

    /** Records a change into the open entry, wherever it is held. */
    method RecordIntoOpen(c: Change)
      requires Valid() && !curr.Closed?
      modifies this`history, this`curr
      ensures Valid()
      ensures State() == RecordedInto(old(State()), c)
    {
      ghost var target := RecordedInto(State(), c);
      if curr.At? {
        history := history[curr.pos := Recorded(history[curr.pos], c)];
      } else {
        curr := Detached(Recorded(curr.entry, c));
      }
      assert State() == target;
    }

    /** addNoteSnapshotAction. */
    method AddNoteAction(backward: NoteAction, forward: NoteAction)
      requires Valid()
      modifies this
      ensures Valid()
      ensures State() == Added(old(State()), NoteChange(backward, forward))
    {
      Add(NoteChange(backward, forward));
    }

    /** addConnectionSnapshotAction. */
    method AddConnectionAction(backward: ConnectionAction, forward: ConnectionAction)
      requires Valid()
      modifies this
      ensures Valid()
      ensures State() == Added(old(State()), ConnectionChange(backward, forward))
    {
      Add(ConnectionChange(backward, forward));
    }

    /** toRaw. */
    method ToRaw() returns (r: seq<RawEntry>)
      requires Valid()
      ensures r == Raw(State())
    {
      r := [];
      for i := 0 to |history|
        invariant |r| == i
        invariant forall j :: 0 <= j < i ==> r[j] == RawOf(history[j])
      {
        r := r + [RawOf(history[i])];
      }
    }

    /** fromRaw. */
    method FromRaw(data: seq<RawEntry>)
      requires Valid()
      modifies this
      ensures Valid()
      ensures State() == Loaded(old(State()), data)
    {
      var read := ReadEntries(boardId, data);
      ghost var target := Loaded(State(), data);
      history := history + read;
      assert State() == target;
    }
  }
}
