/**
  The older way of recording a change (src/snapshot/SA*.ts): instead of merging a descriptor,
  each `apply` edits the entry stored under the entity's key in place. A Create overwrites the
  entry, an Edit sets the listed fields on it (turning a stored Delete back into an Edit) and a
  Delete removes a stored Create or strips the entry down to a bare Delete.

  The three entry specifications are generic over notes and connections; the six `Apply*`
  methods are proved against them, and the `*AgreesWithPush` lemmas show that wherever a merge
  would not conflict, the in-place update leaves the same entry as pushing the matching
  descriptor.
 */
module SnapshotEditors {
  import opened Wrappers
  import opened OrderedMaps
  import SM = SnapshotMerge
  import opened Snapshots
  import NoteSnapshots
  import ConnectionSnapshots

  type Entries<I, F, V> = OrderedMap<string, SM.Action<I, F, V>>

  /** Entries other than the one under `k` are untouched, and keep their order. */
  ghost predicate OthersUnchanged<A>(m: OrderedMap<string, A>, r: OrderedMap<string, A>, k: string) {
    && (forall j :: j != k ==> (j in r.entries <==> j in m.entries))
    && (forall j :: j != k && j in m.entries ==> r.entries[j] == m.entries[j])
  }

  /** SACreate*: the full payload under `k`, a Create when nothing was stored and an Edit otherwise. */
  function CreateEntry<I, F, V>(m: Entries<I, F, V>, k: string, id: I, payload: map<F, V>): (r: Entries<I, F, V>)
    requires m.Valid()
    ensures r.Valid() && OthersUnchanged(m, r, k)
    ensures k in r.entries && r.entries[k].id == id && r.entries[k].Data() == payload
    ensures r.entries[k].Create? <==> k !in m.entries
    ensures r.entries[k].Edit? <==> k in m.entries
  {
    m.Set(k, if k in m.entries then SM.Edit(id, payload) else SM.Create(id, payload))
  }

  /**
    SAEdit*: the listed values set on the entry under `k`; a missing entry starts as an Edit
    holding only the identity, a stored Delete is retyped to Edit, a stored Create stays Create.
   */
  function EditEntry<I, F, V>(m: Entries<I, F, V>, k: string, id: I, listed: map<F, V>): (r: Entries<I, F, V>)
    requires m.Valid()
    ensures r.Valid() && OthersUnchanged(m, r, k)
    ensures k in r.entries
    ensures r.entries[k].Create? <==> k in m.entries && m.entries[k].Create?
    ensures !r.entries[k].Delete?
    ensures r.entries[k].id == (if k in m.entries then m.entries[k].id else id)
    ensures r.entries[k].Data() == (if k in m.entries then m.entries[k].Data() else map[]) + listed
  {
    m.Set(k, Overlay(Retyped(m, k, id), listed))
  }

  /** The entry SAEdit starts from: the stored one, a Delete retyped to Edit, or a bare Edit. */
  function Retyped<I, F, V>(m: Entries<I, F, V>, k: string, id: I): (x: SM.Action<I, F, V>)
    ensures !x.Delete?
  {
    if k !in m.entries then SM.Edit(id, map[])
    else if m.entries[k].Delete? then SM.Edit(m.entries[k].id, map[])
    else m.entries[k]
  }

  /** `x` with the listed values set on it, its type kept. */
  function Overlay<I, F, V>(x: SM.Action<I, F, V>, listed: map<F, V>): (r: SM.Action<I, F, V>)
    requires !x.Delete?
    ensures r.Create? == x.Create? && !r.Delete? && r.id == x.id
    ensures r.fields == x.fields + listed
  {
    if x.Create? then SM.Create(x.id, x.fields + listed) else SM.Edit(x.id, x.fields + listed)
  }

  /** Setting one more listed value is setting it on the overlaid entry. */
  lemma OverlayOneMore<I, F, V>(x: SM.Action<I, F, V>, listed: map<F, V>, f: F, v: V)
    requires !x.Delete?
    ensures Overlay(x, listed[f := v]) == SetField(Overlay(x, listed), f, v)
  {
    assert x.fields + listed[f := v] == (x.fields + listed)[f := v];
  }

  /** `entry[f] = v` on a stored Create or Edit. */
  function SetField<I, F, V>(x: SM.Action<I, F, V>, f: F, v: V): (r: SM.Action<I, F, V>)
    requires !x.Delete?
    ensures r.Create? == x.Create? && !r.Delete? && r.id == x.id
    ensures r.fields == x.fields[f := v]
  {
    if x.Create? then SM.Create(x.id, x.fields[f := v]) else SM.Edit(x.id, x.fields[f := v])
  }

  /**
    SADelete*: a missing entry becomes a bare Delete, a stored Create is removed, anything else
    is retyped to Delete with its data dropped.
   */
  function DeleteEntry<I, F, V>(m: Entries<I, F, V>, k: string, id: I): (r: Entries<I, F, V>)
    requires m.Valid()
    ensures r.Valid() && OthersUnchanged(m, r, k)
    ensures k !in r.entries <==> k in m.entries && m.entries[k].Create?
    ensures k in r.entries ==> r.entries[k].Delete?
    ensures k in r.entries ==> r.entries[k].id == (if k in m.entries then m.entries[k].id else id)
  {
    if k !in m.entries then m.Set(k, SM.Delete(id))
    else if m.entries[k].Create? then m.Remove(k)
    else m.Set(k, SM.Delete(m.entries[k].id))
  }

  /** Where pushing a Create would not conflict, SACreate leaves what the push leaves. */
  lemma CreateAgreesWithPush<I, F, V>(m: Entries<I, F, V>, k: string, x: SM.Action<I, F, V>)
    requires m.Valid() && x.Create?
    requires k in m.entries ==> m.entries[k].Delete?
    ensures CreateEntry(m, k, x.id, x.fields).entries == SM.PushInto(m.entries, k, x)
  {
  }

  /**
    Where pushing an Edit would not conflict (no Delete stored), SAEdit leaves what the push
    leaves; over a stored Delete the push conflicts, while SAEdit records an Edit.
   */
  lemma EditAgreesWithPush<I, F, V>(m: Entries<I, F, V>, k: string, x: SM.Action<I, F, V>)
    requires m.Valid() && x.Edit?
    requires k in m.entries ==> !m.entries[k].Delete? && m.entries[k].id == x.id
    ensures EditEntry(m, k, x.id, x.fields).entries == SM.PushInto(m.entries, k, x)
  {
    var empty: map<F, V> := map[];
    assert empty + x.fields == x.fields;
  }

  /** Where pushing a Delete would not conflict (no Delete stored), SADelete leaves what the push leaves. */
  lemma DeleteAgreesWithPush<I, F, V>(m: Entries<I, F, V>, k: string, x: SM.Action<I, F, V>)
    requires m.Valid() && x.Delete?
    requires k in m.entries ==> !m.entries[k].Delete? && m.entries[k].id == x.id
    ensures DeleteEntry(m, k, x.id).entries == SM.PushInto(m.entries, k, x)
  {
  }

  // ---------------------------------------------------------------------------------------------
  // Notes

  /** `n.img == null ? 0 : n.img.id`: unlike the descriptor builders, no 32-bit conversion. */
  function StoredNoteValue(n: NoteSnapshots.NoteState, f: NoteField): Value {
    if f == Img then Num(n.img.GetOr(0)) else NoteSnapshots.FieldValue(n, f)
  }

  /** The listed fields with the note's current values. */
  function ListedNoteValues(n: NoteSnapshots.NoteState, fields: seq<NoteField>): (r: map<NoteField, Value>)
    ensures r.Keys == set f | f in fields
    ensures forall f :: f in r ==> r[f] == StoredNoteValue(n, f)
    decreases |fields|
  {
    if fields == [] then map[]
    else
      var f := fields[|fields| - 1];
      assert fields == fields[..|fields| - 1] + [f];
      ListedNoteValues(n, fields[..|fields| - 1])[f := StoredNoteValue(n, f)]
  }

  /** The payload SACreateNote writes. */
  function StoredNotePayload(n: NoteSnapshots.NoteState): (p: map<NoteField, Value>)
    ensures p.Keys == AllNoteFields
    ensures forall f :: f in p ==> p[f] == StoredNoteValue(n, f)
  {
    map[X := Num(n.x), Y := Num(n.y), Text := Str(n.text), Img := Num(n.img.GetOr(0))]
  }

  /** For an image id that fits in 32 bits, the in-place editors write what the builders record. */
  lemma StoredNoteValuesMatchBuilders(n: NoteSnapshots.NoteState, fields: seq<NoteField>)
    requires n.img.Some? ==> -0x8000_0000 <= n.img.value < 0x8000_0000
    ensures StoredNotePayload(n) == NoteSnapshots.Create(n).fields
    ensures ListedNoteValues(n, fields) == NoteSnapshots.Edit(n, fields).fields
  {
    var v := n.img.GetOr(0);
    assert NoteSnapshots.ToInt32(v) == v;
    assert StoredNotePayload(n).Keys == NoteSnapshots.Create(n).fields.Keys;
    assert ListedNoteValues(n, fields).Keys == NoteSnapshots.Edit(n, fields).fields.Keys;
  }

  /** SACreateNote.apply. */
  method ApplyCreateNote(s: Snapshot, n: NoteSnapshots.NoteState)
    requires s.Valid()
    modifies s
    ensures s.Valid()
    ensures s.notes == CreateEntry(old(s.notes), NoteKey(n.id), n.id, StoredNotePayload(n))
    ensures s.boardId == old(s.boardId) && s.connections == old(s.connections)
    ensures s.stateEvents == old(s.stateEvents)
  {
    var key := NoteKey(n.id);
    var stored := s.notes.Get(key);
    var payload := map[X := Num(n.x), Y := Num(n.y), Text := Str(n.text), Img := Num(n.img.GetOr(0))];
    s.notes := s.notes.Set(key, if stored.Some? then SM.Edit(n.id, payload) else SM.Create(n.id, payload));
  }

  /** The listed note fields set one by one on a stored (non-Delete) entry. */
  method SetNoteFields(stored: NoteAction, n: NoteSnapshots.NoteState, fields: seq<NoteField>) returns (r: NoteAction)
    requires !stored.Delete?
    ensures r == Overlay(stored, ListedNoteValues(n, fields))
  {
    r := stored;
    assert r == Overlay(stored, map[]) by {
      assert stored.fields + map[] == stored.fields;
    }
    for i := 0 to |fields|
      invariant r == Overlay(stored, ListedNoteValues(n, fields[..i]))
    {
      var f := fields[i];
      var v := StoredNoteValue(n, f);
      OverlayOneMore(stored, ListedNoteValues(n, fields[..i]), f, v);
      assert ListedNoteValues(n, fields[..i + 1]) == ListedNoteValues(n, fields[..i])[f := v] by {
        assert fields[..i + 1][..i] == fields[..i];
      }
      r := SetField(r, f, v);
    }
    assert fields[..|fields|] == fields;
  }

  /**
    SAEditNote.apply: fetch or insert the entry, retype a Delete, then set the listed fields on
    it (the entry is an object updated in place; here it is a value written back under its key).
   */
  method ApplyEditNote(s: Snapshot, n: NoteSnapshots.NoteState, fields: seq<NoteField>)
    requires s.Valid()
    modifies s
    ensures s.Valid()
    ensures s.notes == EditEntry(old(s.notes), NoteKey(n.id), n.id, ListedNoteValues(n, fields))
    ensures s.boardId == old(s.boardId) && s.connections == old(s.connections)
    ensures s.stateEvents == old(s.stateEvents)
  {
    var key := NoteKey(n.id);
    var stored: NoteAction;
    if key !in s.notes.entries {
      stored := SM.Edit(n.id, map[]);
    } else {
      stored := s.notes.entries[key];
      if stored.Delete? {
        stored := SM.Edit(stored.id, map[]);
      }
    }
    assert stored == Retyped(s.notes, key, n.id);
    stored := SetNoteFields(stored, n, fields);
    s.notes := s.notes.Set(key, stored);
  }

  /** SADeleteNote.apply. */
  method ApplyDeleteNote(s: Snapshot, n: NoteSnapshots.NoteState)
    requires s.Valid()
    modifies s
    ensures s.Valid()
    ensures s.notes == DeleteEntry(old(s.notes), NoteKey(n.id), n.id)
    ensures s.boardId == old(s.boardId) && s.connections == old(s.connections)
    ensures s.stateEvents == old(s.stateEvents)
  {
    var key := NoteKey(n.id);
    var stored := s.notes.Get(key);
    if stored.None? {
      s.notes := s.notes.Set(key, SM.Delete(n.id));
    } else if stored.value.Create? {
      s.notes := s.notes.Remove(key);
    } else {
      s.notes := s.notes.Set(key, SM.Delete(stored.value.id));
    }
  }

  // ---------------------------------------------------------------------------------------------
  // Connections

  /** The listed fields with the connection's current values, the dash joined by spaces. */
  function ListedConnectionValues(c: ConnectionSnapshots.ConnectionState, fields: seq<ConnectionField>): (r: map<ConnectionField, Value>)
    ensures r.Keys == set f | f in fields
    ensures forall f :: f in r ==> r[f] == ConnectionSnapshots.FieldValue(c, f)
    decreases |fields|
  {
    if fields == [] then map[]
    else
      var f := fields[|fields| - 1];
      assert fields == fields[..|fields| - 1] + [f];
      ListedConnectionValues(c, fields[..|fields| - 1])[f := ConnectionSnapshots.FieldValue(c, f)]
  }

  /** The payload SACreateConnection writes. */
  function StoredConnectionPayload(c: ConnectionSnapshots.ConnectionState): (p: map<ConnectionField, Value>)
    ensures p.Keys == AllConnectionFields
    ensures forall f :: f in p ==> p[f] == ConnectionSnapshots.FieldValue(c, f)
  {
    map[Color := Str(c.color), Size := Num(c.size), Dash := Str(ConnectionSnapshots.JoinDash(c.dash))]
  }

  /** The connection editors write exactly what the connection descriptor builders record. */
  lemma ConnectionValuesMatchBuilders(c: ConnectionSnapshots.ConnectionState, fields: seq<ConnectionField>)
    ensures StoredConnectionPayload(c) == ConnectionSnapshots.Create(c).fields
    ensures ListedConnectionValues(c, fields) == ConnectionSnapshots.Edit(c, fields).fields
  {
    assert StoredConnectionPayload(c).Keys == ConnectionSnapshots.Create(c).fields.Keys;
  }

  /** SACreateConnection.apply. */
  method ApplyCreateConnection(s: Snapshot, c: ConnectionSnapshots.ConnectionState)
    requires s.Valid()
    modifies s
    ensures s.Valid()
    ensures s.connections == CreateEntry(old(s.connections), ConnectionKey(ConnectionSnapshots.GetId(c)),
      ConnectionSnapshots.GetId(c), StoredConnectionPayload(c))
    ensures s.boardId == old(s.boardId) && s.notes == old(s.notes)
    ensures s.stateEvents == old(s.stateEvents)
  {
    var id := ConnectionSnapshots.GetId(c);
    var key := ConnectionKey(id);
    var stored := s.connections.Get(key);
    var payload := StoredConnectionPayload(c);
    var x := if stored.Some? then SM.Edit(id, payload) else SM.Create(id, payload);
    ghost var target := s.State().(connections := s.connections.Set(key, x));
    ConnectionSetValid(s.State(), key, x);
    s.connections := s.connections.Set(key, x);
    assert s.State() == target;
  }

  /** The listed connection fields set one by one on a stored (non-Delete) entry. */
  method SetConnectionFields(stored: ConnectionAction, c: ConnectionSnapshots.ConnectionState,
                             fields: seq<ConnectionField>) returns (r: ConnectionAction)
    requires !stored.Delete?
    ensures r == Overlay(stored, ListedConnectionValues(c, fields))
  {
    r := stored;
    assert r == Overlay(stored, map[]) by {
      assert stored.fields + map[] == stored.fields;
    }
    for i := 0 to |fields|
      invariant r == Overlay(stored, ListedConnectionValues(c, fields[..i]))
    {
      var f := fields[i];
      var v := ConnectionSnapshots.FieldValue(c, f);
      OverlayOneMore(stored, ListedConnectionValues(c, fields[..i]), f, v);
      assert ListedConnectionValues(c, fields[..i + 1]) == ListedConnectionValues(c, fields[..i])[f := v] by {
        assert fields[..i + 1][..i] == fields[..i];
      }
      r := SetField(r, f, v);
    }
    assert fields[..|fields|] == fields;
  }

  /** SAEditConnection.apply. */
  method ApplyEditConnection(s: Snapshot, c: ConnectionSnapshots.ConnectionState, fields: seq<ConnectionField>)
    requires s.Valid()
    modifies s
    ensures s.Valid()
    ensures s.connections == EditEntry(old(s.connections), ConnectionKey(ConnectionSnapshots.GetId(c)),
      ConnectionSnapshots.GetId(c), ListedConnectionValues(c, fields))
    ensures s.boardId == old(s.boardId) && s.notes == old(s.notes)
    ensures s.stateEvents == old(s.stateEvents)
  {
    var id := ConnectionSnapshots.GetId(c);
    var key := ConnectionKey(id);
    var stored: ConnectionAction;
    if key !in s.connections.entries {
      stored := SM.Edit(id, map[]);
    } else {
      stored := s.connections.entries[key];
      if stored.Delete? {
        stored := SM.Edit(stored.id, map[]);
      }
    }
    assert stored == Retyped(s.connections, key, id);
    assert key in s.connections.entries ==> ConnectionKeyOf(s.connections.entries[key]) == key;
    stored := SetConnectionFields(stored, c, fields);
    ConnectionSetValid(s.State(), key, stored);
    s.connections := s.connections.Set(key, stored);
  }

  /** SADeleteConnection.apply. */
  method ApplyDeleteConnection(s: Snapshot, c: ConnectionSnapshots.ConnectionState)
    requires s.Valid()
    modifies s
    ensures s.Valid()
    ensures s.connections == DeleteEntry(old(s.connections), ConnectionKey(ConnectionSnapshots.GetId(c)), ConnectionSnapshots.GetId(c))
    ensures s.boardId == old(s.boardId) && s.notes == old(s.notes)
    ensures s.stateEvents == old(s.stateEvents)
  {
    var id := ConnectionSnapshots.GetId(c);
    var key := ConnectionKey(id);
    var stored := s.connections.Get(key);
    if stored.None? {
      ConnectionSetValid(s.State(), key, SM.Delete(id));
      s.connections := s.connections.Set(key, SM.Delete(id));
    } else if stored.value.Create? {
      ConnectionRemoveValid(s.State(), key);
      s.connections := s.connections.Remove(key);
    } else {
      assert ConnectionKeyOf(stored.value) == key;
      ConnectionSetValid(s.State(), key, SM.Delete(stored.value.id));
      s.connections := s.connections.Set(key, SM.Delete(stored.value.id));
    }
  }
}
