/**
  The change descriptors built from a note (src/snapshot/NoteSnapshot.ts): a Create with the
  note's full payload, an Edit with the listed fields, and a Delete with only the id. Each reads
  the note's current state, here a `NoteState` value.
 */
module NoteSnapshots {
  import opened Wrappers
  import SnapshotMerge
  import opened Snapshots

  /** What a descriptor reads from a note: its id, position, text and its image's id, if any. */
  datatype NoteState = NoteState(id: int, x: int, y: int, text: string, img: Option<int>)

  /** `n | 0`: JavaScript's conversion of a number to a signed 32-bit integer. */
  function ToInt32(n: int): (r: int)
    ensures -0x8000_0000 <= r < 0x8000_0000
    ensures -0x8000_0000 <= n < 0x8000_0000 ==> r == n
    ensures (r - n) % 0x1_0000_0000 == 0
  {
    (n + 0x8000_0000) % 0x1_0000_0000 - 0x8000_0000
  }

  /** `note.img?.id | 0`: 0 when the note has no image. */
  function ImgValue(n: NoteState): (v: Value)
    ensures n.img.None? ==> v == Num(0)
    ensures n.img.Some? && -0x8000_0000 <= n.img.value < 0x8000_0000 ==> v == Num(n.img.value)
  {
    Num(ToInt32(n.img.GetOr(0)))
  }

  /** The value a descriptor records for `f`. */
  function FieldValue(n: NoteState, f: NoteField): Value {
    match f
    case X => Num(n.x)
    case Y => Num(n.y)
    case Text => Str(n.text)
    case Img => ImgValue(n)
  }

  /** The stored data of a note: every field with its value. */
  function Payload(n: NoteState): (p: map<NoteField, Value>)
    ensures p.Keys == AllNoteFields
    ensures forall f :: f in p ==> p[f] == FieldValue(n, f)
  {
    map[X := Num(n.x), Y := Num(n.y), Text := Str(n.text), Img := ImgValue(n)]
  }

  /** create: the full payload. */
  function Create(n: NoteState): (r: NoteAction)
    ensures r.Create? && r.id == n.id
    ensures r.fields.Keys == AllNoteFields
    ensures forall f :: f in r.fields ==> r.fields[f] == FieldValue(n, f)
  {
    SnapshotMerge.Create(n.id, Payload(n))
  }

  /** edit: exactly the listed fields, each read from the note. */
  function Edit(n: NoteState, fields: seq<NoteField>): (r: NoteAction)
    ensures r.Edit? && r.id == n.id
    ensures r.fields.Keys == set f | f in fields
    ensures forall f :: f in r.fields ==> r.fields[f] == FieldValue(n, f)
    decreases |fields|
  {
    if fields == [] then SnapshotMerge.Edit(n.id, map[])
    else
      var f := fields[|fields| - 1];
      var e := Edit(n, fields[..|fields| - 1]);
      assert fields == fields[..|fields| - 1] + [f];
      SnapshotMerge.Edit(n.id, e.fields[f := FieldValue(n, f)])
  }

  /** delete: the id alone. */
  function Delete(n: NoteState): (r: NoteAction)
    ensures r.Delete? && r.id == n.id
  {
    SnapshotMerge.Delete(n.id)
  }

  /**
    The three descriptors of a note share its key, and their Creates carry the full payload the
    merge soundness theorem asks for.
   */
  lemma BuildersWellFormed(n: NoteState, fields: seq<NoteField>)
    ensures NoteKeyOf(Create(n)) == NoteKeyOf(Edit(n, fields)) == NoteKeyOf(Delete(n)) == NoteKey(n.id)
    ensures SnapshotMerge.FullPayload(Create(n), AllNoteFields)
    ensures SnapshotMerge.FullPayload(Edit(n, fields), AllNoteFields)
    ensures SnapshotMerge.FullPayload(Delete(n), AllNoteFields)
  {
  }

  /** Create and Delete undo one another: creating gives the note's payload, deleting removes it. */
  lemma CreateDeleteInverse(n: NoteState)
    ensures SnapshotMerge.Apply(Create(n), SnapshotMerge.Absent) == Some(SnapshotMerge.Present(Payload(n)))
    ensures SnapshotMerge.Apply(Delete(n), SnapshotMerge.Present(Payload(n))) == Some(SnapshotMerge.Absent)
  {
  }

  /**
    When a note changes only in the listed fields, the Edit read after the change moves the
    stored payload forward and the Edit read before the change moves it back: the (reverse,
    forward) pair an editing operation records.
   */
  lemma EditPairInverse(before: NoteState, after: NoteState, fields: seq<NoteField>)
    requires before.id == after.id
    requires forall f :: f !in fields ==> FieldValue(before, f) == FieldValue(after, f)
    ensures SnapshotMerge.Apply(Edit(after, fields), SnapshotMerge.Present(Payload(before)))
         == Some(SnapshotMerge.Present(Payload(after)))
    ensures SnapshotMerge.Apply(Edit(before, fields), SnapshotMerge.Present(Payload(after)))
         == Some(SnapshotMerge.Present(Payload(before)))
  {
    OverlayPayload(before, after, fields);
    OverlayPayload(after, before, fields);
  }

  lemma OverlayPayload(base: NoteState, n: NoteState, fields: seq<NoteField>)
    requires forall f :: f !in fields ==> FieldValue(base, f) == FieldValue(n, f)
    ensures Payload(base) + Edit(n, fields).fields == Payload(n)
  {
    var e := Edit(n, fields).fields;
    forall f | f in Payload(base) && f !in e
      ensures Payload(base)[f] == Payload(n)[f]
    {
      assert f !in fields;
    }
    SnapshotMerge.Overlay(Payload(base), e, Payload(n));
  }
}
