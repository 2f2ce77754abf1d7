/**
  The change descriptors built from a connection (src/snapshot/ConnectionSnapshot.ts). Every one
  carries the connection's identity (both end notes' ids and ports, in stored order); a Create
  adds the color, the size and the dash pattern written as its numbers joined by single spaces.
 */
module ConnectionSnapshots {
  import opened Wrappers
  import opened Decimal
  import SnapshotMerge
  import opened Snapshots

  /** What a descriptor reads from a connection. */
  datatype ConnectionState = ConnectionState(
    a: int, pa: Port, b: int, pb: Port, color: string, size: int, dash: seq<int>)

  /** getId: the identity in the connection's stored order. */
  function GetId(c: ConnectionState): (id: ConnectionId)
    ensures id.a == c.a && id.pa == c.pa && id.b == c.b && id.pb == c.pb
  {
    ConnectionId(c.a, c.pa, c.b, c.pb)
  }

  /** `dash.join(' ')`. */
  function JoinDash(d: seq<int>): string
    decreases |d|
  {
    if |d| == 0 then ""
    else if |d| == 1 then IntToString(d[0])
    else IntToString(d[0]) + " " + JoinDash(d[1..])
  }

  /** Cuts `s` at every space; `word` is the part of the current word already read. */
  function SplitWords(s: string, word: string): (ws: seq<string>)
    ensures |ws| >= 1
    decreases |s|
  {
    if s == [] then [word]
    else if s[0] == ' ' then [word] + SplitWords(s[1..], "")
    else SplitWords(s[1..], word + [s[0]])
  }

  /** Reads a dash pattern back from its stored string. */
  function ParseDash(s: string): seq<int> {
    if s == "" then [] else
      var ws := SplitWords(s, "");
      seq(|ws|, i requires 0 <= i < |ws| => ParseInt(ws[i]))
  }

  lemma {:induction false} SplitWordsAppend(w: string, rest: string, word: string)
    requires ' ' !in w
    ensures SplitWords(w + rest, word) == SplitWords(rest, word + w)
    decreases |w|
  {
    if w == [] {
      assert w + rest == rest;
      assert word + w == word;
    } else {
      var s := w + rest;
      assert s[0] == w[0] && w[0] in w;
      assert s[1..] == w[1..] + rest;
      calc {
        SplitWords(s, word);
        SplitWords(s[1..], word + [w[0]]);
        { SplitWordsAppend(w[1..], rest, word + [w[0]]); }
        SplitWords(rest, word + [w[0]] + w[1..]);
        { assert word + [w[0]] + w[1..] == word + w; }
        SplitWords(rest, word + w);
      }
    }
  }

  lemma NoSpace(i: int)
    ensures ' ' !in IntToString(i)
  {
  }

  /** The decimal strings of the numbers of a pattern. */
  function Words(d: seq<int>): (ws: seq<string>)
    ensures |ws| == |d|
    ensures forall i :: 0 <= i < |d| ==> ws[i] == IntToString(d[i])
    decreases |d|
  {
    if d == [] then [] else [IntToString(d[0])] + Words(d[1..])
  }

  /** The words of a joined pattern are the numbers' decimal strings. */
  lemma {:induction false} SplitJoin(d: seq<int>)
    requires |d| >= 1
    ensures SplitWords(JoinDash(d), "") == Words(d)
    decreases |d|
  {
    var w := IntToString(d[0]);
    NoSpace(d[0]);
    if |d| == 1 {
      SplitSingle(w);
      assert Words(d) == [w] + Words([]);
    } else {
      var tail := JoinDash(d[1..]);
      assert JoinDash(d) == w + " " + tail;
      SplitCons(w, tail);
      SplitJoin(d[1..]);
      assert Words(d) == [w] + Words(d[1..]);
    }
  }

  /** A single word without spaces splits into itself. */
  lemma SplitSingle(w: string)
    requires ' ' !in w
    ensures SplitWords(w, "") == [w]
  {
    SplitWordsAppend(w, "", "");
    assert w + "" == w;
    assert "" + w == w;
  }

  /** A word without spaces, a space, then the rest: the word comes first. */
  lemma SplitCons(w: string, tail: string)
    requires ' ' !in w
    ensures SplitWords(w + " " + tail, "") == [w] + SplitWords(tail, "")
  {
    assert w + " " + tail == w + (" " + tail);
    SplitWordsAppend(w, " " + tail, "");
    assert "" + w == w;
    assert (" " + tail)[0] == ' ';
    assert (" " + tail)[1..] == tail;
  }

  /** The stored dash string loses nothing: parsing it gives the pattern back. */
  lemma DashRoundTrip(d: seq<int>)
    ensures ParseDash(JoinDash(d)) == d
  {
    if |d| >= 1 {
      SplitJoin(d);
      assert JoinDash(d) != "" by {
        if |d| == 1 {
          assert |IntToString(d[0])| >= 1;
        } else {
          assert |IntToString(d[0]) + " " + JoinDash(d[1..])| >= 1;
        }
      }
      forall i | 0 <= i < |d|
        ensures ParseDash(JoinDash(d))[i] == d[i]
      {
        ParseIntToString(d[i]);
      }
    }
  }

  /** The value a descriptor records for `f`. */
  function FieldValue(c: ConnectionState, f: ConnectionField): Value {
    match f
    case Color => Str(c.color)
    case Size => Num(c.size)
    case Dash => Str(JoinDash(c.dash))
  }

  function Payload(c: ConnectionState): (p: map<ConnectionField, Value>)
    ensures p.Keys == AllConnectionFields
    ensures forall f :: f in p ==> p[f] == FieldValue(c, f)
  {
    map[Color := Str(c.color), Size := Num(c.size), Dash := Str(JoinDash(c.dash))]
  }

  /** create: the identity with color, size and the joined dash pattern. */
  function Create(c: ConnectionState): (r: ConnectionAction)
    ensures r.Create? && r.id == GetId(c)
    ensures r.fields.Keys == AllConnectionFields
    ensures forall f :: f in r.fields ==> r.fields[f] == FieldValue(c, f)
  {
    SnapshotMerge.Create(GetId(c), Payload(c))
  }

  /** edit: the identity and exactly the listed fields. */
  function Edit(c: ConnectionState, fields: seq<ConnectionField>): (r: ConnectionAction)
    ensures r.Edit? && r.id == GetId(c)
    ensures r.fields.Keys == set f | f in fields
    ensures forall f :: f in r.fields ==> r.fields[f] == FieldValue(c, f)
    decreases |fields|
  {
    if fields == [] then SnapshotMerge.Edit(GetId(c), map[])
    else
      var f := fields[|fields| - 1];
      var e := Edit(c, fields[..|fields| - 1]);
      assert fields == fields[..|fields| - 1] + [f];
      SnapshotMerge.Edit(GetId(c), e.fields[f := FieldValue(c, f)])
  }

  /** delete: the identity alone. */
  function Delete(c: ConnectionState): (r: ConnectionAction)
    ensures r.Delete? && r.id == GetId(c)
  {
    SnapshotMerge.Delete(GetId(c))
  }

  /** All descriptors of a connection share its key; Creates carry the full payload. */
  lemma BuildersWellFormed(c: ConnectionState, fields: seq<ConnectionField>)
    ensures ConnectionKeyOf(Create(c)) == ConnectionKeyOf(Edit(c, fields)) == ConnectionKeyOf(Delete(c))
    ensures SnapshotMerge.FullPayload(Create(c), AllConnectionFields)
    ensures SnapshotMerge.FullPayload(Edit(c, fields), AllConnectionFields)
    ensures SnapshotMerge.FullPayload(Delete(c), AllConnectionFields)
  {
  }

  /** Create and Delete undo one another. */
  lemma CreateDeleteInverse(c: ConnectionState)
    ensures SnapshotMerge.Apply(Create(c), SnapshotMerge.Absent) == Some(SnapshotMerge.Present(Payload(c)))
    ensures SnapshotMerge.Apply(Delete(c), SnapshotMerge.Present(Payload(c))) == Some(SnapshotMerge.Absent)
  {
  }

  /** The (reverse, forward) Edit pair of a change confined to `fields` undo one another. */
  lemma EditPairInverse(before: ConnectionState, after: ConnectionState, fields: seq<ConnectionField>)
    requires GetId(before) == GetId(after)
    requires forall f :: f !in fields ==> FieldValue(before, f) == FieldValue(after, f)
    ensures SnapshotMerge.Apply(Edit(after, fields), SnapshotMerge.Present(Payload(before)))
         == Some(SnapshotMerge.Present(Payload(after)))
    ensures SnapshotMerge.Apply(Edit(before, fields), SnapshotMerge.Present(Payload(after)))
         == Some(SnapshotMerge.Present(Payload(before)))
  {
    OverlayPayload(before, after, fields);
    OverlayPayload(after, before, fields);
  }

  lemma OverlayPayload(base: ConnectionState, c: ConnectionState, fields: seq<ConnectionField>)
    requires forall f :: f !in fields ==> FieldValue(base, f) == FieldValue(c, f)
    ensures Payload(base) + Edit(c, fields).fields == Payload(c)
  {
    var e := Edit(c, fields).fields;
    forall f | f in Payload(base) && f !in e
      ensures Payload(base)[f] == Payload(c)[f]
    {
      assert f !in fields;
    }
    SnapshotMerge.Overlay(Payload(base), e, Payload(c));
  }
}
