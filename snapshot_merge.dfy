/**
  The change descriptors a board snapshot stores, the rule that folds two successive descriptors
  of the same entity into one, and what a descriptor means: a partial map from the entity's state
  (absent, or present with some field values) to its next state.

  The main results are that merging is sound with respect to applying the descriptors one after
  the other (MergeRefinesSequence), and, lifted to whole maps of pending descriptors, that
  pushing every forward descriptor of a run of edits yields a map that replays the run, while
  shifting every backward descriptor yields a map that undoes it (ForwardReplays,
  BackwardRestores).
 */
module SnapshotMerge {
  import opened Wrappers

  /**
    A pending change of one entity. `I` is the entity's identity, `F` names its data fields and
    `V` is a field value; a field missing from `fields` is one the descriptor leaves alone (a
    property holding `undefined` is the same as a missing one).
   */
  datatype Action<I, F, V> =
    | Create(id: I, fields: map<F, V>)
    | Edit(id: I, fields: map<F, V>)
    | Delete(id: I)
  {
    /** The entity must exist for the change to apply. */
    predicate ExistsBefore() {
      !Create?
    }

    /** The entity exists once the change is applied. */
    predicate ExistsAfter() {
      !Delete?
    }

    /** The data the change writes; a Delete writes none. */
    function Data(): map<F, V> {
      if Delete? then map[] else fields
    }
  }

  /**
    The outcome of a merge: `Conflict` is the source's `null` (the two changes cannot follow one
    another), `Cancelled` its `undefined` (nothing is left pending).
   */
  datatype Merged<A> = Conflict | Cancelled | Result(action: A)

  /** mergeSnapshotAction: `a` is the earlier change, `b` the later one, either possibly absent. */
  function Merge<I, F, V>(a: Option<Action<I, F, V>>, b: Option<Action<I, F, V>>): (r: Merged<Action<I, F, V>>)
    ensures a.None? && b.None? ==> r == Cancelled
    ensures a.None? && b.Some? ==> r == Result(b.value)
    ensures a.Some? && b.None? ==> r == Result(a.value)
    ensures r.Conflict? <==> a.Some? && b.Some? && a.value.ExistsAfter() != b.value.ExistsBefore()
    ensures a.Some? && b.Some? ==>
      (r.Cancelled? <==> a.value.Create? && b.value.Delete?)
    ensures a.Some? && b.Some? && r.Result? ==>
      && r.action.id == b.value.id
      && r.action.ExistsBefore() == a.value.ExistsBefore()
      && r.action.ExistsAfter() == b.value.ExistsAfter()
      && r.action.Data() == (if b.value.Delete? then map[] else a.value.Data() + b.value.Data())
  {
    match (a, b)
    case (None, None) => Cancelled
    case (None, Some(y)) => Result(y)
    case (Some(x), None) => Result(x)
    case (Some(x), Some(y)) =>
      match (x, y)
      case (Create(_, fx), Edit(id, fy)) => Result(Create(id, fx + fy))
      case (Create(_, _), Delete(_)) => Cancelled
      case (Edit(_, fx), Edit(id, fy)) => Result(Edit(id, fx + fy))
      case (Edit(_, _), Delete(_)) => Result(y)
      case (Delete(_), Create(id, fy)) => Result(Edit(id, fy))
      case _ => Conflict
  }

  /** The state of one entity: absent, or present with the values of its fields. */
  datatype Entity<F, V> = Absent | Present(data: map<F, V>)

  /** What applying a change to an entity gives, or None when the change does not apply. */
  function Apply<I, F, V>(x: Action<I, F, V>, s: Entity<F, V>): (r: Option<Entity<F, V>>)
    ensures r.Some? <==> (s.Present? == x.ExistsBefore())
    ensures r.Some? ==> (r.value.Present? == x.ExistsAfter())
  {
    match x
    case Create(_, f) => if s.Absent? then Some(Present(f)) else None
    case Edit(_, f) => if s.Present? then Some(Present(s.data + f)) else None
    case Delete(_) => if s.Present? then Some(Absent) else None
  }

  /** An absent change leaves the entity as it is. */
  function ApplyChange<I, F, V>(x: Option<Action<I, F, V>>, s: Entity<F, V>): Option<Entity<F, V>> {
    if x.None? then Some(s) else Apply(x.value, s)
  }

  /** `a` and then `b`. */
  function Then<I, F, V>(a: Option<Action<I, F, V>>, b: Option<Action<I, F, V>>, s: Entity<F, V>): Option<Entity<F, V>> {
    var t := ApplyChange(a, s);
    if t.None? then None else ApplyChange(b, t.value)
  }

  function ApplyMerged<I, F, V>(r: Merged<Action<I, F, V>>, s: Entity<F, V>): Option<Entity<F, V>> {
    match r
    case Conflict => None
    case Cancelled => Some(s)
    case Result(x) => Apply(x, s)
  }

  /** The change writes only fields in `all`, and a Create writes all of them, as the builders do. */
  predicate FullPayload<I, F(!new), V>(x: Action<I, F, V>, all: set<F>) {
    && x.Data().Keys <= all
    && (x.Create? ==> x.fields.Keys == all)
  }

  predicate FullChange<I, F(!new), V>(x: Option<Action<I, F, V>>, all: set<F>) {
    x.Some? ==> FullPayload(x.value, all)
  }

  predicate Within<F(!new), V>(s: Entity<F, V>, all: set<F>) {
    s.Present? ==> s.data.Keys <= all
  }

  /**
    Merging is sound: wherever applying `a` then `b` succeeds, the merged change gives the same
    entity state; and unless the merge cancelled a Create against a Delete, the merged change
    applies exactly where the sequence does.
   */
  lemma MergeRefinesSequence<I, F(!new), V>(a: Option<Action<I, F, V>>, b: Option<Action<I, F, V>>, s: Entity<F, V>, all: set<F>)
    requires FullChange(a, all) && FullChange(b, all) && Within(s, all)
    ensures Then(a, b, s).Some? ==> ApplyMerged(Merge(a, b), s) == Then(a, b, s)
    ensures !(a.Some? && a.value.Create? && b.Some? && b.value.Delete?) ==>
      ApplyMerged(Merge(a, b), s) == Then(a, b, s)
  {
    if a.Some? && b.Some? {
      match (a.value, b.value)
      case (Edit(_, fx), Edit(_, fy)) =>
        if s.Present? {
          assert (s.data + fx) + fy == s.data + (fx + fy);
        }
      case (Delete(_), Create(_, fy)) =>
        if s.Present? {
          assert s.data + fy == fy;
        }
      case _ =>
    }
  }

  /** A conflict means the two changes are out of order: no entity state lets both apply. */
  lemma ConflictNeverApplies<I, F, V>(a: Option<Action<I, F, V>>, b: Option<Action<I, F, V>>, s: Entity<F, V>)
    requires Merge(a, b).Conflict?
    ensures Then(a, b, s).None?
  {
  }

  /** Conversely, two changes that do not conflict both apply to some entity state. */
  lemma NoConflictApplies<I, F, V>(a: Action<I, F, V>, b: Action<I, F, V>)
    requires !Merge(Some(a), Some(b)).Conflict?
    ensures Then(Some(a), Some(b), if a.ExistsBefore() then Present(map[]) else Absent).Some?
  {
  }

  // ---------------------------------------------------------------------------------------------
  // Maps of pending changes, keyed like the snapshot's maps, applied to a whole document.

  /** A document: the entities that exist, by key. */
  type Doc<K, F, V> = map<K, map<F, V>>

  function EntityAt<K(!new), F, V>(d: Doc<K, F, V>, k: K): Entity<F, V> {
    if k in d then Present(d[k]) else Absent
  }

  /** `d` with the entity under `k` replaced by `e`. */
  function SetEntity<K(!new), F, V>(d: Doc<K, F, V>, k: K, e: Entity<F, V>): (r: Doc<K, F, V>)
    ensures EntityAt(r, k) == e
    ensures forall j :: j != k ==> EntityAt(r, j) == EntityAt(d, j)
  {
    if e.Present? then d[k := e.data] else d - {k}
  }

  /** Every pending change applies to the document's entity under its key. */
  ghost predicate AppliesTo<K(!new), I, F, V>(m: map<K, Action<I, F, V>>, d: Doc<K, F, V>) {
    forall k :: k in m ==> Apply(m[k], EntityAt(d, k)).Some?
  }

  function After<K(!new), I, F, V>(m: map<K, Action<I, F, V>>, d: Doc<K, F, V>, k: K): Option<Entity<F, V>> {
    if k in m then Apply(m[k], EntityAt(d, k)) else Some(EntityAt(d, k))
  }

  /** Applies every pending change to its entity; entities without a pending change stay. */
  function ApplyAll<K(!new), I, F, V>(m: map<K, Action<I, F, V>>, d: Doc<K, F, V>): (r: Doc<K, F, V>)
    requires AppliesTo(m, d)
    ensures forall k :: Some(EntityAt(r, k)) == After(m, d, k)
  {
    map k | k in d.Keys + m.Keys && After(m, d, k).value.Present? :: After(m, d, k).value.data
  }

  /** Stores the outcome of a merge under `k`: what push and shift do with a merge result. */
  function Store<K(!new), A>(m: map<K, A>, k: K, r: Merged<A>): map<K, A> {
    match r
    case Conflict => m
    case Cancelled => m - {k}
    case Result(x) => m[k := x]
  }

  function Lookup<K(!new), I, F, V>(m: map<K, Action<I, F, V>>, k: K): Option<Action<I, F, V>> {
    if k in m then Some(m[k]) else None
  }

  /** Merges a later change into the pending one under `k`. */
  function PushInto<K(!new), I, F, V>(m: map<K, Action<I, F, V>>, k: K, x: Action<I, F, V>): map<K, Action<I, F, V>> {
    Store(m, k, Merge(Lookup(m, k), Some(x)))
  }

  /** Merges an earlier change in front of the pending one under `k`. */
  function ShiftInto<K(!new), I, F, V>(m: map<K, Action<I, F, V>>, k: K, x: Action<I, F, V>): map<K, Action<I, F, V>> {
    Store(m, k, Merge(Some(x), Lookup(m, k)))
  }

  ghost predicate FullMap<K(!new), I, F(!new), V>(m: map<K, Action<I, F, V>>, all: set<F>) {
    forall k :: k in m ==> FullPayload(m[k], all)
  }

  ghost predicate DocWithin<K(!new), F(!new), V>(d: Doc<K, F, V>, all: set<F>) {
    forall k :: k in d ==> d[k].Keys <= all
  }

  lemma EntityWithin<K(!new), F(!new), V>(d: Doc<K, F, V>, k: K, all: set<F>)
    requires DocWithin(d, all)
    ensures Within(EntityAt(d, k), all)
  {
  }

  /**
    If `m` takes `d0` to `d1` and `x` applies to `d1`'s entity under `k`, then pushing `x` gives a
    map that takes `d0` straight to the result of applying `x` to `d1`.
   */
  lemma PushReplays<K(!new), I, F(!new), V>(m: map<K, Action<I, F, V>>, d0: Doc<K, F, V>, k: K, x: Action<I, F, V>, all: set<F>)
    requires AppliesTo(m, d0) && FullMap(m, all) && FullPayload(x, all) && DocWithin(d0, all)
    requires Apply(x, EntityAt(ApplyAll(m, d0), k)).Some?
    ensures AppliesTo(PushInto(m, k, x), d0)
    ensures ApplyAll(PushInto(m, k, x), d0)
         == SetEntity(ApplyAll(m, d0), k, Apply(x, EntityAt(ApplyAll(m, d0), k)).value)
  {
    var d1 := ApplyAll(m, d0);
    var e := Apply(x, EntityAt(d1, k)).value;
    var m' := PushInto(m, k, x);
    EntityWithin(d0, k, all);
    MergeRefinesSequence(Lookup(m, k), Some(x), EntityAt(d0, k), all);
    assert Then(Lookup(m, k), Some(x), EntityAt(d0, k)) == Some(e) by {
      assert ApplyChange(Lookup(m, k), EntityAt(d0, k)) == Some(EntityAt(d1, k));
    }
    assert After(m', d0, k) == Some(e);
    forall j | j in m'
      ensures Apply(m'[j], EntityAt(d0, j)).Some?
    {
      if j != k {
        assert After(m', d0, j) == After(m, d0, j);
      }
    }
    var want := SetEntity(d1, k, e);
    var got := ApplyAll(m', d0);
    forall j
      ensures EntityAt(got, j) == EntityAt(want, j)
    {
      if j != k {
        assert After(m', d0, j) == After(m, d0, j);
      }
    }
    DocExt(got, want);
  }

  /**
    If `x` takes `d0`'s entity under `k` to `e` and `m` applies to the resulting document, then
    shifting `x` in front gives a map that takes `d0` straight to where `m` takes that document.
   */
  lemma ShiftReplays<K(!new), I, F(!new), V>(m: map<K, Action<I, F, V>>, d0: Doc<K, F, V>, k: K, x: Action<I, F, V>, all: set<F>)
    requires FullMap(m, all) && FullPayload(x, all) && DocWithin(d0, all)
    requires Apply(x, EntityAt(d0, k)).Some?
    requires AppliesTo(m, SetEntity(d0, k, Apply(x, EntityAt(d0, k)).value))
    ensures AppliesTo(ShiftInto(m, k, x), d0)
    ensures ApplyAll(ShiftInto(m, k, x), d0) == ApplyAll(m, SetEntity(d0, k, Apply(x, EntityAt(d0, k)).value))
  {
    var e := Apply(x, EntityAt(d0, k)).value;
    var d1 := SetEntity(d0, k, e);
    var m' := ShiftInto(m, k, x);
    EntityWithin(d0, k, all);
    MergeRefinesSequence(Some(x), Lookup(m, k), EntityAt(d0, k), all);
    assert Then(Some(x), Lookup(m, k), EntityAt(d0, k)) == After(m, d1, k);
    assert After(m', d0, k) == After(m, d1, k);
    forall j | j in m'
      ensures Apply(m'[j], EntityAt(d0, j)).Some?
    {
      if j != k {
        assert After(m', d0, j) == After(m, d1, j);
      }
    }
    var want := ApplyAll(m, d1);
    var got := ApplyAll(m', d0);
    forall j
      ensures EntityAt(got, j) == EntityAt(want, j)
    {
      if j != k {
        assert After(m', d0, j) == After(m, d1, j);
      }
    }
    DocExt(got, want);
  }

  lemma DocExt<K(!new), F, V>(a: Doc<K, F, V>, b: Doc<K, F, V>)
    requires forall k :: EntityAt(a, k) == EntityAt(b, k)
    ensures a == b
  {
    forall k | k in a
      ensures k in b && a[k] == b[k]
    {
      assert EntityAt(a, k) == EntityAt(b, k);
    }
    forall k | k in b
      ensures k in a
    {
      assert EntityAt(a, k) == EntityAt(b, k);
    }
  }

  // ---------------------------------------------------------------------------------------------
  // A run of edits, as the history records it.

  /**
    One recorded edit of the entity under `key`: `forward` makes the change and `backward` undoes
    it.
   */
  datatype Event<K, I, F, V> = Event(key: K, backward: Action<I, F, V>, forward: Action<I, F, V>)

  /** `docs[i+1]` is `docs[i]` with events[i] done, and its backward change restores `docs[i]`. */
  ghost predicate Run<K(!new), I, F(!new), V>(events: seq<Event<K, I, F, V>>, docs: seq<Doc<K, F, V>>, all: set<F>) {
    && |docs| == |events| + 1
    && (forall i :: 0 <= i < |docs| ==> DocWithin(docs[i], all))
    && (forall i :: 0 <= i < |events| ==>
          && FullPayload(events[i].forward, all)
          && FullPayload(events[i].backward, all)
          && Apply(events[i].forward, EntityAt(docs[i], events[i].key)) == Some(EntityAt(docs[i + 1], events[i].key))
          && Apply(events[i].backward, EntityAt(docs[i + 1], events[i].key)) == Some(EntityAt(docs[i], events[i].key))
          && (forall j :: j != events[i].key ==> EntityAt(docs[i + 1], j) == EntityAt(docs[i], j)))
  }

  /** Pushes the forward change of each event, oldest first. */
  function PushAll<K(!new), I, F, V>(m: map<K, Action<I, F, V>>, events: seq<Event<K, I, F, V>>): map<K, Action<I, F, V>>
    decreases |events|
  {
    if events == [] then m
    else PushInto(PushAll(m, events[..|events| - 1]), events[|events| - 1].key, events[|events| - 1].forward)
  }

  /** Shifts the backward change of each event in front, oldest first. */
  function ShiftAll<K(!new), I, F, V>(m: map<K, Action<I, F, V>>, events: seq<Event<K, I, F, V>>): map<K, Action<I, F, V>>
    decreases |events|
  {
    if events == [] then m
    else ShiftInto(ShiftAll(m, events[..|events| - 1]), events[|events| - 1].key, events[|events| - 1].backward)
  }

  /** The forward changes accumulated by push take the first document to the last: redo. */
  lemma {:induction false} ForwardReplays<K(!new), I, F(!new), V>(events: seq<Event<K, I, F, V>>, docs: seq<Doc<K, F, V>>, all: set<F>)
    requires Run(events, docs, all)
    ensures FullMap(PushAll(map[], events), all)
    ensures AppliesTo(PushAll(map[], events), docs[0])
    ensures ApplyAll(PushAll(map[], events), docs[0]) == docs[|events|]
    decreases |events|
  {
    if events == [] {
      var empty: map<K, Action<I, F, V>> := map[];
      DocExt(ApplyAll(empty, docs[0]), docs[0]);
    } else {
      var n := |events| - 1;
      var ev := events[n];
      assert Run(events[..n], docs[..n + 1], all);
      ForwardReplays(events[..n], docs[..n + 1], all);
      var m := PushAll(map[], events[..n]);
      assert ApplyAll(m, docs[0]) == docs[n];
      assert Apply(ev.forward, EntityAt(docs[n], ev.key)) == Some(EntityAt(docs[n + 1], ev.key));
      PushReplays(m, docs[0], ev.key, ev.forward, all);
      DocExt(SetEntity(docs[n], ev.key, EntityAt(docs[n + 1], ev.key)), docs[n + 1]);
      MergePreservesFull(m, ev.key, Some(ev.forward), true, all);
    }
  }

  /** The backward changes accumulated by shift take the last document back to the first: undo. */
  lemma {:induction false} BackwardRestores<K(!new), I, F(!new), V>(events: seq<Event<K, I, F, V>>, docs: seq<Doc<K, F, V>>, all: set<F>)
    requires Run(events, docs, all)
    ensures FullMap(ShiftAll(map[], events), all)
    ensures AppliesTo(ShiftAll(map[], events), docs[|events|])
    ensures ApplyAll(ShiftAll(map[], events), docs[|events|]) == docs[0]
    decreases |events|
  {
    if events == [] {
      var empty: map<K, Action<I, F, V>> := map[];
      DocExt(ApplyAll(empty, docs[0]), docs[0]);
    } else {
      var n := |events| - 1;
      var ev := events[n];
      assert Run(events[..n], docs[..n + 1], all);
      BackwardRestores(events[..n], docs[..n + 1], all);
      var m := ShiftAll(map[], events[..n]);
      assert ApplyAll(m, docs[n]) == docs[0];
      DocExt(SetEntity(docs[n + 1], ev.key, EntityAt(docs[n], ev.key)), docs[n]);
      ShiftReplays(m, docs[n + 1], ev.key, ev.backward, all);
      MergePreservesFull(m, ev.key, Some(ev.backward), false, all);
    }
  }

  /** Merging changes whose Creates carry a full payload stores only such changes. */
  lemma MergePreservesFull<K(!new), I, F(!new), V>(m: map<K, Action<I, F, V>>, k: K, x: Option<Action<I, F, V>>, later: bool, all: set<F>)
    requires FullMap(m, all) && FullChange(x, all) && x.Some?
    ensures later ==> FullMap(PushInto(m, k, x.value), all)
    ensures !later ==> FullMap(ShiftInto(m, k, x.value), all)
  {
    var r := if later then Merge(Lookup(m, k), x) else Merge(x, Lookup(m, k));
    if r.Result? && r.action.Create? {
      assert r.action.fields.Keys == all;
    }
  }

  /**
    Overlaying `e` on `p` gives `q` when all three agree on their keys: `e`'s values are `q`'s,
    and `p` already holds `q`'s value under every key `e` leaves out.
   */
  lemma Overlay<F, V>(p: map<F, V>, e: map<F, V>, q: map<F, V>)
    requires p.Keys == q.Keys && e.Keys <= q.Keys
    requires forall f :: f in e ==> e[f] == q[f]
    requires forall f :: f in p && f !in e ==> p[f] == q[f]
    ensures p + e == q
  {
    var lhs := p + e;
    assert lhs.Keys == q.Keys;
    forall f | f in lhs
      ensures lhs[f] == q[f]
    {
      if f in e {
        assert lhs[f] == e[f];
      } else {
        assert lhs[f] == p[f];
      }
    }
  }
}
