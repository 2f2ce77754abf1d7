/**
  A typed event listener: an ordered list of (listener, receiver) pairs. A pair removed while the
  list is being emitted is only queued, by its index, and taken out once every listener has run.
 */
module EventListeners {

  /** The identity of one registration: the callback together with the `this` it is called on. */
  datatype Context<L, T> = Context(listener: L, self: T)

  /** The list, the queued indices and whether an emit is under way. */
  datatype ListenerState<C> = ListenerState(listeners: seq<C>, pending: seq<nat>, emitting: bool)

  /**
    A call a listener makes back into the list while it is being emitted; `CallTransferIn` is
    another list's transfer into this one, handing over the pairs `cs`.
   */
  datatype Reentry<C> = CallListen(c: C) | CallRemove(c: C) | CallClear | CallTransferIn(cs: seq<C>)

  predicate NoDuplicates<C(==)>(s: seq<C>)
  {
    forall i, j :: 0 <= i < j < |s| ==> s[i] != s[j]
  }

  /** findIndex: the first position holding `c`, or -1. */
  function IndexOf<C(==)>(s: seq<C>, c: C): (r: int)
    ensures -1 <= r < |s|
    ensures r == -1 <==> c !in s
    ensures r >= 0 ==> s[r] == c && c !in s[..r]
  {
    if |s| == 0 then -1
    else if s[0] == c then 0
    else
      var k := IndexOf(s[1..], c);
      if k < 0 then -1
      else
        assert s[..k + 1] == [s[0]] + s[1..][..k];
        k + 1
  }

  /** splice(i, 1): removes position `i`; an index past the end removes nothing. */
  function SpliceOne<C(==)>(s: seq<C>, i: nat): (r: seq<C>)
    ensures i < |s| ==> |r| == |s| - 1 && r[..i] == s[..i] && r[i..] == s[i + 1..]
    ensures i >= |s| ==> r == s
  {
    if i < |s| then s[..i] + s[i + 1..] else s
  }

  /** The splices of `idx`, one after the other, in the order given. */
  function SpliceAll<C(==)>(s: seq<C>, idx: seq<nat>): seq<C>
  {
    if |idx| == 0 then s else SpliceAll(SpliceOne(s, idx[0]), idx[1..])
  }

  /** `s` without the positions in `d`: the reference meaning of a batch of removals. */
  function Without<C(==)>(s: seq<C>, d: set<nat>): (r: seq<C>)
    ensures |r| <= |s|
  {
    if |s| == 0 then []
    else Without(s[..|s| - 1], d) + (if |s| - 1 in d then [] else [s[|s| - 1]])
  }

  function Elements(s: seq<nat>): set<nat>
  {
    set i | 0 <= i < |s| :: s[i]
  }

  predicate Descending(s: seq<nat>)
  {
    forall i, j :: 0 <= i < j < |s| ==> s[i] >= s[j]
  }

  /** Descending with no index twice. */
  predicate Strict(s: seq<nat>)
  {
    forall i, j :: 0 <= i < j < |s| ==> s[i] > s[j]
  }

  function Insert(x: nat, s: seq<nat>): (r: seq<nat>)
    requires Descending(s)
    ensures Descending(r) && multiset(r) == multiset(s) + multiset{x}
    ensures |r| == |s| + 1 && r[0] == (if |s| == 0 || x >= s[0] then x else s[0])
  {
    if |s| == 0 || x >= s[0] then [x] + s
    else
      assert s == [s[0]] + s[1..];
      var rest := Insert(x, s[1..]);
      assert rest[0] <= s[0];
      var r := [s[0]] + rest;
      assert Descending(r) by {
        forall i, j | 0 <= i < j < |r|
          ensures r[i] >= r[j]
        {
          if i == 0 {
            assert r[j] == rest[j - 1] <= rest[0];
          } else {
            assert r[i] == rest[i - 1] && r[j] == rest[j - 1];
          }
        }
      }
      r
  }

  /** sort((a, b) => b - a): the queued indices, largest first. */
  function SortDescending(s: seq<nat>): (r: seq<nat>)
    ensures Descending(r) && multiset(r) == multiset(s)
  {
    if |s| == 0 then []
    else
      assert s == [s[0]] + s[1..];
      Insert(s[0], SortDescending(s[1..]))
  }

  /** The indices a corrected list keeps queued: each a position of the list, none twice. */
  predicate PendingValid<C(==)>(st: ListenerState<C>)
  {
    && (forall i :: 0 <= i < |st.pending| ==> st.pending[i] < |st.listeners|)
    && NoDuplicates(st.pending)
    && (!st.emitting ==> st.pending == [])
  }

  function Fresh<C(==)>(): (r: ListenerState<C>)
    ensures PendingValid(r) && r.listeners == []
  {
    ListenerState([], [], false)
  }

  /** listen: appends the pair unless it is already registered. */
  function Listened<C(==)>(st: ListenerState<C>, c: C): (r: ListenerState<C>)
    ensures c in r.listeners
    ensures r.pending == st.pending && r.emitting == st.emitting
    ensures c in st.listeners ==> r == st
    ensures c !in st.listeners ==> r.listeners == st.listeners + [c]
  {
    if c in st.listeners then st else st.(listeners := st.listeners + [c])
  }

  /**
    remove: `false` when the pair is not registered. Otherwise it is spliced out at once, or,
    during an emit, its index is queued; an index that is already queued is not queued again.
   */
  function Removed<C(==)>(st: ListenerState<C>, c: C): (r: (ListenerState<C>, bool))
  {
    var i := IndexOf(st.listeners, c);
    if i == -1 then (st, false)
    else if st.emitting then
      (if i in st.pending then st else st.(pending := st.pending + [i]), true)
    else (st.(listeners := SpliceOne(st.listeners, i)), true)
  }

  /** The indices from `hi - 1` down to `lo`, except those already in `have`. */
  function Down(hi: nat, lo: nat, have: seq<nat>): (r: seq<nat>)
    ensures forall k :: 0 <= k < |r| ==> lo <= r[k] < hi && r[k] !in have
    ensures forall i :: lo <= i < hi && i !in have ==> i in r
    ensures NoDuplicates(r)
    decreases hi - lo
  {
    if lo >= hi then []
    else Down(hi, lo + 1, have) + (if lo in have then [] else [lo])
  }

  /** Queueing index `lo` extends the countdown from `lo + 1`; `lo` is queued already only if `have` holds it. */
  lemma QueueStep(have: seq<nat>, hi: nat, lo: nat)
    requires lo < hi
    ensures lo in have + Down(hi, lo + 1, have) <==> lo in have
    ensures have + Down(hi, lo, have) == have + Down(hi, lo + 1, have) + (if lo in have then [] else [lo])
  {
  }

  /** All indices below `n`, from `n - 1` down to 0, except those already in `have`. */
  function Countdown(n: nat, have: seq<nat>): seq<nat>
  {
    Down(n, 0, have)
  }

  /** clear: empties the list, or, during an emit, queues every position of it. */
  function Cleared<C(==)>(st: ListenerState<C>): (r: ListenerState<C>)
  {
    if st.emitting then st.(pending := st.pending + Countdown(|st.listeners|, st.pending))
    else st.(listeners := [])
  }

  /** The calls the listeners make while they run, in order. */
  function Reentered<C(==)>(st: ListenerState<C>, calls: seq<Reentry<C>>): ListenerState<C>
    decreases |calls|
  {
    if |calls| == 0 then st
    else
      var next := match calls[0]
        case CallListen(c) => Listened(st, c)
        case CallRemove(c) => Removed(st, c).0
        case CallClear => Cleared(st)
        case CallTransferIn(cs) => TransferredTo(ListenerState(cs, [], false), st);
      Reentered(next, calls[1..])
  }

  /** The end of emit: the queued indices are spliced out, largest first, and the queue emptied. */
  function Finished<C(==)>(st: ListenerState<C>): ListenerState<C>
  {
    if |st.pending| == 0 then st.(emitting := false)
    else ListenerState(SpliceAll(st.listeners, SortDescending(st.pending)), [], false)
  }

  /** emit, with the listeners making the calls `calls` while they run. */
  function Emitted<C(==)>(st: ListenerState<C>, calls: seq<Reentry<C>>): ListenerState<C>
  {
    Finished(Reentered(st.(emitting := true), calls))
  }

  /** transfer to another list: the destination receives every pair, in order. */
  function TransferredTo<C(==)>(src: ListenerState<C>, dst: ListenerState<C>): (r: ListenerState<C>)
    ensures |r.listeners| == |dst.listeners| + |src.listeners|
  {
    dst.(listeners := dst.listeners + src.listeners)
  }

  function HasListener<C(==)>(st: ListenerState<C>): bool
  {
    |st.listeners| > 0
  }

  // ---------------------------------------------------------------------------------------------
  // Properties of the operations

  /** listen never introduces a duplicate registration. */
  lemma ListenKeepsNoDuplicates<C>(st: ListenerState<C>, c: C)
    requires NoDuplicates(st.listeners)
    ensures NoDuplicates(Listened(st, c).listeners)
    ensures HasListener(Listened(st, c))
  {
    if c !in st.listeners {
      var s := st.listeners + [c];
      forall i, j | 0 <= i < j < |s|
        ensures s[i] != s[j]
      {
        if j == |s| - 1 {
          assert s[i] in st.listeners;
        }
      }
    }
  }

  /** remove answers whether the pair was registered; outside an emit it is then gone at once. */
  lemma RemoveOutsideEmit<C>(st: ListenerState<C>, c: C)
    requires !st.emitting && NoDuplicates(st.listeners)
    ensures Removed(st, c).1 <==> c in st.listeners
    ensures c !in Removed(st, c).0.listeners
    ensures c in st.listeners ==>
      Removed(st, c).0.listeners == Without(st.listeners, {IndexOf(st.listeners, c) as nat})
  {
    var s := st.listeners;
    var i := IndexOf(s, c);
    if i >= 0 {
      assert Removed(st, c).0.listeners == SpliceOne(s, i);
      SpliceDropsOnly(s, i);
      WithoutSplice(s, i, {});
      WithoutEmpty(SpliceOne(s, i));
      assert {} + {i as nat} == {i as nat};
    }
  }

  /** Splicing out the one occurrence of a value leaves no occurrence of it. */
  lemma SpliceDropsOnly<C>(s: seq<C>, i: nat)
    requires NoDuplicates(s) && i < |s|
    ensures s[i] !in SpliceOne(s, i)
  {
    var r := SpliceOne(s, i);
    forall k | 0 <= k < |r|
      ensures r[k] != s[i]
    {
      if k < i {
        assert r[k] == s[k];
      } else {
        assert r[k] == s[k + 1];
      }
    }
  }

  /** Taking out positions of a list that are all at or past its end changes nothing. */
  lemma {:induction false} WithoutPastEnd<C>(s: seq<C>, d: set<nat>, e: set<nat>)
    requires forall x :: x in e ==> x >= |s|
    ensures Without(s, d + e) == Without(s, d)
    decreases |s|
  {
    if |s| > 0 {
      WithoutPastEnd(s[..|s| - 1], d, e);
    }
  }

  lemma WithoutNone<C>(s: seq<C>, e: set<nat>)
    requires forall x :: x in e ==> x >= |s|
    ensures Without(s, e) == s
  {
    WithoutEmpty(s);
    WithoutPastEnd(s, {}, e);
    assert {} + e == e;
  }

  lemma {:induction false} WithoutEmpty<C>(s: seq<C>)
    ensures Without(s, {}) == s
    decreases |s|
  {
    if |s| > 0 {
      WithoutEmpty(s[..|s| - 1]);
      assert s[..|s| - 1] + [s[|s| - 1]] == s;
    }
  }

  /** Positions that all lie in a prefix leave what follows it untouched. */
  lemma {:induction false} WithoutAppend<C>(a: seq<C>, b: seq<C>, d: set<nat>)
    requires forall x :: x in d ==> x < |a|
    ensures Without(a + b, d) == Without(a, d) + b
    decreases |b|
  {
    if |b| > 0 {
      var b' := b[..|b| - 1];
      assert (a + b)[..|a + b| - 1] == a + b';
      WithoutAppend(a, b', d);
      assert b' + [b[|b| - 1]] == b;
    } else {
      assert a + b == a;
    }
  }

  /**
    Deferred removal is sound: splicing out distinct indices, largest first, removes exactly those
    positions of the list, whatever the others hold.
   */
  lemma {:induction false} SpliceMatchesWithout<C>(s: seq<C>, idx: seq<nat>)
    requires Strict(idx)
    requires forall k :: 0 <= k < |idx| ==> idx[k] < |s|
    ensures SpliceAll(s, idx) == Without(s, Elements(idx))
    decreases |idx|
  {
    if |idx| == 0 {
      WithoutEmpty(s);
      assert Elements(idx) == {};
    } else {
      var i := idx[0];
      var rest := idx[1..];
      assert Strict(rest) by {
        forall p, q | 0 <= p < q < |rest|
          ensures rest[p] > rest[q]
        {
          assert idx[p + 1] > idx[q + 1];
        }
      }
      assert forall x :: x in Elements(rest) ==> x < i by {
        forall x | x in Elements(rest)
          ensures x < i
        {
          var k :| 0 <= k < |rest| && rest[k] == x;
          assert idx[0] > idx[k + 1];
        }
      }
      SpliceMatchesWithout(SpliceOne(s, i), rest);
      assert Elements(idx) == Elements(rest) + {i} by {
        forall x | x in Elements(idx)
          ensures x in Elements(rest) + {i}
        {
          var k :| 0 <= k < |idx| && idx[k] == x;
          if k > 0 {
            assert rest[k - 1] == x;
          }
        }
      }
      WithoutSplice(s, i, Elements(rest));
    }
  }

  /** Splicing out one position after all the others to take out is taking it out with them. */
  lemma WithoutSplice<C>(s: seq<C>, i: nat, r: set<nat>)
    requires i < |s| && forall x :: x in r ==> x < i
    ensures Without(SpliceOne(s, i), r) == Without(s, r + {i})
  {
    // Left side: the positions in `r` all fall before the spliced one.
    assert SpliceOne(s, i) == s[..i] + s[i + 1..];
    WithoutAppend(s[..i], s[i + 1..], r);
    // Right side: position `i` is the last of `s[..i + 1]`.
    assert s == s[..i + 1] + s[i + 1..];
    WithoutAppend(s[..i + 1], s[i + 1..], r + {i});
    assert s[..i + 1][..i] == s[..i];
    WithoutPastEnd(s[..i], r, {i});
  }

  /** Sorting keeps the queued indices, and indices queued once each come out strictly descending. */
  lemma SortedDistinct(s: seq<nat>)
    requires NoDuplicates(s)
    ensures Strict(SortDescending(s)) && Elements(SortDescending(s)) == Elements(s)
  {
    SortStrict(s);
    var r := SortDescending(s);
    forall x
      ensures x in Elements(r) <==> x in Elements(s)
    {
      assert x in Elements(r) <==> x in multiset(r) by {
        if x in multiset(r) {
          var k :| 0 <= k < |r| && r[k] == x;
        }
      }
      assert x in Elements(s) <==> x in multiset(s) by {
        if x in multiset(s) {
          var k :| 0 <= k < |s| && s[k] == x;
        }
      }
    }
  }

  lemma {:induction false} SortStrict(s: seq<nat>)
    requires NoDuplicates(s)
    ensures Strict(SortDescending(s))
    decreases |s|
  {
    if |s| > 0 {
      assert NoDuplicates(s[1..]) by {
        forall p, q | 0 <= p < q < |s| - 1
          ensures s[1..][p] != s[1..][q]
        {
          assert s[p + 1] != s[q + 1];
        }
      }
      SortStrict(s[1..]);
      assert s[0] !in multiset(s[1..]);
      InsertStrict(s[0], SortDescending(s[1..]));
    }
  }

  lemma {:induction false} InsertStrict(x: nat, s: seq<nat>)
    requires Descending(s) && Strict(s) && x !in s
    ensures Strict(Insert(x, s))
    decreases |s|
  {
    if |s| > 0 && x < s[0] {
      TailStrict(s);
      InsertStrict(x, s[1..]);
      var rest := Insert(x, s[1..]);
      assert rest[0] < s[0] by {
        if |s| > 1 {
          assert s[0] > s[1];
        }
      }
      ConsStrict(s[0], rest);
    } else {
      ConsStrict(x, s);
    }
  }

  lemma TailStrict(s: seq<nat>)
    requires Strict(s) && |s| > 0
    ensures Strict(s[1..]) && Descending(s[1..])
  {
    forall p, q | 0 <= p < q < |s| - 1
      ensures s[1..][p] > s[1..][q]
    {
      assert s[p + 1] > s[q + 1];
    }
  }

  lemma ConsStrict(h: nat, rest: seq<nat>)
    requires Strict(rest) && (|rest| > 0 ==> rest[0] < h)
    ensures Strict([h] + rest)
  {
    var r := [h] + rest;
    forall i, j | 0 <= i < j < |r|
      ensures r[i] > r[j]
    {
      if i == 0 {
        assert r[j] == rest[j - 1] <= rest[0];
      } else {
        assert r[i] == rest[i - 1] && r[j] == rest[j - 1];
      }
    }
  }

  /** Every emit ends outside emitting with an empty queue, the queued positions removed. */
  lemma FinishRemovesPending<C>(st: ListenerState<C>)
    requires PendingValid(st)
    ensures !Finished(st).emitting && Finished(st).pending == []
    ensures Finished(st).listeners == Without(st.listeners, Elements(st.pending))
  {
    var p := st.pending;
    if |p| == 0 {
      WithoutEmpty(st.listeners);
      assert Elements(p) == {};
    } else {
      SortedDistinct(p);
      var q := SortDescending(p);
      forall k | 0 <= k < |q|
        ensures q[k] < |st.listeners|
      {
        assert q[k] in multiset(p);
      }
      SpliceMatchesWithout(st.listeners, q);
    }
  }

  /** The calls a listener makes during an emit keep the queue valid. */
  /** clear keeps the queue valid. */
  lemma ClearedValid<C>(st: ListenerState<C>)
    requires PendingValid(st)
    ensures PendingValid(Cleared(st)) && Cleared(st).emitting == st.emitting
    ensures st.emitting ==> Cleared(st).listeners == st.listeners
  {
    if st.emitting {
      var p := st.pending + Countdown(|st.listeners|, st.pending);
      var cd := Countdown(|st.listeners|, st.pending);
      forall a, b | 0 <= a < b < |p|
        ensures p[a] != p[b]
      {
        if a >= |st.pending| {
          assert p[a] == cd[a - |st.pending|] && p[b] == cd[b - |st.pending|];
        } else if b >= |st.pending| {
          assert p[b] == cd[b - |st.pending|];
          assert p[a] in st.pending;
        }
      }
    }
  }

  lemma {:induction false} ReenteredValid<C>(st: ListenerState<C>, calls: seq<Reentry<C>>)
    requires PendingValid(st) && st.emitting
    ensures PendingValid(Reentered(st, calls)) && Reentered(st, calls).emitting
    ensures st.listeners <= Reentered(st, calls).listeners
    decreases |calls|
  {
    if |calls| > 0 {
      var next := match calls[0]
        case CallListen(c) => Listened(st, c)
        case CallRemove(c) => Removed(st, c).0
        case CallClear => Cleared(st)
        case CallTransferIn(cs) => TransferredTo(ListenerState(cs, [], false), st);
      assert PendingValid(next) && next.emitting && st.listeners <= next.listeners by {
        match calls[0]
        case CallListen(c) =>
        case CallRemove(c) =>
          var i := IndexOf(st.listeners, c);
          if i >= 0 && i !in st.pending {
            var p := st.pending + [i];
            forall a, b | 0 <= a < b < |p|
              ensures p[a] != p[b]
            {
              if b == |p| - 1 {
                assert p[a] in st.pending;
              }
            }
          }
        case CallClear =>
          ClearedValid(st);
        case CallTransferIn(cs) =>
      }
      ReenteredValid(next, calls[1..]);
    }
  }

  /**
    emit invokes the listeners in registration order, those registered by the listeners included,
    and afterwards every registration removed during it is gone and every other one kept.
   */
  lemma EmitOutcome<C>(st: ListenerState<C>, calls: seq<Reentry<C>>)
    requires PendingValid(st) && !st.emitting
    ensures var during := Reentered(st.(emitting := true), calls);
      && st.listeners <= during.listeners
      && Emitted(st, calls) == ListenerState(Without(during.listeners, Elements(during.pending)), [], false)
  {
    ReenteredValid(st.(emitting := true), calls);
    FinishRemovesPending(Reentered(st.(emitting := true), calls));
  }

  /** A removal during an emit has, once the emit is over, the effect of an immediate one. */
  lemma DeferredRemoveMatchesImmediate<C>(st: ListenerState<C>, c: C)
    requires PendingValid(st) && !st.emitting
    ensures Emitted(st, [CallRemove(c)]).listeners == Removed(st, c).0.listeners
    ensures Emitted(st, [CallRemove(c)]).pending == [] && !Emitted(st, [CallRemove(c)]).emitting
  {
    var e := st.(emitting := true);
    assert Reentered(e, [CallRemove(c)]) == Reentered(Removed(e, c).0, []);
    var i := IndexOf(st.listeners, c);
    if i >= 0 {
      assert Removed(e, c).0 == e.(pending := [i as nat]);
      assert SortDescending([i as nat]) == Insert(i as nat, []) == [i as nat];
      assert SpliceAll(st.listeners, [i as nat]) == SpliceAll(SpliceOne(st.listeners, i as nat), []);
    }
  }

  /** Removing the same pair twice during an emit takes out that pair and no other. */
  lemma RemoveTwiceDuringEmit<C>(st: ListenerState<C>, c: C)
    requires PendingValid(st) && !st.emitting
    ensures Emitted(st, [CallRemove(c), CallRemove(c)]).listeners == Removed(st, c).0.listeners
  {
    var e := st.(emitting := true);
    var once := Removed(e, c).0;
    assert Removed(once, c).0 == once;
    assert Reentered(e, [CallRemove(c), CallRemove(c)]) == Reentered(e, [CallRemove(c)]) by {
      assert [CallRemove(c), CallRemove(c)][1..] == [CallRemove(c)];
    }
    DeferredRemoveMatchesImmediate(st, c);
  }

  /** clear during an emit leaves no listener once the emit is over. */
  lemma ClearDuringEmit<C>(st: ListenerState<C>)
    requires PendingValid(st) && !st.emitting
    ensures Emitted(st, [CallClear]).listeners == []
  {
    var e := st.(emitting := true);
    var d := Cleared(e);
    assert Reentered(e, [CallClear]) == Reentered(d, []);
    EmitOutcome(st, [CallClear]);
    assert d.pending == Countdown(|d.listeners|, []);
    forall i | 0 <= i < |d.listeners|
      ensures i in Elements(d.pending)
    {
      assert i in d.pending;
      var k :| 0 <= k < |d.pending| && d.pending[k] == i;
    }
    AllPositions(d.listeners, Elements(d.pending));
  }

  lemma {:induction false} AllPositions<C>(s: seq<C>, d: set<nat>)
    requires forall i :: 0 <= i < |s| ==> i in d
    ensures Without(s, d) == []
    decreases |s|
  {
    if |s| > 0 {
      AllPositions(s[..|s| - 1], d);
    }
  }

  /** A pair registered by a listener after clear in the same emit stays registered. */
  lemma ListenAfterClearDuringEmit<C>(c: C, x: C)
    requires c != x
    ensures Emitted(ListenerState([c], [], false), [CallClear, CallListen(x)]).listeners == [x]
  {
    var e := ListenerState([c], [], true);
    assert Countdown(1, []) == [0];
    var d := Cleared(e);
    assert d == ListenerState([c], [0], true);
    assert Reentered(e, [CallClear, CallListen(x)]) == Reentered(d, [CallListen(x)]);
    assert Reentered(d, [CallListen(x)]) == ListenerState([c, x], [0], true);
    assert SortDescending([0]) == Insert(0, []) == [0];
    assert SpliceAll([c, x], [0]) == SpliceAll([x], []);
  }

  /** transfer hands every pair over and leaves the source without listeners. */
  lemma TransferMovesAll<C>(src: ListenerState<C>, dst: ListenerState<C>)
    ensures TransferredTo(src, dst).listeners[..|dst.listeners|] == dst.listeners
    ensures TransferredTo(src, dst).listeners[|dst.listeners|..] == src.listeners
    ensures HasListener(TransferredTo(src, dst)) <==> HasListener(src) || HasListener(dst)
  {
    var r := TransferredTo(src, dst).listeners;
    assert r == dst.listeners + src.listeners;
  }

  // ---------------------------------------------------------------------------------------------
  // The list as written, where remove and clear may queue an index twice or past the end

  /** remove as written: during an emit the index is queued whether or not it already is. */
  function RemovedAsWritten<C(==)>(st: ListenerState<C>, c: C): (r: (ListenerState<C>, bool))
    ensures r.1 <==> c in st.listeners
  {
    var i := IndexOf(st.listeners, c);
    if i == -1 then (st, false)
    else if st.emitting then (st.(pending := st.pending + [i]), true)
    else (st.(listeners := SpliceOne(st.listeners, i)), true)
  }

  /** All indices from `n` down to 0, `n` itself included. */
  function CountdownFrom(n: nat): (r: seq<nat>)
    ensures |r| == n + 1 && r[0] == n
  {
    if n == 0 then [0] else [n] + CountdownFrom(n - 1)
  }

  /** clear as written: during an emit the loop starts at `length`, one past the last position. */
  function ClearedAsWritten<C(==)>(st: ListenerState<C>): (r: ListenerState<C>)
    ensures st.emitting ==> |r.pending| == |st.pending| + |st.listeners| + 1
  {
    if st.emitting then st.(pending := st.pending + CountdownFrom(|st.listeners|))
    else st.(listeners := [])
  }

  /** Two listeners; the first removes itself twice while they run, and the second goes too. */
  lemma DoubleRemoveDropsNeighbour<C>(a: C, b: C)
    requires a != b
    ensures var st := RemovedAsWritten(RemovedAsWritten(ListenerState([a, b], [], true), a).0, a).0;
      Finished(st).listeners == []
  {
    var st0 := ListenerState([a, b], [], true);
    var st1 := RemovedAsWritten(st0, a).0;
    assert st1 == ListenerState([a, b], [0], true);
    var st2 := RemovedAsWritten(st1, a).0;
    assert st2 == ListenerState([a, b], [0, 0], true);
    SortTwoIndices(0, 0);
    assert Finished(st2).listeners == SpliceAll([a, b], [0, 0]);
    SpliceTwice(a, b, [0, 0]);
  }

  /** The sort of two indices, the larger one first. */
  lemma SortTwoIndices(i: nat, j: nat)
    requires i >= j
    ensures SortDescending([i, j]) == [i, j]
  {
    assert [i, j][1..] == [j];
    assert SortDescending([j]) == Insert(j, []) == [j];
    assert Insert(i, [j]) == [i, j];
  }

  /** Two splices of a two-element list, the second at 0, leave nothing. */
  lemma SpliceTwice<C>(a: C, b: C, idx: seq<nat>)
    requires idx == [0, 0] || idx == [1, 0]
    ensures SpliceAll([a, b], idx) == []
  {
    var first := SpliceOne([a, b], idx[0]);
    assert |first| == 1;
    assert idx[1..] == [0];
    assert SpliceAll(first, [0]) == SpliceAll(SpliceOne(first, 0), []);
  }

  /** One listener clears the list and registers another; the new one is dropped as well. */
  lemma ClearThenListenDropsNewcomer<C>(c: C, x: C)
    requires c != x
    ensures var st := Listened(ClearedAsWritten(ListenerState([c], [], true)), x);
      Finished(st).listeners == []
  {
    var st1 := ClearedAsWritten(ListenerState([c], [], true));
    assert CountdownFrom(1) == [1, 0];
    assert st1 == ListenerState([c], [1, 0], true);
    var st2 := Listened(st1, x);
    assert st2 == ListenerState([c, x], [1, 0], true);
    SortTwoIndices(1, 0);
    assert Finished(st2).listeners == SpliceAll([c, x], [1, 0]);
    SpliceTwice(c, x, [1, 0]);
  }

  // ---------------------------------------------------------------------------------------------
  // The list itself

  class TypedEventListener<C(==)> {
    var listeners: seq<C>
    var pending: seq<nat>
    var emitting: bool

    function State(): ListenerState<C>
      reads this
    {
      ListenerState(listeners, pending, emitting)
    }

    ghost predicate Valid()
      reads this
    {
      PendingValid(State())
    }

    constructor()
      ensures Valid() && State() == Fresh()
    {
      listeners := [];
      pending := [];
      emitting := false;
    }

    method Listen(c: C)
      requires Valid()
      modifies this
      ensures Valid() && State() == Listened(old(State()), c)
    {
      var index := IndexOf(listeners, c);
      if index >= 0 {
        return;
      }
      listeners := listeners + [c];
    }

    method Remove(c: C) returns (found: bool)
      requires Valid()
      modifies this
      ensures Valid() && (State(), found) == Removed(old(State()), c)
    {
      var index := IndexOf(listeners, c);
      if index == -1 {
        return false;
      }
      if emitting {
        if index !in pending {
          pending := pending + [index];
          ReenteredValid(old(State()), [CallRemove(c)]);
          assert Reentered(old(State()), [CallRemove(c)]) == Reentered(State(), []);
        }
      } else {
        listeners := listeners[..index] + listeners[index + 1..];
      }
      return true;
    }

    method Clear()
      requires Valid()
      modifies this
      ensures Valid() && State() == Cleared(old(State()))
    {
      if emitting {
        QueueAll();
        ClearedValid(old(State()));
      } else {
        listeners := [];
      }
    }

    /** clear during an emit: every position not yet queued is queued, from the last one down. */
    method QueueAll()
      requires emitting
      modifies this`pending
      ensures pending == old(pending) + Countdown(|listeners|, old(pending))
    {
      var i := |listeners| - 1;
      while i >= 0
        invariant -1 <= i < |listeners|
        invariant pending == old(pending) + Down(|listeners|, i + 1, old(pending))
      {
        QueueStep(old(pending), |listeners|, i);
        if i !in pending {
          assert i !in old(pending);
          pending := pending + [i];
        } else {
          assert i in old(pending);
        }
        i := i - 1;
      }
    }

    /**
      emit; `calls` are the calls the listeners make back into this list while they run, and
      `invoked` the listeners run, in order.
     */
    method Emit(calls: seq<Reentry<C>>) returns (invoked: seq<C>)
      requires Valid() && !emitting
      modifies this
      ensures Valid() && !emitting
      ensures State() == Emitted(old(State()), calls)
      ensures invoked == Reentered(old(State()).(emitting := true), calls).listeners
      ensures old(listeners) <= invoked
    {
      emitting := true;
      RunListeners(calls);
      invoked := listeners;
      FlushPending();
    }

    /** The listeners run, making the calls `calls` back into this list. */
    method RunListeners(calls: seq<Reentry<C>>)
      requires Valid() && emitting
      modifies this
      ensures Valid() && emitting
      ensures State() == Reentered(old(State()), calls)
      ensures old(listeners) <= listeners
    {
      for n := 0 to |calls|
        invariant State() == Reentered(old(State()), calls[..n])
        invariant Valid() && emitting
      {
        ReenteredSnoc(old(State()), calls[..n], calls[n]);
        assert calls[..n + 1] == calls[..n] + [calls[n]];
        match calls[n]
        case CallListen(c) => Listen(c);
        case CallRemove(c) => var _ := Remove(c);
        case CallClear => Clear();
        case CallTransferIn(cs) =>
          var other := new TypedEventListener();
          other.listeners := cs;
          other.Transfer(this);
      }
      assert calls[..|calls|] == calls;
      ReenteredValid(old(State()), calls);
    }

    /** The end of emit: the queued indices are spliced out, largest first. */
    method FlushPending()
      requires Valid() && emitting
      modifies this
      ensures Valid() && !emitting
      ensures State() == Finished(old(State()))
    {
      emitting := false;
      if |pending| == 0 {
        return;
      }
      var order := SortDescending(pending);
      pending := [];
      listeners := SpliceEach(listeners, order);
    }

    /** transfer: every pair moves, in order, to the end of `dst`'s list. */
    method Transfer(dst: TypedEventListener<C>)
      requires Valid() && dst.Valid()
      modifies this, dst
      ensures dst.Valid()
      ensures dst != this ==> dst.State() == TransferredTo(old(State()), old(dst.State()))
      ensures dst != this ==> State() == old(State()).(listeners := [])
      ensures dst != this ==> (Valid() <==> old(pending) == [])
      ensures dst == this ==> State() == old(State())
    {
      var moved := listeners;
      listeners := [];
      dst.listeners := dst.listeners + moved;
      if dst != this && pending != [] {
        // A queued index now points past the emptied list.
        assert pending[0] >= |listeners|;
      }
    }

    function HasAny(): (r: bool)
      reads this
      ensures r <==> listeners != []
    {
      |listeners| > 0
    }
  }

  /** The splice loop of emit, one queued index after the other. */
  method SpliceEach<C>(s: seq<C>, order: seq<nat>) returns (r: seq<C>)
    ensures r == SpliceAll(s, order)
  {
    r := s;
    for k := 0 to |order|
      invariant r == SpliceAll(s, order[..k])
    {
      SpliceAllSnoc(s, order[..k], order[k]);
      assert order[..k + 1] == order[..k] + [order[k]];
      if order[k] < |r| {
        r := r[..order[k]] + r[order[k] + 1..];
      }
    }
    assert order[..|order|] == order;
  }

  lemma ReenteredSnoc<C>(st: ListenerState<C>, calls: seq<Reentry<C>>, call: Reentry<C>)
    ensures Reentered(st, calls + [call]) == Reentered(Reentered(st, calls), [call])
    decreases |calls|
  {
    if |calls| > 0 {
      assert (calls + [call])[1..] == calls[1..] + [call];
    } else {
      assert calls + [call] == [call];
    }
  }

  lemma SpliceAllSnoc<C>(s: seq<C>, idx: seq<nat>, i: nat)
    ensures SpliceAll(s, idx + [i]) == SpliceOne(SpliceAll(s, idx), i)
    decreases |idx|
  {
    if |idx| > 0 {
      assert (idx + [i])[1..] == idx[1..] + [i];
    } else {
      assert idx + [i] == [i];
    }
  }
}
