/**
  The settings store (src/utils/Settings.ts): a nested dictionary read and written by keys that
  name a path into it. A key's group is a path prefix, and a key carries a default that `get`
  stores the first time the value is missing. The dictionary is a value here, and the walk down
  the path keeps the objects it passes so that the new dictionary can be rebuilt from the leaf up.
 */
module SettingsStore {
  import opened Wrappers

  /** A stored value: an object of named children, or any other value (`null`, a number, ...). */
  datatype Data<V> = Obj(fields: map<string, Data<V>>) | Leaf(v: V)

  type Dict<V> = map<string, Data<V>>

  /** A key: the path of names and the thunk giving its default. */
  datatype Key<V> = Key(names: seq<string>, default: () -> Data<V>)

  /** The default given to a key: a value, or a function computing it. */
  datatype Default<V> = Value(v: Data<V>) | Thunk(f: () -> Data<V>)

  /** The Key constructor: a value default is wrapped into a constant thunk. */
  function MakeKey<V>(d: Default<V>, names: seq<string>): (k: Key<V>)
    ensures k.names == names
    ensures d.Value? ==> k.default() == d.v
    ensures d.Thunk? ==> k.default == d.f
  {
    Key(names, match d case Value(v) => () => v case Thunk(f) => f)
  }

  /** A group of keys: the common prefix of their paths. */
  datatype KeyGroup = KeyGroup(names: seq<string>)
  {
    /** subGroup: one name further down. */
    function SubGroup(name: string): (g: KeyGroup)
      ensures |g.names| == |names| + 1 && g.names[..|names|] == names && g.names[|names|] == name
    {
      KeyGroup(names + [name])
    }

    /** key: a key one name further down, with the given default. */
    function MakeKeyIn<V>(name: string, d: Default<V>): (k: Key<V>)
      ensures k.names == SubGroup(name).names
      ensures d.Value? ==> k.default() == d.v
    {
      MakeKey(d, names + [name])
    }
  }

  /**
    The names a key's walk visits. A key without names reads `names[0]`, which is `undefined`,
    and so uses the property named "undefined".
   */
  function PathOf<V>(k: Key<V>): (p: seq<string>)
    ensures |p| > 0
    ensures |k.names| > 0 ==> p == k.names
  {
    if |k.names| == 0 then ["undefined"] else k.names
  }

  /** The object the walk moves to: an existing object, or a new empty one when absent. */
  function Child<V>(d: Dict<V>, name: string): Dict<V> {
    if name in d && d[name].Obj? then d[name].fields else map[]
  }

  /** A name that holds something other than an object stops the walk (a TypeError). */
  predicate Blocks<V>(d: Dict<V>, name: string) {
    name in d && !d[name].Obj?
  }

  /** The walk down `path` meets a value that is not an object before the last name. */
  predicate Blocked<V>(d: Dict<V>, path: seq<string>)
    decreases |path|
  {
    |path| > 1 && (Blocks(d, path[0]) || Blocked(Child(d, path[0]), path[1..]))
  }

  datatype Found<V> = Missing | Present(value: Data<V>)

  /** What the last name holds at the end of the walk, when the walk gets there. */
  function Lookup<V>(d: Dict<V>, path: seq<string>): Found<V>
    requires |path| > 0 && !Blocked(d, path)
    decreases |path|
  {
    if |path| == 1 then (if path[0] in d then Present(d[path[0]]) else Missing)
    else Lookup(Child(d, path[0]), path[1..])
  }

  /** The dictionary with `v` stored under `path`, every missing object on the way created. */
  function Put<V>(d: Dict<V>, path: seq<string>, v: Data<V>): (r: Dict<V>)
    requires |path| > 0 && !Blocked(d, path)
    ensures path[0] in r && r.Keys == d.Keys + {path[0]}
    ensures forall n :: n in d && n != path[0] ==> r[n] == d[n]
    decreases |path|
  {
    if |path| == 1 then d[path[0] := v]
    else d[path[0] := Obj(Put(Child(d, path[0]), path[1..], v))]
  }

  /** Storing a value and reading the same path gives the value back. */
  lemma {:induction false} GetAfterPut<V>(d: Dict<V>, path: seq<string>, v: Data<V>)
    requires |path| > 0 && !Blocked(d, path)
    ensures !Blocked(Put(d, path, v), path)
    ensures Lookup(Put(d, path, v), path) == Present(v)
    decreases |path|
  {
    if |path| > 1 {
      var r := Put(d, path, v);
      assert Child(r, path[0]) == Put(Child(d, path[0]), path[1..], v);
      GetAfterPut(Child(d, path[0]), path[1..], v);
    }
  }

  /** Storing under one path leaves every path that branches off it elsewhere as it was. */
  lemma {:induction false} PutKeepsDisjoint<V>(d: Dict<V>, p: seq<string>, q: seq<string>, i: nat, v: Data<V>)
    requires |p| > 0 && !Blocked(d, p)
    requires i < |p| && i < |q| && p[..i] == q[..i] && p[i] != q[i]
    ensures Blocked(Put(d, p, v), q) == Blocked(d, q)
    ensures !Blocked(d, q) ==> Lookup(Put(d, p, v), q) == Lookup(d, q)
    decreases |p|
  {
    var r := Put(d, p, v);
    if i > 0 {
      assert p[0] == q[0] by { assert p[..i][0] == q[..i][0]; }
      assert |p| > 1;
      assert Child(r, p[0]) == Put(Child(d, p[0]), p[1..], v);
      assert p[1..][..i - 1] == q[1..][..i - 1] by {
        assert p[1..][..i - 1] == p[..i][1..];
        assert q[1..][..i - 1] == q[..i][1..];
      }
      PutKeepsDisjoint(Child(d, p[0]), p[1..], q[1..], i - 1, v);
    } else {
      assert Child(r, q[0]) == Child(d, q[0]);
    }
  }

  /** The objects a walk passes: the root, then each object it moves into. */
  ghost predicate Chain<V>(objs: seq<Dict<V>>, path: seq<string>)
  {
    && 0 < |objs| <= |path|
    && (forall j :: 0 < j < |objs| ==> objs[j] == Child(objs[j - 1], path[j - 1]))
    && (forall j :: 0 <= j < |objs| - 1 ==> !Blocks(objs[j], path[j]))
  }

  /**
    A whole chain (one object per name) reaches the leaf's object without a block, and the last
    name's entry there is what Lookup finds.
   */
  lemma {:induction false} ChainLookup<V>(objs: seq<Dict<V>>, path: seq<string>)
    requires Chain(objs, path) && |objs| == |path|
    ensures !Blocked(objs[0], path)
    ensures Lookup(objs[0], path) == if path[|path| - 1] in objs[|objs| - 1] then Present(objs[|objs| - 1][path[|path| - 1]]) else Missing
    decreases |path|
  {
    if |path| > 1 {
      var rest := objs[1..];
      assert Chain(rest, path[1..]) by {
        forall j | 0 < j < |rest|
          ensures rest[j] == Child(rest[j - 1], path[1..][j - 1])
        {
          assert rest[j] == objs[j + 1];
        }
        forall j | 0 <= j < |rest| - 1
          ensures !Blocks(rest[j], path[1..][j])
        {
          assert rest[j] == objs[j + 1];
        }
      }
      ChainLookup(rest, path[1..]);
      assert !Blocks(objs[0], path[0]);
    }
  }

  /** A chain that stops at a blocking name shows the whole walk is blocked. */
  lemma {:induction false} ChainBlocked<V>(objs: seq<Dict<V>>, path: seq<string>)
    requires Chain(objs, path) && |objs| < |path| && Blocks(objs[|objs| - 1], path[|objs| - 1])
    ensures Blocked(objs[0], path)
    decreases |objs|
  {
    if |objs| > 1 {
      var rest := objs[1..];
      assert Chain(rest, path[1..]) by {
        forall j | 0 < j < |rest|
          ensures rest[j] == Child(rest[j - 1], path[1..][j - 1])
        {
          assert rest[j] == objs[j + 1];
        }
        forall j | 0 <= j < |rest| - 1
          ensures !Blocks(rest[j], path[1..][j])
        {
          assert rest[j] == objs[j + 1];
        }
      }
      ChainBlocked(rest, path[1..]);
    }
  }

  /** Rebuilding from the leaf up along a whole chain gives Put of the root. */
  lemma {:induction false} ChainPut<V>(objs: seq<Dict<V>>, path: seq<string>, j: nat, acc: Dict<V>, v: Data<V>)
    requires Chain(objs, path) && |objs| == |path| && j < |path|
    requires !Blocked(objs[j], path[j..]) && acc == Put(objs[j], path[j..], v)
    ensures j > 0 ==> !Blocked(objs[j - 1], path[j - 1..])
    ensures j > 0 ==> objs[j - 1][path[j - 1] := Obj(acc)] == Put(objs[j - 1], path[j - 1..], v)
  {
    if j > 0 {
      var p := path[j - 1..];
      assert p[0] == path[j - 1] && p[1..] == path[j..];
      assert Child(objs[j - 1], p[0]) == objs[j];
      assert !Blocks(objs[j - 1], p[0]);
    }
  }

  class Settings<V> {
    /** The name the store is saved under. */
    const name: string
    var data: Dict<V>

    /** The constructor's parse of the stored text is left out: the dictionary is given. */
    constructor(name: string, data: Dict<V>)
      ensures this.name == name && this.data == data
    {
      this.name := name;
      this.data := data;
    }

    /**
      The walk of get and set: the objects along the path, one per name, an absent object taken
      as a new empty one; None when a name before the last holds something else.
     */
    method Walk(path: seq<string>) returns (objs: Option<seq<Dict<V>>>)
      requires |path| > 0
      ensures objs.None? <==> Blocked(data, path)
      ensures objs.Some? ==> Chain(objs.value, path) && |objs.value| == |path| && objs.value[0] == data
    {
      var chain := [data];
      var i := 0;
      while i < |path| - 1
        invariant 0 <= i < |path| && |chain| == i + 1 && chain[0] == data
        invariant Chain(chain, path)
      {
        var cur := chain[i];
        if Blocks(cur, path[i]) {
          ChainBlocked(chain, path);
          return None;
        }
        chain := chain + [Child(cur, path[i])];
        i := i + 1;
      }
      ChainLookup(chain, path);
      objs := Some(chain);
    }

    /** Stores `v` at the end of a walked chain, rebuilding each object from the leaf up. */
    method Rebuild(objs: seq<Dict<V>>, path: seq<string>, v: Data<V>) returns (r: Dict<V>)
      requires Chain(objs, path) && |objs| == |path|
      ensures !Blocked(objs[0], path) && r == Put(objs[0], path, v)
    {
      var j := |path| - 1;
      r := objs[j][path[j] := v];
      assert path[j..] == [path[j]];
      while j > 0
        invariant 0 <= j < |path|
        invariant !Blocked(objs[j], path[j..]) && r == Put(objs[j], path[j..], v)
      {
        ChainPut(objs, path, j, r, v);
        r := objs[j - 1][path[j - 1] := Obj(r)];
        j := j - 1;
      }
      assert path[0..] == path;
    }

    /**
      get: the value under the key's path; a missing value is first set to the key's default.
      A name before the last holding a non-object fails and changes nothing.
     */
    method Get(key: Key<V>) returns (r: Option<Data<V>>)
      modifies this`data
      ensures r.None? <==> Blocked(old(data), PathOf(key))
      ensures r.None? ==> data == old(data)
      ensures r.Some? ==> !Blocked(data, PathOf(key)) && Lookup(data, PathOf(key)) == Present(r.value)
      ensures r.Some? && Lookup(old(data), PathOf(key)).Present? ==>
        data == old(data) && r.value == Lookup(old(data), PathOf(key)).value
      ensures r.Some? && Lookup(old(data), PathOf(key)).Missing? ==>
        data == Put(old(data), PathOf(key), key.default()) && r.value == key.default()
    {
      var path := PathOf(key);
      var objs := Walk(path);
      if objs.None? {
        return None;
      }
      var chain := objs.value;
      ChainLookup(chain, path);
      var last := |path| - 1;
      if path[last] in chain[last] {
        return Some(chain[last][path[last]]);
      }
      var v := key.default();
      data := Rebuild(chain, path, v);
      GetAfterPut(old(data), path, v);
      r := Some(v);
    }

    /** set: stores the value under the key's path, creating missing objects, and returns it. */
    method Set(key: Key<V>, value: Data<V>) returns (r: Option<Data<V>>)
      modifies this`data
      ensures r.None? <==> Blocked(old(data), PathOf(key))
      ensures r.None? ==> data == old(data)
      ensures r.Some? ==> r.value == value && data == Put(old(data), PathOf(key), value)
    {
      var path := PathOf(key);
      var objs := Walk(path);
      if objs.None? {
        return None;
      }
      data := Rebuild(objs.value, path, value);
      r := Some(value);
    }

    /** reset: set with the key's default. */
    method Reset(key: Key<V>) returns (r: Option<Data<V>>)
      modifies this`data
      ensures r.None? <==> Blocked(old(data), PathOf(key))
      ensures r.None? ==> data == old(data)
      ensures r.Some? ==> r.value == key.default() && data == Put(old(data), PathOf(key), key.default())
    {
      r := Set(key, key.default());
    }
  }

  /** A second get finds what the first stored: the default is stored once. */
  lemma GetTwice<V>(d: Dict<V>, key: Key<V>)
    requires !Blocked(d, PathOf(key)) && Lookup(d, PathOf(key)).Missing?
    ensures var d' := Put(d, PathOf(key), key.default());
      !Blocked(d', PathOf(key)) && Lookup(d', PathOf(key)) == Present(key.default())
  {
    GetAfterPut(d, PathOf(key), key.default());
  }
}
