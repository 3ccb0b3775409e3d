/**
 * Compatibility shims for newer kazoo releases: `apply` makes sure that every
 * recipe submodule the legacy ZooKeeper client imports exists in the module
 * registry (`sys.modules`), gives each one stand-in classes it lacks, and hangs
 * each submodule under `kazoo.recipe` by the last component of its name.
 */
module KazooCompat {
  import opened Wrappers
  import opened Text

  /** An attribute value: a module object, one of the shim classes, or anything else already there. */
  datatype Attr = Submodule(m: Module) | ShimClass(cls: string) | Foreign(id: nat)

  /** A module object; `name` is its `__name__`, `attrs` the attributes set on it. */
  class Module {
    const name: string
    var attrs: map<string, Attr>

    /** `types.ModuleType(name)`. */
    constructor(name: string)
      ensures this.name == name && attrs == map[]
    {
      this.name := name;
      attrs := map[];
    }
  }

  /** `_set_default`: set `mod.name = obj` only when the attribute is absent. */
  method SetDefault(m: Module, name: string, obj: Attr)
    modifies m
    ensures name in old(m.attrs) ==> m.attrs == old(m.attrs)
    ensures name !in old(m.attrs) ==> m.attrs == old(m.attrs)[name := obj]
  {
    if name !in m.attrs {
      m.attrs := m.attrs[name := obj];
    }
  }

  /** The attribute map after `_set_default`, as a value. */
  function WithDefault(attrs: map<string, Attr>, name: string, obj: Attr): map<string, Attr> {
    if name in attrs then attrs else attrs[name := obj]
  }

  /** Setting a default twice is the same as setting it once, whatever the second value. */
  lemma SetDefaultIdempotent(attrs: map<string, Attr>, name: string, a: Attr, b: Attr)
    ensures WithDefault(WithDefault(attrs, name, a), name, b) == WithDefault(attrs, name, a)
  {
  }

  /** Defaults under different names commute. */
  lemma SetDefaultCommutes(attrs: map<string, Attr>, x: string, a: Attr, y: string, b: Attr)
    requires x != y
    ensures WithDefault(WithDefault(attrs, x, a), y, b) == WithDefault(WithDefault(attrs, y, b), x, a)
  {
  }

  /** The recipe submodules `apply` provides, in the order it provides them. */
  const Submodules: seq<string> :=
    ["barrier", "counter", "election", "lease", "lock", "party", "queue", "partitioner"]

  /** The stand-in classes each submodule receives, row by row with `Submodules`. */
  const ShimClasses: seq<seq<string>> := [
    ["Barrier", "DoubleBarrier"],
    ["Counter"],
    ["Election"],
    ["NonBlockingLease", "MultiNonBlockingLease"],
    ["Lock", "ReadLock", "WriteLock", "Semaphore"],
    ["Party", "ShallowParty"],
    ["Queue", "LockingQueue"],
    ["SetPartitioner"]
  ]

  const RecipeName := "kazoo.recipe"

  /** The registry keys of the submodules, e.g. `"kazoo.recipe.barrier"`. */
  function Keys(): seq<string> {
    seq(|Submodules|, j requires 0 <= j < |Submodules| => RecipeName + "." + Submodules[j])
  }

  /** The table's shape: rows line up, short names have no dot, and names are pairwise different. */
  lemma TableFacts()
    ensures |Keys()| == |Submodules| == |ShimClasses|
    ensures forall j :: 0 <= j < |Submodules| ==> Keys()[j] == RecipeName + "." + Submodules[j]
    ensures forall j :: 0 <= j < |Submodules| ==> '.' !in Submodules[j]
    ensures forall a, b :: 0 <= a < |Submodules| && 0 <= b < |Submodules| && a != b ==> Submodules[a] != Submodules[b]
    ensures forall a, b :: 0 <= a < b < |Submodules| ==> Keys()[a] != Keys()[b]
    ensures RecipeName !in Keys()
  {
    forall a, b | 0 <= a < b < |Submodules|
      ensures Keys()[a] != Keys()[b]
    {
      assert Submodules[a] != Submodules[b];
      var n := |RecipeName| + 1;
      assert Keys()[a][n..] == Submodules[a] && Keys()[b][n..] == Submodules[b];
    }
  }

  /** The `Counter` stand-in: an in-memory integer that starts at zero. */
  class Counter {
    var count: int

    /** `Counter(*args, **kwargs)`: the arguments are ignored. */
    constructor()
      ensures count == 0
    {
      count := 0;
    }

    /** `value()`. */
    method Value() returns (r: int)
      ensures r == count
    {
      return count;
    }

    /** `increment(value=1)`: add and return the new count. */
    method Increment(amount: int := 1) returns (r: int)
      modifies this
      ensures count == old(count) + amount && r == count
    {
      count := count + amount;
      return count;
    }

    /** `decrement(value=1)`: subtract and return the new count. */
    method Decrement(amount: int := 1) returns (r: int)
      modifies this
      ensures count == old(count) - amount && r == count
    {
      count := count - amount;
      return count;
    }
  }

  /** Incrementing and then decrementing amount the same amount gives the starting count back. */
  method IncrementDecrement(c: Counter, amount: int) returns (up: int, down: int)
    modifies c
    ensures up == old(c.count) + amount && down == old(c.count) && c.count == old(c.count)
  {
    up := c.Increment(amount);
    down := c.Decrement(amount);
  }

  /** The error a stand-in class raises when it is instantiated. */
  datatype ShimError = NotImplementedError(message: string)

  /**
   * Instantiating the stand-in class `cls`: every stand-in accepts any arguments,
   * except `SetPartitioner`, whose constructor always raises.
   */
  function Instantiate(cls: string): (r: Result<Attr, ShimError>)
    ensures r.Failure? <==> cls == "SetPartitioner"
    ensures r.Failure? ==> r.error == NotImplementedError("SetPartitioner is not supported in this shim.")
    ensures r.Success? ==> r.value == ShimClass(cls)
  {
    if cls == "SetPartitioner" then Failure(NotImplementedError("SetPartitioner is not supported in this shim."))
    else Success(ShimClass(cls))
  }

  /** Of all the stand-in classes `apply` installs, only `SetPartitioner` cannot be instantiated. */
  lemma OnlyPartitionerRaises()
    ensures forall j, c :: 0 <= j < |ShimClasses| && c in ShimClasses[j] ==>
      (Instantiate(c).Failure? <==> j == |ShimClasses| - 1)
  {
    forall j, c | 0 <= j < |ShimClasses| && c in ShimClasses[j]
      ensures Instantiate(c).Failure? <==> j == |ShimClasses| - 1
    {
      assert c != "SetPartitioner" || j == 7;
    }
  }

  /** `name` is bound, or absent, in `after` exactly as in `before`. */
  predicate SameBinding(before: map<string, Option<Module>>, after: map<string, Option<Module>>, name: string) {
    (name in after <==> name in before) && (name in after ==> after[name] == before[name])
  }

  /** `sys.modules`: names bound to module objects, or to `None`. */
  class Registry {
    var modules: map<string, Option<Module>>

    constructor(modules: map<string, Option<Module>>)
      ensures this.modules == modules
    {
      this.modules := modules;
    }

    /** The module bound to `name`, if a module (not `None`) is bound. */
    function Lookup(name: string): (r: Option<Module>)
      reads this
      ensures r.Some? <==> name in modules && modules[name].Some?
    {
      if name in modules then modules[name] else None
    }

    /** A bound module is one of the registry's objects. */
    lemma LookupInObjects(name: string)
      ensures Lookup(name).Some? ==> Lookup(name).value in Objects()
    {
    }

    /** The module bound to `name`, as a frame. */
    function Bound(name: string): set<Module>
      reads this
    {
      var l := Lookup(name);
      if l.Some? then {l.value} else {}
    }

    /** Every module object the registry binds. */
    function Objects(): set<Module>
      reads this
    {
      set k | k in modules && modules[k].Some? :: modules[k].value
    }

    /** The module objects bound to any of `names`. */
    function Among(names: seq<string>): set<Module>
      reads this
    {
      set k | k in names && k in modules && modules[k].Some? :: modules[k].value
    }

    /** The module objects `apply` may change: `kazoo.recipe` and the shim submodules. */
    function Touched(): set<Module>
      reads this
    {
      Bound(RecipeName) + Among(Keys())
    }

    /** A module bound to one of `names` is among them. */
    lemma BoundAmong(names: seq<string>, j: nat)
      requires j < |names|
      ensures Bound(names[j]) <= Among(names)
    {
      if Lookup(names[j]).Some? {
        assert names[j] in names;
      }
    }

    /** Every class in `classes` is an attribute of the module bound to `name`. */
    predicate Installed(name: string, classes: seq<string>)
      reads this, Bound(name)
    {
      var m := Lookup(name);
      m.Some? && forall c :: c in classes ==> c in m.value.attrs
    }

    /** The module bound to `name` is reachable from `kazoo.recipe` under the last component of its `__name__`. */
    predicate Wired(name: string)
      reads this, Bound(name), Bound(RecipeName)
    {
      var m := Lookup(name);
      var recipe := Lookup(RecipeName);
      m.Some? && recipe.Some? && WiredName(m.value) in recipe.value.attrs
    }

    /**
     * `_ensure_module`: the module already bound to `name`, or a fresh module,
     * which is then bound to `name` (a `None` entry is replaced).
     */
    method EnsureModule(name: string) returns (m: Module)
      modifies this
      ensures old(Lookup(name)).Some? ==> m == old(Lookup(name)).value && modules == old(modules)
      ensures old(Lookup(name)).None? ==>
        fresh(m) && m.name == name && m.attrs == map[] && modules == old(modules)[name := Some(m)]
    {
      var found := Lookup(name);
      if found.Some? {
        return found.value;
      }
      m := new Module(name);
      modules := modules[name := Some(m)];
    }

    /**
     * One block of `apply`: make sure the submodule `name` exists and give it
     * every stand-in class it lacks.
     */
    method InstallShims(name: string, classes: seq<string>) returns (m: Module)
      modifies this, Bound(name)
      ensures old(Lookup(name)).Some? ==> m == old(Lookup(name)).value && modules == old(modules)
      ensures old(Lookup(name)).None? ==> fresh(m) && m.name == name && modules == old(modules)[name := Some(m)]
      ensures forall c :: c in classes ==> c in m.attrs
      ensures old(Lookup(name)).Some? ==>
        forall k :: k in old(m.attrs) ==> k in m.attrs && m.attrs[k] == old(m.attrs[k])
      ensures old(Lookup(name)).Some? ==>
        forall k :: k in m.attrs && k !in old(m.attrs) ==> k in classes && m.attrs[k] == ShimClass(k)
      ensures old(Lookup(name)).None? ==> forall k :: k in m.attrs ==> k in classes && m.attrs[k] == ShimClass(k)
      ensures modules == old(modules)[name := Some(m)]
    {
      m := EnsureModule(name);
      ghost var bound := modules;
      ghost var start := m.attrs;
      var i := 0;
      while i < |classes|
        invariant 0 <= i <= |classes|
        invariant modules == bound
        invariant forall c :: c in classes[..i] ==> c in m.attrs
        invariant forall k :: k in start ==> k in m.attrs && m.attrs[k] == start[k]
        invariant forall k :: k in m.attrs && k !in start ==> k in classes[..i] && m.attrs[k] == ShimClass(k)
      {
        SetDefault(m, classes[i], ShimClass(classes[i]));
        i := i + 1;
        assert classes[..i] == classes[..i - 1] + [classes[i - 1]];
      }
      assert classes[..i] == classes;
    }

    /** `apply`. `importOk` says whether `import kazoo.recipe` succeeds; when it fails nothing changes. */
    method Apply(importOk: bool)
      modifies this, Touched()
      ensures forall o, k :: o in old(Objects()) && k in old(o.attrs) ==> k in o.attrs && o.attrs[k] == old(o.attrs[k])
      ensures forall o :: o in old(Objects()) && o !in old(Touched()) ==> o.attrs == old(o.attrs)
      ensures forall k :: k != RecipeName && k !in Keys() ==> SameBinding(old(modules), modules, k)
      ensures !importOk ==> unchanged(this) && forall o :: o in old(Objects()) ==> unchanged(o)
      ensures forall k :: old(Lookup(k)).Some? ==> Lookup(k) == old(Lookup(k))
      ensures importOk ==> Lookup(RecipeName).Some?
      ensures importOk ==> forall j :: 0 <= j < |Submodules| ==> Installed(Keys()[j], ShimClasses[j]) && Wired(Keys()[j])
      ensures importOk ==> forall j :: 0 <= j < |Submodules| && old(Lookup(Keys()[j])).None? ==>
        Lookup(Keys()[j]).Some? && fresh(Lookup(Keys()[j]).value) && Lookup(Keys()[j]).value.name == Keys()[j]
      ensures importOk && old(Lookup(RecipeName)).Some? && (forall j :: 0 <= j < |Submodules| ==> old(Lookup(Keys()[j])).None?) ==>
        forall j :: 0 <= j < |Submodules| && Submodules[j] !in old(Lookup(RecipeName).value.attrs) ==>
          Lookup(RecipeName).Some? && Lookup(Keys()[j]).Some? &&
          Submodules[j] in Lookup(RecipeName).value.attrs &&
          Lookup(RecipeName).value.attrs[Submodules[j]] == Submodule(Lookup(Keys()[j]).value)
    {
      if importOk {
        ApplyImported();
      }
    }

    /** The body of `apply` once `import kazoo.recipe` has succeeded. */
    method ApplyImported()
      modifies this, Touched()
      ensures forall o, k :: o in old(Objects()) && k in old(o.attrs) ==> k in o.attrs && o.attrs[k] == old(o.attrs[k])
      ensures forall o :: o in old(Objects()) && o !in old(Touched()) ==> o.attrs == old(o.attrs)
      ensures forall k :: k != RecipeName && k !in Keys() ==> SameBinding(old(modules), modules, k)
      ensures forall k :: old(Lookup(k)).Some? ==> Lookup(k) == old(Lookup(k))
      ensures Lookup(RecipeName).Some?
      ensures forall j :: 0 <= j < |Submodules| ==> Installed(Keys()[j], ShimClasses[j]) && Wired(Keys()[j])
      ensures forall j :: 0 <= j < |Submodules| && old(Lookup(Keys()[j])).None? ==>
        Lookup(Keys()[j]).Some? && fresh(Lookup(Keys()[j]).value) && Lookup(Keys()[j]).value.name == Keys()[j]
      ensures old(Lookup(RecipeName)).Some? && (forall j :: 0 <= j < |Submodules| ==> old(Lookup(Keys()[j])).None?) ==>
        forall j :: 0 <= j < |Submodules| && Submodules[j] !in old(Lookup(RecipeName).value.attrs) ==>
          Lookup(RecipeName).Some? && Lookup(Keys()[j]).Some? &&
          Submodules[j] in Lookup(RecipeName).value.attrs &&
          Lookup(RecipeName).value.attrs[Submodules[j]] == Submodule(Lookup(Keys()[j]).value)
    {
      var recipe, mods := InstallSubmodules();
      ghost var before := recipe.attrs;
      Wire(recipe, mods);
      forall j | 0 <= j < |Submodules|
        ensures Installed(Keys()[j], ShimClasses[j]) && Wired(Keys()[j])
      {
        assert Lookup(Keys()[j]) == Some(mods[j]);
      }
      if old(Lookup(RecipeName)).Some? && (forall j :: 0 <= j < |Submodules| ==> old(Lookup(Keys()[j])).None?) {
        FreshWiring(before, mods);
      }
    }

    /**
     * The first part of `apply`: `kazoo.recipe` exists, and so does every
     * submodule, with its stand-in classes. `recipe` is the `kazoo.recipe`
     * module and `mods` the submodules, in table order.
     */
    method InstallSubmodules() returns (recipe: Module, mods: seq<Module>)
      modifies this, Touched()
      ensures forall o, k :: o in old(Objects()) && k in old(o.attrs) ==> k in o.attrs && o.attrs[k] == old(o.attrs[k])
      ensures forall o :: o in old(Objects()) && o !in old(Touched()) ==> o.attrs == old(o.attrs)
      ensures forall k :: k != RecipeName && k !in Keys() ==> SameBinding(old(modules), modules, k)
      ensures forall k :: old(Lookup(k)).Some? ==> Lookup(k) == old(Lookup(k))
      ensures Lookup(RecipeName) == Some(recipe)
      ensures old(Lookup(RecipeName)).Some? ==> recipe == old(Lookup(RecipeName)).value
      ensures old(Lookup(RecipeName)).None? ==> fresh(recipe)
      ensures |mods| == |Submodules|
      ensures forall j :: 0 <= j < |Submodules| ==> Lookup(Keys()[j]) == Some(mods[j])
      ensures forall j, c :: 0 <= j < |Submodules| && c in ShimClasses[j] ==> c in mods[j].attrs
      ensures forall j :: 0 <= j < |Submodules| && old(Lookup(Keys()[j])).None? ==>
        fresh(mods[j]) && mods[j].name == Keys()[j]
      ensures old(Lookup(RecipeName)).Some? && (forall j :: 0 <= j < |Submodules| ==> old(Lookup(Keys()[j])).None?) ==>
        recipe.attrs == old(recipe.attrs) && forall j :: 0 <= j < |Submodules| ==> mods[j].name == Keys()[j]
    {
      recipe := EnsureModule(RecipeName);
      TableFacts();
      if old(Lookup(RecipeName)).Some? && (forall j :: 0 <= j < |Submodules| ==> old(Lookup(Keys()[j])).None?) {
        AmongNone(Keys());
      }
      mods := InstallAll(Keys(), ShimClasses);
    }

    /**
     * The blocks of `apply`, in order: for each `names[j]`, the submodule exists
     * and has the stand-in classes `classes[j]`.
     */
    method InstallAll(names: seq<string>, classes: seq<seq<string>>) returns (mods: seq<Module>)
      requires |names| == |classes|
      requires forall a, b :: 0 <= a < b < |names| ==> names[a] != names[b]
      modifies this, Among(names)
      ensures |mods| == |names|
      ensures forall j :: 0 <= j < |names| ==> Lookup(names[j]) == Some(mods[j])
      ensures forall j, c :: 0 <= j < |names| && c in classes[j] ==> c in mods[j].attrs
      ensures forall j :: 0 <= j < |names| && old(Lookup(names[j])).Some? ==> mods[j] == old(Lookup(names[j])).value
      ensures forall j :: 0 <= j < |names| && old(Lookup(names[j])).None? ==> fresh(mods[j]) && mods[j].name == names[j]
      ensures forall k :: old(Lookup(k)).Some? ==> Lookup(k) == old(Lookup(k))
      ensures forall o, k :: o in old(Objects()) && k in old(o.attrs) ==> k in o.attrs && o.attrs[k] == old(o.attrs[k])
      ensures forall k :: k !in names ==> SameBinding(old(modules), modules, k)
    {
      forall j | 0 <= j < |names|
        ensures Bound(names[j]) <= Among(names)
      {
        BoundAmong(names, j);
      }
      mods := [];
      var j := 0;
      while j < |names|
        invariant 0 <= j <= |names| && |mods| == j
        invariant forall j' :: 0 <= j' < j ==>
          && Lookup(names[j']) == Some(mods[j'])
          && (forall c :: c in classes[j'] ==> c in mods[j'].attrs)
          && (old(Lookup(names[j'])).Some? ==> mods[j'] == old(Lookup(names[j'])).value)
          && (old(Lookup(names[j'])).None? ==> fresh(mods[j']) && mods[j'].name == names[j'])
        invariant forall j' :: j <= j' < |names| ==> Lookup(names[j']) == old(Lookup(names[j']))
        invariant forall o, k :: o in old(Objects()) && k in old(o.attrs) ==> k in o.attrs && o.attrs[k] == old(o.attrs[k])
        invariant forall k :: k !in names ==> SameBinding(old(modules), modules, k)
      {
        LookupInObjects(names[j]);
        var m := InstallShims(names[j], classes[j]);
        mods := mods + [m];
        j := j + 1;
      }
      forall k | old(Lookup(k)).Some?
        ensures Lookup(k) == old(Lookup(k))
      {
        if k in names {
          var i :| 0 <= i < |names| && names[i] == k;
        }
      }
    }

    /** When none of `names` is bound, no module is among them. */
    lemma AmongNone(names: seq<string>)
      requires forall k :: k in names ==> Lookup(k).None?
      ensures Among(names) == {}
    {
    }
  }

  /** The name a submodule is wired under: the last component of its `__name__`. */
  function WiredName(m: Module): string {
    AfterLast(m.name, '.')
  }

  /** The `(name, value)` pairs the wiring loop hands to `_set_default`, in order. */
  function Wiring(mods: seq<Module>): (r: seq<(string, Attr)>)
    ensures |r| == |mods|
    ensures forall i :: 0 <= i < |mods| ==> r[i] == (WiredName(mods[i]), Submodule(mods[i]))
  {
    seq(|mods|, i requires 0 <= i < |mods| => (WiredName(mods[i]), Submodule(mods[i])))
  }

  /** The attributes after `_set_default` has been applied to each pair in turn, as a value. */
  function Defaults(attrs: map<string, Attr>, pairs: seq<(string, Attr)>): map<string, Attr>
    decreases |pairs|
  {
    if pairs == [] then attrs
    else
      var last := pairs[|pairs| - 1];
      WithDefault(Defaults(attrs, pairs[..|pairs| - 1]), last.0, last.1)
  }

  /** Defaults only add attributes: every existing one keeps its value. */
  lemma {:induction false} DefaultsKeep(attrs: map<string, Attr>, pairs: seq<(string, Attr)>)
    ensures forall k :: k in attrs ==> k in Defaults(attrs, pairs) && Defaults(attrs, pairs)[k] == attrs[k]
    decreases |pairs|
  {
    if pairs != [] {
      DefaultsKeep(attrs, pairs[..|pairs| - 1]);
    }
  }

  /** Afterwards every name of the pairs is an attribute. */
  lemma {:induction false} DefaultsReach(attrs: map<string, Attr>, pairs: seq<(string, Attr)>)
    ensures forall i :: 0 <= i < |pairs| ==> pairs[i].0 in Defaults(attrs, pairs)
    decreases |pairs|
  {
    if pairs != [] {
      var init := pairs[..|pairs| - 1];
      DefaultsReach(attrs, init);
      assert forall i :: 0 <= i < |init| ==> pairs[i] == init[i];
    }
  }

  /** A name absent at the start and carried by no pair stays absent. */
  lemma {:induction false} DefaultsAbsent(attrs: map<string, Attr>, pairs: seq<(string, Attr)>, name: string)
    requires name !in attrs
    requires forall i :: 0 <= i < |pairs| ==> pairs[i].0 != name
    ensures name !in Defaults(attrs, pairs)
    decreases |pairs|
  {
    if pairs != [] {
      DefaultsAbsent(attrs, pairs[..|pairs| - 1], name);
    }
  }

  /** A name absent at the start and carried by exactly one pair ends up with that pair's value. */
  lemma {:induction false} DefaultsBind(attrs: map<string, Attr>, pairs: seq<(string, Attr)>, i: nat)
    requires i < |pairs| && pairs[i].0 !in attrs
    requires forall i' :: 0 <= i' < |pairs| && i' != i ==> pairs[i'].0 != pairs[i].0
    ensures pairs[i].0 in Defaults(attrs, pairs) && Defaults(attrs, pairs)[pairs[i].0] == pairs[i].1
    decreases |pairs|
  {
    var init := pairs[..|pairs| - 1];
    if i < |pairs| - 1 {
      DefaultsBind(attrs, init, i);
    } else {
      DefaultsAbsent(attrs, init, pairs[i].0);
    }
  }

  /**
   * When the submodules were all created by `apply` (so each is named by its
   * key), the recipe module gains each of them under its short name, unless it
   * already had an attribute of that name.
   */
  lemma FreshWiring(before: map<string, Attr>, mods: seq<Module>)
    requires |mods| == |Submodules|
    requires forall j :: 0 <= j < |Submodules| ==> mods[j].name == Keys()[j]
    ensures forall j :: 0 <= j < |Submodules| && Submodules[j] !in before ==>
      Submodules[j] in Defaults(before, Wiring(mods)) && Defaults(before, Wiring(mods))[Submodules[j]] == Submodule(mods[j])
  {
    TableFacts();
    var pairs := Wiring(mods);
    forall j | 0 <= j < |Submodules|
      ensures pairs[j] == (Submodules[j], Submodule(mods[j]))
    {
      AfterLastAppend(RecipeName, '.', Submodules[j]);
    }
    forall j | 0 <= j < |Submodules| && Submodules[j] !in before
      ensures Submodules[j] in Defaults(before, pairs) && Defaults(before, pairs)[Submodules[j]] == Submodule(mods[j])
    {
      DefaultsBind(before, pairs, j);
    }
  }

  /** The wiring loop of `apply`: `_set_default(recipe, last name component, module)` for each submodule. */
  method Wire(recipe: Module, mods: seq<Module>)
    modifies recipe
    ensures recipe.attrs == Defaults(old(recipe.attrs), Wiring(mods))
    ensures forall k :: k in old(recipe.attrs) ==> k in recipe.attrs && recipe.attrs[k] == old(recipe.attrs[k])
    ensures forall i :: 0 <= i < |mods| ==> WiredName(mods[i]) in recipe.attrs
  {
    var i := 0;
    while i < |mods|
      invariant 0 <= i <= |mods|
      invariant recipe.attrs == Defaults(old(recipe.attrs), Wiring(mods[..i]))
    {
      assert Wiring(mods[..i + 1])[..i] == Wiring(mods[..i]);
      SetDefault(recipe, WiredName(mods[i]), Submodule(mods[i]));
      i := i + 1;
    }
    assert mods[..i] == mods;
    DefaultsKeep(old(recipe.attrs), Wiring(mods));
    DefaultsReach(old(recipe.attrs), Wiring(mods));
  }
}
