/**
 * DIDL-Lite objects and their construction (`DidlObject.__init__`): the
 * required-property check, then the slot of every declared key set to None
 * and every supplied property stored in its slot.
 *
 * Construction is stated for any class string and definition list; an
 * object of a kind is built with the kind's own `upnp_class` and
 * `didl_properties_defs`.
 */
module Objects {
  import opened Wrappers
  import opened Errors
  import opened Kinds
  import opened Resources

  /** The instance attributes holding property values, by key. */
  type Slots = map<string, Option<string>>

  /**
   * An object of some kind. `defs` are the property definitions of its
   * class, keyed; `members` is the content of a container (the `list` a
   * `Container` also is), objects and descriptors.
   */
  datatype DidlObject = DidlObject(
    kind: Kind,
    defs: seq<KeyedDef>,
    slots: Slots,
    resources: seq<Resource>,
    descriptors: seq<Descriptor>,
    members: seq<Node>)

  /** What `from_xml_el` returns and a container holds: an object or a descriptor. */
  datatype Node = Obj(obj: DidlObject) | Desc(desc: Descriptor)

  /** The keys every construction fills in before checking required properties. */
  predicate Preset(key: string)
  {
    key == "id" || key == "parent_id" || key == "class"
  }

  /** A definition marked 'R'. */
  predicate IsRequired(d: KeyedDef)
  {
    d.def.cardinality == Required
  }

  /**
   * The properties once `__init__` has stored its `id` and `parent_id`
   * parameters (default "") and the class string `cls` under `class`.
   */
  function Filled(cls: string, props: Slots): Slots
  {
    var id := if "id" in props then props["id"] else Some("");
    var parentId := if "parent_id" in props then props["parent_id"] else Some("");
    props["id" := id]["parent_id" := parentId]["class" := Some(cls)]
  }

  /**
   * The filled properties are the supplied ones plus the three preset keys;
   * `class` is always the class string, the parameters default to "".
   */
  lemma FilledKeys(cls: string, props: Slots)
    ensures var p := Filled(cls, props);
      && (forall k :: k in p <==> k in props || Preset(k))
      && p["id"] == (if "id" in props then props["id"] else Some(""))
      && p["parent_id"] == (if "parent_id" in props then props["parent_id"] else Some(""))
      && p["class"] == Some(cls)
      && (forall k :: k in props && !Preset(k) ==> p[k] == props[k])
  {
  }

  /** The key of the first required definition whose key is not among `props`. */
  function FirstMissing(defs: seq<KeyedDef>, props: Slots): Option<string>
  {
    if defs == [] then None
    else if IsRequired(defs[0]) && defs[0].key !in props then Some(defs[0].key)
    else FirstMissing(defs[1..], props)
  }

  /**
   * Nothing is missing exactly when every required key is present; what is
   * reported missing is the key of a required definition that is absent,
   * and every required definition before it is present.
   */
  lemma {:induction false} FirstMissingSpec(defs: seq<KeyedDef>, props: Slots)
    ensures var r := FirstMissing(defs, props);
      && (r.None? <==> forall i :: 0 <= i < |defs| && IsRequired(defs[i]) ==> defs[i].key in props)
      && (r.Some? ==> r.value !in props)
      && (r.Some? ==> exists i :: 0 <= i < |defs| && IsRequired(defs[i]) && defs[i].key == r.value &&
                        forall j :: 0 <= j < i && IsRequired(defs[j]) ==> defs[j].key in props)
  {
    if defs != [] {
      FirstMissingSpec(defs[1..], props);
      assert forall i :: 1 <= i < |defs| ==> defs[i] == defs[1..][i - 1];
      if FirstMissing(defs, props).Some? && !(IsRequired(defs[0]) && defs[0].key !in props) {
        var i :| 0 <= i < |defs[1..]| && IsRequired(defs[1..][i]) && defs[1..][i].key == FirstMissing(defs, props).value &&
                 forall j :: 0 <= j < i && IsRequired(defs[1..][j]) ==> defs[1..][j].key in props;
        assert defs[i + 1] == defs[1..][i];
      }
    }
  }

  /** The slots of the declared keys, each holding None. */
  function Declared(defs: seq<KeyedDef>): Slots
  {
    if defs == [] then map[]
    else Declared(defs[..|defs| - 1])[defs[|defs| - 1].key := None]
  }

  /** A declared key: the key of one of `defs`. */
  ghost predicate IsDeclared(defs: seq<KeyedDef>, key: string)
  {
    exists i :: 0 <= i < |defs| && defs[i].key == key
  }

  /** The declared slots are exactly the keys of `defs`, each holding None. */
  lemma {:induction false} DeclaredSpec(defs: seq<KeyedDef>)
    ensures forall i :: 0 <= i < |defs| ==> defs[i].key in Declared(defs)
    ensures forall k :: k in Declared(defs) ==> Declared(defs)[k] == None && IsDeclared(defs, k)
  {
    if defs != [] {
      var front := defs[..|defs| - 1];
      DeclaredSpec(front);
      assert forall i :: 0 <= i < |front| ==> front[i] == defs[i];
    }
  }

  /** Declaring one more definition adds its slot. */
  lemma DeclaredSnoc(defs: seq<KeyedDef>, i: nat)
    requires i < |defs|
    ensures Declared(defs[..i + 1]) == Declared(defs[..i])[defs[i].key := None]
  {
    assert defs[..i + 1][..i] == defs[..i];
  }

  /**
   * `cls(descriptors=..., **props)` for a class with class string `cls` and
   * definitions `defs`. The `resources` keyword is passed apart, so `props`
   * never holds it; an absent resource list is the empty one.
   */
  function Build(kind: Kind, cls: string, defs: seq<KeyedDef>, props: Slots,
                 resources: seq<Resource>, descriptors: seq<Descriptor>): Result<DidlObject, Error>
    requires "resources" !in props
  {
    if "descriptors" in props then Err(DuplicateArgument("descriptors"))
    else if "self" in props then Err(DuplicateArgument("self"))
    else
      var p := Filled(cls, props);
      var missing := FirstMissing(defs, p);
      if missing.Some? then Err(Mandatory(missing.value))
      else Ok(DidlObject(kind, defs, Declared(defs) + p, resources, descriptors, []))
  }

  /** The definitions of `kind`, keyed. */
  function KindDefs(kind: Kind): seq<KeyedDef>
  {
    Keyed(Defs(kind))
  }

  /** Constructing an object of `kind`, with its class string and definitions. */
  function Construct(kind: Kind, props: Slots, resources: seq<Resource>, descriptors: seq<Descriptor>): Result<DidlObject, Error>
    requires "resources" !in props
  {
    Build(kind, UpnpClass(kind), KindDefs(kind), props, resources, descriptors)
  }

  /**
   * Construction succeeds exactly when neither `descriptors` nor `self` is
   * passed twice and every required key is supplied or preset.
   */
  lemma BuildOk(kind: Kind, cls: string, defs: seq<KeyedDef>, props: Slots, resources: seq<Resource>, descriptors: seq<Descriptor>)
    requires "resources" !in props
    ensures Build(kind, cls, defs, props, resources, descriptors).Ok? <==>
      "descriptors" !in props && "self" !in props &&
      forall i :: 0 <= i < |defs| && IsRequired(defs[i]) ==> defs[i].key in props || Preset(defs[i].key)
  {
    if "descriptors" !in props && "self" !in props {
      var p := Filled(cls, props);
      FilledKeys(cls, props);
      FirstMissingSpec(defs, p);
    }
  }

  /**
   * The arguments are checked before the body runs: `descriptors` first,
   * then `self`; a "mandatory" failure names the first required key that
   * was neither supplied nor preset.
   */
  lemma BuildError(kind: Kind, cls: string, defs: seq<KeyedDef>, props: Slots, resources: seq<Resource>, descriptors: seq<Descriptor>)
    requires "resources" !in props
    requires Build(kind, cls, defs, props, resources, descriptors).Err?
    ensures var e := Build(kind, cls, defs, props, resources, descriptors).error;
      && ("descriptors" in props ==> e == DuplicateArgument("descriptors"))
      && ("descriptors" !in props && "self" in props ==> e == DuplicateArgument("self"))
      && ("descriptors" !in props && "self" !in props ==>
            e.Mandatory? && e.key !in props && !Preset(e.key) &&
            exists i :: 0 <= i < |defs| && IsRequired(defs[i]) && defs[i].key == e.key &&
              forall j :: 0 <= j < i && IsRequired(defs[j]) ==> defs[j].key in props || Preset(defs[j].key))
  {
    if "descriptors" !in props && "self" !in props {
      var p := Filled(cls, props);
      FilledKeys(cls, props);
      FirstMissingSpec(defs, p);
    }
  }

  /**
   * After construction every declared key has a slot; every supplied
   * property is stored, except `class`, which holds the class string; `id`
   * and `parent_id` default to ""; every other slot is None. The lists are
   * the ones passed and the object has no members yet.
   */
  lemma BuildSlots(kind: Kind, cls: string, defs: seq<KeyedDef>, props: Slots, resources: seq<Resource>, descriptors: seq<Descriptor>)
    requires "resources" !in props
    requires Build(kind, cls, defs, props, resources, descriptors).Ok?
    ensures var o := Build(kind, cls, defs, props, resources, descriptors).value;
      && o.kind == kind && o.defs == defs && o.resources == resources && o.descriptors == descriptors && o.members == []
      && (forall i :: 0 <= i < |defs| ==> defs[i].key in o.slots)
      && (forall k :: k in props && k != "class" ==> k in o.slots && o.slots[k] == props[k])
      && o.slots["class"] == Some(cls)
      && o.slots["id"] == (if "id" in props then props["id"] else Some(""))
      && o.slots["parent_id"] == (if "parent_id" in props then props["parent_id"] else Some(""))
      && (forall k :: k in o.slots ==> k in props || Preset(k) || IsDeclared(defs, k))
      && (forall k :: k in o.slots && k !in props && !Preset(k) ==> o.slots[k] == None)
  {
    FilledKeys(cls, props);
    DeclaredSpec(defs);
  }

  /** `_ensure_required_properties`: the first required key missing, if any. */
  method EnsureRequiredProperties(defs: seq<KeyedDef>, props: Slots) returns (missing: Option<string>)
    ensures missing == FirstMissing(defs, props)
  {
    var i := 0;
    while i < |defs|
      invariant 0 <= i <= |defs|
      invariant FirstMissing(defs, props) == FirstMissing(defs[i..], props)
    {
      assert defs[i..][1..] == defs[i + 1..];
      var key := defs[i].key;
      if IsRequired(defs[i]) && key !in props {
        return Some(key);
      }
      i := i + 1;
    }
    return None;
  }

  /** `_set_properties`: declared keys to None, then every property into its slot. */
  method SetProperties(defs: seq<KeyedDef>, props: Slots) returns (slots: Slots)
    ensures slots == Declared(defs) + props
  {
    slots := map[];
    var i := 0;
    while i < |defs|
      invariant 0 <= i <= |defs|
      invariant slots == Declared(defs[..i])
    {
      DeclaredSnoc(defs, i);
      slots := slots[defs[i].key := None];
      i := i + 1;
    }
    assert defs[..|defs|] == defs;
    DeclaredSpec(defs);
    ghost var declared := slots;
    var todo := props.Keys;
    while todo != {}
      invariant todo <= props.Keys
      invariant forall k :: k in slots <==> k in declared || (k in props && k !in todo)
      invariant forall k :: k in slots ==> slots[k] == if k in props && k !in todo then props[k] else None
      decreases todo
    {
      var key :| key in todo;
      slots := slots[key := props[key]];
      todo := todo - {key};
    }
    MapUnion(declared, props, slots);
  }

  /** A map that agrees pointwise with `a + b`, where `a` holds only None, is `a + b`. */
  lemma MapUnion(a: Slots, b: Slots, m: Slots)
    requires forall k :: k in a ==> a[k] == None
    requires forall k :: k in m <==> k in a || k in b
    requires forall k :: k in m ==> m[k] == if k in b then b[k] else None
    ensures m == a + b
  {
  }

  /**
   * `DidlObject.__init__` of a class with class string `cls` and
   * definitions `defs`, with the keyword-argument binding before it.
   */
  method Init(kind: Kind, cls: string, defs: seq<KeyedDef>, props: Slots,
              resources: seq<Resource>, descriptors: seq<Descriptor>) returns (r: Result<DidlObject, Error>)
    requires "resources" !in props
    ensures r == Build(kind, cls, defs, props, resources, descriptors)
  {
    if "descriptors" in props {
      return Err(DuplicateArgument("descriptors"));
    }
    if "self" in props {
      return Err(DuplicateArgument("self"));
    }
    var p := props;
    p := p["id" := if "id" in props then props["id"] else Some("")];
    p := p["parent_id" := if "parent_id" in props then props["parent_id"] else Some("")];
    p := p["class" := Some(cls)];
    assert p == Filled(cls, props);
    var missing := EnsureRequiredProperties(defs, p);
    if missing.Some? {
      return Err(Mandatory(missing.value));
    }
    var slots := SetProperties(defs, p);
    return Ok(DidlObject(kind, defs, slots, resources, descriptors, []));
  }

  /** `DidlObject.__init__` on an object of `kind`. */
  method New(kind: Kind, props: Slots, resources: seq<Resource>, descriptors: seq<Descriptor>) returns (r: Result<DidlObject, Error>)
    requires "resources" !in props
    ensures r == Construct(kind, props, resources, descriptors)
  {
    r := Init(kind, UpnpClass(kind), KindDefs(kind), props, resources, descriptors);
  }
}
