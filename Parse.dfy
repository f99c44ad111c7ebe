/**
 * Reading objects from elements: `DidlObject.from_xml`,
 * `Container.from_xml` and `from_xml_el`.
 *
 * `from_xml` gathers the properties of an element in one dict, written in
 * document order: first every attribute, then for every child other than a
 * `res` element its text and its attributes. The model keeps that order as
 * a sequence of writes, folded into a map; the last write of a key wins.
 */
module Parse {
  import opened Wrappers
  import opened Errors
  import opened Collecting
  import Utils
  import opened ElementTree
  import opened Resources
  import opened Kinds
  import opened Objects

  // ---------------------------------------------------------------------
  // Expanded tags: `ns_tag('didl_lite:res')` and the like, and the tags
  // `findall` and `find` match with the `NAMESPACES` aliases.

  const ResTag: string := "{" + Utils.DidlLiteUri + "}res"
  const DescTag: string := "{" + Utils.DidlLiteUri + "}desc"
  const ItemTag: string := "{" + Utils.DidlLiteUri + "}item"
  const ContainerTag: string := "{" + Utils.DidlLiteUri + "}container"
  const ClassTag: string := "{" + Utils.UpnpUri + "}class"

  // ---------------------------------------------------------------------
  // Properties

  /** One `properties[key] = value`. */
  type Write = (string, Option<string>)

  /** The dict after performing `ws` in order on `m`. */
  function Apply(m: Slots, ws: seq<Write>): Slots
  {
    if ws == [] then m
    else Apply(m, ws[..|ws| - 1])[ws[|ws| - 1].0 := ws[|ws| - 1].1]
  }

  lemma {:induction false} ApplyAppend(m: Slots, a: seq<Write>, b: seq<Write>)
    ensures Apply(m, a + b) == Apply(Apply(m, a), b)
    decreases |b|
  {
    if b == [] {
      assert a + b == a;
    } else {
      assert (a + b)[..|a + b| - 1] == a + b[..|b| - 1];
      ApplyAppend(m, a, b[..|b| - 1]);
    }
  }

  /** The last write of a key decides its value. */
  lemma {:induction false} ApplyLastWrite(m: Slots, ws: seq<Write>, i: nat)
    requires i < |ws|
    requires forall j :: i < j < |ws| ==> ws[j].0 != ws[i].0
    ensures ws[i].0 in Apply(m, ws) && Apply(m, ws)[ws[i].0] == ws[i].1
    decreases |ws|
  {
    if i < |ws| - 1 {
      var front := ws[..|ws| - 1];
      assert forall j :: i < j < |front| ==> front[j] == ws[j];
      ApplyLastWrite(m, front, i);
    }
  }

  /** A key no write touches keeps its entry, or its absence. */
  lemma {:induction false} ApplyUntouched(m: Slots, ws: seq<Write>, k: string)
    requires forall j :: 0 <= j < |ws| ==> ws[j].0 != k
    ensures (k in Apply(m, ws) <==> k in m) && (k in m ==> Apply(m, ws)[k] == m[k])
    decreases |ws|
  {
    if ws != [] {
      var front := ws[..|ws| - 1];
      assert forall j :: 0 <= j < |front| ==> front[j] == ws[j];
      ApplyUntouched(m, front, k);
    }
  }

  /** The keys of `Apply(m, ws)` are those of `m` and the keys written. */
  lemma {:induction false} ApplyKeys(m: Slots, ws: seq<Write>, k: string)
    requires k in Apply(m, ws)
    ensures k in m || exists j :: 0 <= j < |ws| && ws[j].0 == k
    decreases |ws|
  {
    if ws != [] && k != ws[|ws| - 1].0 {
      var front := ws[..|ws| - 1];
      ApplyKeys(m, front, k);
      if k !in m {
        var j :| 0 <= j < |front| && front[j].0 == k;
        assert ws[j] == front[j];
      }
    }
  }

  /** `properties[to_camel_case(name)] = value` for each attribute, in order. */
  function AttrWrites(attrs: Attrs): seq<Write>
  {
    if attrs == [] then []
    else
      var a := attrs[|attrs| - 1];
      AttrWrites(attrs[..|attrs| - 1]) + [(Utils.ToCamelCase(a.0), Some(a.1))]
  }

  /** The writes for the attributes of a child whose key is `key`. */
  function ChildAttrWrites(key: string, attrs: Attrs): seq<Write>
  {
    if attrs == [] then []
    else
      var a := attrs[|attrs| - 1];
      ChildAttrWrites(key, attrs[..|attrs| - 1]) + [(key + "_" + Utils.ToCamelCase(a.0), Some(a.1))]
  }

  /** The key of a child: its local name, converted. */
  function ChildKey(child: Element): string
  {
    Utils.ToCamelCase(Utils.NamespaceTag(child.tag).1)
  }

  /** The writes for one child: its text under its key, then its attributes. */
  function ChildWrites(child: Element): seq<Write>
  {
    [(ChildKey(child), child.text)] + ChildAttrWrites(ChildKey(child), child.attrs)
  }

  /** The writes for the children, in order, `res` children skipped. */
  function ChildrenWrites(children: seq<Element>): seq<Write>
  {
    if children == [] then []
    else
      var c := children[|children| - 1];
      ChildrenWrites(children[..|children| - 1]) + if c.tag == ResTag then [] else ChildWrites(c)
  }

  /** Every write `from_xml` makes to `properties`, in order. */
  function Writes(el: Element): seq<Write>
  {
    AttrWrites(el.attrs) + ChildrenWrites(el.children)
  }

  /**
   * The properties `from_xml` passes as keyword arguments: the writes, and
   * `resources` replaced by the parsed resource list (which is passed apart).
   */
  function Properties(el: Element): Slots
  {
    Apply(map[], Writes(el)) - {"resources"}
  }

  /** The `i`-th write of each list is the one for attribute `i`, and nothing else is written. */
  lemma {:induction false} AttrWritesSpec(attrs: Attrs)
    ensures |AttrWrites(attrs)| == |attrs|
    ensures forall i :: 0 <= i < |attrs| ==>
      AttrWrites(attrs)[i] == (Utils.ToCamelCase(attrs[i].0), Some(attrs[i].1))
  {
    if attrs != [] {
      AttrWritesSpec(attrs[..|attrs| - 1]);
    }
  }

  /** Every key written for a child's attributes is the child's key, '_', and the converted name. */
  lemma {:induction false} ChildAttrWritesSpec(key: string, attrs: Attrs)
    ensures |ChildAttrWrites(key, attrs)| == |attrs|
    ensures forall i :: 0 <= i < |attrs| ==>
      ChildAttrWrites(key, attrs)[i] == (key + "_" + Utils.ToCamelCase(attrs[i].0), Some(attrs[i].1))
  {
    if attrs != [] {
      ChildAttrWritesSpec(key, attrs[..|attrs| - 1]);
    }
  }

  /** A string with no uppercase letter, joined to another by '_', keeps none. */
  lemma NoUpperJoin(a: string, b: string)
    requires Utils.NoUpper(a) && Utils.NoUpper(b)
    ensures Utils.NoUpper(a + "_" + b)
  {
    var s := a + "_" + b;
    forall i | 0 <= i < |s|
      ensures !Utils.IsUpper(s[i])
    {
      if i < |a| {
        assert s[i] == a[i];
      } else if i > |a| {
        assert s[i] == b[i - |a| - 1];
      }
    }
  }

  /** No key written has an uppercase letter. */
  ghost predicate KeysNoUpper(ws: seq<Write>)
  {
    forall j :: 0 <= j < |ws| ==> Utils.NoUpper(ws[j].0)
  }

  lemma KeysNoUpperAppend(a: seq<Write>, b: seq<Write>)
    requires KeysNoUpper(a) && KeysNoUpper(b)
    ensures KeysNoUpper(a + b)
  {
    forall j | 0 <= j < |a + b|
      ensures Utils.NoUpper((a + b)[j].0)
    {
      if j >= |a| {
        assert (a + b)[j] == b[j - |a|];
      }
    }
  }

  /** Every key a child writes has no uppercase letter. */
  lemma ChildWritesNoUpper(child: Element)
    ensures KeysNoUpper(ChildWrites(child))
  {
    var key := ChildKey(child);
    ChildAttrWritesSpec(key, child.attrs);
    forall i | 0 <= i < |child.attrs|
      ensures Utils.NoUpper(key + "_" + Utils.ToCamelCase(child.attrs[i].0))
    {
      NoUpperJoin(key, Utils.ToCamelCase(child.attrs[i].0));
    }
    assert KeysNoUpper([(key, child.text)]);
    KeysNoUpperAppend([(key, child.text)], ChildAttrWrites(key, child.attrs));
  }

  lemma {:induction false} ChildrenWritesNoUpper(children: seq<Element>)
    ensures KeysNoUpper(ChildrenWrites(children))
  {
    if children != [] {
      var c := children[|children| - 1];
      ChildrenWritesNoUpper(children[..|children| - 1]);
      if c.tag != ResTag {
        ChildWritesNoUpper(c);
        KeysNoUpperAppend(ChildrenWrites(children[..|children| - 1]), ChildWrites(c));
      } else {
        assert ChildrenWrites(children) == ChildrenWrites(children[..|children| - 1]) + [];
      }
    }
  }

  /** Every property key `from_xml` produces has no uppercase letter. */
  lemma PropertiesNoUpper(el: Element)
    ensures forall k :: k in Properties(el) ==> Utils.NoUpper(k)
  {
    var ws := Writes(el);
    AttrWritesSpec(el.attrs);
    assert KeysNoUpper(AttrWrites(el.attrs));
    ChildrenWritesNoUpper(el.children);
    KeysNoUpperAppend(AttrWrites(el.attrs), ChildrenWrites(el.children));
    forall k | k in Properties(el)
      ensures Utils.NoUpper(k)
    {
      ApplyKeys(map[], ws, k);
    }
  }

  // ---------------------------------------------------------------------
  // Keys that children leak into the properties

  /** A child tagged `{uri}local`, with no '}' in `uri`, is keyed by the converted `local`. */
  lemma ChildKeyOf(child: Element, uri: string, local: string)
    requires child.tag == "{" + uri + "}" + local && '}' !in uri
    ensures ChildKey(child) == Utils.ToCamelCase(local)
  {
    Utils.NamespaceTagBraced(uri, local);
  }

  lemma DescLocal(uri: string, local: string)
    requires uri == Utils.DidlLiteUri && local == "desc"
    ensures DescTag == "{" + uri + "}" + local && '}' !in uri && Utils.NoUpper(local)
  {
    Utils.NoBraceInUpnpUris();
  }

  /** A `desc` child is keyed `desc`, like any other child that is not a `res` one. */
  lemma DescChildKey(child: Element)
    requires child.tag == DescTag
    ensures ChildKey(child) == "desc"
  {
    var uri, local := Utils.DidlLiteUri, "desc";
    DescLocal(uri, local);
    ChildKeyOf(child, uri, local);
    Utils.ToCamelCaseNoUpper(local);
  }

  /** A child's attributes are written under keys longer than the child's own key. */
  lemma ChildAttrKeysLonger(key: string, attrs: Attrs)
    ensures forall i :: 0 <= i < |ChildAttrWrites(key, attrs)| ==> |ChildAttrWrites(key, attrs)[i].0| > |key|
  {
    ChildAttrWritesSpec(key, attrs);
  }

  /**
   * The text of the last child, unless it is a `res` child, is the value of
   * its key among the properties (the key `resources` is replaced by the
   * resource list): no later write touches that key.
   */
  lemma LastChildText(el: Element)
    requires el.children != []
    requires el.children[|el.children| - 1].tag != ResTag
    requires ChildKey(el.children[|el.children| - 1]) != "resources"
    ensures var last := el.children[|el.children| - 1];
      ChildKey(last) in Properties(el) && Properties(el)[ChildKey(last)] == last.text
  {
    var last := el.children[|el.children| - 1];
    var front := el.children[..|el.children| - 1];
    var key := ChildKey(last);
    assert el.children == front + [last];
    var before := AttrWrites(el.attrs) + ChildrenWrites(front);
    var tail := ChildAttrWrites(key, last.attrs);
    assert Writes(el) == before + ([(key, last.text)] + tail);
    ChildAttrKeysLonger(key, last.attrs);
    var ws := Writes(el);
    forall j | |before| < j < |ws|
      ensures ws[j].0 != key
    {
      assert ws[j] == tail[j - |before| - 1];
    }
    ApplyLastWrite(map[], ws, |before|);
  }

  /**
   * A nested `desc` element also leaks into the properties: when it is the
   * last child, its text is stored under the key `desc`.
   */
  lemma DescLeaksAsKey(el: Element)
    requires el.children != [] && el.children[|el.children| - 1].tag == DescTag
    ensures "desc" in Properties(el) && Properties(el)["desc"] == el.children[|el.children| - 1].text
  {
    DescChildKey(el.children[|el.children| - 1]);
    LastChildText(el);
  }

  // ---------------------------------------------------------------------
  // Resources and descriptors

  /** The `res` children, each read with `Resource.from_xml`. */
  function ResourcesOf(el: Element): Result<seq<Resource>, Error>
  {
    Collect(FindAll(el.children, ResTag), ResourceFromXml)
  }

  /** The `desc` children, each read with `Descriptor.from_xml`. */
  function DescriptorsOf(el: Element): Result<seq<Descriptor>, Error>
  {
    Collect(FindAll(el.children, DescTag), DescriptorFromXml)
  }

  /** Reading resources fails only for a `res` child without `protocolInfo`. */
  lemma ResourcesOfError(el: Element)
    requires ResourcesOf(el).Err?
    ensures ResourcesOf(el).error == KeyError("protocolInfo")
    ensures exists c :: c in el.children && c.tag == ResTag && Get(c.attrs, "protocolInfo").None?
  {
    var i := CollectFirstError(FindAll(el.children, ResTag), ResourceFromXml);
  }

  // ---------------------------------------------------------------------
  // Objects

  /**
   * The classes reading can produce: the lookup of a class by its class
   * string (`type_by_upnp_class`) and, for each class, the class string and
   * keyed definitions its initializer uses.
   */
  datatype Registry = Registry(lookup: string -> Option<Kind>, upnpClass: Kind -> string, defs: Kind -> seq<KeyedDef>)

  /** The library's own classes. */
  const Library: Registry := Registry(KindByClass, UpnpClass, KindDefs)

  lemma LibraryClasses()
    ensures forall c :: Library.lookup(c) == KindByClass(c)
    ensures forall k :: Library.upnpClass(k) == UpnpClass(k) && Library.defs(k) == KindDefs(k)
  {
  }

  /** What the lookup finds has the class string looked for. */
  ghost predicate LookupSound(reg: Registry)
  {
    forall c :: reg.lookup(c).Some? ==> reg.upnpClass(reg.lookup(c).value) == c
  }

  /** Every class string is non-empty and finds that very class. */
  ghost predicate LookupComplete(reg: Registry)
  {
    forall k :: reg.upnpClass(k) != "" && reg.lookup(reg.upnpClass(k)) == Some(k)
  }

  /** The library's lookup is sound and complete. */
  lemma LibraryLookup()
    ensures LookupSound(Library) && LookupComplete(Library)
  {
    LibraryClasses();
    forall c | KindByClass(c).Some?
      ensures UpnpClass(KindByClass(c).value) == c
    {
      KindByClassExact(c);
    }
    forall k
      ensures UpnpClass(k) != "" && KindByClass(UpnpClass(k)) == Some(k)
    {
      ClassNotEmpty(k);
      KindByClassFinds(k);
    }
  }

  /**
   * `DidlObject.from_xml` for `kind`: the properties, then the resources,
   * then the descriptors, then `cls(descriptors=..., **properties)`.
   */
  function FromXmlBase(reg: Registry, kind: Kind, el: Element): Result<DidlObject, Error>
  {
    var rs := ResourcesOf(el);
    if rs.Err? then Err(rs.error)
    else
      var ds := DescriptorsOf(el);
      if ds.Err? then Err(ds.error)
      else Build(kind, reg.upnpClass(kind), reg.defs(kind), Properties(el), rs.value, ds.value)
  }

  /**
   * The kind `from_xml_el` reads a child as: none unless the child is an
   * `item` or `container` whose first `upnp:class` child has a non-empty
   * text naming a kind.
   */
  function ChildKind(reg: Registry, child: Element): Option<Kind>
  {
    if child.tag != ItemTag && child.tag != ContainerTag then None
    else
      var cls := Find(child.children, ClassTag);
      if cls.None? || cls.value.text.None? || cls.value.text.value == "" then None
      else reg.lookup(cls.value.text.value)
  }

  /** `from_xml` of `kind`, with `Container.from_xml` adding the children read by `from_xml_el`. */
  function ParseObject(reg: Registry, kind: Kind, el: Element): Result<DidlObject, Error>
    decreases el, 2
  {
    var base := FromXmlBase(reg, kind, el);
    if base.Err? || !IsContainer(kind) then base
    else
      var members := ParseNodes(reg, el);
      if members.Err? then Err(members.error)
      else Ok(base.value.(members := members.value))
  }

  /** `from_xml_el`: the objects of the children, in order, then the descriptors. */
  function ParseNodes(reg: Registry, el: Element): Result<seq<Node>, Error>
    decreases el, 1
  {
    var objects := ParseItems(reg, el, |el.children|);
    if objects.Err? then objects
    else
      var ds := DescriptorsOf(el);
      if ds.Err? then Err(ds.error)
      else Ok(objects.value + DescNodes(ds.value))
  }

  /** The objects read from the first `n` children. */
  function ParseItems(reg: Registry, el: Element, n: nat): Result<seq<Node>, Error>
    requires n <= |el.children|
    decreases el, 0, n
  {
    if n == 0 then Ok([])
    else
      var front := ParseItems(reg, el, n - 1);
      if front.Err? then front
      else
        var child := el.children[n - 1];
        var kind := ChildKind(reg, child);
        if kind.None? then front
        else
          var o := ParseObject(reg, kind.value, child);
          if o.Err? then Err(o.error) else Ok(front.value + [Obj(o.value)])
  }

  /** Descriptors as nodes. */
  function DescNodes(ds: seq<Descriptor>): (r: seq<Node>)
    ensures |r| == |ds| && forall i :: 0 <= i < |ds| ==> r[i] == Desc(ds[i])
  {
    if ds == [] then [] else [Desc(ds[0])] + DescNodes(ds[1..])
  }

  /**
   * A child read as an object of kind `k` is an `item` or `container` whose
   * first `upnp:class` child has the class string of `k` as its text.
   */
  lemma ChildKindSpec(reg: Registry, child: Element)
    requires LookupSound(reg)
    requires ChildKind(reg, child).Some?
    ensures child.tag == ItemTag || child.tag == ContainerTag
    ensures Find(child.children, ClassTag).Some?
    ensures Find(child.children, ClassTag).value.text == Some(reg.upnpClass(ChildKind(reg, child).value))
  {
  }

  /**
   * An `item` or `container` whose first `upnp:class` child has the class
   * string of some kind as its text is read as an object of that kind.
   */
  lemma ChildKindFinds(reg: Registry, child: Element, k: Kind)
    requires LookupSound(reg) && LookupComplete(reg)
    requires child.tag == ItemTag || child.tag == ContainerTag
    requires Find(child.children, ClassTag).Some?
    requires Find(child.children, ClassTag).value.text == Some(reg.upnpClass(k))
    ensures ChildKind(reg, child) == Some(k)
  {
  }

  /** A child whose class text names no kind is skipped. */
  lemma ChildKindUnknown(child: Element)
    requires Find(child.children, ClassTag).Some? && Find(child.children, ClassTag).value.text.Some?
    requires forall k :: UpnpClass(k) != Find(child.children, ClassTag).value.text.value
    ensures ChildKind(Library, child).None?
  {
    LibraryClasses();
    KindByClassNone(Find(child.children, ClassTag).value.text.value);
  }

  /** The children `from_xml_el` reads as objects, each with its kind, in order. */
  function Selected(reg: Registry, children: seq<Element>): seq<(Element, Kind)>
  {
    if children == [] then []
    else
      var c := children[|children| - 1];
      var k := ChildKind(reg, c);
      Selected(reg, children[..|children| - 1]) + if k.Some? then [(c, k.value)] else []
  }

  /** The selected children are children of the element, read with their kinds. */
  lemma {:induction false} SelectedSpec(reg: Registry, children: seq<Element>)
    ensures |Selected(reg, children)| <= |children|
    ensures forall i :: 0 <= i < |Selected(reg, children)| ==>
      Selected(reg, children)[i].0 in children && ChildKind(reg, Selected(reg, children)[i].0) == Some(Selected(reg, children)[i].1)
    ensures forall c :: c in children && ChildKind(reg, c).Some? ==> (c, ChildKind(reg, c).value) in Selected(reg, children)
  {
    if children != [] {
      var front := children[..|children| - 1];
      SelectedSpec(reg, front);
      assert children == front + [children[|children| - 1]];
    }
  }

  /** Reading each selected child as its kind, in order, stopping at the first error. */
  function ReadAll(reg: Registry, sel: seq<(Element, Kind)>): Result<seq<Node>, Error>
  {
    if sel == [] then Ok([])
    else
      var front := ReadAll(reg, sel[..|sel| - 1]);
      if front.Err? then front
      else
        var p := sel[|sel| - 1];
        var o := ParseObject(reg, p.1, p.0);
        if o.Err? then Err(o.error) else Ok(front.value + [Obj(o.value)])
  }

  /** A successful reading gives one object per selected child, read with its kind. */
  lemma {:induction false} ReadAllSpec(reg: Registry, sel: seq<(Element, Kind)>)
    requires ReadAll(reg, sel).Ok?
    ensures |ReadAll(reg, sel).value| == |sel|
    ensures forall i :: 0 <= i < |sel| ==>
      ParseObject(reg, sel[i].1, sel[i].0).Ok? && ReadAll(reg, sel).value[i] == Obj(ParseObject(reg, sel[i].1, sel[i].0).value)
  {
    if sel != [] {
      var front := sel[..|sel| - 1];
      var p := sel[|sel| - 1];
      ReadAllSpec(reg, front);
      var objects := ReadAll(reg, front).value;
      var o := ParseObject(reg, p.1, p.0);
      assert o.Ok?;
      assert ReadAll(reg, sel).value == objects + [Obj(o.value)];
      forall i | 0 <= i < |sel|
        ensures ParseObject(reg, sel[i].1, sel[i].0).Ok? && ReadAll(reg, sel).value[i] == Obj(ParseObject(reg, sel[i].1, sel[i].0).value)
      {
        if i < |front| {
          assert sel[i] == front[i];
          assert ParseObject(reg, front[i].1, front[i].0).Ok?;
          assert objects[i] == Obj(ParseObject(reg, front[i].1, front[i].0).value);
          assert ReadAll(reg, sel).value[i] == objects[i];
        } else {
          assert |front| == |sel| - 1;
          assert i == |sel| - 1;
          assert sel[i] == p;
        }
      }
    }
  }

  lemma SelectedSnoc(reg: Registry, children: seq<Element>, n: nat)
    requires 0 < n <= |children|
    ensures var c := children[n - 1];
      Selected(reg, children[..n]) ==
        Selected(reg, children[..n - 1]) + if ChildKind(reg, c).Some? then [(c, ChildKind(reg, c).value)] else []
  {
    assert children[..n][..n - 1] == children[..n - 1];
  }

  lemma ReadAllSnoc(reg: Registry, sel: seq<(Element, Kind)>, p: (Element, Kind))
    ensures ReadAll(reg, sel + [p]) ==
      if ReadAll(reg, sel).Err? then ReadAll(reg, sel)
      else if ParseObject(reg, p.1, p.0).Err? then Err(ParseObject(reg, p.1, p.0).error)
      else Ok(ReadAll(reg, sel).value + [Obj(ParseObject(reg, p.1, p.0).value)])
  {
    assert (sel + [p])[..|sel|] == sel;
  }

  /** The objects of the first `n` children are the selected children, each read as its kind. */
  lemma {:induction false} ParseItemsSelected(reg: Registry, el: Element, n: nat)
    requires n <= |el.children|
    ensures ParseItems(reg, el, n) == ReadAll(reg, Selected(reg, el.children[..n]))
  {
    if n > 0 {
      ParseItemsSelected(reg, el, n - 1);
      SelectedSnoc(reg, el.children, n);
      var c := el.children[n - 1];
      if ChildKind(reg, c).Some? {
        ReadAllSnoc(reg, Selected(reg, el.children[..n - 1]), (c, ChildKind(reg, c).value));
      } else {
        assert Selected(reg, el.children[..n]) == Selected(reg, el.children[..n - 1]);
      }
    }
  }

  /**
   * `from_xml_el` gives an object for every selected child, in order, then
   * a descriptor for every `desc` child, in order.
   */
  lemma ParseNodesShape(reg: Registry, el: Element)
    requires ParseNodes(reg, el).Ok?
    ensures var nodes, sel, descs := ParseNodes(reg, el).value, Selected(reg, el.children), FindAll(el.children, DescTag);
      && |nodes| == |sel| + |descs|
      && (forall i :: 0 <= i < |sel| ==> nodes[i].Obj? && ParseObject(reg, sel[i].1, sel[i].0) == Ok(nodes[i].obj))
      && (forall i :: 0 <= i < |descs| ==>
            nodes[|sel|..][i].Desc? && DescriptorFromXml(descs[i]) == Ok(nodes[|sel|..][i].desc))
  {
    ParseNodesObjects(reg, el);
    ParseNodesDescriptors(reg, el);
  }

  lemma ParseNodesObjects(reg: Registry, el: Element)
    requires ParseNodes(reg, el).Ok?
    ensures var nodes, sel := ParseNodes(reg, el).value, Selected(reg, el.children);
      && |nodes| == |sel| + |FindAll(el.children, DescTag)|
      && forall i :: 0 <= i < |sel| ==> nodes[i].Obj? && ParseObject(reg, sel[i].1, sel[i].0) == Ok(nodes[i].obj)
  {
    var objects := ParseItems(reg, el, |el.children|).value;
    var ds := DescriptorsOf(el).value;
    ParseItemsRead(reg, el);
    DescriptorsRead(el);
    NodesConcat(objects, DescNodes(ds));
  }

  lemma ParseNodesDescriptors(reg: Registry, el: Element)
    requires ParseNodes(reg, el).Ok?
    ensures var nodes, sel, descs := ParseNodes(reg, el).value, Selected(reg, el.children), FindAll(el.children, DescTag);
      |nodes| == |sel| + |descs| &&
      forall i :: 0 <= i < |descs| ==>
        nodes[|sel|..][i].Desc? && DescriptorFromXml(descs[i]) == Ok(nodes[|sel|..][i].desc)
  {
    var objects := ParseItems(reg, el, |el.children|).value;
    ParseItemsLength(reg, el);
    DescriptorsRead(el);
    var ds := DescriptorsOf(el).value;
    DescriptorsAfter(ParseNodes(reg, el).value, objects, ds, FindAll(el.children, DescTag), |Selected(reg, el.children)|);
  }

  lemma DescriptorsAfter(nodes: seq<Node>, objects: seq<Node>, ds: seq<Descriptor>, descs: seq<Element>, k: nat)
    requires nodes == objects + DescNodes(ds) && k == |objects|
    requires |ds| == |descs| && forall i :: 0 <= i < |descs| ==> DescriptorFromXml(descs[i]) == Ok(ds[i])
    ensures |nodes| == k + |descs| && |nodes[k..]| == |descs|
    ensures forall i :: 0 <= i < |descs| ==> nodes[k..][i].Desc? && DescriptorFromXml(descs[i]) == Ok(nodes[k..][i].desc)
  {
    var rest := nodes[k..];
    assert rest == DescNodes(ds);
    forall i | 0 <= i < |descs|
      ensures rest[i].Desc? && DescriptorFromXml(descs[i]) == Ok(rest[i].desc)
    {
      assert rest[i] == Desc(ds[i]);
    }
  }

  /** The objects `from_xml_el` reads are those of the selected children, in order. */
  lemma ParseItemsRead(reg: Registry, el: Element)
    requires ParseItems(reg, el, |el.children|).Ok?
    ensures var objects, sel := ParseItems(reg, el, |el.children|).value, Selected(reg, el.children);
      && |objects| == |sel|
      && forall i :: 0 <= i < |sel| ==> objects[i].Obj? && ParseObject(reg, sel[i].1, sel[i].0) == Ok(objects[i].obj)
  {
    assert el.children[..|el.children|] == el.children;
    ParseItemsSelected(reg, el, |el.children|);
    ReadAllSpec(reg, Selected(reg, el.children));
  }

  lemma ParseItemsLength(reg: Registry, el: Element)
    requires ParseItems(reg, el, |el.children|).Ok?
    ensures |ParseItems(reg, el, |el.children|).value| == |Selected(reg, el.children)|
  {
    ParseItemsRead(reg, el);
  }

  /** The descriptors `from_xml_el` reads are those of the `desc` children, in order. */
  lemma DescriptorsRead(el: Element)
    requires DescriptorsOf(el).Ok?
    ensures var ds, descs := DescriptorsOf(el).value, FindAll(el.children, DescTag);
      && |ds| == |descs|
      && forall i :: 0 <= i < |descs| ==> DescriptorFromXml(descs[i]) == Ok(ds[i])
  {
    CollectOk(FindAll(el.children, DescTag), DescriptorFromXml);
  }

  lemma NodesConcat(a: seq<Node>, b: seq<Node>)
    ensures forall i :: 0 <= i < |a| ==> (a + b)[i] == a[i]
  {
  }

  /**
   * An object read by `from_xml` has the kind asked for, that kind's
   * definitions and class string, every property read from the element
   * (except `class`), the `res` and `desc` children read in order, and, for
   * a container, the objects read from its children.
   */
  lemma ParseObjectSpec(reg: Registry, kind: Kind, el: Element)
    requires ParseObject(reg, kind, el).Ok?
    ensures var o, props := ParseObject(reg, kind, el).value, Properties(el);
      && o.kind == kind && o.defs == reg.defs(kind)
      && o.slots["class"] == Some(reg.upnpClass(kind))
      && (forall k :: k in props && k != "class" ==> k in o.slots && o.slots[k] == props[k])
      && Ok(o.resources) == ResourcesOf(el) && Ok(o.descriptors) == DescriptorsOf(el)
      && (IsContainer(kind) ==> Ok(o.members) == ParseNodes(reg, el))
      && (!IsContainer(kind) ==> o.members == [])
  {
    var rs, ds := ResourcesOf(el).value, DescriptorsOf(el).value;
    BuildSlots(kind, reg.upnpClass(kind), reg.defs(kind), Properties(el), rs, ds);
  }

  /** The errors reading may raise: a missing attribute, a duplicate keyword, or a missing property. */
  predicate ReadError(e: Error)
  {
    e == KeyError("protocolInfo") || e == KeyError("id") || e == KeyError("nameSpace") ||
    e == DuplicateArgument("descriptors") || e == DuplicateArgument("self") || e.Mandatory?
  }

  lemma DescriptorsOfError(el: Element)
    requires DescriptorsOf(el).Err?
    ensures DescriptorsOf(el).error == KeyError("id") || DescriptorsOf(el).error == KeyError("nameSpace")
  {
    var i := CollectFirstError(FindAll(el.children, DescTag), DescriptorFromXml);
  }

  lemma FromXmlBaseError(reg: Registry, kind: Kind, el: Element)
    requires FromXmlBase(reg, kind, el).Err?
    ensures ReadError(FromXmlBase(reg, kind, el).error)
  {
    if ResourcesOf(el).Err? {
      ResourcesOfError(el);
    } else if DescriptorsOf(el).Err? {
      DescriptorsOfError(el);
    } else {
      var rs, ds := ResourcesOf(el).value, DescriptorsOf(el).value;
      BuildError(kind, reg.upnpClass(kind), reg.defs(kind), Properties(el), rs, ds);
    }
  }

  /** Reading never raises a ValueError or an AttributeError; its errors are `ReadError`s. */
  lemma {:induction false} ParseObjectError(reg: Registry, kind: Kind, el: Element)
    requires ParseObject(reg, kind, el).Err?
    ensures ReadError(ParseObject(reg, kind, el).error)
    decreases el, 2
  {
    if FromXmlBase(reg, kind, el).Err? {
      FromXmlBaseError(reg, kind, el);
    } else {
      ParseNodesError(reg, el);
    }
  }

  lemma {:induction false} ParseNodesError(reg: Registry, el: Element)
    requires ParseNodes(reg, el).Err?
    ensures ReadError(ParseNodes(reg, el).error)
    decreases el, 1
  {
    if ParseItems(reg, el, |el.children|).Err? {
      ParseItemsError(reg, el, |el.children|);
    } else {
      DescriptorsOfError(el);
    }
  }

  lemma {:induction false} ParseItemsError(reg: Registry, el: Element, n: nat)
    requires n <= |el.children|
    requires ParseItems(reg, el, n).Err?
    ensures ReadError(ParseItems(reg, el, n).error)
    decreases el, 0, n
  {
    if ParseItems(reg, el, n - 1).Err? {
      ParseItemsError(reg, el, n - 1);
    } else {
      var child := el.children[n - 1];
      ParseObjectError(reg, ChildKind(reg, child).value, child);
    }
  }

  // ---------------------------------------------------------------------
  // The loops of `from_xml` and `from_xml_el`

  lemma ApplySnoc(m: Slots, ws: seq<Write>, w: Write)
    ensures Apply(m, ws + [w]) == Apply(m, ws)[w.0 := w.1]
  {
    assert (ws + [w])[..|ws|] == ws;
  }

  lemma ChildrenWritesSnoc(children: seq<Element>, j: nat)
    requires j < |children|
    ensures ChildrenWrites(children[..j + 1]) ==
      ChildrenWrites(children[..j]) + if children[j].tag == ResTag then [] else ChildWrites(children[j])
  {
    assert children[..j + 1][..j] == children[..j];
  }

  /** The property loops of `from_xml`: the attributes, then each child other than `res`. */
  method ReadProperties(el: Element) returns (props: Slots)
    ensures props == Apply(map[], Writes(el))
  {
    var attributes := ReadAttributes(el.attrs);
    props := ReadChildren(attributes, el.children);
    ApplyAppend(map[], AttrWrites(el.attrs), ChildrenWrites(el.children));
  }

  /** `properties[to_camel_case(name)] = value` for each attribute. */
  method ReadAttributes(attrs: Attrs) returns (props: Slots)
    ensures props == Apply(map[], AttrWrites(attrs))
  {
    props := map[];
    var i := 0;
    while i < |attrs|
      invariant 0 <= i <= |attrs|
      invariant props == Apply(map[], AttrWrites(attrs[..i]))
    {
      var w := (Utils.ToCamelCase(attrs[i].0), Some(attrs[i].1));
      assert attrs[..i + 1][..i] == attrs[..i];
      ApplySnoc(map[], AttrWrites(attrs[..i]), w);
      props := props[w.0 := w.1];
      i := i + 1;
    }
    assert attrs[..i] == attrs;
  }

  /** The loop over the children: every child but a `res` one writes its properties. */
  method ReadChildren(start: Slots, children: seq<Element>) returns (props: Slots)
    ensures props == Apply(start, ChildrenWrites(children))
  {
    props := start;
    var j := 0;
    while j < |children|
      invariant 0 <= j <= |children|
      invariant props == Apply(start, ChildrenWrites(children[..j]))
    {
      ReadChildrenStep(start, children, j);
      if children[j].tag != ResTag {
        props := ReadChild(props, children[j]);
      }
      j := j + 1;
    }
    assert children[..j] == children;
  }

  lemma ReadChildrenStep(start: Slots, children: seq<Element>, j: nat)
    requires j < |children|
    ensures var before := Apply(start, ChildrenWrites(children[..j]));
      Apply(start, ChildrenWrites(children[..j + 1])) ==
        if children[j].tag == ResTag then before else Apply(before, ChildWrites(children[j]))
  {
    ChildrenWritesSnoc(children, j);
    if children[j].tag != ResTag {
      ApplyAppend(start, ChildrenWrites(children[..j]), ChildWrites(children[j]));
    } else {
      assert ChildrenWrites(children[..j + 1]) == ChildrenWrites(children[..j]);
    }
  }

  lemma ChildAttrWritesSnoc(key: string, text: Option<string>, attrs: Attrs, m: nat)
    requires m < |attrs|
    ensures [(key, text)] + ChildAttrWrites(key, attrs[..m + 1]) ==
      ([(key, text)] + ChildAttrWrites(key, attrs[..m])) + [(key + "_" + Utils.ToCamelCase(attrs[m].0), Some(attrs[m].1))]
  {
    assert attrs[..m + 1][..m] == attrs[..m];
  }

  /** One child of `from_xml`: its text under its key, then its attributes under the key joined by '_'. */
  method ReadChild(start: Slots, child: Element) returns (props: Slots)
    ensures props == Apply(start, ChildWrites(child))
  {
    var key := Utils.ToCamelCase(Utils.NamespaceTag(child.tag).1);
    ApplySnoc(start, [], (key, child.text));
    props := start[key := child.text];
    var m := 0;
    while m < |child.attrs|
      invariant 0 <= m <= |child.attrs|
      invariant props == Apply(start, [(key, child.text)] + ChildAttrWrites(key, child.attrs[..m]))
    {
      var w := (key + "_" + Utils.ToCamelCase(child.attrs[m].0), Some(child.attrs[m].1));
      ChildAttrWritesSnoc(key, child.text, child.attrs, m);
      ApplySnoc(start, [(key, child.text)] + ChildAttrWrites(key, child.attrs[..m]), w);
      props := props[w.0 := w.1];
      m := m + 1;
    }
    assert child.attrs[..m] == child.attrs;
  }

  /** Once the objects of a prefix of the children fail to read, reading fails with that error. */
  lemma {:induction false} ParseItemsPrefixError(reg: Registry, el: Element, n: nat)
    requires n <= |el.children| && ParseItems(reg, el, n).Err?
    ensures ParseItems(reg, el, |el.children|) == ParseItems(reg, el, n)
    decreases |el.children| - n
  {
    if n < |el.children| {
      ParseItemsPrefixError(reg, el, n + 1);
    }
  }

  /**
   * `DidlObject.from_xml` of the class of `kind` in `reg`: the properties,
   * the resources and the descriptors, then `cls(descriptors=..., **properties)`.
   */
  method DidlObjectFromXml(reg: Registry, kind: Kind, el: Element) returns (r: Result<DidlObject, Error>)
    ensures r == FromXmlBase(reg, kind, el)
  {
    var props := ReadProperties(el);
    var resources := CollectLoop(FindAll(el.children, ResTag), ResourceFromXml);
    if resources.Err? {
      return Err(resources.error);
    }
    var descriptors := CollectLoop(FindAll(el.children, DescTag), DescriptorFromXml);
    if descriptors.Err? {
      return Err(descriptors.error);
    }
    r := Init(kind, reg.upnpClass(kind), reg.defs(kind), props - {"resources"}, resources.value, descriptors.value);
  }

  /**
   * `from_xml` of the class of `kind` in `reg`; for a container,
   * `Container.from_xml` adds the objects `from_xml_el` reads from the
   * element.
   */
  method FromXml(reg: Registry, kind: Kind, el: Element) returns (r: Result<DidlObject, Error>)
    ensures r == ParseObject(reg, kind, el)
    decreases el, 3
  {
    r := DidlObjectFromXml(reg, kind, el);
    if r.Err? || !IsContainer(kind) {
      return;
    }
    var members := FromXmlEl(reg, el);
    if members.Err? {
      return Err(members.error);
    }
    r := Ok(r.value.(members := members.value));
  }

  /**
   * The class `from_xml_el` reads a child as: the child must be an `item`
   * or `container`, and its first `upnp:class` child must have a non-empty
   * text that the lookup finds.
   */
  method ChildType(reg: Registry, child: Element) returns (kind: Option<Kind>)
    ensures kind == ChildKind(reg, child)
  {
    if child.tag != ItemTag && child.tag != ContainerTag {
      return None;
    }
    var cls := Find(child.children, ClassTag);
    if cls.None? || cls.value.text.None? || cls.value.text.value == "" {
      return None;
    }
    kind := reg.lookup(cls.value.text.value);
  }

  lemma ParseItemsNext(reg: Registry, el: Element, i: nat)
    requires i < |el.children| && ParseItems(reg, el, i).Ok?
    ensures var child, kind := el.children[i], ChildKind(reg, el.children[i]);
      ParseItems(reg, el, i + 1) ==
        if kind.None? then ParseItems(reg, el, i)
        else if ParseObject(reg, kind.value, child).Err? then Err(ParseObject(reg, kind.value, child).error)
        else Ok(ParseItems(reg, el, i).value + [Obj(ParseObject(reg, kind.value, child).value)])
  {
  }

  /** One turn of the loop of `from_xml_el`: child `i` read as an object, or skipped. */
  method ReadChildObject(reg: Registry, el: Element, i: nat, nodes: seq<Node>) returns (r: Result<seq<Node>, Error>)
    requires i < |el.children| && ParseItems(reg, el, i) == Ok(nodes)
    ensures r == ParseItems(reg, el, i + 1)
    decreases el, 0
  {
    var child := el.children[i];
    ParseItemsNext(reg, el, i);
    var kind := ChildType(reg, child);
    if kind.None? {
      return Ok(nodes);
    }
    var o := FromXml(reg, kind.value, child);
    if o.Err? {
      return Err(o.error);
    }
    return Ok(nodes + [Obj(o.value)]);
  }

  /** The loop of `from_xml_el` over the children, leaving with the first exception raised. */
  method ReadChildObjects(reg: Registry, el: Element) returns (r: Result<seq<Node>, Error>)
    ensures r == ParseItems(reg, el, |el.children|)
    decreases el, 1
  {
    r := Ok([]);
    var i := 0;
    while i < |el.children| && r.Ok?
      invariant 0 <= i <= |el.children|
      invariant r == ParseItems(reg, el, i)
    {
      r := ReadChildObject(reg, el, i, r.value);
      i := i + 1;
    }
    if r.Err? {
      ParseItemsPrefixError(reg, el, i);
    }
  }

  /** `from_xml_el`: the items and containers of known class, in order, then the descriptors. */
  method FromXmlEl(reg: Registry, el: Element) returns (r: Result<seq<Node>, Error>)
    ensures r == ParseNodes(reg, el)
    decreases el, 2
  {
    var objects := ReadChildObjects(reg, el);
    if objects.Err? {
      return objects;
    }
    var descriptors := CollectLoop(FindAll(el.children, DescTag), DescriptorFromXml);
    if descriptors.Err? {
      return Err(descriptors.error);
    }
    return Ok(objects.value + DescNodes(descriptors.value));
  }

  /** `from_xml_el` with the library's own classes, looked up by `type_by_upnp_class`. */
  method FromXmlElement(el: Element) returns (r: Result<seq<Node>, Error>)
    ensures r == ParseNodes(Library, el)
  {
    r := FromXmlEl(Library, el);
  }
}
