/**
 * Writing objects as elements: `DidlObject.to_xml`, `Container.to_xml` and
 * the element `to_xml_string` serialises.
 *
 * `to_xml` makes the object's element, then goes twice over the property
 * definitions. The first pass appends a child element for every set
 * property whose location has no '@' and records it in the `elements` dict
 * under its location (the dict starts with `''` for the object's own
 * element). The second pass sets every set property whose location is
 * `el@attr` as attribute `attr` of `elements[el]`. The resources, the
 * descriptors and, for a container, the members follow as children.
 *
 * The dict maps a location to the element itself, so setting an attribute
 * changes the child already appended; the model records the child's index
 * instead and updates the child in place in the sequence.
 */
module Render {
  import opened Wrappers
  import opened Errors
  import Utils
  import opened Collecting
  import opened ElementTree
  import opened Resources
  import opened Kinds
  import opened Objects

  // ---------------------------------------------------------------------
  // The element under construction

  /** An entry of the `elements` dict: the object's own element, or its `index`-th property child. */
  datatype Target = Own | Child(index: nat)

  /**
   * The object's element while `to_xml` builds it: its attributes, the
   * property children appended so far, and the `elements` dict.
   */
  datatype Draft = Draft(attrs: Attrs, children: seq<Element>, elements: map<string, Target>)

  /** `item_el = ET.Element(self.tag)` and `elements = {'': item_el}`. */
  const Start: Draft := Draft([], [], map["" := Own])

  /** Every entry of the dict names the own element or a child already appended. */
  predicate Coherent(d: Draft)
  {
    forall l :: l in d.elements && d.elements[l].Child? ==> d.elements[l].index < |d.children|
  }

  /** Distinct locations name distinct elements. */
  ghost predicate Injective(d: Draft)
  {
    forall l, m :: l in d.elements && m in d.elements && l != m ==> d.elements[l] != d.elements[m]
  }

  /** Attribute `name` of the element `t` names. */
  function AttrOf(d: Draft, t: Target, name: string): Option<string>
  {
    match t
      case Own => Get(d.attrs, name)
      case Child(i) => if i < |d.children| then Get(d.children[i].attrs, name) else None
  }

  /** `property_el.attrib[name] = value` on the element `t` names. */
  function SetAttr(d: Draft, t: Target, name: string, value: string): (r: Draft)
    requires t.Child? ==> t.index < |d.children|
    ensures AttrOf(r, t, name) == Some(value)
    ensures forall u, n :: u != t || n != name ==> AttrOf(r, u, n) == AttrOf(d, u, n)
  {
    match t
      case Own => SetOwnAttr(d, name, value)
      case Child(i) => SetChildAttr(d, i, name, value)
  }

  function SetOwnAttr(d: Draft, name: string, value: string): (r: Draft)
    ensures AttrOf(r, Own, name) == Some(value)
    ensures forall u, n :: u != Own || n != name ==> AttrOf(r, u, n) == AttrOf(d, u, n)
  {
    d.(attrs := Set(d.attrs, name, value))
  }

  function SetChildAttr(d: Draft, i: nat, name: string, value: string): (r: Draft)
    requires i < |d.children|
    ensures AttrOf(r, Child(i), name) == Some(value)
    ensures forall u, n :: u != Child(i) || n != name ==> AttrOf(r, u, n) == AttrOf(d, u, n)
  {
    d.(children := d.children[i := d.children[i].(attrs := Set(d.children[i].attrs, name, value))])
  }

  /** The attribute pairs of the element `t` names. */
  function PairsOf(d: Draft, t: Target): Attrs
  {
    match t
      case Own => d.attrs
      case Child(i) => if i < |d.children| then d.children[i].attrs else []
  }

  /** Setting an attribute adds no pair but the one set, and only to `t`. */
  lemma SetAttrPairs(d: Draft, t: Target, name: string, value: string)
    requires t.Child? ==> t.index < |d.children|
    ensures forall u, p :: p in PairsOf(SetAttr(d, t, name, value), u) ==>
      p in PairsOf(d, u) || (u == t && p == (name, value))
  {
    SetPairs(PairsOf(d, t), name, value);
  }

  /**
   * The second draft differs from the first only in attributes: same dict,
   * same number of children, each with the same tag, text and children.
   */
  ghost predicate Kept(d: Draft, e: Draft)
  {
    && e.elements == d.elements
    && |e.children| == |d.children|
    && forall i :: 0 <= i < |d.children| ==>
         e.children[i].tag == d.children[i].tag && e.children[i].text == d.children[i].text &&
         e.children[i].children == d.children[i].children
  }

  // ---------------------------------------------------------------------
  // The first pass: property elements

  /** A location naming an attribute: it contains '@'. */
  predicate IsAttributeDef(kd: KeyedDef)
  {
    '@' in kd.def.location
  }

  /** The child written for a property: tag `alias:location` (not expanded), the value as text. */
  function PropertyElement(kd: KeyedDef, value: Option<string>): Element
  {
    Element(kd.def.namespace + ":" + kd.def.location, [], value, [])
  }

  /**
   * One turn of the first loop: `getattr(self, key)` (an AttributeError
   * when the object has no such slot), then nothing for None or `res`,
   * otherwise a new child recorded under the location.
   */
  function EmitStep(d: Draft, kd: KeyedDef, slots: Slots): Result<Draft, Error>
  {
    if IsAttributeDef(kd) then Ok(d)
    else if kd.key !in slots then Err(AttributeError(kd.key))
    else if slots[kd.key].None? || kd.key == "res" then Ok(d)
    else
      Ok(Draft(d.attrs, d.children + [PropertyElement(kd, slots[kd.key])],
               d.elements[kd.def.location := Child(|d.children|)]))
  }

  /** The first loop over `defs`, leaving with the first exception raised. */
  function EmitPass(defs: seq<KeyedDef>, slots: Slots): (r: Result<Draft, Error>)
    ensures r.Ok? ==> Coherent(r.value)
  {
    if defs == [] then Ok(Start)
    else
      var front := EmitPass(defs[..|defs| - 1], slots);
      if front.Err? then front else EmitStep(front.value, defs[|defs| - 1], slots)
  }

  /** A property the first pass writes as a child: not an attribute, present, set, and not `res`. */
  predicate Shows(kd: KeyedDef, slots: Slots)
  {
    !IsAttributeDef(kd) && kd.key in slots && slots[kd.key].Some? && kd.key != "res"
  }

  /** The definitions the first pass writes as children, in order. */
  function Shown(defs: seq<KeyedDef>, slots: Slots): (r: seq<KeyedDef>)
    ensures |r| <= |defs|
    ensures forall i :: 0 <= i < |r| ==> Shows(r[i], slots)
  {
    if defs == [] then []
    else
      var d := defs[|defs| - 1];
      Shown(defs[..|defs| - 1], slots) + if Shows(d, slots) then [d] else []
  }

  /** The shown definitions are exactly the definitions that show, each one from `defs`. */
  lemma {:induction false} ShownSpec(defs: seq<KeyedDef>, slots: Slots)
    ensures forall i :: 0 <= i < |Shown(defs, slots)| ==> Shown(defs, slots)[i] in defs
    ensures forall d :: d in defs && Shows(d, slots) ==> d in Shown(defs, slots)
  {
    if defs != [] {
      var front := defs[..|defs| - 1];
      ShownSpec(front, slots);
      assert defs == front + [defs[|defs| - 1]];
    }
  }

  /**
   * The first pass succeeds exactly when every definition without '@' has
   * a slot.
   */
  lemma {:induction false} EmitPassOk(defs: seq<KeyedDef>, slots: Slots)
    ensures EmitPass(defs, slots).Ok? <==>
      forall i :: 0 <= i < |defs| && !IsAttributeDef(defs[i]) ==> defs[i].key in slots
  {
    if defs != [] {
      var front := defs[..|defs| - 1];
      EmitPassOk(front, slots);
      assert forall i :: 0 <= i < |front| ==> front[i] == defs[i];
    }
  }

  /** A failing first pass reports the first definition without '@' that has no slot. */
  lemma {:induction false} EmitPassError(defs: seq<KeyedDef>, slots: Slots) returns (i: nat)
    requires EmitPass(defs, slots).Err?
    ensures i < |defs| && !IsAttributeDef(defs[i]) && defs[i].key !in slots
    ensures EmitPass(defs, slots).error == AttributeError(defs[i].key)
    ensures forall j :: 0 <= j < i && !IsAttributeDef(defs[j]) ==> defs[j].key in slots
  {
    var front := defs[..|defs| - 1];
    if EmitPass(front, slots).Err? {
      i := EmitPassError(front, slots);
      assert forall j :: 0 <= j <= i ==> front[j] == defs[j];
    } else {
      EmitPassOk(front, slots);
      assert forall j :: 0 <= j < |front| ==> front[j] == defs[j];
      i := |defs| - 1;
    }
  }

  /**
   * After the first pass the own element has no attributes; its children
   * are the shown properties in order, each with tag `alias:location` and
   * the property's value as text; the dict maps `''` to the own element or
   * a location to the child of the last shown property there, and holds
   * the location of every shown property.
   */
  lemma {:induction false} EmitPassShape(defs: seq<KeyedDef>, slots: Slots)
    requires EmitPass(defs, slots).Ok?
    ensures var d, sh := EmitPass(defs, slots).value, Shown(defs, slots);
      && d.attrs == []
      && |d.children| == |sh|
      && (forall i :: 0 <= i < |sh| ==> d.children[i] == PropertyElement(sh[i], slots[sh[i].key]))
      && "" in d.elements
      && (forall l :: l in d.elements && d.elements[l] == Own ==> l == "")
      && (forall l :: l in d.elements && d.elements[l].Child? ==>
            d.elements[l].index < |sh| && sh[d.elements[l].index].def.location == l)
      && (forall i :: 0 <= i < |sh| ==> sh[i].def.location in d.elements)
  {
    if defs != [] {
      var front := defs[..|defs| - 1];
      var last := defs[|defs| - 1];
      EmitPassShape(front, slots);
      var d0, sh0 := EmitPass(front, slots).value, Shown(front, slots);
      if Shows(last, slots) {
        var sh := sh0 + [last];
        assert Shown(defs, slots) == sh;
        var d := EmitPass(defs, slots).value;
        assert d.children == d0.children + [PropertyElement(last, slots[last.key])];
        assert d.elements == d0.elements[last.def.location := Child(|sh0|)];
        forall i | 0 <= i < |sh|
          ensures d.children[i] == PropertyElement(sh[i], slots[sh[i].key])
        {
          if i < |sh0| {
            assert sh[i] == sh0[i];
          }
        }
        forall l | l in d.elements && d.elements[l].Child?
          ensures d.elements[l].index < |sh| && sh[d.elements[l].index].def.location == l
        {
          if l != last.def.location {
            assert sh[d.elements[l].index] == sh0[d.elements[l].index];
          }
        }
      } else {
        assert Shown(defs, slots) == sh0;
      }
    }
  }

  /** After the first pass the dict is coherent and distinct locations name distinct elements. */
  lemma EmitPassInjective(defs: seq<KeyedDef>, slots: Slots)
    requires EmitPass(defs, slots).Ok?
    ensures Coherent(EmitPass(defs, slots).value) && Injective(EmitPass(defs, slots).value)
  {
    EmitPassShape(defs, slots);
  }

  /**
   * No dict entry `res` is ever made when every key is the one
   * `didl_property_def_key` gives: the location `res` is keyed `res`, which
   * the first pass skips.
   */
  lemma {:induction false} EmitPassNoRes(defs: seq<KeyedDef>, slots: Slots)
    requires forall i :: 0 <= i < |defs| ==> defs[i].key == Key(defs[i].def)
    requires EmitPass(defs, slots).Ok?
    ensures "res" !in EmitPass(defs, slots).value.elements
  {
    EmitPassShape(defs, slots);
    ShownSpec(defs, slots);
    var d, sh := EmitPass(defs, slots).value, Shown(defs, slots);
    if "res" in d.elements {
      var kd := sh[d.elements["res"].index];
      var j :| 0 <= j < |defs| && defs[j] == kd;
      ResKey(kd.def);
    }
  }

  /** The location `res` is keyed `res`. */
  lemma ResKey(def: PropertyDef)
    requires def.location == "res"
    ensures Key(def) == "res"
  {
    Utils.DidlPropertyDefKeyPlain("res");
    Utils.ToCamelCaseNoUpper("res");
  }

  // ---------------------------------------------------------------------
  // The second pass: attributes

  /**
   * `location.split('@')` unpacked into two names: a ValueError unless the
   * location holds exactly one '@'.
   */
  function SplitAt(location: string): (r: Result<(string, string), Error>)
    ensures r.Ok? <==> Utils.Count(location, '@') == 1
    ensures r.Err? ==> r.error == ValueError
    ensures r.Ok? ==> location == r.value.0 + "@" + r.value.1 && '@' !in r.value.0 && '@' !in r.value.1
  {
    if Utils.Count(location, '@') != 1 then Err(ValueError)
    else
      Utils.CountZero(location, '@');
      var i := Utils.IndexOf(location, '@');
      var before, after := location[..i], location[i + 1..];
      assert location == before + "@" + after;
      Utils.CountAppend(before + "@", after, '@');
      Utils.CountAppend(before, "@", '@');
      Utils.CountZero(before, '@');
      Utils.CountZero(after, '@');
      Ok((before, after))
  }

  /** A location `el@attr` splits into `el` and `attr`. */
  lemma SplitAtOf(el: string, attr: string)
    requires '@' !in el && '@' !in attr
    ensures SplitAt(el + "@" + attr) == Ok((el, attr))
  {
    var location := el + "@" + attr;
    Utils.CountZero(el, '@');
    Utils.CountZero(attr, '@');
    Utils.CountAppend(el + "@", attr, '@');
    Utils.CountAppend(el, "@", '@');
    Utils.IndexOfConcat(el, '@', attr);
    assert location[..|el|] == el && location[|el| + 1..] == attr;
  }

  /**
   * What the second loop raises for `kd`, if anything: AttributeError
   * without a slot; for a set value, ValueError from the split, or KeyError
   * when the element part names no dict entry.
   */
  function AttrCheck(kd: KeyedDef, slots: Slots, elements: map<string, Target>): Option<Error>
  {
    if !IsAttributeDef(kd) then None
    else if kd.key !in slots then Some(AttributeError(kd.key))
    else if slots[kd.key].None? then None
    else
      var names := SplitAt(kd.def.location);
      if names.Err? then Some(names.error)
      else if names.value.0 !in elements then Some(KeyError(names.value.0))
      else None
  }

  /** One turn of the second loop: the checks, then `elements[el].attrib[attr] = value`. */
  function AttrStep(d: Draft, kd: KeyedDef, slots: Slots): (r: Result<Draft, Error>)
    requires Coherent(d)
    ensures r.Ok? ==> Coherent(r.value) && Kept(d, r.value)
    ensures r.Err? <==> AttrCheck(kd, slots, d.elements).Some?
  {
    var check := AttrCheck(kd, slots, d.elements);
    if check.Some? then Err(check.value)
    else if !IsAttributeDef(kd) || slots[kd.key].None? then Ok(d)
    else
      var names := SplitAt(kd.def.location).value;
      Ok(SetAttr(d, d.elements[names.0], names.1, slots[kd.key].value))
  }

  /** The second loop over `defs`, starting from the draft `d`. */
  function AttrPass(defs: seq<KeyedDef>, slots: Slots, d: Draft): (r: Result<Draft, Error>)
    requires Coherent(d)
    ensures r.Ok? ==> Coherent(r.value) && Kept(d, r.value)
  {
    if defs == [] then Ok(d)
    else
      var front := AttrPass(defs[..|defs| - 1], slots, d);
      if front.Err? then front else AttrStep(front.value, defs[|defs| - 1], slots)
  }

  /** The second pass succeeds exactly when no definition raises against the dict. */
  lemma {:induction false} AttrPassOk(defs: seq<KeyedDef>, slots: Slots, d: Draft)
    requires Coherent(d)
    ensures AttrPass(defs, slots, d).Ok? <==> forall i :: 0 <= i < |defs| ==> AttrCheck(defs[i], slots, d.elements).None?
  {
    if defs != [] {
      var front := defs[..|defs| - 1];
      AttrPassOk(front, slots, d);
      assert forall i :: 0 <= i < |front| ==> front[i] == defs[i];
    }
  }

  /** A failing second pass reports what the first definition that raises raises. */
  lemma {:induction false} AttrPassError(defs: seq<KeyedDef>, slots: Slots, d: Draft) returns (i: nat)
    requires Coherent(d) && AttrPass(defs, slots, d).Err?
    ensures i < |defs| && AttrCheck(defs[i], slots, d.elements) == Some(AttrPass(defs, slots, d).error)
    ensures forall j :: 0 <= j < i ==> AttrCheck(defs[j], slots, d.elements).None?
  {
    var front := defs[..|defs| - 1];
    if AttrPass(front, slots, d).Err? {
      i := AttrPassError(front, slots, d);
      assert forall j :: 0 <= j <= i ==> front[j] == defs[j];
    } else {
      AttrPassOk(front, slots, d);
      assert forall j :: 0 <= j < |front| ==> front[j] == defs[j];
      i := |defs| - 1;
    }
  }

  /** A step for another location leaves the attribute `attr` of `elements[el]` alone. */
  lemma AttrStepFrame(d: Draft, kd: KeyedDef, slots: Slots, location: string, el: string, attr: string)
    requires Coherent(d) && Injective(d) && AttrStep(d, kd, slots).Ok?
    requires location == el + "@" + attr && el in d.elements
    requires IsAttributeDef(kd) ==> kd.def.location != location
    ensures AttrOf(AttrStep(d, kd, slots).value, d.elements[el], attr) == AttrOf(d, d.elements[el], attr)
  {
    if IsAttributeDef(kd) && slots[kd.key].Some? {
      var names := SplitAt(kd.def.location).value;
      assert names.0 != el || names.1 != attr;
      assert names.0 != el ==> d.elements[names.0] != d.elements[el];
    }
  }

  /**
   * When no later definition has the same location, a set attribute
   * property `el@attr` ends as attribute `attr` of `elements[el]`.
   */
  lemma {:induction false} AttrPlaced(defs: seq<KeyedDef>, slots: Slots, d: Draft, i: nat)
    requires Coherent(d) && Injective(d) && AttrPass(defs, slots, d).Ok?
    requires i < |defs| && IsAttributeDef(defs[i])
    requires forall j :: i < j < |defs| && IsAttributeDef(defs[j]) ==> defs[j].def.location != defs[i].def.location
    ensures defs[i].key in slots
    ensures slots[defs[i].key].Some? ==>
      var names := SplitAt(defs[i].def.location);
      && names.Ok? && names.value.0 in d.elements
      && AttrOf(AttrPass(defs, slots, d).value, d.elements[names.value.0], names.value.1) == slots[defs[i].key]
  {
    AttrPassOk(defs, slots, d);
    var front := defs[..|defs| - 1];
    var last := defs[|defs| - 1];
    AttrPassOk(front, slots, d);
    assert forall j :: 0 <= j < |front| ==> front[j] == defs[j];
    if slots[defs[i].key].Some? && i < |defs| - 1 {
      AttrPlaced(front, slots, d, i);
      var names := SplitAt(defs[i].def.location).value;
      var mid := AttrPass(front, slots, d).value;
      AttrStepFrame(mid, last, slots, defs[i].def.location, names.0, names.1);
    }
  }

  /**
   * The definition `kd` writes the attribute pair `p` on the element `t`:
   * its location splits into an element part the dict maps to `t` and the
   * attribute name of `p`, and its value is set to the value of `p`.
   */
  ghost predicate WritesPair(kd: KeyedDef, slots: Slots, elements: map<string, Target>, t: Target, p: (string, string))
  {
    && IsAttributeDef(kd) && kd.key in slots && slots[kd.key] == Some(p.1)
    && SplitAt(kd.def.location).Ok?
    && SplitAt(kd.def.location).value.1 == p.0
    && SplitAt(kd.def.location).value.0 in elements
    && elements[SplitAt(kd.def.location).value.0] == t
  }

  /** Every attribute pair after the second pass was there before or was written by a definition. */
  lemma {:induction false} AttrPassOnly(defs: seq<KeyedDef>, slots: Slots, d: Draft)
    requires Coherent(d) && AttrPass(defs, slots, d).Ok?
    ensures forall t, p :: p in PairsOf(AttrPass(defs, slots, d).value, t) ==>
      p in PairsOf(d, t) || exists i :: 0 <= i < |defs| && WritesPair(defs[i], slots, d.elements, t, p)
  {
    if defs != [] {
      var front := defs[..|defs| - 1];
      var last := defs[|defs| - 1];
      AttrPassOnly(front, slots, d);
      var mid := AttrPass(front, slots, d).value;
      var e := AttrPass(defs, slots, d).value;
      assert forall j :: 0 <= j < |front| ==> front[j] == defs[j];
      if IsAttributeDef(last) && slots[last.key].Some? {
        var names := SplitAt(last.def.location).value;
        SetAttrPairs(mid, mid.elements[names.0], names.1, slots[last.key].value);
        forall t, p | p in PairsOf(e, t)
          ensures p in PairsOf(d, t) || exists i :: 0 <= i < |defs| && WritesPair(defs[i], slots, d.elements, t, p)
        {
          if !(p in PairsOf(mid, t)) {
            assert WritesPair(defs[|defs| - 1], slots, d.elements, t, p);
          }
        }
      }
    }
  }

  /**
   * A set attribute property `el@attr` whose `el` is not the location of a
   * property the first pass wrote (nor the empty location) makes the second
   * pass raise; when no earlier definition raises, the error is `KeyError(el)`.
   */
  lemma UnwrittenElementFails(defs: seq<KeyedDef>, slots: Slots, i: nat, el: string, attr: string)
    requires EmitPass(defs, slots).Ok?
    requires i < |defs| && defs[i].def.location == el + "@" + attr && '@' !in el && '@' !in attr && el != ""
    requires forall j :: 0 <= j < |Shown(defs, slots)| ==> Shown(defs, slots)[j].def.location != el
    requires defs[i].key in slots && slots[defs[i].key].Some?
    ensures var d := EmitPass(defs, slots).value;
      AttrPass(defs, slots, d).Err? &&
      ((forall j :: 0 <= j < i ==> AttrCheck(defs[j], slots, d.elements).None?) ==>
         AttrPass(defs, slots, d).error == KeyError(el))
  {
    var d := EmitPass(defs, slots).value;
    EmitPassShape(defs, slots);
    SplitAtOf(el, attr);
    assert el !in d.elements;
    assert AttrCheck(defs[i], slots, d.elements) == Some(KeyError(el));
    AttrPassOk(defs, slots, d);
    var k := AttrPassError(defs, slots, d);
    if forall j :: 0 <= j < i ==> AttrCheck(defs[j], slots, d.elements).None? {
      assert k == i;
    }
  }

  /**
   * A set property `res@attr` (as TextItem's `res@protection`) can never be
   * written: the second pass raises, since `res` never enters the dict.
   */
  lemma ResAttributeFails(defs: seq<KeyedDef>, slots: Slots, i: nat, attr: string)
    requires forall j :: 0 <= j < |defs| ==> defs[j].key == Key(defs[j].def)
    requires EmitPass(defs, slots).Ok?
    requires i < |defs| && defs[i].def.location == "res@" + attr && '@' !in attr
    requires defs[i].key in slots && slots[defs[i].key].Some?
    ensures AttrPass(defs, slots, EmitPass(defs, slots).value).Err?
  {
    var d := EmitPass(defs, slots).value;
    EmitPassNoRes(defs, slots);
    ResSplit(defs[i].def.location, attr);
    AttrPassOk(defs, slots, d);
    assert AttrCheck(defs[i], slots, d.elements) == Some(KeyError("res"));
  }

  lemma ResSplit(location: string, attr: string)
    requires location == "res@" + attr && '@' !in attr
    ensures SplitAt(location) == Ok(("res", attr))
  {
    assert location == "res" + "@" + attr;
    SplitAtOf("res", attr);
  }

  // ---------------------------------------------------------------------
  // Objects

  /** `resource.to_xml()` for each resource, in order. */
  function ResourceElements(rs: seq<Resource>): (r: seq<Element>)
    ensures |r| == |rs| && forall i :: 0 <= i < |rs| ==> r[i] == ResourceToXml(rs[i])
  {
    if rs == [] then [] else ResourceElements(rs[..|rs| - 1]) + [ResourceToXml(rs[|rs| - 1])]
  }

  /** `descriptor.to_xml()` for each descriptor, in order. */
  function DescriptorElements(ds: seq<Descriptor>): (r: seq<Element>)
    ensures |r| == |ds| && forall i :: 0 <= i < |ds| ==> r[i] == DescriptorToXml(ds[i])
  {
    if ds == [] then [] else DescriptorElements(ds[..|ds| - 1]) + [DescriptorToXml(ds[|ds| - 1])]
  }

  /**
   * `DidlObject.to_xml`: the two passes over the definitions, then the
   * resources and the descriptors.
   */
  function DidlObjectElement(o: DidlObject): Result<Element, Error>
    decreases o, 1
  {
    var first := EmitPass(o.defs, o.slots);
    if first.Err? then Err(first.error)
    else
      var second := AttrPass(o.defs, o.slots, first.value);
      if second.Err? then Err(second.error)
      else
        Ok(Element(Tag(o.kind), second.value.attrs, None,
                   second.value.children + ResourceElements(o.resources) + DescriptorElements(o.descriptors)))
  }

  /** `to_xml` as dispatched: a container (`Container.to_xml`) then appends the element of each member. */
  function ObjectElement(o: DidlObject): Result<Element, Error>
    decreases o, 2
  {
    var base := DidlObjectElement(o);
    if base.Err? || !IsContainer(o.kind) then base
    else
      var members := MemberElements(o, |o.members|);
      if members.Err? then Err(members.error)
      else Ok(base.value.(children := base.value.children + members.value))
  }

  /** The element of one member of a container: an object's, or a descriptor's. */
  function MemberElement(o: DidlObject, i: nat): Result<Element, Error>
    requires i < |o.members|
    decreases o, 0, i
  {
    var m := o.members[i];
    if m.Desc? then Ok(DescriptorToXml(m.desc)) else ObjectElement(m.obj)
  }

  /** The elements of the first `n` members of a container, in order. */
  function MemberElements(o: DidlObject, n: nat): Result<seq<Element>, Error>
    requires n <= |o.members|
    decreases o, 0, n
  {
    if n == 0 then Ok([])
    else
      var front := MemberElements(o, n - 1);
      if front.Err? then front
      else
        var e := MemberElement(o, n - 1);
        if e.Err? then Err(e.error) else Ok(front.value + [e.value])
  }

  /** The attributes `to_xml_string` gives the root: the four namespace declarations. */
  const RootAttrs: Attrs := [
    ("xmlns", Utils.DidlLiteUri),
    ("xmlns:dc", Utils.DcUri),
    ("xmlns:upnp", Utils.UpnpUri),
    ("xmlns:sec", Utils.SecUri)
  ]

  /** `to_xml_string` before `ET.tostring`: a `DIDL-Lite` root with each object's element as a child. */
  function RootElement(objects: seq<DidlObject>): Result<Element, Error>
  {
    var children := Collect(objects, ObjectElement);
    if children.Err? then Err(children.error)
    else Ok(Element("DIDL-Lite", RootAttrs, None, children.value))
  }

  /**
   * The root is written exactly when every object is, and then it is a
   * `DIDL-Lite` element with the four namespace declarations, no text, and
   * one child per object: that object's element, in argument order. A
   * failure is the error of the first object that cannot be written.
   */
  lemma RootElementSpec(objects: seq<DidlObject>)
    ensures RootElement(objects).Ok? <==> forall i :: 0 <= i < |objects| ==> ObjectElement(objects[i]).Ok?
    ensures RootElement(objects).Ok? ==>
      var root := RootElement(objects).value;
      && root.tag == "DIDL-Lite" && root.attrs == RootAttrs && root.text == None
      && |root.children| == |objects|
      && forall i :: 0 <= i < |objects| ==> ObjectElement(objects[i]) == Ok(root.children[i])
    ensures RootElement(objects).Err? ==>
      exists i :: 0 <= i < |objects| && ObjectElement(objects[i]) == Err(RootElement(objects).error) &&
        forall j :: 0 <= j < i ==> ObjectElement(objects[j]).Ok?
  {
    CollectOk(objects, ObjectElement);
    if RootElement(objects).Err? {
      var i := CollectFirstError(objects, ObjectElement);
    }
  }

  /** The declarations are those of the registry's `didl_lite` (default), `dc`, `upnp` and `sec` namespaces. */
  lemma RootAttrsDeclare()
    ensures |RootAttrs| == 4
    ensures RootAttrs[0] == ("xmlns", Utils.Namespaces["didl_lite"])
    ensures RootAttrs[1] == ("xmlns:dc", Utils.Namespaces["dc"])
    ensures RootAttrs[2] == ("xmlns:upnp", Utils.Namespaces["upnp"])
    ensures RootAttrs[3] == ("xmlns:sec", Utils.Namespaces["sec"])
  {
  }

  // ---------------------------------------------------------------------
  // What the written element holds

  /** The property children a written object begins with: one per shown property, in order. */
  ghost predicate PropertyChildren(o: DidlObject, children: seq<Element>)
  {
    var sh := Shown(o.defs, o.slots);
    && |sh| <= |children|
    && forall i :: 0 <= i < |sh| ==>
         && sh[i].key in o.slots
         && children[i].tag == sh[i].def.namespace + ":" + sh[i].def.location
         && children[i].text == o.slots[sh[i].key]
  }

  /**
   * `DidlObject.to_xml` gives an element with the object's tag and no text
   * whose children are the shown properties (tag `alias:location`, the
   * value as text), then the resources, then the descriptors.
   */
  lemma DidlObjectElementShape(o: DidlObject)
    requires DidlObjectElement(o).Ok?
    ensures var el := DidlObjectElement(o).value;
      && el.tag == Tag(o.kind) && el.text == None
      && PropertyChildren(o, el.children)
      && el.children[|Shown(o.defs, o.slots)|..] == ResourceElements(o.resources) + DescriptorElements(o.descriptors)
  {
    var second := AttrPass(o.defs, o.slots, EmitPass(o.defs, o.slots).value).value;
    SecondPassChildren(o);
    var el := DidlObjectElement(o).value;
    var rest := ResourceElements(o.resources) + DescriptorElements(o.descriptors);
    ConcatAssoc(second.children, ResourceElements(o.resources), DescriptorElements(o.descriptors));
    PropertyChildrenPrefix(o, second.children, rest);
  }

  lemma ConcatAssoc(a: seq<Element>, b: seq<Element>, c: seq<Element>)
    ensures a + b + c == a + (b + c)
  {
  }

  /** After both passes the children are still the shown properties, one each. */
  lemma SecondPassChildren(o: DidlObject)
    requires EmitPass(o.defs, o.slots).Ok?
    requires AttrPass(o.defs, o.slots, EmitPass(o.defs, o.slots).value).Ok?
    ensures var second := AttrPass(o.defs, o.slots, EmitPass(o.defs, o.slots).value).value;
      |second.children| == |Shown(o.defs, o.slots)| && PropertyChildren(o, second.children)
  {
    EmitPassShape(o.defs, o.slots);
    ShownSpec(o.defs, o.slots);
  }

  lemma PropertyChildrenPrefix(o: DidlObject, children: seq<Element>, rest: seq<Element>)
    requires |children| == |Shown(o.defs, o.slots)| && PropertyChildren(o, children)
    ensures PropertyChildren(o, children + rest)
    ensures (children + rest)[|Shown(o.defs, o.slots)|..] == rest
  {
    var sh := Shown(o.defs, o.slots);
    assert forall i :: 0 <= i < |sh| ==> (children + rest)[i] == children[i];
  }

  /**
   * A container's element is its `DidlObject.to_xml` element with one more
   * child per member, each the member's own element, in order; any other
   * object's element is the `DidlObject.to_xml` one.
   */
  lemma ObjectElementMembers(o: DidlObject)
    requires ObjectElement(o).Ok?
    ensures DidlObjectElement(o).Ok?
    ensures var el, base := ObjectElement(o).value, DidlObjectElement(o).value;
      && el.tag == base.tag && el.attrs == base.attrs && el.text == base.text
      && el.children[..|base.children|] == base.children
      && |el.children| == |base.children| + (if IsContainer(o.kind) then |o.members| else 0)
      && forall i :: |base.children| <= i < |el.children| ==>
           MemberElement(o, i - |base.children|) == Ok(el.children[i])
  {
    if IsContainer(o.kind) {
      MemberElementsSpec(o, |o.members|);
    }
  }

  /** The member elements are the elements of the members, in order. */
  lemma {:induction false} MemberElementsSpec(o: DidlObject, n: nat)
    requires n <= |o.members| && MemberElements(o, n).Ok?
    ensures |MemberElements(o, n).value| == n
    ensures forall i :: 0 <= i < n ==> MemberElement(o, i) == Ok(MemberElements(o, n).value[i])
  {
    if n > 0 {
      MemberElementsSnoc(o, n);
      MemberElementsSpec(o, n - 1);
      var front, last := MemberElements(o, n - 1).value, MemberElement(o, n - 1).value;
      forall i | 0 <= i < n
        ensures MemberElement(o, i) == Ok((front + [last])[i])
      {
        if i < n - 1 {
          SnocIndex(front, last, i);
        }
      }
    }
  }

  lemma {:induction false} MemberElementsLength(o: DidlObject, n: nat)
    requires n <= |o.members| && MemberElements(o, n).Ok?
    ensures |MemberElements(o, n).value| == n
  {
    if n > 0 {
      MemberElementsLength(o, n - 1);
    }
  }

  /** One more member adds its element at the end. */
  lemma MemberElementsSnoc(o: DidlObject, n: nat)
    requires 0 < n <= |o.members| && MemberElements(o, n).Ok?
    ensures MemberElements(o, n - 1).Ok? && MemberElement(o, n - 1).Ok?
    ensures |MemberElements(o, n - 1).value| == n - 1
    ensures MemberElements(o, n).value == MemberElements(o, n - 1).value + [MemberElement(o, n - 1).value]
  {
    MemberElementsLength(o, n - 1);
  }

  lemma SnocIndex(front: seq<Element>, last: Element, i: nat)
    requires i < |front|
    ensures (front + [last])[i] == front[i]
  {
  }

  /**
   * A set property `@attr` that no later definition repeats, of an object
   * with no definition at the empty location, is attribute `attr` of the
   * written element.
   */
  lemma OwnAttributeWritten(o: DidlObject, i: nat, attr: string)
    requires DidlObjectElement(o).Ok?
    requires forall j :: 0 <= j < |o.defs| ==> o.defs[j].def.location != ""
    requires i < |o.defs| && o.defs[i].def.location == "@" + attr && '@' !in attr
    requires forall j :: i < j < |o.defs| ==> o.defs[j].def.location != o.defs[i].def.location
    requires o.defs[i].key in o.slots && o.slots[o.defs[i].key].Some?
    ensures Get(DidlObjectElement(o).value.attrs, attr) == o.slots[o.defs[i].key]
  {
    var first := EmitPass(o.defs, o.slots).value;
    EmitPassInjective(o.defs, o.slots);
    EmitPassOwn(o.defs, o.slots);
    var location := o.defs[i].def.location;
    assert location == "" + "@" + attr;
    SplitAtOf("", attr);
    AttrPlaced(o.defs, o.slots, first, i);
  }

  /** With no definition at the empty location, the dict entry `''` still names the own element. */
  lemma EmitPassOwn(defs: seq<KeyedDef>, slots: Slots)
    requires forall j :: 0 <= j < |defs| ==> defs[j].def.location != ""
    requires EmitPass(defs, slots).Ok?
    ensures "" in EmitPass(defs, slots).value.elements && EmitPass(defs, slots).value.elements[""] == Own
  {
    EmitPassShape(defs, slots);
    ShownSpec(defs, slots);
  }

  /**
   * A set property `el@attr` that no later definition repeats is attribute
   * `attr` of the property child of the last shown definition at `el`.
   */
  lemma ChildAttributeWritten(o: DidlObject, i: nat, el: string, attr: string)
    requires DidlObjectElement(o).Ok?
    requires i < |o.defs| && o.defs[i].def.location == el + "@" + attr && el != "" && '@' !in el && '@' !in attr
    requires forall j :: i < j < |o.defs| ==> o.defs[j].def.location != o.defs[i].def.location
    requires o.defs[i].key in o.slots && o.slots[o.defs[i].key].Some?
    ensures var sh, children := Shown(o.defs, o.slots), DidlObjectElement(o).value.children;
      exists j :: 0 <= j < |sh| && j < |children| && sh[j].def.location == el &&
        Get(children[j].attrs, attr) == o.slots[o.defs[i].key]
  {
    var first := EmitPass(o.defs, o.slots).value;
    EmitPassInjective(o.defs, o.slots);
    EmitPassShape(o.defs, o.slots);
    var location := o.defs[i].def.location;
    assert location[|el|] == '@';
    SplitAtOf(el, attr);
    AttrPlaced(o.defs, o.slots, first, i);
    var second := AttrPass(o.defs, o.slots, first).value;
    var j := first.elements[el].index;
    assert DidlObjectElement(o).value.children[j] == second.children[j];
  }

  /**
   * The object's own element carries no attribute but those of set
   * properties at `@name`: every pair `(name, value)` on it comes from a
   * definition at `@name` whose property holds `value`.
   */
  lemma OwnAttributesOnly(o: DidlObject)
    requires DidlObjectElement(o).Ok?
    ensures forall p :: p in DidlObjectElement(o).value.attrs ==>
      exists i :: 0 <= i < |o.defs| && o.defs[i].def.location == "@" + p.0 &&
        o.defs[i].key in o.slots && o.slots[o.defs[i].key] == Some(p.1)
  {
    var first := EmitPass(o.defs, o.slots).value;
    EmitPassShape(o.defs, o.slots);
    AttrPassOnly(o.defs, o.slots, first);
    forall p | p in DidlObjectElement(o).value.attrs
      ensures exists i :: 0 <= i < |o.defs| && o.defs[i].def.location == "@" + p.0 &&
                 o.defs[i].key in o.slots && o.slots[o.defs[i].key] == Some(p.1)
    {
      assert p in PairsOf(AttrPass(o.defs, o.slots, first).value, Own);
      var i :| 0 <= i < |o.defs| && WritesPair(o.defs[i], o.slots, first.elements, Own, p);
      var names := SplitAt(o.defs[i].def.location).value;
      assert names.0 == "";
      assert o.defs[i].def.location == "" + "@" + p.0;
    }
  }

  /**
   * The `j`-th property child carries no attribute but those of set
   * properties at `location@name`, where `location` is the child's own:
   * every pair `(name, value)` on it comes from such a definition whose
   * property holds `value`.
   */
  lemma ChildAttributesOnly(o: DidlObject, j: nat)
    requires DidlObjectElement(o).Ok? && j < |Shown(o.defs, o.slots)|
    ensures j < |DidlObjectElement(o).value.children|
    ensures var location := Shown(o.defs, o.slots)[j].def.location;
      forall p :: p in DidlObjectElement(o).value.children[j].attrs ==>
        exists i :: 0 <= i < |o.defs| && o.defs[i].def.location == location + "@" + p.0 &&
          o.defs[i].key in o.slots && o.slots[o.defs[i].key] == Some(p.1)
  {
    var first := EmitPass(o.defs, o.slots).value;
    var sh := Shown(o.defs, o.slots);
    EmitPassShape(o.defs, o.slots);
    AttrPassOnly(o.defs, o.slots, first);
    var second := AttrPass(o.defs, o.slots, first).value;
    var el := DidlObjectElement(o).value;
    assert el.children[j] == second.children[j];
    forall p | p in el.children[j].attrs
      ensures exists i :: 0 <= i < |o.defs| && o.defs[i].def.location == sh[j].def.location + "@" + p.0 &&
                 o.defs[i].key in o.slots && o.slots[o.defs[i].key] == Some(p.1)
    {
      assert p in PairsOf(second, Child(j));
      assert PairsOf(first, Child(j)) == [];
      var i :| 0 <= i < |o.defs| && WritesPair(o.defs[i], o.slots, first.elements, Child(j), p);
      var names := SplitAt(o.defs[i].def.location).value;
      assert names.0 == sh[j].def.location;
    }
  }

  // ---------------------------------------------------------------------
  // The loops of `to_xml` and `to_xml_string`

  /** The first loop of `to_xml`: a child element for every set property that is not an attribute. */
  method AppendProperties(defs: seq<KeyedDef>, slots: Slots) returns (r: Result<Draft, Error>)
    ensures r == EmitPass(defs, slots)
  {
    r := Ok(Start);
    var i := 0;
    while i < |defs| && r.Ok?
      invariant 0 <= i <= |defs|
      invariant r == EmitPass(defs[..i], slots)
    {
      assert defs[..i + 1][..i] == defs[..i];
      var d := defs[i];
      if '@' !in d.def.location {
        if d.key !in slots {
          r := Err(AttributeError(d.key));
        } else if slots[d.key].Some? && d.key != "res" {
          var draft := r.value;
          var el := Element(d.def.namespace + ":" + d.def.location, [], slots[d.key], []);
          r := Ok(Draft(draft.attrs, draft.children + [el], draft.elements[d.def.location := Child(|draft.children|)]));
        }
      }
      i := i + 1;
    }
    if r.Err? {
      EmitPassPrefixError(defs, slots, i);
    } else {
      assert defs[..i] == defs;
    }
  }

  lemma {:induction false} EmitPassPrefixError(defs: seq<KeyedDef>, slots: Slots, n: nat)
    requires n <= |defs| && EmitPass(defs[..n], slots).Err?
    ensures EmitPass(defs, slots) == EmitPass(defs[..n], slots)
    decreases |defs| - n
  {
    if n < |defs| {
      assert defs[..n + 1][..n] == defs[..n];
      EmitPassPrefixError(defs, slots, n + 1);
    } else {
      assert defs[..n] == defs;
    }
  }

  /** The second loop of `to_xml`: each set attribute property on the element its location names. */
  method SetAttributes(defs: seq<KeyedDef>, slots: Slots, start: Draft) returns (r: Result<Draft, Error>)
    requires Coherent(start)
    ensures r == AttrPass(defs, slots, start)
  {
    r := Ok(start);
    var i := 0;
    while i < |defs| && r.Ok?
      invariant 0 <= i <= |defs|
      invariant r == AttrPass(defs[..i], slots, start)
    {
      assert defs[..i + 1][..i] == defs[..i];
      r := SetAttribute(r.value, defs[i], slots);
      i := i + 1;
    }
    if r.Err? {
      AttrPassPrefixError(defs, slots, start, i);
    } else {
      assert defs[..i] == defs;
    }
  }

  /** One turn of the second loop. */
  method SetAttribute(d: Draft, kd: KeyedDef, slots: Slots) returns (r: Result<Draft, Error>)
    requires Coherent(d)
    ensures r == AttrStep(d, kd, slots)
  {
    if '@' !in kd.def.location {
      return Ok(d);
    }
    if kd.key !in slots {
      return Err(AttributeError(kd.key));
    }
    var value := slots[kd.key];
    if value.None? {
      return Ok(d);
    }
    var names := SplitAt(kd.def.location);
    if names.Err? {
      return Err(names.error);
    }
    var (elName, attrName) := names.value;
    if elName !in d.elements {
      return Err(KeyError(elName));
    }
    r := Ok(SetAttr(d, d.elements[elName], attrName, value.value));
  }

  lemma {:induction false} AttrPassPrefixError(defs: seq<KeyedDef>, slots: Slots, d: Draft, n: nat)
    requires Coherent(d)
    requires n <= |defs| && AttrPass(defs[..n], slots, d).Err?
    ensures AttrPass(defs, slots, d) == AttrPass(defs[..n], slots, d)
    decreases |defs| - n
  {
    if n < |defs| {
      assert defs[..n + 1][..n] == defs[..n];
      AttrPassPrefixError(defs, slots, d, n + 1);
    } else {
      assert defs[..n] == defs;
    }
  }

  /** `DidlObject.to_xml`: the two loops over the definitions, then the resources and descriptors. */
  method DidlObjectToXml(o: DidlObject) returns (r: Result<Element, Error>)
    ensures r == DidlObjectElement(o)
  {
    var first := AppendProperties(o.defs, o.slots);
    if first.Err? {
      return Err(first.error);
    }
    var second := SetAttributes(o.defs, o.slots, first.value);
    if second.Err? {
      return Err(second.error);
    }
    var children := AppendResources(second.value.children, o.resources);
    children := AppendDescriptors(children, o.descriptors);
    r := Ok(Element(Tag(o.kind), second.value.attrs, None, children));
  }

  /** `to_xml` as dispatched: `Container.to_xml` appends the element of each member. */
  method ToXml(o: DidlObject) returns (r: Result<Element, Error>)
    ensures r == ObjectElement(o)
    decreases o, 2
  {
    r := DidlObjectToXml(o);
    if r.Err? || !IsContainer(o.kind) {
      return;
    }
    var members := AppendMembers(o);
    if members.Err? {
      return Err(members.error);
    }
    r := Ok(r.value.(children := r.value.children + members.value));
  }

  /** `for resource in self.resources: item_el.append(resource.to_xml())`. */
  method AppendResources(start: seq<Element>, rs: seq<Resource>) returns (children: seq<Element>)
    ensures children == start + ResourceElements(rs)
  {
    children := start;
    var i := 0;
    while i < |rs|
      invariant 0 <= i <= |rs|
      invariant children == start + ResourceElements(rs[..i])
    {
      assert rs[..i + 1][..i] == rs[..i];
      assert ResourceElements(rs[..i + 1]) == ResourceElements(rs[..i]) + [ResourceToXml(rs[i])];
      children := children + [ResourceToXml(rs[i])];
      i := i + 1;
    }
    assert rs[..i] == rs;
  }

  lemma DescriptorElementsStep(ds: seq<Descriptor>, i: nat)
    requires i < |ds|
    ensures DescriptorElements(ds[..i + 1]) == DescriptorElements(ds[..i]) + [DescriptorToXml(ds[i])]
  {
    assert ds[..i + 1][..i] == ds[..i];
  }

  /** `for descriptor in self.descriptors: item_el.append(descriptor.to_xml())`. */
  method AppendDescriptors(start: seq<Element>, ds: seq<Descriptor>) returns (children: seq<Element>)
    ensures children == start + DescriptorElements(ds)
  {
    children := start;
    var i := 0;
    while i < |ds|
      invariant 0 <= i <= |ds|
      invariant children == start + DescriptorElements(ds[..i])
    {
      DescriptorElementsStep(ds, i);
      children := children + [DescriptorToXml(ds[i])];
      i := i + 1;
    }
    assert ds[..i] == ds;
  }

  lemma {:induction false} MemberElementsPrefixError(o: DidlObject, n: nat)
    requires n <= |o.members| && MemberElements(o, n).Err?
    ensures MemberElements(o, |o.members|) == MemberElements(o, n)
    decreases |o.members| - n
  {
    if n < |o.members| {
      MemberElementsPrefixError(o, n + 1);
    }
  }

  /** `for didl_object in self: container_el.append(didl_object.to_xml())`. */
  method AppendMembers(o: DidlObject) returns (r: Result<seq<Element>, Error>)
    ensures r == MemberElements(o, |o.members|)
    decreases o, 1
  {
    r := Ok([]);
    var i := 0;
    while i < |o.members| && r.Ok?
      invariant 0 <= i <= |o.members|
      invariant r == MemberElements(o, i)
    {
      var e: Result<Element, Error>;
      match o.members[i] {
        case Desc(d) => e := Ok(DescriptorToXml(d));
        case Obj(member) => e := ToXml(member);
      }
      assert e == MemberElement(o, i);
      r := if e.Err? then Err(e.error) else Ok(r.value + [e.value]);
      i := i + 1;
    }
    if r.Err? {
      MemberElementsPrefixError(o, i);
    }
  }

  /** `to_xml_string` before `ET.tostring`: the root, then each object's element appended. */
  method ToXmlString(objects: seq<DidlObject>) returns (r: Result<Element, Error>)
    ensures r == RootElement(objects)
  {
    var root := Element("DIDL-Lite", RootAttrs, None, []);
    var children := AppendObjects(objects);
    if children.Err? {
      return Err(children.error);
    }
    r := Ok(root.(children := children.value));
  }

  /** `for didl_object in objects: root_el.append(didl_object.to_xml())`. */
  method AppendObjects(objects: seq<DidlObject>) returns (r: Result<seq<Element>, Error>)
    ensures r == Collect(objects, ObjectElement)
  {
    r := Ok([]);
    var i := 0;
    while i < |objects| && r.Ok?
      invariant 0 <= i <= |objects|
      invariant r == Collect(objects[..i], ObjectElement)
    {
      assert objects[..i + 1][..i] == objects[..i];
      var el := ToXml(objects[i]);
      r := if el.Err? then Err(el.error) else Ok(r.value + [el.value]);
      i := i + 1;
    }
    if r.Err? {
      CollectPrefixError(objects, ObjectElement, i);
    } else {
      assert objects[..i] == objects;
    }
  }
}
