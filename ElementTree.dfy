/**
 * The part of `xml.etree.ElementTree` the library relies on, as values: an
 * element with a tag, attributes in insertion order, an optional text and
 * child elements; `attrib.get`, `attrib[...] = ...`, `find` and `findall`
 * with a one-step path `./tag`.
 */
module ElementTree {
  import opened Wrappers

  /** Attribute names are unique in a well-formed element (they form a dict). */
  type Attrs = seq<(string, string)>

  datatype Element = Element(tag: string, attrs: Attrs, text: Option<string>, children: seq<Element>)

  /** No attribute name occurs twice. */
  ghost predicate UniqueNames(attrs: Attrs)
  {
    forall i, j :: 0 <= i < j < |attrs| ==> attrs[i].0 != attrs[j].0
  }

  /** `attrib.get(name)`: the value stored under `name`, if any. */
  function Get(attrs: Attrs, name: string): (r: Option<string>)
    ensures r.None? <==> forall i :: 0 <= i < |attrs| ==> attrs[i].0 != name
    ensures r.Some? ==> exists i :: 0 <= i < |attrs| && attrs[i] == (name, r.value)
  {
    if attrs == [] then None
    else if attrs[0].0 == name then Some(attrs[0].1)
    else
      var r := Get(attrs[1..], name);
      assert forall i :: 1 <= i < |attrs| ==> attrs[i] == attrs[1..][i - 1];
      r
  }

  /** In a dict, `get` finds the one pair with that name. */
  lemma {:induction false} GetUnique(attrs: Attrs, i: nat)
    requires UniqueNames(attrs) && i < |attrs|
    ensures Get(attrs, attrs[i].0) == Some(attrs[i].1)
  {
    if i > 0 {
      assert attrs[0].0 != attrs[i].0;
      GetUnique(attrs[1..], i - 1);
    }
  }

  /**
   * `attrib[name] = value`: overwrite the value in place when `name` is
   * present, otherwise append the pair.
   */
  function Set(attrs: Attrs, name: string, value: string): (r: Attrs)
    ensures Get(r, name) == Some(value)
    ensures forall n :: n != name ==> Get(r, n) == Get(attrs, n)
    ensures |r| == if Get(attrs, name).Some? then |attrs| else |attrs| + 1
    ensures forall i :: 0 <= i < |attrs| ==> r[i].0 == attrs[i].0
  {
    if attrs == [] then [(name, value)]
    else if attrs[0].0 == name then
      var r := [(name, value)] + attrs[1..];
      assert r[1..] == attrs[1..];
      r
    else
      var rest := Set(attrs[1..], name, value);
      var r := [attrs[0]] + rest;
      assert r[0] == attrs[0] && r[1..] == rest;
      r
  }

  /** Setting adds no pair but the one set. */
  lemma {:induction false} SetPairs(attrs: Attrs, name: string, value: string)
    ensures forall p :: p in Set(attrs, name, value) ==> p in attrs || p == (name, value)
  {
    if attrs != [] && attrs[0].0 != name {
      SetPairs(attrs[1..], name, value);
      assert Set(attrs, name, value) == [attrs[0]] + Set(attrs[1..], name, value);
      assert forall p :: p in attrs[1..] ==> p in attrs;
    } else if attrs != [] {
      assert forall p :: p in attrs[1..] ==> p in attrs;
    }
  }

  /** A name no pair carries is not found. */
  lemma {:induction false} GetAbsent(attrs: Attrs, name: string)
    requires forall i :: 0 <= i < |attrs| ==> attrs[i].0 != name
    ensures Get(attrs, name) == None
  {
    if attrs != [] {
      GetAbsent(attrs[1..], name);
    }
  }

  /** Setting a name not yet present appends the pair: a dict keeps insertion order. */
  lemma {:induction false} SetAppends(attrs: Attrs, name: string, value: string)
    requires Get(attrs, name).None?
    ensures Set(attrs, name, value) == attrs + [(name, value)]
  {
    if attrs != [] {
      assert attrs[0].0 != name;
      SetAppends(attrs[1..], name, value);
      assert Set(attrs, name, value) == [attrs[0]] + Set(attrs[1..], name, value);
      assert attrs + [(name, value)] == [attrs[0]] + (attrs[1..] + [(name, value)]);
    }
  }

  /** Setting keeps the names unique. */
  lemma {:induction false} SetUnique(attrs: Attrs, name: string, value: string)
    requires UniqueNames(attrs)
    ensures UniqueNames(Set(attrs, name, value))
  {
    if attrs != [] && attrs[0].0 != name {
      var tail := Set(attrs[1..], name, value);
      SetUnique(attrs[1..], name, value);
      assert Get(attrs[1..], attrs[0].0).None? by {
        forall i | 0 <= i < |attrs[1..]|
          ensures attrs[1..][i].0 != attrs[0].0
        {
          assert attrs[1..][i] == attrs[i + 1];
        }
      }
      assert Get(tail, attrs[0].0).None?;
      var r := [attrs[0]] + tail;
      assert r == Set(attrs, name, value);
      forall i, j | 0 <= i < j < |r|
        ensures r[i].0 != r[j].0
      {
        if i == 0 {
          assert r[j] == tail[j - 1];
        } else {
          assert r[i] == tail[i - 1] && r[j] == tail[j - 1];
        }
      }
    }
  }

  /** `find('./tag')`: the first direct child with exactly that tag. */
  function Find(children: seq<Element>, tag: string): (r: Option<Element>)
    ensures r.None? <==> forall i :: 0 <= i < |children| ==> children[i].tag != tag
    ensures r.Some? ==> exists i :: 0 <= i < |children| && children[i] == r.value && r.value.tag == tag &&
                          forall j :: 0 <= j < i ==> children[j].tag != tag
  {
    if children == [] then None
    else if children[0].tag == tag then Some(children[0])
    else
      var r := Find(children[1..], tag);
      assert forall i :: 1 <= i < |children| ==> children[i] == children[1..][i - 1];
      r
  }

  /** `findall('./tag')`: the direct children with exactly that tag, in document order. */
  function FindAll(children: seq<Element>, tag: string): (r: seq<Element>)
    ensures |r| <= |children|
    ensures forall i :: 0 <= i < |r| ==> r[i].tag == tag && r[i] in children
    ensures forall e :: e in children && e.tag == tag ==> e in r
  {
    if children == [] then []
    else
      var last := children[|children| - 1];
      var front := children[..|children| - 1];
      assert children == front + [last];
      FindAll(front, tag) + if last.tag == tag then [last] else []
  }

  /** `findall` distributes over concatenation of child lists. */
  lemma {:induction false} FindAllAppend(a: seq<Element>, b: seq<Element>, tag: string)
    ensures FindAll(a + b, tag) == FindAll(a, tag) + FindAll(b, tag)
    decreases |b|
  {
    if b == [] {
      assert a + b == a;
    } else {
      var front := b[..|b| - 1];
      assert (a + b)[..|a + b| - 1] == a + front;
      FindAllAppend(a, front, tag);
    }
  }
}
