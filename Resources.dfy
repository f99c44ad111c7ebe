/**
 * `Resource` (a `res` element: a URI plus its protocol info and optional
 * media attributes) and `Descriptor` (a `desc` element: an identified,
 * namespaced piece of foreign metadata), with their conversions from and to
 * elements.
 */
module Resources {
  import opened Wrappers
  import opened Errors
  import opened ElementTree

  datatype Resource = Resource(
    uri: Option<string>,
    protocolInfo: string,
    importUri: Option<string>,
    size: Option<string>,
    duration: Option<string>,
    bitrate: Option<string>,
    sampleFrequency: Option<string>,
    bitsPerSample: Option<string>,
    nrAudioChannels: Option<string>,
    resolution: Option<string>,
    colorDepth: Option<string>,
    protection: Option<string>)

  /**
   * `Resource.from_xml`: the text is the URI, `protocolInfo` is mandatory
   * (a KeyError without it), the other attributes are optional.
   */
  function ResourceFromXml(el: Element): (r: Result<Resource, Error>)
    ensures r.Err? <==> Get(el.attrs, "protocolInfo").None?
    ensures r.Err? ==> r.error == KeyError("protocolInfo")
  {
    var protocolInfo := Get(el.attrs, "protocolInfo");
    if protocolInfo.None? then Err(KeyError("protocolInfo"))
    else
      Ok(Resource(el.text, protocolInfo.value,
                  Get(el.attrs, "importUri"), Get(el.attrs, "size"), Get(el.attrs, "duration"),
                  Get(el.attrs, "bitrate"), Get(el.attrs, "sampleFrequency"),
                  Get(el.attrs, "bitsPerSample"), Get(el.attrs, "nrAudioChannels"),
                  Get(el.attrs, "resolution"), Get(el.attrs, "colorDepth"),
                  Get(el.attrs, "protection")))
  }

  /** `Resource.to_xml`: only the URI (as text) and `protocolInfo` are written. */
  function ResourceToXml(r: Resource): (el: Element)
    ensures el.tag == "res" && el.children == []
    ensures el.attrs == [("protocolInfo", r.protocolInfo)]
    ensures el.text == r.uri
  {
    Element("res", [("protocolInfo", r.protocolInfo)], r.uri, [])
  }

  /** The resource with every optional media attribute dropped. */
  function Bare(r: Resource): Resource
  {
    Resource(r.uri, r.protocolInfo, None, None, None, None, None, None, None, None, None, None)
  }

  lemma OptionalAttributesAbsent(p: string)
    ensures var attrs := [("protocolInfo", p)];
      Get(attrs, "importUri") == None && Get(attrs, "size") == None &&
      Get(attrs, "duration") == None && Get(attrs, "bitrate") == None &&
      Get(attrs, "sampleFrequency") == None && Get(attrs, "bitsPerSample") == None
  {
  }

  lemma MoreOptionalAttributesAbsent(p: string)
    ensures var attrs := [("protocolInfo", p)];
      Get(attrs, "nrAudioChannels") == None && Get(attrs, "resolution") == None &&
      Get(attrs, "colorDepth") == None && Get(attrs, "protection") == None
  {
  }

  /**
   * Writing then reading a resource keeps its URI and protocol info and
   * loses every other attribute, since `to_xml` does not write them.
   */
  lemma ResourceRoundTrip(r: Resource)
    ensures ResourceFromXml(ResourceToXml(r)) == Ok(Bare(r))
  {
    OptionalAttributesAbsent(r.protocolInfo);
    MoreOptionalAttributesAbsent(r.protocolInfo);
  }

  /** A `res` element carrying only `protocolInfo` survives reading and writing unchanged. */
  lemma ResourceElementRoundTrip(el: Element)
    requires el.tag == "res" && el.children == [] && |el.attrs| == 1 && el.attrs[0].0 == "protocolInfo"
    ensures ResourceFromXml(el).Ok?
    ensures ResourceToXml(ResourceFromXml(el).value) == el
  {
    assert el.attrs == [("protocolInfo", el.attrs[0].1)];
  }

  datatype Descriptor = Descriptor(id: string, nameSpace: string, typeName: Option<string>, text: Option<string>)

  /**
   * `Descriptor.from_xml`: `id` and then `nameSpace` are mandatory (a
   * KeyError names the first one missing); `type` is optional.
   */
  function DescriptorFromXml(el: Element): (r: Result<Descriptor, Error>)
    ensures r.Ok? <==> Get(el.attrs, "id").Some? && Get(el.attrs, "nameSpace").Some?
    ensures r.Err? ==> r.error == if Get(el.attrs, "id").None? then KeyError("id") else KeyError("nameSpace")
  {
    var id := Get(el.attrs, "id");
    var nameSpace := Get(el.attrs, "nameSpace");
    if id.None? then Err(KeyError("id"))
    else if nameSpace.None? then Err(KeyError("nameSpace"))
    else Ok(Descriptor(id.value, nameSpace.value, Get(el.attrs, "type"), el.text))
  }

  /** The attributes `Descriptor.to_xml` writes: `id`, `nameSpace`, and `type` when set. */
  function DescriptorAttrs(d: Descriptor): Attrs
  {
    [("id", d.id), ("nameSpace", d.nameSpace)] + if d.typeName.Some? then [("type", d.typeName.value)] else []
  }

  /** `Descriptor.to_xml`. */
  function DescriptorToXml(d: Descriptor): (el: Element)
    ensures el.tag == "desc" && el.children == [] && el.text == d.text
    ensures |el.attrs| == if d.typeName.Some? then 3 else 2
    ensures Get(el.attrs, "id") == Some(d.id) && Get(el.attrs, "nameSpace") == Some(d.nameSpace)
    ensures Get(el.attrs, "type") == d.typeName
  {
    var attrs := DescriptorAttrs(d);
    assert attrs[1..][1..] == if d.typeName.Some? then [("type", d.typeName.value)] else [];
    Element("desc", attrs, d.text, [])
  }

  /** Writing then reading a descriptor gives it back. */
  lemma DescriptorRoundTrip(d: Descriptor)
    ensures DescriptorFromXml(DescriptorToXml(d)) == Ok(d)
  {
  }

  /** A `desc` element with exactly the attributes `to_xml` writes survives reading and writing. */
  lemma DescriptorElementRoundTrip(el: Element)
    requires el.tag == "desc" && el.children == []
    requires |el.attrs| == 2 || (|el.attrs| == 3 && el.attrs[2].0 == "type")
    requires el.attrs[0].0 == "id" && el.attrs[1].0 == "nameSpace"
    ensures DescriptorFromXml(el).Ok?
    ensures DescriptorToXml(DescriptorFromXml(el).value) == el
  {
    var d := DescriptorFromXml(el).value;
    if |el.attrs| == 2 {
      assert el.attrs == [("id", d.id), ("nameSpace", d.nameSpace)];
    } else {
      assert el.attrs == [("id", d.id), ("nameSpace", d.nameSpace), ("type", el.attrs[2].1)];
    }
  }
}
