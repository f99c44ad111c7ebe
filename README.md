# DIDL-Lite mapping engine, modelled in Dafny

This project models the core of `python-didl-lite`: the library that maps
DIDL-Lite media metadata (the XML vocabulary of the UPnP AV ContentDirectory
service) to typed Python objects and back. The model works on an abstract
XML tree. An element is a tag, attributes in insertion order, an optional
text and child elements (`ElementTree.Element`). Bytes are never parsed or
printed.

The modules follow the library's files and components:

- `Utils` (`didl_lite/utils.py`) holds the fixed namespace registry. It
  models `ns_tag` (`alias:local` to `{uri}local`) and its inverse split
  `namespace_tag`. It models `to_camel_case`, which despite its name
  produces snake_case: its two regular-expression substitutions are written
  as character-level functions over ASCII, followed by ASCII lower-casing.
  It also models `didl_property_def_key`, the storage key of a property
  definition.
- `NameExamples` holds worked examples of these helpers: `parentID`,
  `albumArtURI`, `@parentID` and `genre@id`.
- `Kinds` (`didl_lite/didl_lite.py:29-792`) lists the 35 concrete classes.
  For each it gives the tag (`item` or `container`), the exact `upnp_class`
  string and the flat list of `(alias, location, R|O)` definitions. The lists
  are transcribed literally, including those built on a grandparent's list
  (AudioProgram, VideoProgram, MusicArtist, MusicAlbum, ...) and EpgItem's
  `programCode_type` location. `Kinds` also gives the class hierarchy as
  `__subclasses__` sees it. `type_by_upnp_class` is specified as the
  worklist search it performs: pop the last class, push its subclasses, stop
  at an exact, case-sensitive match. A loop implements it.
- `Resources` models `Resource` and `Descriptor` with their `from_xml` and
  `to_xml`.
- `Objects` models `DidlObject.__init__`: keyword binding, the required-key
  check and `_set_properties`. The instance attributes become a map from key
  to optional value.
- `Parse` models `DidlObject.from_xml`, `Container.from_xml` and
  `from_xml_el`. The property writes of `from_xml` are kept as an ordered
  sequence in which the last write of a key wins.
- `Render` models `DidlObject.to_xml` and its two passes over the
  definitions, `Container.to_xml`, and the root element that `to_xml_string`
  hands to the serializer.
- `ElementTree`, `Collecting` and `Wrappers` are support modules. They hold
  the element datatype, `attrib.get`, `attrib[...] = ...`, `find` and
  `findall`, the "convert each element, stop at the first exception" loop,
  and `Option`/`Result`.

The exceptions the code raises are values of `Errors.Error`:

- `KeyError` (an unknown alias, a missing `protocolInfo`/`id`/`nameSpace`,
  an `x@y` definition whose `x` element was not written);
- `ValueError` (a `split` that does not give exactly two parts);
- the generic `'<key> is mandatory'` exception;
- `TypeError` (a keyword argument given twice);
- `AttributeError` (reading a slot the object does not have).

Each loop of the source is a `method` proved equal to a specification
function. The properties are lemmas about those functions.

Some descriptions of this library mention behaviour the code does not have:

- strict and lenient parsing modes;
- a case-insensitive or dotted-prefix fallback when resolving class strings;
- a class string found outside the item element;
- dedicated error types;
- namespace declarations chosen by usage;
- merging or overriding of re-declared definitions;
- "extra" properties re-emitted on serialisation.

The model follows the code. Class strings are matched exactly. Undeclared
keys found while parsing are stored in slots, and `to_xml`, which walks only
the definitions, does not write them back (a key that shadows a class
attribute or method is the exception; see "## Left out"). The root always
declares the same four namespaces.

## Model

| member | source | states |
|---|---|---|
| `Utils.NsTag` | didl_lite/utils.py:16-28 | A tag without ':' is returned unchanged; a successful expansion of a tag with ':' is a braced `{...}` name. |
| `Utils.NsTagAliased` | didl_lite/utils.py:23-28 | `alias:local` with one ':' expands to `'{' + NAMESPACES[alias] + '}' + local` when the alias is registered, and is `KeyError(alias)` otherwise. |
| `Utils.NsTagTooManyColons` | didl_lite/utils.py:26 | Two or more ':' make the unpacking of `split(':')` fail with a ValueError. |
| `Utils.NamespaceTag` | didl_lite/utils.py:31-44 | Without '}' the result is `(None, tag)`; otherwise the tag is `pre + '}' + local` with no '}' in `pre`, and the namespace is `pre` without its first character (whatever it is), so for a tag starting with '{' the tag is `'{' + ns + '}' + local`. |
| `Utils.NamespaceTagSplit` | didl_lite/utils.py:41-44 | Any `pre + '}' + rest` with no '}' in `pre` splits into `pre[1:]` and `rest`, as `"ab}c"` gives `("b", "c")`. |
| `Utils.NamespaceTagBraced` | didl_lite/utils.py:35-44 | `namespace_tag` splits `'{' + uri + '}' + local` back into `uri` and `local` whenever `uri` has no '}'. |
| `Utils.NoBraceInNamespaces` | didl_lite/utils.py:7-13 | No registered URI contains '}' and no alias contains ':'. |
| `Utils.NamespaceTagOfNsTag` | didl_lite/utils.py:7-44 | Round trip: for a registered alias and a local name without ':', splitting the expansion gives back the alias's URI and the local name. |
| `Utils.SplitCapitalisedUnderscored` | didl_lite/utils.py:49 | The first substitution only inserts '_' characters, each just before an uppercase letter. |
| `Utils.SplitLowerUpperUnderscored` | didl_lite/utils.py:50 | The second substitution only inserts '_' characters, each just before an uppercase letter. |
| `Utils.ToCamelCase` | didl_lite/utils.py:47-50 | The result has no ASCII uppercase letter and is never shorter than the input. |
| `Utils.ToCamelCaseSnaked` | didl_lite/utils.py:47-50 | The result is the lower-cased input with zero or more '_' inserted, each just before a letter that was uppercase in the input. |
| `Utils.ToCamelCaseNoUpper` | didl_lite/utils.py:47-50 | A name with no uppercase letter is returned unchanged. |
| `Utils.ToCamelCaseIdempotent` | didl_lite/utils.py:47-50 | Converting twice is converting once. |
| `Utils.DidlPropertyDefKey` | didl_lite/utils.py:53-58 | A definition key never contains '@' or an uppercase letter. |
| `Utils.DidlPropertyDefKeyAttribute` | didl_lite/utils.py:55-56 | The location `@attr` is keyed by the converted `attr` (the '@' is dropped). |
| `Utils.DidlPropertyDefKeyElementAttribute` | didl_lite/utils.py:58 | The location `el@attr` is keyed by the converted `el_attr`. |
| `Utils.DidlPropertyDefKeyPlain` | didl_lite/utils.py:58 | A location without '@' is keyed by its conversion alone. |
| `NameExamples.ToCamelCaseParentId` | didl_lite/utils.py:47-50 | `to_camel_case('parentID')` is `parent_id`. |
| `NameExamples.ParentIdKey` | didl_lite/didl_lite.py:36 | The definition `@parentID` is keyed `parent_id`. |
| `NameExamples.GenreIdKey` | tests/test_didl_lite.py:355-361 | The definition `genre@id` is keyed `genre_id`. |
| `NameExamples.ToCamelCaseAlbumArtUri` | tests/test_didl_lite.py:420-427 | `to_camel_case('albumArtURI')` is `album_art_uri`. |
| `Kinds.SubclassOfParent` | didl_lite/didl_lite.py:177-790 | Every class is among the subclasses of its base class, and a class with no modelled base is one of the two roots `Item` and `Container`. |
| `Kinds.SubclassParent` | didl_lite/didl_lite.py:177-790 | Every subclass listed for a class has that class as its base. |
| `Kinds.KindByClassExact` | didl_lite/didl_lite.py:944-953 | A class found for a string has exactly (case-sensitively) that string as its `upnp_class`. |
| `Kinds.KindByClassNone` | didl_lite/didl_lite.py:944-953 | The lookup gives None exactly when no class has that `upnp_class`. |
| `Kinds.UpnpClassInjective` | didl_lite/didl_lite.py:177-790 | No two classes share a `upnp_class` string. |
| `Kinds.KindByClassFinds` | didl_lite/didl_lite.py:944-953 | Every class's own class string finds that very class. |
| `Kinds.ClassNotObject` | didl_lite/didl_lite.py:33 | No concrete class has the root's class string `object`. |
| `Kinds.ClassNotEmpty` | didl_lite/didl_lite.py:925-926 | No class string is empty, so the non-empty-text check never hides a class. |
| `Kinds.KindByClassObject` | didl_lite/didl_lite.py:944-953 | `type_by_upnp_class('object')` is None. |
| `Kinds.TypeByUpnpClass` | didl_lite/didl_lite.py:944-953 | The worklist loop returns what the specified search returns; with the lemmas above, exactly a class with that string, or None when there is none. |
| `Resources.ResourceFromXml` | didl_lite/didl_lite.py:821-842 | Reading a `res` element fails, with `KeyError('protocolInfo')`, exactly when the attribute is missing. |
| `Resources.ResourceToXml` | didl_lite/didl_lite.py:844-851 | A resource is written as a childless `res` element with exactly one attribute, `protocolInfo`, and the URI as text. |
| `Resources.ResourceRoundTrip` | didl_lite/didl_lite.py:821-851 | Writing then reading a resource keeps its URI and protocol info and drops every other attribute. |
| `Resources.ResourceElementRoundTrip` | didl_lite/didl_lite.py:821-851 | A `res` element carrying only `protocolInfo` is read and written back unchanged. |
| `Resources.DescriptorFromXml` | didl_lite/didl_lite.py:866-872 | Reading a `desc` element succeeds exactly when `id` and `nameSpace` are present; otherwise it is the KeyError of the first one missing. |
| `Resources.DescriptorToXml` | didl_lite/didl_lite.py:874-884 | A descriptor is written as a `desc` element with `id` and `nameSpace`, plus `type` only when set, and its text. |
| `Resources.DescriptorRoundTrip` | didl_lite/didl_lite.py:866-884 | Writing then reading a descriptor gives it back. |
| `Resources.DescriptorElementRoundTrip` | didl_lite/didl_lite.py:866-884 | A `desc` element with exactly the attributes `to_xml` writes is read and written back unchanged. |
| `Objects.FilledKeys` | didl_lite/didl_lite.py:45-51 | Before the check, `id` and `parent_id` hold the arguments (default ""), `class` holds the class string whatever was passed, and every other supplied key is kept. |
| `Objects.FirstMissingSpec` | didl_lite/didl_lite.py:58-63 | The check reports nothing exactly when every key of an 'R' definition is present; otherwise it reports the first required key that is absent. |
| `Objects.DeclaredSpec` | didl_lite/didl_lite.py:65-70 | The default slots are exactly the keys of the definitions, each holding None. |
| `Objects.BuildOk` | didl_lite/didl_lite.py:45-63 | Construction succeeds exactly when neither `descriptors` nor `self` is passed twice and every required key is supplied or is one of `id`, `parent_id`, `class`. |
| `Objects.BuildError` | didl_lite/didl_lite.py:45-63 | A failed construction is the duplicate-argument TypeError, or `'<key> is mandatory'` for the first required key neither supplied nor preset. |
| `Objects.BuildSlots` | didl_lite/didl_lite.py:45-73 | After construction every declared key has a slot; every supplied key holds its value, except `class`, which holds the class string; unsupplied slots are None; the resource and descriptor lists are the ones passed. |
| `Objects.EnsureRequiredProperties` | didl_lite/didl_lite.py:58-63 | The loop of `_ensure_required_properties` finds the first required key missing, as specified. |
| `Objects.SetProperties` | didl_lite/didl_lite.py:65-73 | The two loops of `_set_properties` give the declared slots set to None, overwritten by every supplied property. |
| `Objects.Init` | didl_lite/didl_lite.py:45-56 | `__init__` (with keyword binding) gives the specified construction result. |
| `Objects.New` | didl_lite/didl_lite.py:45-56 | Constructing an object of a class uses that class's `upnp_class` and definitions. |
| `Parse.ApplyLastWrite` | didl_lite/didl_lite.py:86-104 | A key's property value is the one written last for that key. |
| `Parse.AttrWritesSpec` | didl_lite/didl_lite.py:88-91 | Each attribute of the element is written, in order, under its converted name. |
| `Parse.ChildAttrWritesSpec` | didl_lite/didl_lite.py:100-104 | Each attribute of a child is written, in order, under the child's key, '_', and the converted attribute name. |
| `Parse.PropertiesNoUpper` | didl_lite/didl_lite.py:86-104 | No property key read from an element has an uppercase letter. |
| `Parse.ChildKeyOf` | didl_lite/didl_lite.py:96-97 | A child tagged `{uri}local` is keyed by the converted `local`. |
| `Parse.DescChildKey` | didl_lite/didl_lite.py:93-98 | A nested `desc` child is not skipped: it is keyed `desc` like any other child. |
| `Parse.LastChildText` | didl_lite/didl_lite.py:93-104 | The text of the last child that is not a `res` one is the value of its key among the properties. |
| `Parse.DescLeaksAsKey` | didl_lite/didl_lite.py:93-104 | A nested `desc` element that is the last child leaks its text into the properties under `desc`. |
| `Parse.ResourcesOfError` | didl_lite/didl_lite.py:106-110 | Reading the resources fails only with `KeyError('protocolInfo')`, for a direct `res` child without that attribute. |
| `Parse.DescriptorsOfError` | didl_lite/didl_lite.py:112-117 | Reading the descriptors fails only with `KeyError('id')` or `KeyError('nameSpace')`. |
| `Parse.LibraryLookup` | didl_lite/didl_lite.py:944-953 | The library's lookup is sound (what it finds has the string looked for) and complete (every class string is non-empty and finds that very class). |
| `Parse.ChildKindSpec` | didl_lite/didl_lite.py:918-928 | A child read as an object is an `item` or `container` whose first `upnp:class` child has that class's string as its text. |
| `Parse.ChildKindFinds` | didl_lite/didl_lite.py:918-928 | Conversely, such a child whose class text is the class string of a class is read as that class. |
| `Parse.ChildKindUnknown` | didl_lite/didl_lite.py:926-928 | A child whose class text names no class is skipped. |
| `Parse.SelectedSpec` | didl_lite/didl_lite.py:918-931 | The children read as objects are exactly the children with a known class, each with its class. |
| `Parse.ReadAllSpec` | didl_lite/didl_lite.py:918-931 | A successful reading gives one object per selected child, each read as its class, in order. |
| `Parse.ParseItemsSelected` | didl_lite/didl_lite.py:918-931 | The loop over the children reads exactly the selected children, in document order, stopping at the first error. |
| `Parse.ParseNodesShape` | didl_lite/didl_lite.py:915-940 | `from_xml_el` gives one object per selected child, in order, followed by one descriptor per direct `desc` child, in order. |
| `Parse.ParseObjectSpec` | didl_lite/didl_lite.py:76-119 | An object read by `from_xml` has the class asked for, every read property but `class` in its slot, `class` set to the class string, the `res` and `desc` children read in order, and, for a container, the nodes `from_xml_el` reads from the same element (its `desc` children included). |
| `Parse.ParseObjectError` | didl_lite/didl_lite.py:76-119 | Reading raises only a missing-attribute KeyError, a duplicate-keyword TypeError or a missing-required-property error. |
| `Parse.ReadAttributes` | didl_lite/didl_lite.py:88-91 | The attribute loop performs the attribute writes in order. |
| `Parse.ReadChild` | didl_lite/didl_lite.py:96-104 | One child writes its text under its key, then its attributes under the joined keys. |
| `Parse.ReadChildren` | didl_lite/didl_lite.py:93-104 | The child loop skips `res` children and performs every other child's writes, in order. |
| `Parse.ReadProperties` | didl_lite/didl_lite.py:86-104 | The property loops build the dict the writes specify. |
| `Parse.DidlObjectFromXml` | didl_lite/didl_lite.py:76-119 | `DidlObject.from_xml` computes the specified reading. |
| `Parse.FromXml` | didl_lite/didl_lite.py:527-540 | `Container.from_xml` extends the object with what `from_xml_el` reads from its own element. |
| `Parse.ChildType` | didl_lite/didl_lite.py:918-928 | The class chosen for a child is the specified one. |
| `Parse.ReadChildObjects` | didl_lite/didl_lite.py:918-931 | The loop of `from_xml_el` gives the objects as specified, or the first error. |
| `Parse.FromXmlEl` | didl_lite/didl_lite.py:915-940 | `from_xml_el` gives the objects, then the descriptors, as specified. |
| `Parse.FromXmlElement` | didl_lite/didl_lite.py:915-953 | `from_xml_el` with the library's classes, looked up by `type_by_upnp_class`. |
| `Render.SetAttr` | didl_lite/didl_lite.py:153-155 | Setting an attribute on a recorded element changes that attribute of that element and nothing else. |
| `Render.EmitPassOk` | didl_lite/didl_lite.py:127-140 | The first pass succeeds exactly when every definition without '@' has a slot. |
| `Render.EmitPassError` | didl_lite/didl_lite.py:127-134 | A failing first pass is the AttributeError of the first definition without '@' that has no slot. |
| `Render.ShownSpec` | didl_lite/didl_lite.py:127-140 | Every definition written as a child is one of the class's definitions, and every definition without '@', with a non-None value and not keyed `res` is written. |
| `Render.EmitPassShape` | didl_lite/didl_lite.py:122-140 | After the first pass, the children are one element per such definition, in definition order, tagged `alias:location` with the value as text; the `elements` dict maps `''` to the own element and each emitted location to its child. |
| `Render.EmitPassInjective` | didl_lite/didl_lite.py:124-140 | Distinct entries of the `elements` dict name distinct elements. |
| `Render.EmitPassNoRes` | didl_lite/didl_lite.py:134-135 | The location `res` never enters the `elements` dict. |
| `Render.SplitAt` | didl_lite/didl_lite.py:153 | `location.split('@')` unpacks into two names exactly when the location holds one '@', and the names rejoin to the location. |
| `Render.SplitAtOf` | didl_lite/didl_lite.py:153 | `el@attr` splits into `el` and `attr`. |
| `Render.AttrStep` | didl_lite/didl_lite.py:144-155 | One turn of the second loop raises exactly when the checks fail, and otherwise only changes attributes. |
| `Render.AttrPassOk` | didl_lite/didl_lite.py:144-155 | The second pass succeeds exactly when no definition raises against the dict. |
| `Render.AttrPassError` | didl_lite/didl_lite.py:144-155 | A failing second pass is the error of the first definition that raises: AttributeError, ValueError, or the KeyError of an element that was not written. |
| `Render.AttrPlaced` | didl_lite/didl_lite.py:144-155 | A set `x@y` property, not repeated later, ends as attribute `y` of the element recorded for `x`. |
| `Render.AttrPassOnly` | didl_lite/didl_lite.py:143-155 | Every attribute pair after the second pass was already there or was written by a definition whose location splits into an element part the dict maps to that element and the pair's name, and whose property holds the pair's value. |
| `Render.UnwrittenElementFails` | didl_lite/didl_lite.py:152-154 | A set `x@y` property whose `x` is the location of no written property child makes the second pass raise, with `KeyError(x)` when no earlier definition raises. |
| `Render.ResAttributeFails` | didl_lite/didl_lite.py:134-155 | A set `res@attr` property (TextItem's `res@protection`, line 394) can never be written: the second pass raises. |
| `Render.DidlObjectElementShape` | didl_lite/didl_lite.py:121-167 | `DidlObject.to_xml` gives an element with the class's tag whose children are the property elements in definition order, then all resources, then all descriptors. |
| `Render.ObjectElementMembers` | didl_lite/didl_lite.py:542-550 | A container's element is the base element followed by one element per member, in member order. |
| `Render.MemberElementsSpec` | didl_lite/didl_lite.py:546-548 | The member elements are the members' own elements, in order. |
| `Render.OwnAttributeWritten` | didl_lite/didl_lite.py:144-155 | A set `@y` property is attribute `y` of the object's own element. |
| `Render.ChildAttributeWritten` | didl_lite/didl_lite.py:144-155 | A set `x@y` property is attribute `y` of the property child written for `x`. |
| `Render.OwnAttributesOnly` | didl_lite/didl_lite.py:121-155 | The object's own element carries no other attributes: each pair `(y, v)` on it comes from a definition at `@y` whose property is `v`, so unset or None properties and undeclared slots add none. |
| `Render.ChildAttributesOnly` | didl_lite/didl_lite.py:127-155 | A property child written for `x` carries no other attributes: each pair `(y, v)` on it comes from a definition at `x@y` whose property is `v`. |
| `Render.ResourceElements` | didl_lite/didl_lite.py:157-160 | One `res` element per resource, in order. |
| `Render.DescriptorElements` | didl_lite/didl_lite.py:162-165 | One `desc` element per descriptor, in order. |
| `Render.RootElementSpec` | didl_lite/didl_lite.py:894-904 | The root is a `DIDL-Lite` element with the four declarations and one child per object, that object's element, in argument order; a failure is the first object's error. |
| `Render.RootAttrsDeclare` | didl_lite/didl_lite.py:896-900 | The root declares the registry's `didl_lite` (default), `dc`, `upnp` and `sec` namespaces, in that order. |
| `Render.AppendProperties` | didl_lite/didl_lite.py:127-140 | The first loop of `to_xml` computes the specified first pass. |
| `Render.SetAttribute` | didl_lite/didl_lite.py:144-155 | One turn of the second loop computes the specified step. |
| `Render.SetAttributes` | didl_lite/didl_lite.py:143-155 | The second loop of `to_xml` computes the specified second pass. |
| `Render.AppendResources` | didl_lite/didl_lite.py:157-160 | The resource loop appends one `res` element per resource. |
| `Render.AppendDescriptors` | didl_lite/didl_lite.py:162-165 | The descriptor loop appends one `desc` element per descriptor. |
| `Render.DidlObjectToXml` | didl_lite/didl_lite.py:121-167 | `DidlObject.to_xml` computes the specified element. |
| `Render.AppendMembers` | didl_lite/didl_lite.py:546-548 | The member loop of `Container.to_xml` appends each member's element. |
| `Render.ToXml` | didl_lite/didl_lite.py:542-550 | `Container.to_xml` appends the members' elements after the base element's children. |
| `Render.AppendObjects` | didl_lite/didl_lite.py:902-904 | The loop of `to_xml_string` appends each object's element. |
| `Render.ToXmlString` | didl_lite/didl_lite.py:894-904 | `to_xml_string` builds the specified root element. |

## Left out

- Byte-level XML: `defusedxml.ElementTree.fromstring` (and so `from_xml_string`) and `ET.tostring` are library calls. The model starts from the parsed element tree and stops at the root element handed to `tostring`. `tostring` writes the `alias:location` tags literally; they resolve to namespaced names only when the output is parsed again with the root's four `xmlns` declarations. The model keeps the literal tags, as the code does.
- Reflection: the `__subclasses__` walk uses a static table of each class's subclasses, in definition order. `setattr`/`__getattr__` become a key-to-value map. Reading a missing slot is an AttributeError, modelled where `to_xml` reads slots. `Descriptor.__getattr__` is not modelled. The map never shadows a class attribute or method, as Python's `setattr` in `_set_properties` can when a parsed or supplied key is `tag`, `didl_properties_defs`, `to_xml`, or, on a container, a `list` method such as `extend`. So the model does not capture a `tag` slot renaming the written element, or the TypeError when `from_xml` calls a shadowed `extend` or `to_xml_string` a shadowed `to_xml`.
- Object identity: objects are values. The `list` base of `Container` becomes the `members` sequence. In-place changes after construction are not modelled: callers appending to a container, or setting attributes. Neither is aliasing between objects. The `elements` dict of `to_xml` holds references to appended children; the model records each child's index and updates the child in its sequence.
- The abstract `DidlObject` base has no tag and `type_by_upnp_class` never returns it. Constructing it directly and its failing `to_xml` (`assert self.tag is not None`) are not modelled.
- Objects.Build: values are `Option<string>`, where Python accepts any object. The `resources` keyword is passed as a separate typed list, so the properties given to the initializer never hold the key `resources`. When reading, the parsed list replaces any property named `resources`.
- Utils.ToCamelCase: only ASCII letters are upper- or lower-case. Python's Unicode `lower()` and the Unicode classes of `re` are not modelled. The `.` of the first pattern excludes a newline, as in `re`.
- Resources.ResourceRoundTrip: only the URI and `protocolInfo` survive writing. The other ten attributes are read but never written, so no full round trip is claimed.
- The packaging script and the test module are not part of this model.
