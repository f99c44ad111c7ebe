/**
 * The string helpers of the DIDL-Lite library: the namespace registry, the
 * expansion `alias:local` -> `{uri}local` and its inverse split, the conversion
 * of XML property names to snake_case keys (called `to_camel_case` in the
 * library, although it produces snake_case), and the key of a property
 * definition.
 */
module Utils {
  import opened Wrappers
  import opened Errors

  const DidlLiteUri: string := "urn:schemas-upnp-org:metadata-1-0/DIDL-Lite/"
  const DcUri: string := "http://purl.org/dc/elements/1.1/"
  const SecUri: string := "http://www.sec.co.kr/"
  const UpnpUri: string := "urn:schemas-upnp-org:metadata-1-0/upnp/"
  const XsiUri: string := "http://www.w3.org/2001/XMLSchema-instance"

  /** The fixed alias -> namespace URI registry. */
  const Namespaces: map<string, string> := map[
    "didl_lite" := DidlLiteUri,
    "dc" := DcUri,
    "sec" := SecUri,
    "upnp" := UpnpUri,
    "xsi" := XsiUri
  ]

  /** Number of occurrences of `c` in `s`. */
  function Count(s: string, c: char): nat
  {
    if s == [] then 0 else (if s[0] == c then 1 else 0) + Count(s[1..], c)
  }

  lemma {:induction false} CountZero(s: string, c: char)
    ensures Count(s, c) == 0 <==> c !in s
  {
    if s != [] {
      CountZero(s[1..], c);
      assert s == [s[0]] + s[1..];
    }
  }

  lemma {:induction false} CountAppend(a: string, b: string, c: char)
    ensures Count(a + b, c) == Count(a, c) + Count(b, c)
  {
    if a != [] {
      assert (a + b)[1..] == a[1..] + b;
      CountAppend(a[1..], b, c);
    } else {
      assert a + b == b;
    }
  }

  /** Index of the first `c` in `s` (Python's `s.index(c)`). */
  function IndexOf(s: string, c: char): (i: nat)
    requires c in s
    ensures i < |s| && s[i] == c && c !in s[..i]
  {
    if s[0] == c then 0
    else
      var j := IndexOf(s[1..], c);
      assert s[..j + 1] == [s[0]] + s[1..][..j];
      j + 1
  }

  lemma {:induction false} IndexOfConcat(a: string, c: char, b: string)
    requires c !in a
    ensures c in a + [c] + b && IndexOf(a + [c] + b, c) == |a|
  {
    var s := a + [c] + b;
    assert s[|a|] == c;
    if a != [] {
      assert s[1..] == a[1..] + [c] + b;
      IndexOfConcat(a[1..], c, b);
    }
  }

  /**
   * `ns_tag`: expand `alias:local` to `{uri}local`. A tag without ':' is
   * returned unchanged; `tag.split(':')` must give exactly two parts and the
   * alias must be registered.
   */
  function NsTag(tag: string): (r: Result<string, Error>)
    ensures ':' !in tag ==> r == Ok(tag)
    ensures r.Ok? && ':' in tag ==> |r.value| > 0 && r.value[0] == '{' && '}' in r.value
  {
    if ':' !in tag then Ok(tag)
    else
      var i := IndexOf(tag, ':');
      var alias, local := tag[..i], tag[i + 1..];
      if ':' in local then Err(ValueError)
      else if alias !in Namespaces then Err(KeyError(alias))
      else
        var r := "{" + Namespaces[alias] + "}" + local;
        assert r[0] == '{' && r[|Namespaces[alias]| + 1] == '}';
        Ok(r)
  }

  /** An aliased name expands to `{uri}local` exactly when its alias is registered. */
  lemma NsTagAliased(alias: string, local: string)
    requires ':' !in alias && ':' !in local
    ensures NsTag(alias + ":" + local) ==
      if alias in Namespaces then Ok("{" + Namespaces[alias] + "}" + local)
      else Err(KeyError(alias))
  {
    var tag := alias + ":" + local;
    IndexOfConcat(alias, ':', local);
    assert tag[..|alias|] == alias;
    assert tag[|alias| + 1..] == local;
  }

  /** More than one ':' is an unpacking error (`namespace, tag = tag.split(':')`). */
  lemma NsTagTooManyColons(tag: string)
    requires Count(tag, ':') >= 2
    ensures NsTag(tag) == Err(ValueError)
  {
    CountZero(tag, ':');
    var i := IndexOf(tag, ':');
    assert tag == tag[..i] + [tag[i]] + tag[i + 1..];
    CountAppend(tag[..i] + [tag[i]], tag[i + 1..], ':');
    CountAppend(tag[..i], [tag[i]], ':');
    CountZero(tag[..i], ':');
    CountZero(tag[i + 1..], ':');
  }

  /**
   * `namespace_tag`: split `{uri}local` into the text between the first
   * character and the first '}', and the text after that '}'.
   */
  function NamespaceTag(tag: string): (r: (Option<string>, string))
    ensures '}' !in tag ==> r == (None, tag)
    ensures '}' in tag ==> r.0.Some? && '}' !in r.0.value
    ensures '}' in tag && tag[0] == '{' ==> tag == "{" + r.0.value + "}" + r.1
    ensures '}' in tag ==>
      exists pre :: '}' !in pre && tag == pre + "}" + r.1 && r.0 == Some(if pre == "" then "" else pre[1..])
  {
    if '}' !in tag then (None, tag)
    else
      var i := IndexOf(tag, '}');
      var ns := if i == 0 then "" else tag[1..i];
      assert '}' !in ns by {
        if i > 0 {
          assert forall k :: 0 <= k < |ns| ==> ns[k] == tag[..i][k + 1];
        }
      }
      assert tag[0] == '{' ==> tag == "{" + ns + "}" + tag[i + 1..] by {
        if tag[0] == '{' {
          assert i > 0;
          assert tag == [tag[0]] + tag[1..i] + [tag[i]] + tag[i + 1..];
        }
      }
      assert '}' !in tag[..i] && tag == tag[..i] + "}" + tag[i + 1..];
      (Some(ns), tag[i + 1..])
  }

  lemma NoBraceInNamespaces()
    ensures forall alias :: alias in Namespaces ==> '}' !in Namespaces[alias] && ':' !in alias
  {
    NoBraceInUpnpUris();
    NoBraceInOtherUris();
  }

  lemma NoBraceInUpnpUris()
    ensures '}' !in DidlLiteUri && '}' !in UpnpUri
  {
  }

  lemma NoBraceInOtherUris()
    ensures '}' !in DcUri && '}' !in SecUri && '}' !in XsiUri
  {
    NoBraceInDcUri();
    NoBraceInSecUri();
    NoBraceInXsiUri();
  }

  lemma NoBraceInDcUri() ensures '}' !in DcUri {}
  lemma NoBraceInSecUri() ensures '}' !in SecUri {}
  lemma NoBraceInXsiUri() ensures '}' !in XsiUri {}

  /** `namespace_tag` inverts the bracing `{uri}local` whenever `uri` has no '}'. */
  /**
   * Any tag splits at its first '}': the namespace is what precedes it minus
   * its first character (whatever that is), the local name what follows.
   */
  lemma NamespaceTagSplit(pre: string, rest: string)
    requires '}' !in pre
    ensures NamespaceTag(pre + "}" + rest) == (Some(if pre == "" then "" else pre[1..]), rest)
  {
    var tag := pre + "}" + rest;
    IndexOfConcat(pre, '}', rest);
    assert tag == pre + ['}'] + rest;
    var i := IndexOf(tag, '}');
    assert i == |pre|;
    assert tag[i + 1..] == rest;
    if pre != [] {
      assert tag[1..i] == pre[1..];
    }
  }

  lemma NamespaceTagBraced(uri: string, local: string)
    requires '}' !in uri
    ensures NamespaceTag("{" + uri + "}" + local) == (Some(uri), local)
  {
    var tag := "{" + uri + "}" + local;
    IndexOfConcat("{" + uri, '}', local);
    assert tag == ("{" + uri) + ['}'] + local;
    var i := IndexOf(tag, '}');
    assert i == |uri| + 1;
    assert tag[1..i] == uri;
    assert tag[i + 1..] == local;
  }

  /** Round trip: splitting an expanded `alias:local` gives back the URI and `local`. */
  lemma NamespaceTagOfNsTag(alias: string, local: string)
    requires alias in Namespaces && ':' !in local
    ensures NsTag(alias + ":" + local).Ok?
    ensures NamespaceTag(NsTag(alias + ":" + local).value) == (Some(Namespaces[alias]), local)
  {
    NoBraceInNamespaces();
    NsTagAliased(alias, local);
    NamespaceTagBraced(Namespaces[alias], local);
  }

  // ---------------------------------------------------------------------
  // Property-name conversion (`to_camel_case`), over ASCII letter classes.

  predicate IsUpper(c: char) { 'A' <= c <= 'Z' }
  predicate IsLower(c: char) { 'a' <= c <= 'z' }
  predicate IsDigit(c: char) { '0' <= c <= '9' }

  /** ASCII lower-casing of one character; other characters are left alone. */
  function LowerChar(c: char): (d: char)
    ensures !IsUpper(d)
    ensures IsUpper(c) ==> IsLower(d)
    ensures !IsUpper(c) ==> d == c
  {
    if IsUpper(c) then (c as int - 'A' as int + 'a' as int) as char else c
  }

  /** `str.lower()` restricted to ASCII. */
  function Lower(s: string): (r: string)
    ensures |r| == |s| && forall i :: 0 <= i < |s| ==> r[i] == LowerChar(s[i])
  {
    if s == [] then [] else [LowerChar(s[0])] + Lower(s[1..])
  }

  ghost predicate NoUpper(s: string)
  {
    forall i :: 0 <= i < |s| ==> !IsUpper(s[i])
  }

  /** Length of the run of lowercase letters that starts `s` (the greedy `[a-z]+`). */
  function LowerRun(s: string): (n: nat)
    ensures n <= |s|
    ensures forall i :: 0 <= i < n ==> IsLower(s[i])
    ensures n < |s| ==> !IsLower(s[n])
  {
    if s != [] && IsLower(s[0]) then 1 + LowerRun(s[1..]) else 0
  }

  /**
   * `re.sub('(.)([A-Z][a-z]+)', r'\1_\2', s)`: scanning left to right, a
   * character other than a newline, followed by an uppercase letter and a
   * maximal run of lowercase letters, gets a '_' after it; matching resumes
   * after the run.
   */
  function SplitCapitalised(s: string): string
  {
    if |s| >= 3 && s[0] != '\n' && IsUpper(s[1]) && IsLower(s[2]) then
      var n := 2 + LowerRun(s[2..]);
      [s[0], '_'] + s[1..n] + SplitCapitalised(s[n..])
    else if s == [] then []
    else [s[0]] + SplitCapitalised(s[1..])
  }

  /**
   * `re.sub('([a-z0-9])([A-Z])', r'\1_\2', s)`: a lowercase letter or digit
   * followed by an uppercase letter gets a '_' between them; matching resumes
   * after the uppercase letter.
   */
  function SplitLowerUpper(s: string): string
  {
    if |s| >= 2 && (IsLower(s[0]) || IsDigit(s[0])) && IsUpper(s[1]) then
      [s[0], '_', s[1]] + SplitLowerUpper(s[2..])
    else if s == [] then []
    else [s[0]] + SplitLowerUpper(s[1..])
  }

  /**
   * `r` is `s` with zero or more '_' inserted, each immediately before a
   * character that is an uppercase letter of `s`.
   */
  ghost predicate Underscored(s: string, r: string)
    decreases |s| + |r|
  {
    if s == [] then r == []
    else
      |r| > 0 &&
      ((r[0] == s[0] && Underscored(s[1..], r[1..])) ||
       (r[0] == '_' && IsUpper(s[0]) && Underscored(s, r[1..])))
  }

  /**
   * `r` is the ASCII lower-casing of `s` with zero or more '_' inserted, each
   * immediately before (the lower-cased image of) an uppercase letter of `s`.
   */
  ghost predicate Snaked(s: string, r: string)
    decreases |s| + |r|
  {
    if s == [] then r == []
    else
      |r| > 0 &&
      ((r[0] == LowerChar(s[0]) && Snaked(s[1..], r[1..])) ||
       (r[0] == '_' && IsUpper(s[0]) && Snaked(s, r[1..])))
  }

  lemma {:induction false} UnderscoredPrefix(x: string, a: string, b: string)
    requires Underscored(a, b)
    ensures Underscored(x + a, x + b)
    decreases |x|
  {
    if x != [] {
      UnderscoredPrefix(x[1..], a, b);
      assert (x + a)[1..] == x[1..] + a;
      assert (x + b)[1..] == x[1..] + b;
      assert Underscored((x + a)[1..], (x + b)[1..]);
      assert (x + a)[0] == (x + b)[0];
    } else {
      assert x + a == a && x + b == b;
    }
  }

  lemma {:induction false} UnderscoredRefl(s: string)
    ensures Underscored(s, s)
    decreases |s|
  {
    if s != [] {
      UnderscoredRefl(s[1..]);
    }
  }

  /** Inserting '_' before the uppercase `s[1]`, in front of an underscored tail. */
  lemma UnderscoredInsert(s: string, n: nat, rest: string)
    requires 2 <= n <= |s| && IsUpper(s[1]) && Underscored(s[n..], rest)
    ensures Underscored(s, [s[0], '_'] + s[1..n] + rest)
  {
    UnderscoredPrefix(s[1..n], s[n..], rest);
    assert s[1..n] + s[n..] == s[1..];
    var r := [s[0], '_'] + s[1..n] + rest;
    assert r[1..][1..] == s[1..n] + rest;
    assert Underscored(s[1..], r[1..][1..]);
    assert Underscored(s[1..], r[1..]);
  }

  lemma {:induction false} SplitCapitalisedUnderscored(s: string)
    ensures Underscored(s, SplitCapitalised(s))
    decreases |s|
  {
    if |s| >= 3 && s[0] != '\n' && IsUpper(s[1]) && IsLower(s[2]) {
      var n := 2 + LowerRun(s[2..]);
      SplitCapitalisedUnderscored(s[n..]);
      UnderscoredInsert(s, n, SplitCapitalised(s[n..]));
    } else if s != [] {
      SplitCapitalisedUnderscored(s[1..]);
    }
  }

  lemma {:induction false} SplitLowerUpperUnderscored(s: string)
    ensures Underscored(s, SplitLowerUpper(s))
    decreases |s|
  {
    if |s| >= 2 && (IsLower(s[0]) || IsDigit(s[0])) && IsUpper(s[1]) {
      var rest := SplitLowerUpper(s[2..]);
      SplitLowerUpperUnderscored(s[2..]);
      var r := [s[0], '_', s[1]] + rest;
      assert r[1..][1..][1..] == rest && s[1..][1..] == s[2..];
      assert Underscored(s[1..], r[1..][1..]);
      assert Underscored(s[1..], r[1..]);
    } else if s != [] {
      SplitLowerUpperUnderscored(s[1..]);
    }
  }

  lemma {:induction false} UnderscoredTrans(s: string, t: string, u: string)
    requires Underscored(s, t) && Underscored(t, u)
    ensures Underscored(s, u)
    decreases |s| + |t| + |u|
  {
    if s == [] {
      assert t == [];
    } else if t[0] == s[0] && Underscored(s[1..], t[1..]) {
      if u[0] == t[0] && Underscored(t[1..], u[1..]) {
        UnderscoredTrans(s[1..], t[1..], u[1..]);
      } else {
        UnderscoredTrans(s, t, u[1..]);
      }
    } else {
      // t[0] is an inserted '_', which is not an uppercase letter
      assert t[0] == '_' && IsUpper(s[0]) && Underscored(s, t[1..]);
      assert u[0] == t[0] && Underscored(t[1..], u[1..]);
      UnderscoredTrans(s, t[1..], u[1..]);
    }
  }

  lemma {:induction false} UnderscoredLower(s: string, t: string)
    requires Underscored(s, t)
    ensures Snaked(s, Lower(t))
    decreases |s| + |t|
  {
    if s != [] {
      var r := Lower(t);
      assert r[1..] == Lower(t[1..]);
      if t[0] == s[0] && Underscored(s[1..], t[1..]) {
        UnderscoredLower(s[1..], t[1..]);
      } else {
        UnderscoredLower(s, t[1..]);
      }
    }
  }

  lemma {:induction false} SnakedLength(s: string, r: string)
    requires Snaked(s, r)
    ensures |r| >= |s|
    decreases |s| + |r|
  {
    if s != [] {
      if r[0] == LowerChar(s[0]) && Snaked(s[1..], r[1..]) {
        SnakedLength(s[1..], r[1..]);
      } else {
        SnakedLength(s, r[1..]);
      }
    }
  }

  /** A character that is neither '_' nor a lowercase letter survives only if it was there. */
  lemma {:induction false} SnakedKeepsOut(s: string, r: string, c: char)
    requires Snaked(s, r) && c != '_' && !IsLower(c) && c !in s
    ensures c !in r
    decreases |s| + |r|
  {
    if s != [] {
      if r[0] == LowerChar(s[0]) && Snaked(s[1..], r[1..]) {
        SnakedKeepsOut(s[1..], r[1..], c);
      } else {
        SnakedKeepsOut(s, r[1..], c);
      }
      assert r == [r[0]] + r[1..];
    }
  }

  /**
   * `to_camel_case`: despite its name, converts to snake_case. The result has
   * no uppercase letters and is never shorter than the input.
   */
  function ToCamelCase(name: string): (r: string)
    ensures NoUpper(r)
    ensures |r| >= |name|
  {
    var t := SplitCapitalised(name);
    var u := SplitLowerUpper(t);
    SplitCapitalisedUnderscored(name);
    SplitLowerUpperUnderscored(t);
    UnderscoredTrans(name, t, u);
    UnderscoredLower(name, u);
    SnakedLength(name, Lower(u));
    Lower(u)
  }

  /**
   * The key is the lower-cased name with '_' inserted only just before
   * letters that were uppercase in the name.
   */
  lemma ToCamelCaseSnaked(name: string)
    ensures Snaked(name, ToCamelCase(name))
  {
    var t := SplitCapitalised(name);
    var u := SplitLowerUpper(t);
    SplitCapitalisedUnderscored(name);
    SplitLowerUpperUnderscored(t);
    UnderscoredTrans(name, t, u);
    UnderscoredLower(name, u);
  }

  lemma {:induction false} SplitCapitalisedNoUpper(s: string)
    requires NoUpper(s)
    ensures SplitCapitalised(s) == s
    decreases |s|
  {
    if s != [] {
      SplitCapitalisedNoUpper(s[1..]);
    }
  }

  lemma {:induction false} SplitLowerUpperNoUpper(s: string)
    requires NoUpper(s)
    ensures SplitLowerUpper(s) == s
    decreases |s|
  {
    if s != [] {
      SplitLowerUpperNoUpper(s[1..]);
    }
  }

  /** A name with no uppercase letter is its own key. */
  lemma ToCamelCaseNoUpper(s: string)
    requires NoUpper(s)
    ensures ToCamelCase(s) == s
  {
    SplitCapitalisedNoUpper(s);
    SplitLowerUpperNoUpper(s);
  }

  /** Converting twice is converting once. */
  lemma ToCamelCaseIdempotent(s: string)
    ensures ToCamelCase(ToCamelCase(s)) == ToCamelCase(s)
  {
    ToCamelCaseNoUpper(ToCamelCase(s));
  }

  // ---------------------------------------------------------------------
  // Property-definition keys

  /** `s.replace(c, sub)`. */
  function Replace(s: string, c: char, sub: string): (r: string)
    ensures c !in sub ==> c !in r
  {
    if s == [] then [] else (if s[0] == c then sub else [s[0]]) + Replace(s[1..], c, sub)
  }

  /**
   * `didl_property_def_key`: the key under which a property definition's
   * value is stored, from its location (the definition's second component):
   * `@attr` gives `attr`, `el@attr` gives `el_attr`, then snake_case.
   */
  function DidlPropertyDefKey(location: string): (key: string)
    ensures '@' !in key && NoUpper(key)
  {
    var s := if |location| > 0 && location[0] == '@' then Replace(location, '@', "")
             else Replace(location, '@', "_");
    ToCamelCaseSnaked(s);
    SnakedKeepsOut(s, ToCamelCase(s), '@');
    ToCamelCase(s)
  }

  lemma {:induction false} ReplaceAppend(a: string, b: string, c: char, sub: string)
    ensures Replace(a + b, c, sub) == Replace(a, c, sub) + Replace(b, c, sub)
    decreases |a|
  {
    if a == [] {
      assert a + b == b;
    } else {
      assert (a + b)[1..] == a[1..] + b;
      ReplaceAppend(a[1..], b, c, sub);
    }
  }

  lemma {:induction false} ReplaceAbsent(s: string, c: char, sub: string)
    requires c !in s
    ensures Replace(s, c, sub) == s
    decreases |s|
  {
    if s != [] {
      ReplaceAbsent(s[1..], c, sub);
    }
  }

  /** An attribute location `@attr` is keyed by the converted `attr`. */
  lemma DidlPropertyDefKeyAttribute(attr: string)
    requires '@' !in attr
    ensures DidlPropertyDefKey("@" + attr) == ToCamelCase(attr)
  {
    var location := "@" + attr;
    assert location[0] == '@';
    ReplaceAppend("@", attr, '@', "");
    ReplaceAbsent(attr, '@', "");
    assert Replace(location, '@', "") == attr;
  }

  /** An element-attribute location `el@attr` (with `el` non-empty) is keyed by the converted `el_attr`. */
  lemma DidlPropertyDefKeyElementAttribute(el: string, attr: string)
    requires el != [] && '@' !in el && '@' !in attr
    ensures DidlPropertyDefKey(el + "@" + attr) == ToCamelCase(el + "_" + attr)
  {
    var loc := el + "@" + attr;
    assert loc[0] == el[0] && el[0] != '@';
    ReplaceAppend(el + "@", attr, '@', "_");
    ReplaceAppend(el, "@", '@', "_");
    ReplaceAbsent(el, '@', "_");
    ReplaceAbsent(attr, '@', "_");
    assert Replace("@", '@', "_") == "_" + Replace([], '@', "_");
    assert Replace(loc, '@', "_") == el + "_" + attr;
  }

  /** A location without '@' is keyed by its conversion alone. */
  lemma DidlPropertyDefKeyPlain(location: string)
    requires '@' !in location
    ensures DidlPropertyDefKey(location) == ToCamelCase(location)
  {
    ReplaceAbsent(location, '@', "_");
  }
}
