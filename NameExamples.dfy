/**
 * Worked examples of the name helpers: `to_camel_case` on `parentID` and
 * `albumArtURI`, and the keys of the definitions `@parentID` and
 * `genre@id`. Each string is passed in as a parameter equal to the literal.
 */
module NameExamples {
  import opened Utils

  lemma SplitCapitalisedParentId(s: string)
    requires s == "parentID"
    ensures SplitCapitalised(s) == s
  {
    assert SplitCapitalised(s[7..]) == s[7..];
    assert SplitCapitalised(s[6..]) == s[6..];
    assert SplitCapitalised(s[5..]) == s[5..];
    assert SplitCapitalised(s[4..]) == s[4..];
    assert SplitCapitalised(s[3..]) == s[3..];
    assert SplitCapitalised(s[2..]) == s[2..];
    assert SplitCapitalised(s[1..]) == s[1..];
  }

  lemma SplitLowerUpperParentId(s: string)
    requires s == "parentID"
    ensures SplitLowerUpper(s) == s[..6] + "_" + s[6..]
  {
    assert SplitLowerUpper(s[7..]) == s[7..];
    assert SplitLowerUpper(s[5..]) == s[5..6] + "_" + s[6..];
    assert SplitLowerUpper(s[4..]) == s[4..6] + "_" + s[6..];
    assert SplitLowerUpper(s[3..]) == s[3..6] + "_" + s[6..];
    assert SplitLowerUpper(s[2..]) == s[2..6] + "_" + s[6..];
    assert SplitLowerUpper(s[1..]) == s[1..6] + "_" + s[6..];
  }

  lemma LowerParentId(s: string)
    requires s == "parent_ID"
    ensures Lower(s) == "parent_id"
  {
    var r := Lower(s);
    forall i | 0 <= i < 9 ensures r[i] == "parent_id"[i] {}
  }

  /** `to_camel_case('parentID')` is `parent_id`: the snake_case the library stores `parentID` under. */
  lemma ToCamelCaseParentId(s: string)
    requires s == "parentID"
    ensures ToCamelCase(s) == "parent_id"
  {
    SplitCapitalisedParentId(s);
    SplitLowerUpperParentId(s);
    LowerParentId(s[..6] + "_" + s[6..]);
  }

  /** The definition `@parentID` is keyed `parent_id`, the name of the initializer's parameter. */
  lemma ParentIdKey(location: string)
    requires location == "@parentID"
    ensures DidlPropertyDefKey(location) == "parent_id"
  {
    var attr := location[1..];
    assert location == "@" + attr && '@' !in attr;
    DidlPropertyDefKeyAttribute(attr);
    ToCamelCaseParentId(attr);
  }

  lemma GenreIdParts(el: string, attr: string)
    requires el == "genre" && attr == "id"
    ensures '@' !in el && '@' !in attr && el != []
    ensures el + "@" + attr == "genre@id" && NoUpper(el + "_" + attr)
  {
  }

  /** The definition `genre@id` is keyed `genre_id`. */
  lemma GenreIdKey(location: string)
    requires location == "genre@id"
    ensures DidlPropertyDefKey(location) == "genre_id"
  {
    var el, attr := "genre", "id";
    GenreIdParts(el, attr);
    DidlPropertyDefKeyElementAttribute(el, attr);
    ToCamelCaseNoUpper(el + "_" + attr);
  }

  /** The letter classes of `albumArtURI`: five lowercase, `A`, two lowercase, three uppercase. */
  ghost predicate AlbumArtUriShape(s: string)
  {
    |s| == 11 && (forall i :: 0 <= i < 5 ==> IsLower(s[i])) && IsUpper(s[5]) && IsLower(s[6]) && IsLower(s[7]) &&
    IsUpper(s[8]) && IsUpper(s[9]) && IsUpper(s[10])
  }

  lemma SplitCapitalisedAlbumArtUri(s: string)
    requires AlbumArtUriShape(s)
    ensures SplitCapitalised(s) == s[..5] + "_" + s[5..]
  {
    assert SplitCapitalised(s[10..]) == s[10..];
    assert SplitCapitalised(s[9..]) == s[9..];
    assert SplitCapitalised(s[8..]) == s[8..];
    assert LowerRun(s[6..]) == 2;
    assert SplitCapitalised(s[4..]) == s[4..5] + "_" + s[5..];
    assert SplitCapitalised(s[3..]) == s[3..5] + "_" + s[5..];
    assert SplitCapitalised(s[2..]) == s[2..5] + "_" + s[5..];
    assert SplitCapitalised(s[1..]) == s[1..5] + "_" + s[5..];
  }

  /** The letter classes of `album_ArtURI`. */
  ghost predicate AlbumArtUriSplitShape(t: string)
  {
    |t| == 12 && (forall i :: 0 <= i < 5 ==> IsLower(t[i])) && t[5] == '_' && IsUpper(t[6]) && IsLower(t[7]) && IsLower(t[8]) &&
    IsUpper(t[9]) && IsUpper(t[10]) && IsUpper(t[11])
  }

  lemma SplitLowerUpperAlbumArtUri(t: string)
    requires AlbumArtUriSplitShape(t)
    ensures SplitLowerUpper(t) == t[..9] + "_" + t[9..]
  {
    assert SplitLowerUpper(t[11..]) == t[11..];
    assert SplitLowerUpper(t[10..]) == t[10..];
    assert SplitLowerUpper(t[8..]) == t[8..9] + "_" + t[9..];
    assert SplitLowerUpper(t[7..]) == t[7..9] + "_" + t[9..];
    assert SplitLowerUpper(t[6..]) == t[6..9] + "_" + t[9..];
    assert SplitLowerUpper(t[5..]) == t[5..9] + "_" + t[9..];
    assert SplitLowerUpper(t[4..]) == t[4..9] + "_" + t[9..];
    assert SplitLowerUpper(t[3..]) == t[3..9] + "_" + t[9..];
    assert SplitLowerUpper(t[2..]) == t[2..9] + "_" + t[9..];
    assert SplitLowerUpper(t[1..]) == t[1..9] + "_" + t[9..];
  }

  lemma AlbumArtUriShapes(s: string)
    requires s == "albumArtURI"
    ensures AlbumArtUriShape(s) && AlbumArtUriSplitShape(s[..5] + "_" + s[5..])
    ensures var t := s[..5] + "_" + s[5..]; t[..9] + "_" + t[9..] == "album_Art_URI"
  {
  }

  lemma LowerAlbumArtUri(u: string)
    requires u == "album_Art_URI"
    ensures Lower(u) == "album_art_uri"
  {
    var r := Lower(u);
    forall i | 0 <= i < 13 ensures r[i] == "album_art_uri"[i] {}
  }

  /** `to_camel_case('albumArtURI')` is `album_art_uri`. */
  lemma ToCamelCaseAlbumArtUri(s: string)
    requires s == "albumArtURI"
    ensures ToCamelCase(s) == "album_art_uri"
  {
    AlbumArtUriShapes(s);
    SplitCapitalisedAlbumArtUri(s);
    var t := s[..5] + "_" + s[5..];
    SplitLowerUpperAlbumArtUri(t);
    LowerAlbumArtUri(t[..9] + "_" + t[9..]);
  }
}
