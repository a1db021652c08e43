/**
 * Classification of a `$ref` value (resolvers.py:43, 70-71, 98-102): an internal
 * pointer into the root's `definitions`, an absolute URL, or otherwise a local file path.
 * The URL test is the part of `urllib.parse.urlsplit` that decides whether a scheme
 * and a network location are present.
 */
module References {
  import opened Exceptions
  import opened Strings

  /** The prefix that marks a pointer into the root schema's `definitions`. */
  const DefinitionsPrefix: string := "#/definitions/"

  predicate IsInternalPointer(ref: string)
  {
    StartsWith(ref, DefinitionsPrefix)
  }

  predicate IsAsciiLetter(ch: char)
  {
    'a' <= ch <= 'z' || 'A' <= ch <= 'Z'
  }

  /** urllib.parse's `scheme_chars`: ASCII letters, digits, `+`, `-` and `.`. */
  predicate IsSchemeChar(ch: char)
  {
    IsAsciiLetter(ch) || '0' <= ch <= '9' || ch == '+' || ch == '-' || ch == '.'
  }

  /** `s.find(c)`. */
  function Find(s: string, c: char): (r: Option<nat>)
    ensures r.Some? ==> r.value < |s| && s[r.value] == c && c !in s[..r.value]
    ensures r.None? ==> c !in s
  {
    if s == [] then None
    else if s[0] == c then Some(0)
    else match Find(s[1..], c)
      case None => None
      case Some(i) =>
        assert s[..i + 1] == [s[0]] + s[1..][..i];
        Some(i + 1)
  }

  /**
   * The length of the scheme urlsplit recognises: the text before the first `:`, when it
   * is non-empty, starts with an ASCII letter and holds only scheme characters; else 0.
   */
  function SchemeLength(s: string): (n: nat)
    ensures n > 0 ==> n < |s| && s[n] == ':' && IsAsciiLetter(s[0])
    ensures n > 0 ==> forall j :: 0 <= j < n ==> IsSchemeChar(s[j])
  {
    match Find(s, ':')
    case None => 0
    case Some(i) =>
      if i > 0 && IsAsciiLetter(s[0]) && forall j :: 0 <= j < i ==> IsSchemeChar(s[j]) then i else 0
  }

  /** What follows the scheme and its `:` (the whole string when there is no scheme). */
  function AfterScheme(s: string): string
  {
    var n := SchemeLength(s);
    if n > 0 then s[n + 1..] else s
  }

  /** The network location: after a leading `//`, up to the first `/`, `?` or `#`. */
  function Netloc(rest: string): string
  {
    if |rest| >= 2 && rest[..2] == "//" then TakeUntilDelimiter(rest[2..]) else ""
  }

  function TakeUntilDelimiter(s: string): (r: string)
    ensures r <= s
    ensures forall i :: 0 <= i < |r| ==> r[i] != '/' && r[i] != '?' && r[i] != '#'
    ensures |r| < |s| ==> s[|r|] == '/' || s[|r|] == '?' || s[|r|] == '#'
  {
    if s == [] || s[0] == '/' || s[0] == '?' || s[0] == '#' then ""
    else [s[0]] + TakeUntilDelimiter(s[1..])
  }

  /** `parsed_url.scheme and parsed_url.netloc`: the test that sends a `$ref` to the URL loader. */
  predicate HasSchemeAndNetloc(ref: string)
  {
    SchemeLength(ref) > 0 && Netloc(AfterScheme(ref)) != ""
  }

  /** The three ways a `$ref` is resolved. */
  datatype RefKind = Definition | Url | LocalFile

  /** The branch resolve_refs_recursive and resolve_ref take for a string `$ref`. */
  function KindOf(ref: string): (k: RefKind)
    ensures k == Url ==> SchemeThenAuthority(ref, SchemeLength(ref))
  {
    if IsInternalPointer(ref) then Definition
    else if HasSchemeAndNetloc(ref) then UrlHasShape(ref); Url
    else LocalFile
  }

  // ---------------------------------------------------------------------------
  // Properties of the classification
  // ---------------------------------------------------------------------------

  /**
   * The shape the URL test accepts, with the scheme ending at position `n`: an ASCII
   * letter, scheme characters up to the first `:`, then `//` and a character that is
   * not `/`, `?` or `#`.
   */
  predicate SchemeThenAuthority(ref: string, n: nat)
  {
    && 0 < n && n + 3 < |ref|
    && IsAsciiLetter(ref[0])
    && (forall j :: 0 <= j < n ==> IsSchemeChar(ref[j]))
    && ref[n] == ':' && ref[n + 1] == '/' && ref[n + 2] == '/'
    && ref[n + 3] != '/' && ref[n + 3] != '?' && ref[n + 3] != '#'
  }

  /** A reference that passes the URL test has that shape, its scheme ending at the first `:`. */
  lemma UrlHasShape(ref: string)
    requires HasSchemeAndNetloc(ref)
    ensures SchemeThenAuthority(ref, SchemeLength(ref))
  {
    var n := SchemeLength(ref);
    var rest := ref[n + 1..];
    assert rest[..2] == "//";
    assert rest[0] == ref[n + 1] && rest[1] == ref[n + 2];
    assert rest[2..][0] == ref[n + 3];
  }

  /** Conversely, a reference of that shape passes the URL test. */
  lemma ShapeIsUrl(ref: string, n: nat)
    requires SchemeThenAuthority(ref, n)
    ensures HasSchemeAndNetloc(ref)
  {
    FindFirst(ref, ':', n);
    assert SchemeLength(ref) == n;
    var rest := ref[n + 1..];
    assert rest[..2] == "//";
    assert rest[2..][0] == ref[n + 3];
  }

  /** `find` returns the first occurrence. */
  lemma FindFirst(s: string, c: char, i: nat)
    requires i < |s| && s[i] == c
    requires forall j :: 0 <= j < i ==> s[j] != c
    ensures Find(s, c) == Some(i)
  {
    assert s[i] == c;
  }

  /** The three branches are exclusive: an internal pointer never looks like a URL. */
  lemma InternalPointerIsNotUrl(ref: string)
    requires IsInternalPointer(ref)
    ensures !HasSchemeAndNetloc(ref)
  {
    assert ref[0] == DefinitionsPrefix[0];
  }

  /** A path without a `:` is always a local file. */
  lemma NoColonIsLocalFile(ref: string)
    requires ':' !in ref && !IsInternalPointer(ref)
    ensures KindOf(ref) == LocalFile
  {
  }

  /** A `file:///...` reference has no network location, so it is looked up as a local file path. */
  lemma FileUrlIsLocalFile(path: string)
    ensures KindOf("file:///" + path) == LocalFile
  {
    var s := "file:///" + path;
    assert s[0] == 'f' && s[1] == 'i' && s[2] == 'l' && s[3] == 'e' && s[4] == ':';
    assert !IsInternalPointer(s) by { assert s[0] != DefinitionsPrefix[0]; }
    FindFirst(s, ':', 4);
    assert SchemeLength(s) == 4;
    var rest := s[5..];
    assert rest[..2] == "//" && rest[2..][0] == '/';
    assert Netloc(rest) == "";
  }

  /** An `http://host...` reference goes to the URL loader. */
  lemma HttpUrlIsUrl(rest: string)
    requires rest != [] && rest[0] != '/' && rest[0] != '?' && rest[0] != '#'
    ensures KindOf("http://" + rest) == Url
  {
    var s := "http://" + rest;
    assert s[0] == 'h' && s[1] == 't' && s[2] == 't' && s[3] == 'p' && s[4] == ':';
    assert s[5] == '/' && s[6] == '/' && s[7] == rest[0];
    assert !IsInternalPointer(s) by { assert s[0] != DefinitionsPrefix[0]; }
    ShapeIsUrl(s, 4);
  }

  /**
   * An internal pointer splits on `/` into exactly three parts — `#`, `definitions`
   * and the name — precisely when the name holds no `/`.
   */
  lemma InternalPointerParts(name: string)
    ensures var parts := Split(DefinitionsPrefix + name, '/');
      && (|parts| == 3 <==> '/' !in name)
      && ('/' !in name ==> parts == ["#", "definitions", name])
  {
    var rest := "definitions" + ['/'] + name;
    var tail := Split(name, '/');
    assert Split(rest, '/') == ["definitions"] + tail by {
      SplitAfterPiece("definitions", '/', name);
    }
    assert Split(DefinitionsPrefix + name, '/') == ["#"] + (["definitions"] + tail) by {
      assert DefinitionsPrefix + name == "#" + ['/'] + rest;
      SplitAfterPiece("#", '/', rest);
    }
    SplitPieces(name, '/');
    assert '/' in name <==> multiset(name)['/'] > 0;
    if '/' !in name {
      SplitNoSeparator(name, '/');
    }
  }
}
