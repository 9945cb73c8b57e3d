/** The `img` cell function: turns an image reference found in a query result
    into an image element, resolving vault-local references against the
    folder of the note that holds the query. */
module ImageCell {
  import opened Wrappers
  import opened Strings

  /** The name the cell function is registered under. */
  const Name: string := "img"

  /** What the vault knows about a file: the path of its parent folder (absent
      for a file at no folder) and the resource URL an `<img>` can load. */
  datatype VaultFile = VaultFile(parentPath: Option<string>, resourcePath: string)

  /** The vault as a lookup table from a path to the file stored there. */
  type Vault = map<string, VaultFile>

  /** The outcome of `prepare`: an `img` element with the given `src`
      (absent when the reference itself was null), or a plain text cell. */
  datatype Cell = Img(src: Option<string>) | Text(text: string)

  const MissingFile: string := "File does not exist"
  const EmbedOpen: string := "![["

  /** JavaScript truthiness of an optional string: present and non-empty. */
  predicate Truthy(s: Option<string>) {
    s.Some? && s.value != ""
  }

  /** `s.slice(3, -2)`: drops three characters at the front and two at the
      back; too short a string gives `""`. */
  function SliceEmbed(s: string): (r: string)
    ensures |s| >= 5 ==> r == s[3..|s| - 2]
    ensures |s| < 5 ==> r == ""
  {
    var start := if |s| < 3 then |s| else 3;
    var end := if |s| < 2 then 0 else |s| - 2;
    if end <= start then "" else s[start..end]
  }

  /** The reference with `null`/`undefined` read as `""`, trimmed, and with an
      `![[...]]` embed wrapper removed. */
  function NormalisedHref(href: Option<string>): (r: string)
    ensures var h := Trim(href.GetOr(""));
      |EmbedOpen| <= |h| && h[..|EmbedOpen|] == EmbedOpen ==> r == SliceEmbed(h)
    ensures var h := Trim(href.GetOr(""));
      !(|EmbedOpen| <= |h| && h[..|EmbedOpen|] == EmbedOpen) ==> r == h
  {
    var h := Trim(href.GetOr(""));
    if |EmbedOpen| <= |h| && h[..|EmbedOpen|] == EmbedOpen then SliceEmbed(h) else h
  }

  /** The folder of the referencing note, `""` when the note or its folder is unknown. */
  function ParentFolder(vault: Vault, path: Option<string>): (r: string)
    ensures !Truthy(path) ==> r == ""
    ensures Truthy(path) && path.value !in vault ==> r == ""
  {
    if Truthy(path) && path.value in vault then vault[path.value].parentPath.GetOr("") else ""
  }

  /** The vault path that is looked up for a local reference. */
  function LookupPath(vault: Vault, href: Option<string>, path: Option<string>): string {
    (if Truthy(path) then ParentFolder(vault, path) + "/" else "") + NormalisedHref(href)
  }

  /** `ImageParser.prepare([href, path])`; `isLinkLocal` is the host's test for
      a link into the vault. */
  function Prepare(vault: Vault, isLinkLocal: Option<string> -> bool, href: Option<string>, path: Option<string>): (r: Cell)
    ensures !isLinkLocal(href) ==> r == Img(href)
    ensures isLinkLocal(href) && LookupPath(vault, href, path) in vault ==>
      r == Img(Some(vault[LookupPath(vault, href, path)].resourcePath))
    ensures isLinkLocal(href) ==> (r == Text(MissingFile) <==> LookupPath(vault, href, path) !in vault)
  {
    if !isLinkLocal(href) then Img(href)
    else
      var target := LookupPath(vault, href, path);
      if target in vault then Img(Some(vault[target].resourcePath)) else Text(MissingFile)
  }

  // ---------------------------------------------------------------------------
  // Properties of the reference normalisation and of the lookup.

  /** A null reference is read as the empty reference. */
  lemma NullHrefIsEmpty()
    ensures NormalisedHref(None) == NormalisedHref(Some("")) == ""
  {
  }

  /** Wrapping a reference in `![[` and `]]`, with any whitespace around, is undone. */
  lemma EmbedUnwrapped(left: string, target: string, right: string)
    requires AllWhitespace(left) && AllWhitespace(right)
    ensures NormalisedHref(Some(left + EmbedOpen + target + "]]" + right)) == target
  {
    var wrapped := EmbedOpen + target + "]]";
    assert left + EmbedOpen + target + "]]" + right == left + wrapped + right;
    TrimIgnoresPadding(left, wrapped, right);
    assert wrapped[0] == '!' && wrapped[|wrapped| - 1] == ']';
    TrimUnchanged(wrapped);
    assert wrapped[..|EmbedOpen|] == EmbedOpen;
    assert wrapped[3..|wrapped| - 2] == target;
  }

  /** Without a referencing note the lookup path is the normalised reference itself. */
  lemma LookupWithoutNote(vault: Vault, href: Option<string>, path: Option<string>)
    requires !Truthy(path)
    ensures LookupPath(vault, href, path) == NormalisedHref(href)
  {
    assert "" + NormalisedHref(href) == NormalisedHref(href);
  }

  /** With a referencing note the reference is joined onto the note's folder;
      an unknown note gives a path starting at `/`. */
  lemma LookupFromNote(vault: Vault, href: Option<string>, path: Option<string>)
    requires Truthy(path)
    ensures path.value in vault ==>
      LookupPath(vault, href, path) == vault[path.value].parentPath.GetOr("") + "/" + NormalisedHref(href)
    ensures path.value !in vault ==> LookupPath(vault, href, path) == "/" + NormalisedHref(href)
  {
    if path.value !in vault {
      assert "" + "/" == "/";
    }
  }
}
