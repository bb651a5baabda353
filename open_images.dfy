/**
 * static/open-images.js: a middle-click, control-click or command-click on a
 * thumbnail opens the file's description page on Commons in a new tab.
 */
module OpenImages {
  import opened Wrappers

  const FilePagePrefix: string := "https://commons.wikimedia.org/wiki/"
  const MainButton: int := 0
  const AuxiliaryButton: int := 1

  /** The condition of `onClick` on `click.button`, `click.ctrlKey` and `click.metaKey`. */
  function OpensNewTab(button: int, ctrlKey: bool, metaKey: bool): (opens: bool)
    ensures button == AuxiliaryButton ==> opens
    ensures button == MainButton ==> (opens <==> ctrlKey || metaKey)
    ensures button != MainButton && button != AuxiliaryButton ==> !opens
  {
    button == 1 || (button == 0 && (ctrlKey || metaKey))
  }

  /** `title.replace(/ /g, '_')`. */
  function UnderscoreSpaces(title: string): (r: string)
    ensures |r| == |title|
    ensures forall i :: 0 <= i < |r| ==> r[i] != ' '
    ensures forall i :: 0 <= i < |r| && title[i] != ' ' ==> r[i] == title[i]
  {
    if title == [] then []
    else [if title[0] == ' ' then '_' else title[0]] + UnderscoreSpaces(title[1..])
  }

  /** Two titles that differ only in spaces versus underscores name the same page. */
  lemma {:induction false} UnderscoreSpacesSame(a: string, b: string)
    ensures UnderscoreSpaces(a) == UnderscoreSpaces(b) <==>
      |a| == |b| &&
      forall i :: 0 <= i < |a| ==>
        a[i] == b[i] || (a[i] in " _" && b[i] in " _")
  {
    if a != [] && b != [] {
      UnderscoreSpacesSame(a[1..], b[1..]);
      var ra, rb := UnderscoreSpaces(a), UnderscoreSpaces(b);
      if ra == rb {
        forall i | 0 <= i < |a| ensures a[i] == b[i] || (a[i] in " _" && b[i] in " _") {
          if i > 0 {
            assert ra[1..] == rb[1..];
            assert a[1..][i - 1] == a[i] && b[1..][i - 1] == b[i];
          }
        }
      }
    }
  }

  /** The URL `onClick` opens; `encode` stands for `encodeURIComponent`. */
  function FilePageUrl(title: string, encode: string -> string): (url: string)
    ensures |url| >= |FilePagePrefix| && url[..|FilePagePrefix|] == FilePagePrefix
    ensures url[|FilePagePrefix|..] == encode(UnderscoreSpaces(title))
  {
    var url := FilePagePrefix + encode(UnderscoreSpaces(title));
    assert url[..|FilePagePrefix|] == FilePagePrefix;
    url
  }

  /**
   * With an injective encoding, two titles open the same URL exactly when they
   * agree after replacing spaces with underscores.
   */
  lemma FilePageUrlSame(a: string, b: string, encode: string -> string)
    requires forall x, y :: encode(x) == encode(y) ==> x == y
    ensures FilePageUrl(a, encode) == FilePageUrl(b, encode) <==>
      UnderscoreSpaces(a) == UnderscoreSpaces(b)
  {
  }

  /** What a click does: the URL opened in a new tab, and whether `preventDefault` ran. */
  datatype ClickEffect = ClickEffect(openedUrl: Option<string>, defaultPrevented: bool)

  /** `onClick(click)` on a thumbnail whose form field holds `title`. */
  function OnClick(button: int, ctrlKey: bool, metaKey: bool, title: string,
                   encode: string -> string): (effect: ClickEffect)
    ensures effect.defaultPrevented <==> effect.openedUrl.Some?
    ensures effect.openedUrl.Some? <==> OpensNewTab(button, ctrlKey, metaKey)
    ensures effect.openedUrl.Some? ==> effect.openedUrl.value == FilePageUrl(title, encode)
  {
    if OpensNewTab(button, ctrlKey, metaKey) then
      ClickEffect(Some(FilePageUrl(title, encode)), true)
    else
      ClickEffect(None, false)
  }
}
