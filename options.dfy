/**
 * LiveViewOptions: the path prefix every LiveView endpoint lives under, validated when it is set, the
 * three endpoint paths derived from it, and the screen-overlay switch.
 */
module Options {
  import opened Wrappers

  const DEFAULT_LIVEVIEW_PATH_PREFIX: string := "/_liveview"
  const DEFAULT_MIRROR_PATH: string := "/mirror"
  const DEFAULT_HUB_PATH: string := "/hub"
  const DEFAULT_JS_PATH: string := "/blazor.web.js"

  /**
   * char.IsWhiteSpace: the characters of Unicode's White_Space property (the control characters
   * U+0009 to U+000D, U+0085, and the space, line and paragraph separators).
   */
  predicate IsWhiteSpace(c: char)
  {
    || '\U{0009}' <= c <= '\U{000D}' || c == ' ' || c == '\U{0085}' || c == '\U{00A0}' || c == '\U{1680}'
    || '\U{2000}' <= c <= '\U{200A}' || c == '\U{2028}' || c == '\U{2029}' || c == '\U{202F}' || c == '\U{205F}'
    || c == '\U{3000}'
  }

  /** string.IsNullOrWhiteSpace of a (non-null) string: empty or made of white space only. */
  predicate IsBlank(s: string)
  {
    forall i | 0 <= i < |s| :: IsWhiteSpace(s[i])
  }

  /** The ArgumentExceptions of the prefix setter, one per check. */
  datatype PrefixError =
    | BlankPrefix     // null or whitespace
    | NoLeadingSlash  // does not start with a '/'
    | TrailingSlash   // ends with a '/'

  /** What the setter accepts: a '/' followed by at least one character, the last of which is not '/'. */
  predicate ValidPrefix(s: string)
  {
    2 <= |s| && s[0] == '/' && s[|s| - 1] != '/'
  }

  /**
   * The setter's three checks, in order. A value is accepted exactly when it is a ValidPrefix: the
   * white-space check only decides which exception a rejected value gets.
   */
  function CheckPrefix(value: string): (r: Option<PrefixError>)
    ensures r == None <==> ValidPrefix(value)
    ensures r == Some(BlankPrefix) <==> IsBlank(value)
    ensures r == Some(NoLeadingSlash) <==> !IsBlank(value) && value[0] != '/'
    ensures r == Some(TrailingSlash) <==> value != [] && value[0] == '/' && value[|value| - 1] == '/'
  {
    if IsBlank(value) then Some(BlankPrefix)
    else if value[0] != '/' then Some(NoLeadingSlash)
    else if value[|value| - 1] == '/' then Some(TrailingSlash)
    else None
  }

  function MirrorPath(prefix: string): string
  {
    prefix + DEFAULT_MIRROR_PATH
  }

  function HubPath(prefix: string): string
  {
    prefix + DEFAULT_HUB_PATH
  }

  function JsPath(prefix: string): string
  {
    prefix + DEFAULT_JS_PATH
  }

  /**
   * The three endpoint paths start with the prefix and are distinct; under a valid prefix each starts
   * with a '/' and none ends with one.
   */
  lemma DerivedPaths(prefix: string)
    ensures prefix <= MirrorPath(prefix) && prefix <= HubPath(prefix) && prefix <= JsPath(prefix)
    ensures MirrorPath(prefix) != HubPath(prefix) && HubPath(prefix) != JsPath(prefix)
    ensures MirrorPath(prefix) != JsPath(prefix)
    ensures ValidPrefix(prefix) ==>
      && MirrorPath(prefix)[0] == '/' && HubPath(prefix)[0] == '/' && JsPath(prefix)[0] == '/'
      && ValidPrefix(MirrorPath(prefix)) && ValidPrefix(HubPath(prefix)) && ValidPrefix(JsPath(prefix))
  {
    assert MirrorPath(prefix)[|prefix|..] == DEFAULT_MIRROR_PATH;
    assert HubPath(prefix)[|prefix|..] == DEFAULT_HUB_PATH;
    assert JsPath(prefix)[|prefix|..] == DEFAULT_JS_PATH;
    if ValidPrefix(prefix) {
      assert MirrorPath(prefix)[0] == prefix[0];
      assert HubPath(prefix)[0] == prefix[0];
      assert JsPath(prefix)[0] == prefix[0];
    }
  }

  class LiveViewOptions {
    var liveViewPathPrefix: string
    var useScreenOverlay: bool

    /** The defaults: prefix "/_liveview", screen overlay on. */
    constructor()
      ensures liveViewPathPrefix == DEFAULT_LIVEVIEW_PATH_PREFIX && useScreenOverlay
      ensures Valid()
    {
      liveViewPathPrefix := DEFAULT_LIVEVIEW_PATH_PREFIX;
      useScreenOverlay := true;
    }

    /** The prefix is one the setter accepts. */
    predicate Valid()
      reads this
    {
      ValidPrefix(liveViewPathPrefix)
    }

    /** The prefix setter: an accepted value is stored as given, a rejected one leaves the prefix as it was. */
    method SetLiveViewPathPrefix(value: string) returns (err: Option<PrefixError>)
      modifies this`liveViewPathPrefix
      ensures err == CheckPrefix(value)
      ensures err == None ==> liveViewPathPrefix == value
      ensures err != None ==> liveViewPathPrefix == old(liveViewPathPrefix)
      ensures old(Valid()) ==> Valid()
    {
      err := CheckPrefix(value);
      if err == None {
        liveViewPathPrefix := value;
      }
    }

    method SetUseScreenOverlay(value: bool)
      modifies this`useScreenOverlay
      ensures useScreenOverlay == value
    {
      useScreenOverlay := value;
    }

    /** URI path of the mirror endpoint. */
    function MirrorUri(): (r: string)
      reads this
      ensures |r| == |liveViewPathPrefix| + |DEFAULT_MIRROR_PATH|
      ensures r[..|liveViewPathPrefix|] == liveViewPathPrefix && r[|liveViewPathPrefix|..] == DEFAULT_MIRROR_PATH
      ensures Valid() ==> ValidPrefix(r)
    {
      DerivedPaths(liveViewPathPrefix);
      MirrorPath(liveViewPathPrefix)
    }

    /** URI path of the component hub endpoint. */
    function HubUri(): (r: string)
      reads this
      ensures |r| == |liveViewPathPrefix| + |DEFAULT_HUB_PATH|
      ensures r[..|liveViewPathPrefix|] == liveViewPathPrefix && r[|liveViewPathPrefix|..] == DEFAULT_HUB_PATH
      ensures Valid() ==> ValidPrefix(r)
    {
      DerivedPaths(liveViewPathPrefix);
      HubPath(liveViewPathPrefix)
    }

    /** URI path of the script for mirror circuits. */
    function JsUri(): (r: string)
      reads this
      ensures |r| == |liveViewPathPrefix| + |DEFAULT_JS_PATH|
      ensures r[..|liveViewPathPrefix|] == liveViewPathPrefix && r[|liveViewPathPrefix|..] == DEFAULT_JS_PATH
      ensures Valid() ==> ValidPrefix(r)
    {
      DerivedPaths(liveViewPathPrefix);
      JsPath(liveViewPathPrefix)
    }
  }
}
