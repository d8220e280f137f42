/** The `<coach-whiteboard>` component: `setContent` sorts the coach's text
    into one of four kinds (empty, a map request, an image URL, Markdown)
    and shows it; a map request opens a map whose lifetime is held in three
    fields (`_map`, `_player`, `_updateInterval`) that `_clearMap` resets. */
module Whiteboard {
  import opened Wrappers
  import opened Text
  import MapTools

  // ----- The image-URL test: /^https?:\/\/.+\.(png|jpg|jpeg|gif|svg|webp)(\?.*)?$/i -----

  const ImageExtensions: seq<string> := ["png", "jpg", "jpeg", "gif", "svg", "webp"]

  /** `https?://`, letters in either case. */
  predicate IsScheme(s: string) {
    LowerAscii(s) == "http://" || LowerAscii(s) == "https://"
  }

  /** One of the six extensions, letters in either case. */
  predicate IsImageExtension(e: string) {
    LowerAscii(e) in ImageExtensions
  }

  /** `(\?.*)?`: nothing, or '?' followed by anything but a line break. */
  predicate IsQuery(q: string) {
    q == [] || (q[0] == '?' && NoLineTerminator(q[1..]))
  }

  /** The text read as scheme, a non-empty name without line breaks, '.',
      an extension and an optional query, in that order. */
  ghost predicate ImageUrlSplit(t: string, scheme: string, name: string, ext: string, query: string) {
    && t == scheme + name + "." + ext + query
    && IsScheme(scheme)
    && |name| >= 1 && NoLineTerminator(name)
    && IsImageExtension(ext)
    && IsQuery(query)
  }

  /** What the regular expression accepts: some way of splitting the text
      as above. */
  ghost predicate ImageUrlPattern(t: string) {
    exists scheme, name, ext, query :: ImageUrlSplit(t, scheme, name, ext, query)
  }

  /** Length of the scheme the text starts with, or 0. */
  function SchemeLength(t: string): (n: nat)
    ensures n == 0 || n == 7 || n == 8
    ensures n <= |t|
    ensures n != 0 ==> IsScheme(t[..n])
  {
    if |t| >= 7 && LowerAscii(t[..7]) == "http://" then 7
    else if |t| >= 8 && LowerAscii(t[..8]) == "https://" then 8
    else 0
  }

  /** Only one prefix of a text can be a scheme, and it is the one
      `SchemeLength` finds. */
  lemma SchemeUnique(t: string, k: nat)
    requires k <= |t| && IsScheme(t[..k])
    ensures SchemeLength(t) == k
  {
    var s := LowerAscii(t[..k]);
    if k == 8 {
      assert s[4] == 's';
      assert LowerAscii(t[..7])[4] == s[4];
    } else {
      assert t[..7] == t[..k];
    }
  }

  /** `ext(\?.*)?$` at the start of `u`, for one of the six extensions. */
  predicate ExtensionTail(u: string) {
    TailWith(u, "png") || TailWith(u, "jpg") || TailWith(u, "jpeg")
    || TailWith(u, "gif") || TailWith(u, "svg") || TailWith(u, "webp")
  }

  predicate TailWith(u: string, e: string) {
    |e| <= |u| && LowerAscii(u[..|e|]) == e && IsQuery(u[|e|..])
  }

  /** Whether some '.' at index `d` or later ends a name without line
      breaks and is followed by an extension tail. */
  predicate DotFrom(r: string, d: nat)
    decreases |r| - d
  {
    d < |r| && ((r[d] == '.' && NoLineTerminator(r[..d]) && ExtensionTail(r[d + 1..])) || DotFrom(r, d + 1))
  }

  predicate DotAt(r: string, k: int) {
    0 <= k < |r| && r[k] == '.' && NoLineTerminator(r[..k]) && ExtensionTail(r[k + 1..])
  }

  /** A '.' at `k` is found by a search starting at or before `k`. */
  lemma {:induction false} DotFromOf(r: string, d: nat, k: nat)
    requires d <= k && DotAt(r, k)
    ensures DotFrom(r, d)
    decreases k - d
  {
    if d < k {
      DotFromOf(r, d + 1, k);
    }
  }

  /** The test the whiteboard runs: a scheme, then a matching '.' from the
      second character after it on. */
  predicate IsImageUrl(t: string): (b: bool)
    ensures b ==> exists n :: 7 <= n <= 8 && n <= |t| && IsScheme(t[..n])
    ensures b ==> exists k :: SchemeLength(t) + 1 <= k < |t| && t[k] == '.' && ExtensionTail(t[k + 1..])
  {
    var n := SchemeLength(t);
    if n > 0 && DotFrom(t[n..], 1) then
      var k := DotWitness(t[n..], 1);
      assert t[n + k] == t[n..][k] && t[n + k + 1..] == t[n..][k + 1..];
      true
    else
      false
  }

  /** The '.' a successful search finds. */
  function DotWitness(r: string, d: nat): (k: nat)
    requires DotFrom(r, d)
    ensures d <= k && DotAt(r, k)
    decreases |r| - d
  {
    if DotAt(r, d) then d else DotWitness(r, d + 1)
  }

  /** Every text the pattern describes passes the test. */
  lemma PatternPassesTest(t: string, scheme: string, name: string, ext: string, query: string)
    requires ImageUrlSplit(t, scheme, name, ext, query)
    ensures IsImageUrl(t)
  {
    var n := |scheme|;
    assert t[..n] == scheme;
    SchemeUnique(t, n);
    var r := t[n..];
    assert r == name + "." + ext + query;
    var k := |name|;
    assert r[..k] == name && r[k] == '.';
    var u := r[k + 1..];
    assert u == ext + query;
    var e := LowerAscii(ext);
    assert u[..|e|] == ext && u[|e|..] == query;
    assert TailWith(u, e);
    DotFromOf(r, 1, k);
  }

  /** The extension an extension tail starts with. */
  lemma ExtensionOfTail(u: string) returns (e: string)
    requires ExtensionTail(u)
    ensures e in ImageExtensions && TailWith(u, e)
  {
    e := if TailWith(u, "png") then "png" else if TailWith(u, "jpg") then "jpg"
      else if TailWith(u, "jpeg") then "jpeg" else if TailWith(u, "gif") then "gif"
      else if TailWith(u, "svg") then "svg" else "webp";
  }

  /** Every text that passes the test splits as the pattern describes. */
  lemma TestMatchesPattern(t: string) returns (scheme: string, name: string, ext: string, query: string)
    requires IsImageUrl(t)
    ensures ImageUrlSplit(t, scheme, name, ext, query)
  {
    var n := SchemeLength(t);
    var r := t[n..];
    var k := DotWitness(r, 1);
    var u := r[k + 1..];
    var e := ExtensionOfTail(u);
    scheme, name, ext, query := t[..n], r[..k], u[..|e|], u[|e|..];
    assert IsScheme(scheme);
    assert |name| >= 1 && NoLineTerminator(name);
    assert IsImageExtension(ext);
    assert IsQuery(query);
    Reassemble(t, n, k, |e|);
  }

  /** Cutting a text at a scheme, a '.' and an extension and gluing the
      pieces back together gives the text. */
  lemma Reassemble(t: string, n: nat, k: nat, m: nat)
    requires n <= |t| && k < |t| - n && t[n..][k] == '.' && m <= |t[n..][k + 1..]|
    ensures t == t[..n] + t[n..][..k] + "." + t[n..][k + 1..][..m] + t[n..][k + 1..][m..]
  {
    var r := t[n..];
    var u := r[k + 1..];
    assert u == u[..m] + u[m..];
    assert r == r[..k] + [r[k]] + u;
    assert t == t[..n] + r;
  }

  /** The executable test accepts exactly the texts the pattern describes. */
  lemma ImageUrlTestMatchesPattern(t: string)
    ensures IsImageUrl(t) <==> ImageUrlPattern(t)
  {
    if ImageUrlPattern(t) {
      var scheme, name, ext, query :| ImageUrlSplit(t, scheme, name, ext, query);
      PatternPassesTest(t, scheme, name, ext, query);
    }
    if IsImageUrl(t) {
      var scheme, name, ext, query := TestMatchesPattern(t);
    }
  }

  // ----- Classification -----

  /** The four outcomes of `setContent`. */
  datatype Content = EmptyContent | MapRequest | ImageUrl(url: string) | MarkdownText(text: string)

  /** null and undefined become ""; anything else is trimmed. */
  function ContentText(msg: Option<string>): (text: string)
    ensures msg.None? ==> text == []
    ensures msg.Some? ==> (text == [] <==> AllWhitespace(msg.value))
    ensures text != [] ==> !IsJsWhitespace(text[0]) && !IsJsWhitespace(text[|text| - 1])
  {
    match msg
    case None => ""
    case Some(s) => Trim(s)
  }

  /** The lower-cased text is "map", starts with "map" or contains "show map". */
  predicate IsMapRequest(text: string): (b: bool)
    ensures b <==> StartsWith(LowerAscii(text), "map") || Contains(LowerAscii(text), "show map")
  {
    var lower := LowerAscii(text);
    lower == "map" || StartsWith(lower, "map") || Contains(lower, "show map")
  }

  /** The map test ignores letter case: lower-casing the text first does
      not change its answer. */
  lemma MapTestIgnoresCase(text: string)
    ensures IsMapRequest(LowerAscii(text)) == IsMapRequest(text)
  {
    var lower := LowerAscii(text);
    forall i | 0 <= i < |lower| ensures LowerAscii(lower)[i] == lower[i] {
      assert LowerChar(LowerChar(text[i])) == LowerChar(text[i]);
    }
    assert LowerAscii(lower) == lower;
  }

  /** The map test ignores case and also accepts any word that merely
      begins with "map", such as "Maple". */
  lemma MapRequestExamples()
    ensures IsMapRequest("MAP")
    ensures IsMapRequest("Maple syrup")
    ensures IsMapRequest("please show map")
    ensures !IsMapRequest("a map")
  {
    assert LowerAscii("please show map")[7..15] == "show map";
    assert OccursAt(LowerAscii("please show map"), "show map", 7);
    var lower := LowerAscii("a map");
    assert lower == "a map";
    assert lower[..3][0] == 'a';
  }

  /** The decision `setContent` makes, tested in the source's order: empty
      text, then the map test, then the image test, then Markdown. */
  function Classify(msg: Option<string>): (c: Content)
    ensures c == EmptyContent <==> ContentText(msg) == []
    ensures c == MapRequest <==> ContentText(msg) != [] && IsMapRequest(ContentText(msg))
    ensures c.ImageUrl? <==>
      ContentText(msg) != [] && !IsMapRequest(ContentText(msg)) && ImageUrlPattern(ContentText(msg))
    ensures c.MarkdownText? <==>
      ContentText(msg) != [] && !IsMapRequest(ContentText(msg)) && !ImageUrlPattern(ContentText(msg))
    ensures c.ImageUrl? ==> c.url == ContentText(msg)
    ensures c.MarkdownText? ==> c.text == ContentText(msg)
  {
    var text := ContentText(msg);
    ImageUrlTestMatchesPattern(text);
    if text == [] then EmptyContent
    else if IsMapRequest(text) then MapRequest
    else if IsImageUrl(text) then ImageUrl(text)
    else MarkdownText(text)
  }

  /** Surrounding whitespace and letter case do not change the outcome of
      the map test; text that is only whitespace counts as empty. */
  lemma ClassifyIgnoresSurroundingSpace(s: string)
    ensures AllWhitespace(s) ==> Classify(Some(s)) == EmptyContent && Classify(None) == EmptyContent
    ensures Classify(Some(s)) == Classify(Some(Trim(s)))
  {
    TrimIdempotent(s);
  }

  lemma TrimIdempotent(s: string)
    ensures Trim(Trim(s)) == Trim(s)
  {
    var r := Trim(s);
    if r != [] {
      assert LeadingSpace(r) == 0;
      assert TrailingSpace(r) == 0;
      assert r[0..][..|r| - 0] == r;
    }
  }

  // ----- The component -----

  /** What `#whiteboard` shows. */
  datatype Shown =
    | Placeholder          // the markup `render` writes
    | EmptyNotice          // "Empty content"
    | MapPane              // the map container
    | Picture(src: string) // an <img>
    | Html(html: string)   // the Markdown rendering
    | PlainText(text: string) // the text itself, when Markdown parsing throws

  /** A timer handle; browsers hand out positive ones, so a handle is
      always truthy. */
  type TimerId = x: int | x > 0 witness 1

  /** The position `_createMap` reads: `abstractify_pos_global(dv)` is
      called without its offsets table, so the area's offset is looked up in
      `undefined`, which throws whenever the area byte can be read (and a
      short memory throws a RangeError before). The empty table stands for
      the missing argument; None is any thrown error, which is caught. */
  function PositionRead(dataView: Option<seq<MapTools.Byte>>): Option<MapTools.Point> {
    match dataView
    case None => None
    case Some(mem) =>
      match MapTools.AbstractifyPosGlobal(mem, map[])
      case Ok(pos) => Some(pos)
      case Err(_) => None
  }

  /** The read never yields a position, whatever the memory holds. */
  lemma PositionReadFails(dataView: Option<seq<MapTools.Byte>>)
    ensures PositionRead(dataView) == None
    ensures dataView.Some? && MapTools.AreaAddr < |dataView.value| ==>
      MapTools.AbstractifyPosGlobal(dataView.value, map[])
      == Err(MapTools.NoAreaOffset(dataView.value[MapTools.AreaAddr]))
  {
  }

  const StartX: real := 258.0
  const StartY: real := 562.0
  const RangeRadius: real := 0.5

  class CoachWhiteboard {
    /** Whether `render` has run, so that `#whiteboard` exists. */
    var rendered: bool
    var shown: Shown
    /** `_map` is set. */
    var mapOpen: bool
    /** `_player`. */
    var player: MapTools.Player?
    /** `_updateInterval`. */
    var updateInterval: Option<TimerId>

    /** The three map fields are set together or not at all. */
    ghost predicate Valid()
      reads this
    {
      (mapOpen <==> player != null) && (mapOpen <==> updateInterval.Some?)
    }

    constructor ()
      ensures Valid() && !rendered && !mapOpen && player == null && updateInterval.None?
    {
      rendered := false;
      shown := Placeholder;
      mapOpen := false;
      player := null;
      updateInterval := None;
    }

    /** `connectedCallback` / `render`. */
    method Render()
      modifies this`rendered, this`shown
      ensures rendered && shown == Placeholder
    {
      rendered := true;
      shown := Placeholder;
    }

    /** `_clearMap`: stops the timer, removes the map and forgets the
        player; the player is forgotten only when a map existed. */
    method ClearMap()
      modifies this`mapOpen, this`player, this`updateInterval
      ensures updateInterval.None? && !mapOpen
      ensures player == (if old(mapOpen) then null else old(player))
      ensures old(Valid()) ==> Valid() && player == null
      ensures old(updateInterval).None? && !old(mapOpen) ==>
        updateInterval == old(updateInterval) && mapOpen == old(mapOpen) && player == old(player)
    {
      if updateInterval.Some? {
        updateInterval := None;
      }
      if mapOpen {
        mapOpen := false;
        player := null;
      }
    }

    /** `disconnectedCallback`. */
    method Disconnected()
      modifies this`mapOpen, this`player, this`updateInterval
      ensures updateInterval.None? && !mapOpen
      ensures player == (if old(mapOpen) then null else old(player))
    {
      ClearMap();
    }

    /** `_createMap`: a fresh player at (258, 562) with one node entry per
        node, then an attempt to move it to Samus's position. `dataView` is
        the memory the emulator element hands over, None when there is no
        element or its `callDataView` throws or returns nothing; the read
        itself always fails (see `PositionRead`), so the player stays where
        it started. */
    method CreateMap(nodes: seq<(string, MapTools.Point)>, dataView: Option<seq<MapTools.Byte>>, timer: TimerId)
      modifies this`mapOpen, this`player, this`updateInterval
      ensures mapOpen && updateInterval == Some(timer) && player != null && fresh(player)
      ensures Valid()
      ensures player.x == StartX && player.y == StartY
      ensures player.nodeList == MapTools.NodeEntries(nodes)
      ensures player.closestNode.None? && player.radius == RangeRadius
    {
      var p := new MapTools.Player(StartX, StartY, RangeRadius, None);
      player := p;
      p.AddAllNodeCircles(nodes);
      // The coordinate read always throws and the error is caught, so
      // the player keeps its start position.
      assert PositionRead(dataView).None? by {
        PositionReadFails(dataView);
      }
      mapOpen := true;
      updateInterval := Some(timer);
    }

    /** What `#whiteboard` shows for each kind of content: the notice, the
        map pane, the picture, or the Markdown rendering (the text itself
        when the renderer throws). */
    predicate Displays(content: Content, markdown: string -> Option<string>)
      reads this
    {
      match content
      case EmptyContent => shown == EmptyNotice
      case MapRequest => shown == MapPane
      case ImageUrl(url) => shown == Picture(url)
      case MarkdownText(text) =>
        shown == (if markdown(text).Some? then Html(markdown(text).value) else PlainText(text))
    }

    /** `setContent`: nothing happens before `render`; otherwise any map is
        cleared first and the text is shown as its classification says.
        `markdown` is the Markdown renderer (None when it throws); `nodes`,
        `dataView` and `timer` are what a new map needs. */
    method SetContent(msg: Option<string>, markdown: string -> Option<string>,
                      nodes: seq<(string, MapTools.Point)>, dataView: Option<seq<MapTools.Byte>>, timer: TimerId)
      modifies this
      ensures rendered == old(rendered)
      ensures !old(rendered) ==>
        shown == old(shown) && mapOpen == old(mapOpen) && player == old(player) && updateInterval == old(updateInterval)
      ensures old(rendered) && Classify(msg) != MapRequest ==>
        !mapOpen && updateInterval.None? && player == (if old(mapOpen) then null else old(player))
      ensures old(rendered) ==> Displays(Classify(msg), markdown)
      ensures old(rendered) && Classify(msg) == MapRequest ==>
        && mapOpen && updateInterval == Some(timer) && player != null && fresh(player)
        && player.nodeList == MapTools.NodeEntries(nodes) && player.closestNode.None?
        && player.x == StartX && player.y == StartY
      ensures old(Valid()) ==> Valid()
    {
      if !rendered {
        return;
      }
      ClearMap();
      Show(Classify(msg), markdown, nodes, dataView, timer);
    }

    /** The part of `setContent` after the map is cleared. */
    method Show(content: Content, markdown: string -> Option<string>,
                nodes: seq<(string, MapTools.Point)>, dataView: Option<seq<MapTools.Byte>>, timer: TimerId)
      requires !mapOpen && updateInterval.None?
      modifies this`shown, this`mapOpen, this`player, this`updateInterval
      ensures content != MapRequest ==>
        !mapOpen && updateInterval.None? && player == old(player)
      ensures Displays(content, markdown)
      ensures content == MapRequest ==>
        && mapOpen && updateInterval == Some(timer) && player != null && fresh(player)
        && player.nodeList == MapTools.NodeEntries(nodes) && player.closestNode.None?
        && player.x == StartX && player.y == StartY
        && Valid()
    {
      match content
      case EmptyContent =>
        shown := EmptyNotice;
      case MapRequest =>
        shown := MapPane;
        CreateMap(nodes, dataView, timer);
      case ImageUrl(url) =>
        shown := Picture(url);
      case MarkdownText(text) =>
        var html := markdown(text);
        shown := if html.Some? then Html(html.value) else PlainText(text);
    }
  }
}
