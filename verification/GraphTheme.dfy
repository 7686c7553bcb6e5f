/**
 src/domain/graph_theme.py: user overrides over a base palette, in the editor's semantic
 terms and in Cytoscape terms, and the snapshot that freezes a theme.

 `floats` is Python's `int(float(text))`, None where it raises ValueError.  All that is
 assumed of it is what it makes of a decimal integer: the nearest double, if that is
 below 2^1024.  Beyond, Python has an infinity there, and raises.
 */
module GraphTheme {
  import opened Options
  import opened PyText

  type Palette = map<Text, Text>

  type Floats = Text -> Option<int>

  // -------------------------------------------------------------- Overrides

  datatype NodeOverride = NodeOverride(color: Option<Text>, border: Option<Text>, borderWidth: Option<int>,
                                       shape: Option<Text>, width: Option<int>, height: Option<int>)

  datatype EdgeOverride = EdgeOverride(lineColor: Option<Text>, width: Option<int>, arrowShape: Option<Text>,
                                       labelColor: Option<Text>, fontSize: Option<int>)

  datatype GlobalOverride = GlobalOverride(labelColor: Option<Text>, labelFontSize: Option<int>,
                                           selectionColor: Option<Text>, edgeLabelBackground: Option<Text>)

  /** An override document, as stored; `Valid` says which ones are accepted. */
  datatype Overrides = Overrides(nodes: map<Text, NodeOverride>, edges: EdgeOverride, global: GlobalOverride)

  const NO_NODE := NodeOverride(None, None, None, None, None, None)

  const NO_OVERRIDES := Overrides(map[], EdgeOverride(None, None, None, None, None), GlobalOverride(None, None, None, None))

  function NodeTypes(): seq<Text> {
    ["Person", "Project", "Issue", "Epic", "Repository", "Branch", "Team", "IdentityMapping", "Initiative",
     "Sprint", "Commit", "File", "PullRequest", "Space", "Page", "Blogpost", "default"]
  }

  function AllowedShapes(): seq<string> {
    ["ellipse", "triangle", "round-triangle", "rectangle", "round-rectangle", "bottom-round-rectangle",
     "cut-rectangle", "barrel", "rhomboid", "diamond", "round-diamond", "pentagon", "round-pentagon", "hexagon",
     "round-hexagon", "concave-hexagon", "heptagon", "round-heptagon", "octagon", "round-octagon", "star", "tag",
     "round-tag", "vee"]
  }

  predicate HexDigit(c: char) { Digit(c) || 'a' <= c <= 'f' || 'A' <= c <= 'F' }

  predicate HexColor(s: Text) {
    (|s| == 4 || |s| == 7) && s[0] == '#' && forall i :: 1 <= i < |s| ==> HexDigit(s[i])
  }

  predicate ColorOk(c: Option<Text>) { c.Some? ==> HexColor(c.value) }

  predicate Within(v: Option<int>, low: int, high: int) { v.Some? ==> low <= v.value <= high }

  predicate NodeValid(o: NodeOverride) {
    && ColorOk(o.color) && ColorOk(o.border)
    && (o.borderWidth.Some? ==> o.borderWidth.value >= 0)
    && (o.shape.Some? ==> o.shape.value in AllowedShapes())
    && Within(o.width, 1, 400) && Within(o.height, 1, 400)
  }

  predicate EdgeValid(o: EdgeOverride) {
    ColorOk(o.lineColor) && Within(o.width, 1, 20) && ColorOk(o.labelColor) && Within(o.fontSize, 8, 48)
  }

  predicate GlobalValid(o: GlobalOverride) {
    && ColorOk(o.labelColor) && Within(o.labelFontSize, 8, 48)
    && ColorOk(o.selectionColor) && ColorOk(o.edgeLabelBackground)
  }

  /** When `parse_overrides` accepts a document. */
  predicate Valid(o: Overrides) {
    && (forall t :: t in o.nodes ==> t in NodeTypes() && NodeValid(o.nodes[t]))
    && EdgeValid(o.edges) && GlobalValid(o.global)
  }

  function NodeOf(o: Overrides, t: Text): NodeOverride { if t in o.nodes then o.nodes[t] else NO_NODE }

  // ------------------------------------------------------- Pixels and numbers

  datatype Px = Number(n: int) | Css(text: Text)

  predicate EndsInPx(s: Text) {
    |s| >= 2 && (s[|s| - 2] == 'p' || s[|s| - 2] == 'P') && (s[|s| - 1] == 'x' || s[|s| - 1] == 'X')
  }

  function PxToInt(value: Option<Px>, default: int, floats: Floats): int {
    if value.None? then default
    else
      var text := Strip(match value.value case Number(n) => IntText(n) case Css(s) => s);
      var r := floats(if EndsInPx(text) then text[..|text| - 2] else text);
      if r.None? then default else r.value
  }

  const MANTISSA := 0x20_0000_0000_0000

  /** The nearest double, ties to even: `half` and `sticky` are the last bit dropped and any before it. */
  function Nearest(n: nat, half: bool, sticky: bool): nat
    decreases n
  {
    if n < MANTISSA then if half && (sticky || n % 2 == 1) then n + 1 else n
    else 2 * Nearest(n / 2, n % 2 == 1, half || sticky)
  }

  function Rounded(n: nat): nat { Nearest(n, false, false) }

  function PowerOfTwo(e: nat): (p: nat)
    ensures p > e
  {
    if e == 0 then 1 else 2 * PowerOfTwo(e - 1)
  }

  /** The double nearest to the number is no infinity. */
  predicate Finite(n: nat) { Rounded(n) < PowerOfTwo(1024) }

  ghost predicate ReadsIntegers(floats: Floats) {
    forall n: nat :: Finite(n) ==> floats(Decimal(n)) == Some(Rounded(n))
  }

  /** A border width that Python can take back from its text. */
  predicate BorderFinite(o: NodeOverride) {
    o.borderWidth.Some? && o.borderWidth.value >= 0 ==> Finite(o.borderWidth.value)
  }

  predicate BordersFinite(o: Overrides) { forall t :: t in o.nodes ==> BorderFinite(o.nodes[t]) }

  predicate IsDouble(n: nat) { n < MANTISSA || (n % 2 == 0 && IsDouble(n / 2)) }

  lemma {:induction false} NearestIsDouble(n: nat, half: bool, sticky: bool)
    ensures IsDouble(Nearest(n, half, sticky))
    decreases n
  {
    if n >= MANTISSA {
      NearestIsDouble(n / 2, n % 2 == 1, half || sticky);
      assert 2 * Nearest(n / 2, n % 2 == 1, half || sticky) / 2 == Nearest(n / 2, n % 2 == 1, half || sticky);
    } else {
      assert IsDouble(MANTISSA / 2);
    }
  }

  lemma {:induction false} DoubleStays(n: nat)
    requires IsDouble(n)
    ensures Rounded(n) == n
    decreases n
  {
    if n >= MANTISSA {
      DoubleStays(n / 2);
    }
  }

  /** Rounding once is rounding for good. */
  lemma RoundedTwice(n: nat)
    ensures Rounded(Rounded(n)) == Rounded(n)
  {
    NearestIsDouble(n, false, false);
    DoubleStays(Rounded(n));
  }

  function PxText(n: int): Text { IntText(n) + "px" }

  lemma StripKeeps(s: Text)
    requires s != [] && !Space(s[0]) && !Space(s[|s| - 1])
    ensures Strip(s) == s
  {
  }

  /** The "Npx" round trip: an int printed with its suffix, or bare, reads back as the nearest double. */
  lemma PxRoundTrip(n: nat, default: int, floats: Floats)
    requires ReadsIntegers(floats) && Finite(n)
    ensures PxToInt(Some(Css(PxText(n))), default, floats) == Rounded(n)
    ensures PxToInt(Some(Number(n)), default, floats) == Rounded(n)
  {
    var d := Decimal(n);
    assert Digit(d[0]) && Digit(d[|d| - 1]);
    StripKeeps(d);
    StripKeeps(d + "px");
    assert (d + "px")[..|d + "px"| - 2] == d;
  }

  // -------------------------------------------------------- Cytoscape styles

  datatype Prop = BackgroundColor | BorderColor | BorderWidth | Shape | Width | Height

  type Style = map<Prop, Text>

  /** The value an override sets for a property, if it sets one. */
  function Explicit(o: NodeOverride, p: Prop): Option<Text> {
    match p
    case BackgroundColor => o.color
    case BorderColor => o.border
    case BorderWidth => if o.borderWidth.Some? then Some(PxText(o.borderWidth.value)) else None
    case Shape => o.shape
    case Width => if o.width.Some? then Some(PxText(o.width.value)) else None
    case Height => if o.height.Some? then Some(PxText(o.height.value)) else None
  }

  function MergedNode(base: Style, o: NodeOverride): Style {
    map p: Prop | p in base.Keys || Explicit(o, p).Some? :: if Explicit(o, p).Some? then Explicit(o, p).value else base[p]
  }

  /** One assignment under its condition. */
  function Put(style: Style, p: Prop, v: Option<Text>): Style { if v.Some? then style[p := v.value] else style }

  function Rank(p: Prop): nat {
    match p
    case BackgroundColor => 0
    case BorderColor => 1
    case BorderWidth => 2
    case Shape => 3
    case Width => 4
    case Height => 5
  }

  /** The properties of the first `n` ranks have been merged, the others are the base's. */
  ghost predicate MergedUpTo(base: Style, style: Style, o: NodeOverride, n: nat) {
    forall p: Prop ::
      && (p in style <==> p in base || (Rank(p) < n && Explicit(o, p).Some?))
      && (p in style ==> style[p] == if Rank(p) < n && Explicit(o, p).Some? then Explicit(o, p).value else base[p])
  }

  lemma PutOne(base: Style, style: Style, o: NodeOverride, p: Prop)
    requires MergedUpTo(base, style, o, Rank(p))
    ensures MergedUpTo(base, Put(style, p, Explicit(o, p)), o, Rank(p) + 1)
  {
    hide Explicit;
  }

  lemma AllMerged(base: Style, style: Style, o: NodeOverride)
    ensures MergedUpTo(base, base, o, 0)
    ensures MergedUpTo(base, style, o, 6) ==> style == MergedNode(base, o)
  {
    hide Explicit;
  }

  method MergeNodeOverride(base: Style, o: NodeOverride) returns (merged: Style)
    ensures merged == MergedNode(base, o)
  {
    hide MergedNode, PxText, MergedUpTo;
    merged := base;
    AllMerged(base, base, o);
    PutOne(base, merged, o, BackgroundColor);
    if o.color.Some? {
      merged := merged[BackgroundColor := o.color.value];
    }
    PutOne(base, merged, o, BorderColor);
    if o.border.Some? {
      merged := merged[BorderColor := o.border.value];
    }
    PutOne(base, merged, o, BorderWidth);
    if o.borderWidth.Some? {
      merged := merged[BorderWidth := PxText(o.borderWidth.value)];
    }
    PutOne(base, merged, o, Shape);
    if o.shape.Some? {
      merged := merged[Shape := o.shape.value];
    }
    PutOne(base, merged, o, Width);
    if o.width.Some? {
      merged := merged[Width := PxText(o.width.value)];
    }
    PutOne(base, merged, o, Height);
    if o.height.Some? {
      merged := merged[Height := PxText(o.height.value)];
    }
    AllMerged(base, merged, o);
  }

  function Get(base: Palette, token: Text, default: Text): Text { if token in base then base[token] else default }

  function LowerChar(c: Octet): Octet { if 'A' <= c <= 'Z' then c + ' ' else c }

  /** An underscore before every capital, then lower case. */
  function Snake(s: Text): Text {
    if s == [] then [] else (if 'A' <= s[0] <= 'Z' then ['_', LowerChar(s[0])] else [s[0]]) + Snake(s[1..])
  }

  function StripUnderscores(s: Text): Text { if s != [] && s[0] == '_' then StripUnderscores(s[1..]) else s }

  function TokenKey(t: Text): Text { if t == "default" then t else StripUnderscores(Snake(t)) }

  function BaseNodeProperties(t: Text, base: Palette): Style {
    var token := "graph.node." + TokenKey(t);
    var color := Get(base, "graph.node.default", "#B8B8B8");
    var border := Get(base, "graph.node.default.border", "#9E9E9E");
    map[
      Width := Get(base, token + ".width", "60px"),
      Height := Get(base, token + ".height", "50px"),
      Shape := Get(base, token + ".shape", "ellipse"),
      BackgroundColor := if t == "default" then color else Get(base, token, color),
      BorderColor := if t == "default" then border else Get(base, token + ".border", border)
    ]
  }

  datatype EdgeStyle = EdgeStyle(lineColor: Text, width: Px, arrowShape: Text, color: Text, fontSize: Px)

  datatype GlobalStyle = GlobalStyle(labelColor: Text, labelFontSize: Px, selectionColor: Text, edgeLabelBackground: Text)

  datatype Styles = Styles(nodes: map<Text, Style>, edges: EdgeStyle, global: GlobalStyle)

  function TokenPx(base: Palette, token: Text, default: int): Px {
    if token in base then Css(base[token]) else Number(default)
  }

  function BaseEdge(base: Palette): EdgeStyle {
    EdgeStyle(Get(base, "graph.edge.default", "#C0C0C0"), TokenPx(base, "graph.edge.width", 2),
              Get(base, "graph.edge.arrow", "triangle"), Get(base, "text.secondary", "#2d3748"),
              TokenPx(base, "graph.edge.label.font.size", 9))
  }

  function BaseGlobal(base: Palette): GlobalStyle {
    GlobalStyle(Get(base, "graph.node.label", "#f4f7fb"), TokenPx(base, "graph.node.label.font.size", 11),
                Get(base, "graph.selection", "#424242"), Get(base, "surface.base", "#ffffff"))
  }

  function Or<T>(v: Option<T>, base: T): T { if v.Some? then v.value else base }

  function OrPx(v: Option<int>, base: Px): Px { if v.Some? then Number(v.value) else base }

  function MergedEdge(b: EdgeStyle, o: EdgeOverride): EdgeStyle {
    EdgeStyle(Or(o.lineColor, b.lineColor), OrPx(o.width, b.width), Or(o.arrowShape, b.arrowShape),
              Or(o.labelColor, b.color), OrPx(o.fontSize, b.fontSize))
  }

  function MergedGlobal(b: GlobalStyle, o: GlobalOverride): GlobalStyle {
    GlobalStyle(Or(o.labelColor, b.labelColor), OrPx(o.labelFontSize, b.labelFontSize),
                Or(o.selectionColor, b.selectionColor), Or(o.edgeLabelBackground, b.edgeLabelBackground))
  }

  /** What the graph pages render. */
  function Merged(base: Palette, o: Overrides): Styles {
    Styles(map t | t in NodeTypes() :: MergedNode(BaseNodeProperties(t, base), NodeOf(o, t)),
           MergedEdge(BaseEdge(base), o.edges), MergedGlobal(BaseGlobal(base), o.global))
  }

  method MergeNodes(base: Palette, o: Overrides) returns (nodes: map<Text, Style>)
    ensures nodes == Merged(base, o).nodes
  {
    hide MergedNode, BaseNodeProperties, NodeTypes, BaseEdge, BaseGlobal, MergedEdge, MergedGlobal;
    nodes := map[];
    var types := NodeTypes();
    for i := 0 to |types|
      invariant nodes == map t | t in types[..i] :: MergedNode(BaseNodeProperties(t, base), NodeOf(o, t))
    {
      var t := types[i];
      var merged := MergeNodeOverride(BaseNodeProperties(t, base), NodeOf(o, t));
      nodes := nodes[t := merged];
      assert types[..i + 1] == types[..i] + [t];
    }
    assert types[..|types|] == types;
  }

  method MergeEdges(base: Palette, o: EdgeOverride) returns (edges: EdgeStyle)
    ensures edges == MergedEdge(BaseEdge(base), o)
  {
    hide BaseEdge;
    edges := BaseEdge(base);
    if o.lineColor.Some? {
      edges := edges.(lineColor := o.lineColor.value);
    }
    if o.width.Some? {
      edges := edges.(width := Number(o.width.value));
    }
    if o.arrowShape.Some? {
      edges := edges.(arrowShape := o.arrowShape.value);
    }
    if o.labelColor.Some? {
      edges := edges.(color := o.labelColor.value);
    }
    if o.fontSize.Some? {
      edges := edges.(fontSize := Number(o.fontSize.value));
    }
  }

  method MergeGlobals(base: Palette, o: GlobalOverride) returns (global: GlobalStyle)
    ensures global == MergedGlobal(BaseGlobal(base), o)
  {
    hide BaseGlobal;
    global := BaseGlobal(base);
    if o.labelColor.Some? {
      global := global.(labelColor := o.labelColor.value);
    }
    if o.labelFontSize.Some? {
      global := global.(labelFontSize := Number(o.labelFontSize.value));
    }
    if o.selectionColor.Some? {
      global := global.(selectionColor := o.selectionColor.value);
    }
    if o.edgeLabelBackground.Some? {
      global := global.(edgeLabelBackground := o.edgeLabelBackground.value);
    }
  }

  method MergeThemeOverrides(base: Palette, o: Overrides) returns (styles: Styles)
    ensures styles == Merged(base, o)
  {
    hide MergedNode, NodeTypes, BaseNodeProperties, BaseEdge, BaseGlobal, MergedEdge, MergedGlobal;
    var nodes := MergeNodes(base, o);
    var edges := MergeEdges(base, o.edges);
    var global := MergeGlobals(base, o.global);
    styles := Styles(nodes, edges, global);
  }

  // ------------------------------------------------------------ Semantic view

  datatype NodeTheme = NodeTheme(color: Text, border: Text, borderWidth: int, shape: Text, width: int, height: int)

  datatype EdgeTheme = EdgeTheme(lineColor: Text, width: int, arrowShape: Text, labelColor: Text, fontSize: int)

  datatype GlobalTheme = GlobalTheme(labelColor: Text, labelFontSize: int, selectionColor: Text, edgeLabelBackground: Text)

  datatype Theme = Theme(nodes: map<Text, NodeTheme>, edges: EdgeTheme, global: GlobalTheme)

  function PropPx(style: Style, p: Prop): Option<Px> { if p in style then Some(Css(style[p])) else None }

  function PropText(style: Style, p: Prop): Text { if p in style then style[p] else [] }

  /** A node's style in semantic terms. */
  function NodeSemantics(style: Style, floats: Floats): NodeTheme {
    NodeTheme(PropText(style, BackgroundColor), PropText(style, BorderColor), PxToInt(PropPx(style, BorderWidth), 0, floats),
              PropText(style, Shape), PxToInt(PropPx(style, Width), 60, floats), PxToInt(PropPx(style, Height), 50, floats))
  }

  function EffectiveEdge(b: EdgeStyle, o: EdgeOverride, floats: Floats): EdgeTheme {
    EdgeTheme(Or(o.lineColor, b.lineColor), Or(o.width, PxToInt(Some(b.width), 2, floats)), Or(o.arrowShape, b.arrowShape),
              Or(o.labelColor, b.color), Or(o.fontSize, PxToInt(Some(b.fontSize), 9, floats)))
  }

  function EffectiveGlobal(b: GlobalStyle, o: GlobalOverride, floats: Floats): GlobalTheme {
    GlobalTheme(Or(o.labelColor, b.labelColor), Or(o.labelFontSize, PxToInt(Some(b.labelFontSize), 11, floats)),
                Or(o.selectionColor, b.selectionColor), Or(o.edgeLabelBackground, b.edgeLabelBackground))
  }

  /** The effective semantic theme. */
  function Effective(base: Palette, o: Overrides, floats: Floats): Theme {
    Theme(map t | t in NodeTypes() :: NodeSemantics(MergedNode(BaseNodeProperties(t, base), NodeOf(o, t)), floats),
          EffectiveEdge(BaseEdge(base), o.edges, floats), EffectiveGlobal(BaseGlobal(base), o.global, floats))
  }

  /** The override document stored from an effective theme: every field explicit. */
  function Snapshot(t: Theme): Overrides {
    Overrides(map k | k in t.nodes :: NodeSnapshot(t.nodes[k]), EdgeSnapshot(t.edges), GlobalSnapshot(t.global))
  }

  function NodeSnapshot(n: NodeTheme): NodeOverride {
    NodeOverride(Some(n.color), Some(n.border), Some(n.borderWidth), Some(n.shape), Some(n.width), Some(n.height))
  }

  function EdgeSnapshot(e: EdgeTheme): EdgeOverride {
    EdgeOverride(Some(e.lineColor), Some(e.width), Some(e.arrowShape), Some(e.labelColor), Some(e.fontSize))
  }

  function GlobalSnapshot(g: GlobalTheme): GlobalOverride {
    GlobalOverride(Some(g.labelColor), Some(g.labelFontSize), Some(g.selectionColor), Some(g.edgeLabelBackground))
  }

  /** What the rendered styles mean in semantic terms. */
  function Semantics(s: Styles, floats: Floats): Theme {
    Theme(map t | t in s.nodes :: NodeSemantics(s.nodes[t], floats),
          EdgeTheme(s.edges.lineColor, PxToInt(Some(s.edges.width), 2, floats), s.edges.arrowShape, s.edges.color,
                    PxToInt(Some(s.edges.fontSize), 9, floats)),
          GlobalTheme(s.global.labelColor, PxToInt(Some(s.global.labelFontSize), 11, floats), s.global.selectionColor,
                      s.global.edgeLabelBackground))
  }

  // ------------------------------------------------------------- The two views

  lemma SmallStays(n: nat)
    requires n < 1024
    ensures Rounded(n) == n && Finite(n)
  {
  }

  lemma OverriddenPx(v: Option<int>, base: Px, default: int, floats: Floats)
    requires ReadsIntegers(floats) && Within(v, 0, 400)
    ensures PxToInt(Some(OrPx(v, base)), default, floats) == Or(v, PxToInt(Some(base), default, floats))
  {
    if v.Some? {
      SmallStays(v.value);
      PxRoundTrip(v.value, default, floats);
    }
  }

  /** The editor's view is the meaning of what the pages render, for every palette and every accepted document. */
  lemma ViewsAgree(base: Palette, o: Overrides, floats: Floats)
    requires ReadsIntegers(floats) && Valid(o)
    ensures Semantics(Merged(base, o), floats) == Effective(base, o, floats)
  {
    hide PxToInt, NodeTypes, MergedNode, BaseNodeProperties, NodeSemantics, Get, TokenPx, HexColor, NodeValid;
    var b, g := BaseEdge(base), BaseGlobal(base);
    OverriddenPx(o.edges.width, b.width, 2, floats);
    OverriddenPx(o.edges.fontSize, b.fontSize, 9, floats);
    OverriddenPx(o.global.labelFontSize, g.labelFontSize, 11, floats);
    assert Semantics(Merged(base, o), floats).nodes == Effective(base, o, floats).nodes;
  }

  // -------------------------------------------------------------- The freeze

  /** An explicit node override decides the whole style, whatever the base. */
  lemma ExplicitDecides(base: Style, n: NodeTheme)
    ensures MergedNode(base, NodeSnapshot(n)) == map[
      BackgroundColor := n.color, BorderColor := n.border, BorderWidth := PxText(n.borderWidth),
      Shape := n.shape, Width := PxText(n.width), Height := PxText(n.height)]
  {
  }

  /** Sizes that a snapshot reads back unchanged. */
  predicate Settled(n: NodeTheme) {
    n.borderWidth >= 0 && Rounded(n.borderWidth) == n.borderWidth && Finite(n.borderWidth) && 0 <= n.width <= 400 && 0 <= n.height <= 400
  }

  lemma NodeFreezes(base: Style, n: NodeTheme, floats: Floats)
    requires ReadsIntegers(floats) && Settled(n)
    ensures NodeSemantics(MergedNode(base, NodeSnapshot(n)), floats) == n
  {
    hide PxToInt, Nearest, ReadsIntegers;
    ExplicitDecides(base, n);
    SmallStays(n.width);
    SmallStays(n.height);
    PxRoundTrip(n.borderWidth, 0, floats);
    PxRoundTrip(n.width, 60, floats);
    PxRoundTrip(n.height, 50, floats);
  }

  lemma RoundedIsFinite(n: nat)
    requires Finite(n)
    ensures Finite(Rounded(n))
  {
    RoundedTwice(n);
  }

  /** The palette supplies border-width for no node, so an effective one is 0 or a rounded override. */
  lemma BorderSettles(base: Palette, o: NodeOverride, t: Text, floats: Floats)
    requires ReadsIntegers(floats) && NodeValid(o) && BorderFinite(o)
    ensures var w := PxToInt(PropPx(MergedNode(BaseNodeProperties(t, base), o), BorderWidth), 0, floats);
      w >= 0 && Rounded(w) == w && Finite(w)
  {
    hide Get, TokenKey, AllowedShapes, HexColor, ReadsIntegers, Rounded, Finite;
    var style := MergedNode(BaseNodeProperties(t, base), o);
    if o.borderWidth.Some? {
      var n := o.borderWidth.value;
      assert style[BorderWidth] == PxText(n);
      hide PxToInt, PxText, MergedNode, BaseNodeProperties;
      PxRoundTrip(n, 0, floats);
      RoundedTwice(n);
      RoundedIsFinite(n);
    } else {
      assert BorderWidth !in style;
      SmallStays(0);
    }
  }

  lemma EffectiveSettles(base: Palette, o: NodeOverride, t: Text, floats: Floats)
    requires ReadsIntegers(floats) && NodeValid(o) && BorderFinite(o)
    requires NodeValid(NodeSnapshot(NodeSemantics(MergedNode(BaseNodeProperties(t, base), o), floats)))
    ensures Settled(NodeSemantics(MergedNode(BaseNodeProperties(t, base), o), floats))
  {
    hide MergedNode, BaseNodeProperties, PxToInt, PropPx, PropText, AllowedShapes, HexColor, ReadsIntegers, Rounded, Finite;
    BorderSettles(base, o, t, floats);
  }

  /**
   Freezing, for every accepted document and any two palettes: if the snapshot of the
   effective theme is itself accepted, then resolving it over the second palette gives
   the same effective theme, and its snapshot is the snapshot.
   */
  lemma SnapshotIsFrozen(base: Palette, other: Palette, o: Overrides, floats: Floats)
    requires ReadsIntegers(floats) && BordersFinite(o) && Valid(o) && Valid(Snapshot(Effective(base, o, floats)))
    ensures Effective(other, Snapshot(Effective(base, o, floats)), floats) == Effective(base, o, floats)
  {
    hide NodeTypes, MergedNode, BaseNodeProperties, NodeSemantics, NodeValid, Get, TokenPx, PxToInt,
      ReadsIntegers, EdgeValid, GlobalValid, Settled;
    var t0 := Effective(base, o, floats);
    var t1 := Effective(other, Snapshot(t0), floats);
    forall t | t in NodeTypes() ensures t1.nodes[t] == t0.nodes[t] {
      assert Snapshot(t0).nodes[t] == NodeSnapshot(t0.nodes[t]);
      NoNodeValid();
      EffectiveSettles(base, NodeOf(o, t), t, floats);
      NodeFreezes(BaseNodeProperties(t, other), t0.nodes[t], floats);
    }
    assert t1.nodes == t0.nodes;
  }

  lemma NoNodeValid()
    ensures NodeValid(NO_NODE) && BorderFinite(NO_NODE)
  {
  }

  /** A stored snapshot renders the same over every palette. */
  lemma SnapshotRendersTheSame(base: Palette, other: Palette, third: Palette, o: Overrides, floats: Floats)
    ensures Merged(other, Snapshot(Effective(base, o, floats))) == Merged(third, Snapshot(Effective(base, o, floats)))
  {
    hide NodeTypes, MergedNode, BaseNodeProperties, NodeSemantics, Get, TokenPx, PxToInt;
    var t0 := Effective(base, o, floats);
    var x, y := Merged(other, Snapshot(t0)), Merged(third, Snapshot(t0));
    forall t | t in NodeTypes() ensures x.nodes[t] == y.nodes[t] {
      assert Snapshot(t0).nodes[t] == NodeSnapshot(t0.nodes[t]);
      ExplicitDecides(BaseNodeProperties(t, other), t0.nodes[t]);
      ExplicitDecides(BaseNodeProperties(t, third), t0.nodes[t]);
    }
    assert x.nodes == y.nodes;
  }

  /** Storing a theme changes nothing one can see: the snapshot means, over any palette, what the theme meant. */
  lemma SnapshotMeansTheTheme(base: Palette, other: Palette, o: Overrides, floats: Floats)
    requires ReadsIntegers(floats) && BordersFinite(o) && Valid(o) && Valid(Snapshot(Effective(base, o, floats)))
    ensures Semantics(Merged(other, Snapshot(Effective(base, o, floats))), floats) == Semantics(Merged(base, o), floats)
  {
    hide Effective, Merged, Semantics, Valid, Snapshot, ReadsIntegers;
    ViewsAgree(base, o, floats);
    SnapshotIsFrozen(base, other, o, floats);
    ViewsAgree(other, Snapshot(Effective(base, o, floats)), floats);
  }

  // ------------------------------------------------- When a snapshot is accepted

  /**
   A palette whose own effective theme is in range is exactly one whose snapshots are
   accepted for every accepted document.
   */
  lemma PaletteInRange(base: Palette, floats: Floats)
    requires ReadsIntegers(floats)
    ensures Valid(Snapshot(Effective(base, NO_OVERRIDES, floats)))
      <==> forall o :: Valid(o) && BordersFinite(o) ==> Valid(Snapshot(Effective(base, o, floats)))
  {
    if Valid(Snapshot(Effective(base, NO_OVERRIDES, floats))) {
      forall o | Valid(o) && BordersFinite(o) ensures Valid(Snapshot(Effective(base, o, floats))) {
        hide Effective, Valid, Snapshot, ReadsIntegers;
        AcceptedWithOverrides(base, o, floats);
      }
    }
    NothingIsValid();
  }

  lemma NothingIsValid()
    ensures Valid(NO_OVERRIDES) && BordersFinite(NO_OVERRIDES)
  {
  }

  lemma AcceptedWithOverrides(base: Palette, o: Overrides, floats: Floats)
    requires ReadsIntegers(floats) && BordersFinite(o) && Valid(o) && Valid(Snapshot(Effective(base, NO_OVERRIDES, floats)))
    ensures Valid(Snapshot(Effective(base, o, floats)))
  {
    hide NodeTypes, MergedNode, BaseNodeProperties, NodeSemantics, NodeValid, EdgeValid, GlobalValid,
      EffectiveEdge, EffectiveGlobal, ReadsIntegers, BorderFinite;
    var bare, full := Effective(base, NO_OVERRIDES, floats), Effective(base, o, floats);
    NoNodeValid();
    forall t | t in NodeTypes() ensures NodeValid(Snapshot(full).nodes[t]) {
      assert Snapshot(bare).nodes[t] == NodeSnapshot(bare.nodes[t]);
      NodeAccepted(BaseNodeProperties(t, base), NodeOf(o, t), floats);
    }
    EdgeAccepted(BaseEdge(base), o.edges, floats);
    GlobalAccepted(BaseGlobal(base), o.global, floats);
  }

  lemma EdgeAccepted(b: EdgeStyle, o: EdgeOverride, floats: Floats)
    requires EdgeValid(o) && EdgeValid(EdgeSnapshot(EffectiveEdge(b, NO_OVERRIDES.edges, floats)))
    ensures EdgeValid(EdgeSnapshot(EffectiveEdge(b, o, floats)))
  {
    hide HexColor, PxToInt;
  }

  lemma GlobalAccepted(b: GlobalStyle, o: GlobalOverride, floats: Floats)
    requires GlobalValid(o) && GlobalValid(GlobalSnapshot(EffectiveGlobal(b, NO_OVERRIDES.global, floats)))
    ensures GlobalValid(GlobalSnapshot(EffectiveGlobal(b, o, floats)))
  {
    hide HexColor, PxToInt;
  }

  function PxOf(v: Option<int>): Option<Text> { if v.Some? then Some(PxText(v.value)) else None }

  /** A dimension of a merged style: the rounded override, or what it is without one. */
  lemma DimensionOf(base: Style, o: NodeOverride, p: Prop, v: Option<int>, default: int, floats: Floats)
    requires ReadsIntegers(floats) && Explicit(o, p) == PxOf(v) && (v.Some? ==> v.value >= 0 && Finite(v.value))
    ensures PxToInt(PropPx(MergedNode(base, o), p), default, floats) ==
      if v.Some? then Rounded(v.value) else PxToInt(PropPx(MergedNode(base, NO_NODE), p), default, floats)
  {
    hide PxToInt, PxText, Rounded, Finite, ReadsIntegers;
    if v.Some? {
      assert MergedNode(base, o)[p] == PxText(v.value);
      PxRoundTrip(v.value, default, floats);
    }
  }

  lemma NodeAccepted(base: Style, o: NodeOverride, floats: Floats)
    requires ReadsIntegers(floats) && NodeValid(o) && BorderFinite(o)
    requires NodeValid(NodeSnapshot(NodeSemantics(MergedNode(base, NO_NODE), floats)))
    ensures NodeValid(NodeSnapshot(NodeSemantics(MergedNode(base, o), floats)))
  {
    hide PxToInt, HexColor, AllowedShapes, ReadsIntegers, Rounded, Finite, PxText;
    if o.width.Some? {
      SmallStays(o.width.value);
    }
    if o.height.Some? {
      SmallStays(o.height.value);
    }
    DimensionOf(base, o, BorderWidth, o.borderWidth, 0, floats);
    DimensionOf(base, o, Width, o.width, 60, floats);
    DimensionOf(base, o, Height, o.height, 50, floats);
    TextsAccepted(base, o);
  }

  /** Colours and shapes are the override's or the base's. */
  lemma TextsAccepted(base: Style, o: NodeOverride)
    ensures forall p :: p in {BackgroundColor, BorderColor, Shape} ==>
      PropText(MergedNode(base, o), p) == Or(Explicit(o, p), PropText(MergedNode(base, NO_NODE), p))
  {
    hide PxText;
  }
}
