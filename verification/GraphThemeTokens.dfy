/**
 The palette behind a theme, token by token: where each property of a style comes from
 when no override sets it, what a size means that cannot be read, and which documents
 are accepted.
 */
module GraphThemeTokens {
  import opened Options
  import opened PyText
  import opened GraphTheme

  /** A token of the palette, or a fixed value without it. */
  function Token(base: Palette, token: Text, fixed: Text): Text {
    if token in base then base[token] else fixed
  }

  // -------------------------------------------------------------- Token names

  predicate NoCapitals(s: Text) { forall i :: 0 <= i < |s| ==> !('A' <= s[i] <= 'Z') }

  lemma {:induction false} PlainSnake(s: Text)
    requires NoCapitals(s)
    ensures Snake(s) == s
  {
    if s != [] {
      PlainSnake(s[1..]);
      assert [s[0]] + s[1..] == s;
    }
  }

  lemma CapitalSnake(capital: Octet, lower: Octet, rest: Text)
    requires 'A' <= capital <= 'Z' && lower == capital + ' '
    ensures Snake([capital] + rest) == ['_', lower] + Snake(rest)
  {
    assert ([capital] + rest)[1..] == rest;
  }

  lemma {:induction false} SnakeConcat(a: Text, b: Text)
    requires NoCapitals(a)
    ensures Snake(a + b) == a + Snake(b)
  {
    if a == [] {
      assert a + b == b;
    } else {
      SnakeConcat(a[1..], b);
      var s := a + b;
      assert s[0] == a[0] && s[1..] == a[1..] + b;
      assert Snake(s) == [s[0]] + Snake(s[1..]);
      assert [a[0]] + (a[1..] + Snake(b)) == a + Snake(b);
    }
  }

  lemma KeyOfSnake(t: Text, snake: Text)
    requires t != "default" && Snake(t) == ['_'] + snake && snake != [] && snake[0] != '_'
    ensures TokenKey(t) == snake
  {
    hide Snake;
    assert (['_'] + snake)[1..] == snake;
    assert StripUnderscores(snake) == snake;
  }

  /** A type of one word has the tokens of the word in lower case; the default type has its own name. */
  lemma OneWord(capital: Octet, lower: Octet, rest: Text)
    requires 'A' <= capital <= 'Z' && lower == capital + ' ' && NoCapitals(rest)
    ensures TokenKey([capital] + rest) == [lower] + rest
    ensures TokenKey("default") == "default"
  {
    hide Snake, TokenKey;
    CapitalSnake(capital, lower, rest);
    PlainSnake(rest);
    assert ['_', lower] + rest == ['_'] + ([lower] + rest);
    assert ([capital] + rest)[0] == capital;
    KeyOfSnake([capital] + rest, [lower] + rest);
    DefaultKey();
  }

  lemma DefaultKey()
    ensures TokenKey("default") == "default"
  {
  }

  /** One of two words has them joined by an underscore. */
  lemma TwoWords(capital: Octet, lower: Octet, middle: Text, capital2: Octet, lower2: Octet, rest: Text)
    requires 'A' <= capital <= 'Z' && lower == capital + ' ' && NoCapitals(middle)
    requires 'A' <= capital2 <= 'Z' && lower2 == capital2 + ' ' && NoCapitals(rest)
    ensures TokenKey([capital] + (middle + ([capital2] + rest))) == [lower] + (middle + (['_', lower2] + rest))
  {
    hide Snake, TokenKey, NoCapitals;
    var tail := middle + ([capital2] + rest);
    CapitalSnake(capital, lower, tail);
    SnakeConcat(middle, [capital2] + rest);
    CapitalSnake(capital2, lower2, rest);
    PlainSnake(rest);
    var snake := middle + (['_', lower2] + rest);
    assert Snake(tail) == snake;
    assert ['_', lower] + snake == ['_'] + ([lower] + snake);
    assert ([capital] + tail)[0] == capital;
    KeyOfSnake([capital] + tail, [lower] + snake);
  }

  // ------------------------------------------------------------------- Styles

  function At(style: Style, p: Prop): Option<Text> { if p in style then Some(style[p]) else None }

  /** A property of a node: the override, the token of the type, the token of the default type, a constant. */
  function NodeProperty(base: Palette, own: Text, given: NodeOverride, p: Prop): Option<Text> {
    match p
    case BackgroundColor => Some(Or(given.color, Token(base, own, Token(base, "graph.node.default", "#B8B8B8"))))
    case BorderColor => Some(Or(given.border, Token(base, own + ".border", Token(base, "graph.node.default.border", "#9E9E9E"))))
    case Shape => Some(Or(given.shape, Token(base, own + ".shape", "ellipse")))
    case Width => Some(if given.width.Some? then IntText(given.width.value) + "px" else Token(base, own + ".width", "60px"))
    case Height => Some(if given.height.Some? then IntText(given.height.value) + "px" else Token(base, own + ".height", "50px"))
    case BorderWidth => if given.borderWidth.Some? then Some(IntText(given.borderWidth.value) + "px") else None
  }

  /** Every property of every node type renders with exactly that. */
  lemma NodeStyleExactly(base: Palette, o: Overrides, t: Text, p: Prop)
    requires t in NodeTypes()
    ensures At(Merged(base, o).nodes[t], p) == NodeProperty(base, "graph.node." + TokenKey(t), NodeOf(o, t), p)
  {
    hide NodeTypes, TokenKey, IntText, NodeProperty, BaseNodeProperties, MergedNode, At;
    assert Merged(base, o).nodes[t] == MergedNode(BaseNodeProperties(t, base), NodeOf(o, t));
    DefaultKey();
    if p in {BackgroundColor, BorderColor} {
      ColorsExactly(base, NodeOf(o, t), t, p);
    } else {
      OthersExactly(base, NodeOf(o, t), t, p);
    }
  }

  lemma ColorsExactly(base: Palette, given: NodeOverride, t: Text, p: Prop)
    requires p in {BackgroundColor, BorderColor} && TokenKey("default") == "default"
    ensures At(MergedNode(BaseNodeProperties(t, base), given), p) == NodeProperty(base, "graph.node." + TokenKey(t), given, p)
  {
    hide TokenKey, IntText, PxText;
    var own := "graph.node." + TokenKey(t);
    if t == "default" {
      assert own == "graph.node.default" && own + ".border" == "graph.node.default.border";
    }
  }

  lemma OthersExactly(base: Palette, given: NodeOverride, t: Text, p: Prop)
    requires p !in {BackgroundColor, BorderColor}
    ensures At(MergedNode(BaseNodeProperties(t, base), given), p) == NodeProperty(base, "graph.node." + TokenKey(t), given, p)
  {
    hide TokenKey, IntText;
  }

  /** A size of the edges or the globals: the override, the token, a constant. */
  function Size(base: Palette, given: Option<int>, token: Text, fixed: int): Px {
    if given.Some? then Number(given.value) else if token in base then Css(base[token]) else Number(fixed)
  }

  /** The edges render with the override's values, and otherwise with these tokens and constants. */
  lemma EdgeStyleExactly(base: Palette, given: EdgeOverride)
    ensures MergedEdge(BaseEdge(base), given) == EdgeStyle(
      Or(given.lineColor, Token(base, "graph.edge.default", "#C0C0C0")), Size(base, given.width, "graph.edge.width", 2),
      Or(given.arrowShape, Token(base, "graph.edge.arrow", "triangle")), Or(given.labelColor, Token(base, "text.secondary", "#2d3748")),
      Size(base, given.fontSize, "graph.edge.label.font.size", 9))
  {
  }

  /** And so do the globals. */
  lemma GlobalStyleExactly(base: Palette, given: GlobalOverride)
    ensures MergedGlobal(BaseGlobal(base), given) == GlobalStyle(
      Or(given.labelColor, Token(base, "graph.node.label", "#f4f7fb")),
      Size(base, given.labelFontSize, "graph.node.label.font.size", 11),
      Or(given.selectionColor, Token(base, "graph.selection", "#424242")),
      Or(given.edgeLabelBackground, Token(base, "surface.base", "#ffffff")))
  {
  }

  // -------------------------------------------------------------------- Sizes

  lemma Unreadable(value: Option<Px>, default: int, floats: Floats)
    requires forall s :: floats(s) == None
    ensures PxToInt(value, default, floats) == default
  {
    hide Strip, IntText, EndsInPx;
    if value.Some? {
      var text: Text := Strip(match value.value case Number(n) => IntText(n) case Css(s) => s);
      assert floats(text) == None;
      if |text| >= 2 {
        var number: Text := text[..|text| - 2];
        assert floats(number) == None;
      }
      assert EndsInPx(text) ==> |text| >= 2 by {
        LongEnough(text);
      }
    }
  }

  lemma LongEnough(text: Text)
    ensures EndsInPx(text) ==> |text| >= 2
  {
  }

  /** Sizes that cannot be read count as the editor's defaults. */
  lemma UnreadableSizes(base: Palette, floats: Floats, t: Text)
    requires t in NodeTypes() && forall s :: floats(s) == None
    ensures var theme := Effective(base, NO_OVERRIDES, floats);
      && theme.nodes[t].width == 60 && theme.nodes[t].height == 50 && theme.nodes[t].borderWidth == 0
      && theme.edges.width == 2 && theme.edges.fontSize == 9 && theme.global.labelFontSize == 11
  {
    hide PxToInt, NodeTypes, MergedNode, BaseNodeProperties, Get, TokenPx;
    forall value, default ensures PxToInt(value, default, floats) == default {
      Unreadable(value, default, floats);
    }
  }

  lemma Padded(s: Text)
    requires s != [] && !Space(s[0]) && !Space(s[|s| - 1])
    ensures Strip(" " + s + " ") == s
  {
    var right := s + " ";
    var p := " " + right;
    assert " " + s + " " == p && p[1..] == right && right[0] == s[0];
    assert StripLeft(right) == right;
    assert StripLeft(p) == right;
    assert right[..|right| - 1] == s && right[|right| - 1] == ' ';
    assert StripRight(s) == s;
  }

  /** A suffix in any case, or none. */
  predicate Suffix(s: Text) { s == [] || (|s| == 2 && s[0] in {'p', 'P'} && s[1] in {'x', 'X'}) }

  /** A size is read with or without its suffix, in any case, and with white space around it. */
  lemma SuffixInAnyCase(n: nat, suffix: Text, default: int, floats: Floats)
    requires ReadsIntegers(floats) && Finite(n) && Suffix(suffix)
    ensures PxToInt(Some(Css(" " + (Decimal(n) + suffix) + " ")), default, floats) == Rounded(n)
  {
    var d := Decimal(n);
    var text := d + suffix;
    Reads(n, floats);
    hide Decimal, ReadsIntegers, Finite, Rounded, Strip;
    assert text[0] == d[0] && Digit(d[0]) && Digit(d[|d| - 1]);
    assert text[|text| - 1] == if suffix == [] then d[|d| - 1] else suffix[1];
    Padded(text);
    if suffix == [] {
      assert text == d && !EndsInPx(text);
    } else {
      assert text[|text| - 2] == suffix[0] && text[..|text| - 2] == d;
      assert EndsInPx(text);
    }
  }

  lemma Reads(n: nat, floats: Floats)
    requires ReadsIntegers(floats) && Finite(n)
    ensures floats(Decimal(n)) == Some(Rounded(n))
  {
  }

  // ------------------------------------------------------------------ Doubles

  predicate PowerTwo(p: nat) { p == 1 || (p > 1 && p % 2 == 0 && PowerTwo(p / 2)) }

  /** Rounding up past the bits dropped, worth `r` of `p`: more than half, or half and more, or half and an odd number kept. */
  predicate Up(q: nat, r: nat, p: nat, more: bool) { 2 * r > p || (2 * r == p && (more || q % 2 == 1)) }

  lemma NearestStep(n: nat, half: bool, sticky: bool)
    ensures n >= MANTISSA ==> Nearest(n, half, sticky) == 2 * Nearest(n / 2, n % 2 == 1, half || sticky)
    ensures n < MANTISSA ==> Nearest(n, half, sticky) == if half && (sticky || n % 2 == 1) then n + 1 else n
  {
  }

  lemma UpDoubled(q: nat, r: nat, p: nat, b: nat, more: bool)
    requires p % 2 == 0 && r < p && b < 2
    ensures Up(q, 2 * r + b, 2 * p, more) <==> Up(q, r, p, b == 1 || more)
  {
  }

  lemma Doubled(m: nat, p: nat, q: nat, r: nat)
    requires m == q * p + r
    ensures 2 * m == q * (2 * p) + 2 * r && forall x: nat :: 2 * (p * x) == (2 * p) * x
  {
  }

  lemma PowerDoubled(p: nat)
    requires PowerTwo(p)
    ensures PowerTwo(2 * p)
  {
    assert 2 * p / 2 == p;
  }

  lemma {:induction false} NearestSplits(n: nat, half: bool, sticky: bool) returns (p: nat, q: nat, r: nat)
    requires n >= 0x20_0000_0000_0000
    ensures PowerTwo(p) && p % 2 == 0 && n == q * p + r && r < p && 0x10_0000_0000_0000 <= q < 0x20_0000_0000_0000
    ensures Nearest(n, half, sticky) == p * if Up(q, r, p, half || sticky) then q + 1 else q
    decreases n
  {
    hide Nearest, PowerTwo;
    var m, b := n / 2, n % 2;
    NearestStep(n, half, sticky);
    if m < MANTISSA {
      p, q, r := 2, m, b;
      NearestStep(m, b == 1, half || sticky);
      OneIsPower();
      PowerDoubled(1);
    } else {
      var p1, r1;
      p1, q, r1 := NearestSplits(m, b == 1, half || sticky);
      p, r := 2 * p1, 2 * r1 + b;
      PowerDoubled(p1);
      UpDoubled(q, r1, p1, b, half || sticky);
      hide Up;
      Doubled(m, p1, q, r1);
      var kept := if Up(q, r, p, half || sticky) then q + 1 else q;
      assert 2 * (p1 * kept) == p * kept;
    }
  }

  lemma OneIsPower()
    ensures PowerTwo(1)
  {
  }

  /**
   Which double an int becomes: itself below 2^53; and above, with the leading 53 bits
   kept, the nearer of the two multiples of the last kept bit, the even one half-way.
   */
  lemma RoundedExactly(n: nat) returns (p: nat, q: nat, r: nat)
    ensures n < 0x20_0000_0000_0000 ==> Rounded(n) == n
    ensures n >= 0x20_0000_0000_0000 ==>
      && PowerTwo(p) && n == q * p + r && r < p && 0x10_0000_0000_0000 <= q < 0x20_0000_0000_0000
      && (2 * r < p ==> Rounded(n) == p * q)
      && (2 * r > p ==> Rounded(n) == p * (q + 1))
      && (2 * r == p ==> Rounded(n) == p * (if q % 2 == 0 then q else q + 1))
  {
    if n >= MANTISSA {
      p, q, r := NearestSplits(n, false, false);
    } else {
      p, q, r := 1, n, 0;
    }
  }

  /** The bound of the doubles. */
  lemma PowersOfTwo(e: nat)
    ensures PowerOfTwo(0) == 1 && PowerOfTwo(e + 1) == 2 * PowerOfTwo(e)
    ensures forall n: nat :: Finite(n) <==> Rounded(n) < PowerOfTwo(1024)
  {
  }

  // -------------------------------------------------------------- Acceptance

  /** `#` and three or six hex digits. */
  predicate Color(c: Option<Text>) {
    c.Some? ==>
      && (|c.value| == 4 || |c.value| == 7) && c.value[0] == '#'
      && forall i :: 1 <= i < |c.value| ==> '0' <= c.value[i] <= '9' || 'a' <= c.value[i] <= 'f' || 'A' <= c.value[i] <= 'F'
  }

  lemma ColorIs(c: Option<Text>)
    ensures Color(c) <==> ColorOk(c)
  {
  }

  predicate Between(v: Option<int>, low: int, high: int) { v.None? || low <= v.value <= high }

  /** Which node overrides are accepted. */
  lemma NodeValidExactly(n: NodeOverride)
    ensures NodeValid(n) <==>
      && Color(n.color) && Color(n.border) && (n.borderWidth.Some? ==> 0 <= n.borderWidth.value)
      && (n.shape.Some? ==> n.shape.value in AllowedShapes())
      && Between(n.width, 1, 400) && Between(n.height, 1, 400)
  {
    ColorIs(n.color);
    ColorIs(n.border);
    hide Color, ColorOk, AllowedShapes;
  }

  /** Which documents are accepted. */
  lemma ValidExactly(o: Overrides)
    ensures Valid(o) <==>
      && (forall t :: t in o.nodes ==> t in NodeTypes() && NodeValid(o.nodes[t]))
      && Color(o.edges.lineColor) && Color(o.edges.labelColor) && Between(o.edges.width, 1, 20) && Between(o.edges.fontSize, 8, 48)
      && Color(o.global.labelColor) && Color(o.global.selectionColor) && Color(o.global.edgeLabelBackground)
      && Between(o.global.labelFontSize, 8, 48)
  {
    ColorIs(o.edges.lineColor);
    ColorIs(o.edges.labelColor);
    ColorIs(o.global.labelColor);
    ColorIs(o.global.selectionColor);
    ColorIs(o.global.edgeLabelBackground);
    hide Color, ColorOk, NodeTypes, NodeValid;
  }

  /** The node types, in any order. */
  lemma TypesExactly(t: Text)
    ensures t in NodeTypes() <==>
      t in {"Person", "Project", "Issue", "Epic", "Repository", "Branch", "Team", "IdentityMapping", "Initiative",
            "Sprint", "Commit", "File", "PullRequest", "Space", "Page", "Blogpost", "default"}
  {
  }

  /** The whole set of Cytoscape's node shapes. */
  lemma ShapesExactly(s: string)
    ensures s in AllowedShapes() <==>
      s in {"ellipse", "triangle", "rectangle", "pentagon", "hexagon", "heptagon", "octagon", "diamond", "star", "tag", "vee",
            "barrel", "rhomboid", "round-triangle", "round-rectangle", "round-pentagon", "round-hexagon", "round-heptagon",
            "round-octagon", "round-diamond", "round-tag", "bottom-round-rectangle", "cut-rectangle", "concave-hexagon"}
  {
  }
}
