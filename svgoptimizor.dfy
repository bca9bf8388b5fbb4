/**
 * `optimizeSVG` of svgOptimizor.ts: the list of passes it hands to svgo
 * for a set of options, and the passes written inline there (`keepTitle`,
 * `removeColor` and the two `cleanRoot` variants), each a per-node
 * callback that rewrites the node in place.
 *
 * svgo itself (parsing, the named built-in passes, the traversal, the
 * printing) is a parameter: `Engine` takes the markup and the pass list and
 * gives back the printed markup and the viewBox values the passes reported
 * through `getViewBox`, in the order they were reported.
 */
module SvgOptimizor {
  import opened Wrappers
  import opened Text
  import opened Numbers
  import opened Xast
  import opened Translate
  import opened TranslateFacts

  /** `removeAttrs`: absent, one name (or pattern), or a list of them. */
  datatype AttrNames = NoAttrs | AttrName(name: string) | AttrNameList(names: seq<string>) {
    /** A non-empty string or any array is truthy. */
    predicate Truthy() {
      match this
      case NoAttrs => false
      case AttrName(n) => n != ""
      case AttrNameList(_) => true
    }
  }

  /**
   * `OptimizeSVGOptions`. An absent number is 0, which is falsy like
   * `undefined`; `getViewBox` is always present here, as `trigo` passes it,
   * and its calls are what `Optimized.reported` lists.
   */
  datatype Options = Options(
    min: bool,
    removeAttrs: AttrNames,
    removeRoot: bool,
    removeColor: bool,
    removeTitle: bool,
    height: real,
    minWidth: real,
    offsetY: real,
    offsetX: real)

  /** The options `optimizeSVG` uses when it is given none: `{ min: true }`. */
  const DefaultOptions := Options(true, NoAttrs, false, false, false, 0.0, 0.0, 0.0, 0.0)

  /** A pass handed to svgo: one of its built-ins by name, or one written here. */
  datatype Plugin =
    | Builtin(name: string)
    | KeepTitle
    | RemoveColor
    | TranslatePlugin(params: Params)
    | RemoveAttrs(attrs: AttrNames)
    | CleanRootFull
    | CleanRootItem

  /** The built-ins `min` adds, in order (`removeUselessStrokeAndFill` is commented out). */
  const MinNames: seq<string> := [
    "cleanupAttrs", "removeDoctype", "removeXMLProcInst", "removeComments", "removeMetadata",
    "removeDesc", "removeUselessDefs", "removeEditorsNSData", "removeEmptyAttrs", "removeHiddenElems",
    "removeEmptyText", "removeEmptyContainers", "cleanupEnableBackground", "convertStyleToAttrs",
    "convertColors", "convertPathData", "convertTransform", "removeUnknownsAndDefaults",
    "removeNonInheritableGroupAttrs", "removeUnusedNS", "cleanupIDs", "cleanupNumericValues",
    "moveElemsAttrsToGroup", "moveGroupAttrsToElems", "collapseGroups", "removeRasterImages",
    "mergePaths", "convertShapeToPath", "convertEllipseToCircle", "sortAttrs", "removeDimensions"]

  function MinPlugins(): seq<Plugin> {
    seq(|MinNames|, i requires 0 <= i < |MinNames| => Builtin(MinNames[i]))
  }

  /** `min` adds exactly the built-ins named in `MinNames`. */
  lemma MinPluginsNames()
    ensures forall n :: Builtin(n) in MinPlugins() <==> n in MinNames
  {
    forall n | n in MinNames ensures Builtin(n) in MinPlugins() {
      var i :| 0 <= i < |MinNames| && MinNames[i] == n;
      assert MinPlugins()[i] == Builtin(n);
    }
  }

  /** `options.height || options.minWidth || options.offsetY || options.offsetX`. */
  predicate TranslateWanted(o: Options) {
    o.height != 0.0 || o.minWidth != 0.0 || o.offsetY != 0.0 || o.offsetX != 0.0
  }

  function TitlePlugins(o: Options): seq<Plugin> {
    if o.removeTitle then [Builtin("removeTitle"), KeepTitle] else []
  }

  function ColorPlugins(o: Options): seq<Plugin> {
    if o.removeColor then [RemoveColor] else []
  }

  function TranslatePlugins(o: Options): seq<Plugin> {
    if TranslateWanted(o) then [TranslatePlugin(Params(o.height, o.minWidth, o.offsetY, o.offsetX))] else []
  }

  function AttrsPlugins(o: Options): seq<Plugin> {
    if o.removeAttrs.Truthy() then [RemoveAttrs(o.removeAttrs)] else []
  }

  function MinPluginsFor(o: Options): seq<Plugin> {
    if o.min then MinPlugins() else []
  }

  function RootPlugins(o: Options): seq<Plugin> {
    if o.removeRoot then [CleanRootFull] else if o.min then [CleanRootItem] else []
  }

  /** The passes written in this file that run before the built-ins. */
  function FrontPlugins(o: Options): seq<Plugin> {
    TitlePlugins(o) + ColorPlugins(o) + TranslatePlugins(o) + AttrsPlugins(o)
  }

  /** The pass list `optimizeSVG` builds, group by group. */
  function PluginsFor(o: Options): seq<Plugin> {
    FrontPlugins(o) + MinPluginsFor(o) + RootPlugins(o)
  }

  /** Builds the pass list by successive pushes, as `optimizeSVG` does. */
  method AssemblePlugins(o: Options) returns (plugins: seq<Plugin>)
    ensures plugins == PluginsFor(o)
  {
    plugins := [];
    if o.removeTitle {
      plugins := plugins + [Builtin("removeTitle")];
      plugins := plugins + [KeepTitle];
    }
    assert plugins == TitlePlugins(o);
    if o.removeColor {
      plugins := plugins + [RemoveColor];
    }
    assert plugins == TitlePlugins(o) + ColorPlugins(o);
    if TranslateWanted(o) {
      plugins := plugins + [TranslatePlugin(Params(o.height, o.minWidth, o.offsetY, o.offsetX))];
    }
    assert plugins == TitlePlugins(o) + ColorPlugins(o) + TranslatePlugins(o);
    if o.removeAttrs.Truthy() {
      plugins := plugins + [RemoveAttrs(o.removeAttrs)];
    }
    assert plugins == FrontPlugins(o);
    if o.min {
      plugins := plugins + MinPlugins();
    }
    assert plugins == FrontPlugins(o) + MinPluginsFor(o);
    if o.removeRoot {
      plugins := plugins + [CleanRootFull];
    } else if o.min {
      plugins := plugins + [CleanRootItem];
    }
  }

  /** What svgo gives back: the printed markup and the viewBox values reported to `getViewBox`. */
  datatype Optimized = Optimized(data: string, reported: seq<string>)

  /** `optimize(svg, { full: true, plugins })`, which svgo provides. */
  type Engine = (string, seq<Plugin>) -> Optimized

  /**
   * `optimizeSVG(svg, options)`: svgo run with the assembled pass list;
   * `options` is `None` when the caller leaves it out.
   */
  method OptimizeSvg(svg: string, options: Option<Options>, engine: Engine) returns (result: Optimized)
    ensures result == engine(svg, PluginsFor(options.GetOr(DefaultOptions)))
  {
    var plugins := AssemblePlugins(options.GetOr(DefaultOptions));
    result := engine(svg, plugins);
  }

  /** Without options, the built-ins of `min` run, then the per-item `cleanRoot`. */
  lemma DefaultPlugins()
    ensures PluginsFor(DefaultOptions) == MinPlugins() + [CleanRootItem]
  {
    assert FrontPlugins(DefaultOptions) == [];
  }

  // ---------------------------------------------------------------------
  // the order of the passes

  /** Where a pass stands in the list; the list is sorted by it. */
  function Stage(p: Plugin): nat {
    match p
    case Builtin(n) => if n == "removeTitle" then 0 else 5
    case KeepTitle => 1
    case RemoveColor => 2
    case TranslatePlugin(_) => 3
    case RemoveAttrs(_) => 4
    case CleanRootFull => 6
    case CleanRootItem => 6
  }

  /** The passes of a list standing at `stage`, in their order. */
  function AtStage(ps: seq<Plugin>, stage: nat): (r: seq<Plugin>)
    ensures |r| <= |ps|
    ensures forall i :: 0 <= i < |r| ==> Stage(r[i]) == stage && r[i] in ps
    ensures forall i :: 0 <= i < |ps| && Stage(ps[i]) == stage ==> ps[i] in r
  {
    if ps == [] then []
    else (if Stage(ps[0]) == stage then [ps[0]] else []) + AtStage(ps[1..], stage)
  }

  ghost predicate Sorted(ps: seq<Plugin>) {
    forall i, j :: 0 <= i < j < |ps| ==> Stage(ps[i]) <= Stage(ps[j])
  }

  ghost predicate Within(ps: seq<Plugin>, lo: nat, hi: nat) {
    forall i :: 0 <= i < |ps| ==> lo <= Stage(ps[i]) <= hi
  }

  lemma SortedJoin(a: seq<Plugin>, b: seq<Plugin>, lo: nat, mid: nat, hi: nat)
    requires lo <= mid <= hi
    requires Sorted(a) && Within(a, lo, mid)
    requires Sorted(b) && Within(b, mid, hi)
    ensures Sorted(a + b) && Within(a + b, lo, hi)
  {
    forall i, j | 0 <= i < j < |a + b| ensures Stage((a + b)[i]) <= Stage((a + b)[j]) {
      if j < |a| {
        assert (a + b)[i] == a[i] && (a + b)[j] == a[j];
      } else if i >= |a| {
        assert (a + b)[i] == b[i - |a|] && (a + b)[j] == b[j - |a|];
      } else {
        assert (a + b)[i] == a[i] && (a + b)[j] == b[j - |a|];
      }
    }
    forall i | 0 <= i < |a + b| ensures lo <= Stage((a + b)[i]) <= hi {
      if i < |a| {
        assert (a + b)[i] == a[i] && lo <= Stage(a[i]) <= mid;
      } else {
        assert (a + b)[i] == b[i - |a|] && mid <= Stage(b[i - |a|]) <= hi;
      }
    }
  }

  lemma AtStageAppend(a: seq<Plugin>, b: seq<Plugin>, stage: nat)
    ensures AtStage(a + b, stage) == AtStage(a, stage) + AtStage(b, stage)
    decreases |a|
  {
    if a != [] {
      var head := if Stage(a[0]) == stage then [a[0]] else [];
      assert (a + b)[0] == a[0];
      DropFirst(a, b);
      assert AtStage(a + b, stage) == head + AtStage(a[1..] + b, stage);
      AtStageAppend(a[1..], b, stage);
      Regroup(head, AtStage(a[1..], stage), AtStage(b, stage));
    } else {
      assert a + b == b;
    }
  }

  /** A list whose passes all stand at `stage`: taking that stage keeps all of it, any other none. */
  lemma AtStageWithin(ps: seq<Plugin>, stage: nat, other: nat)
    requires Within(ps, stage, stage)
    requires other != stage
    ensures AtStage(ps, stage) == ps && AtStage(ps, other) == []
    decreases |ps|
  {
    if ps != [] {
      AtStageWithin(ps[1..], stage, other);
    }
  }

  /** A list without passes at `stage` has none to take. */
  lemma AtStageNone(ps: seq<Plugin>, stage: nat)
    requires forall i :: 0 <= i < |ps| ==> Stage(ps[i]) != stage
    ensures AtStage(ps, stage) == []
    decreases |ps|
  {
    if ps != [] {
      AtStageNone(ps[1..], stage);
    }
  }

  /** Every built-in of `min` stands at stage 5. */
  lemma MinWithin()
    ensures Within(MinPlugins(), 5, 5)
  {
    forall i | 0 <= i < |MinPlugins()| ensures Stage(MinPlugins()[i]) == 5 {
      assert |MinNames[i]| != |"removeTitle"|;
    }
  }

  lemma FrontOrder(o: Options)
    ensures Sorted(FrontPlugins(o)) && Within(FrontPlugins(o), 0, 4)
  {
    var ps := TitlePlugins(o);
    assert Sorted(ps) && Within(ps, 0, 1);
    assert Sorted(ColorPlugins(o)) && Within(ColorPlugins(o), 2, 2);
    assert Sorted(TranslatePlugins(o)) && Within(TranslatePlugins(o), 3, 3);
    assert Sorted(AttrsPlugins(o)) && Within(AttrsPlugins(o), 4, 4);
    SortedJoin(ps, ColorPlugins(o), 0, 2, 2);
    ps := ps + ColorPlugins(o);
    SortedJoin(ps, TranslatePlugins(o), 0, 3, 3);
    ps := ps + TranslatePlugins(o);
    SortedJoin(ps, AttrsPlugins(o), 0, 4, 4);
  }

  lemma MinAtStage()
    ensures AtStage(MinPlugins(), 5) == MinPlugins()
  {
    MinWithin();
    AtStageWithin(MinPlugins(), 5, 0);
  }

  /**
   * The passes come in this order: removeTitle, keepTitle, removeColor,
   * translate, removeAttrs, the built-ins of `min`, then cleanRoot.
   */
  lemma PluginOrder(o: Options)
    ensures Sorted(PluginsFor(o))
  {
    FrontOrder(o);
    BackOrder(o);
    SortedJoin(FrontPlugins(o), MinPluginsFor(o), 0, 5, 5);
    SortedJoin(FrontPlugins(o) + MinPluginsFor(o), RootPlugins(o), 0, 6, 6);
  }

  /** A list whose passes stand at one stage is in order. */
  lemma OneStageSorted(ps: seq<Plugin>, stage: nat)
    requires Within(ps, stage, stage)
    ensures Sorted(ps)
  {
    forall i, j | 0 <= i < j < |ps| ensures Stage(ps[i]) <= Stage(ps[j]) {
      assert Stage(ps[i]) == stage == Stage(ps[j]);
    }
  }

  lemma BackOrder(o: Options)
    ensures Sorted(MinPluginsFor(o)) && Within(MinPluginsFor(o), 5, 5)
    ensures Sorted(RootPlugins(o)) && Within(RootPlugins(o), 6, 6)
  {
    MinWithin();
    OneStageSorted(MinPluginsFor(o), 5);
    OneStageSorted(RootPlugins(o), 6);
  }

  lemma InWithin(ps: seq<Plugin>, lo: nat, hi: nat, p: Plugin)
    requires Within(ps, lo, hi) && p in ps
    ensures lo <= Stage(p) <= hi
  {
    var i :| 0 <= i < |ps| && ps[i] == p;
  }

  lemma InSixGroups(g0: seq<Plugin>, g1: seq<Plugin>, g2: seq<Plugin>, g3: seq<Plugin>,
                    g4: seq<Plugin>, g5: seq<Plugin>, p: Plugin)
    requires Within(g0, 0, 1) && Within(g1, 2, 2) && Within(g2, 3, 3)
    requires Within(g3, 4, 4) && Within(g4, 5, 5) && Within(g5, 6, 6)
    ensures p in g0 + g1 + g2 + g3 + g4 + g5 <==>
      if Stage(p) <= 1 then p in g0
      else if Stage(p) == 2 then p in g1
      else if Stage(p) == 3 then p in g2
      else if Stage(p) == 4 then p in g3
      else if Stage(p) == 5 then p in g4
      else p in g5
  {
    if p in g0 { InWithin(g0, 0, 1, p); }
    if p in g1 { InWithin(g1, 2, 2, p); }
    if p in g2 { InWithin(g2, 3, 3, p); }
    if p in g3 { InWithin(g3, 4, 4, p); }
    if p in g4 { InWithin(g4, 5, 5, p); }
    if p in g5 { InWithin(g5, 6, 6, p); }
  }

  /** A pass is in the list exactly when it is in the group of its stage. */
  lemma InGroup(o: Options, p: Plugin)
    ensures p in PluginsFor(o) <==>
      if Stage(p) <= 1 then p in TitlePlugins(o)
      else if Stage(p) == 2 then p in ColorPlugins(o)
      else if Stage(p) == 3 then p in TranslatePlugins(o)
      else if Stage(p) == 4 then p in AttrsPlugins(o)
      else if Stage(p) == 5 then p in MinPluginsFor(o)
      else p in RootPlugins(o)
  {
    MinForWithin(o);
    InSixGroups(TitlePlugins(o), ColorPlugins(o), TranslatePlugins(o), AttrsPlugins(o), MinPluginsFor(o), RootPlugins(o), p);
  }

  /**
   * Each pass is present exactly when its option asks for it; translate
   * gets the options' four numbers, removeAttrs their `removeAttrs`.
   */
  lemma PluginChoice(o: Options)
    ensures var ps := PluginsFor(o);
      && (Builtin("removeTitle") in ps <==> o.removeTitle)
      && (KeepTitle in ps <==> o.removeTitle)
      && (RemoveColor in ps <==> o.removeColor)
      && (forall p :: p in ps && p.TranslatePlugin? ==> p.params == Params(o.height, o.minWidth, o.offsetY, o.offsetX))
      && ((exists p :: p in ps && p.TranslatePlugin?) <==> TranslateWanted(o))
      && (forall p :: p in ps && p.RemoveAttrs? ==> p.attrs == o.removeAttrs)
      && ((exists p :: p in ps && p.RemoveAttrs?) <==> o.removeAttrs.Truthy())
      && (CleanRootFull in ps <==> o.removeRoot)
      && (CleanRootItem in ps <==> o.min && !o.removeRoot)
  {
    FlagChoice(o);
    ParamChoice(o);
  }

  /** The passes without parameters are present exactly when their options ask for them. */
  lemma FlagChoice(o: Options)
    ensures var ps := PluginsFor(o);
      && (Builtin("removeTitle") in ps <==> o.removeTitle)
      && (KeepTitle in ps <==> o.removeTitle)
      && (RemoveColor in ps <==> o.removeColor)
      && (CleanRootFull in ps <==> o.removeRoot)
      && (CleanRootItem in ps <==> o.min && !o.removeRoot)
  {
    InGroup(o, Builtin("removeTitle"));
    InGroup(o, KeepTitle);
    InGroup(o, RemoveColor);
    InGroup(o, CleanRootFull);
    InGroup(o, CleanRootItem);
  }

  /** translate and removeAttrs are present when asked for, with the options' values. */
  lemma ParamChoice(o: Options)
    ensures var ps := PluginsFor(o);
      && (forall p :: p in ps && p.TranslatePlugin? ==> p.params == Params(o.height, o.minWidth, o.offsetY, o.offsetX))
      && ((exists p :: p in ps && p.TranslatePlugin?) <==> TranslateWanted(o))
      && (forall p :: p in ps && p.RemoveAttrs? ==> p.attrs == o.removeAttrs)
      && ((exists p :: p in ps && p.RemoveAttrs?) <==> o.removeAttrs.Truthy())
  {
    var ps := PluginsFor(o);
    var t := TranslatePlugin(Params(o.height, o.minWidth, o.offsetY, o.offsetX));
    InGroup(o, t);
    var a := RemoveAttrs(o.removeAttrs);
    InGroup(o, a);
    forall p | p in ps && (p.TranslatePlugin? || p.RemoveAttrs?) ensures p == t || p == a {
      InGroup(o, p);
    }
  }

  /** The built-ins of `min` are exactly the passes at stage 5, in order. */
  lemma MinStage(o: Options)
    ensures AtStage(PluginsFor(o), 5) == MinPluginsFor(o)
  {
    FrontOrder(o);
    MinForWithin(o);
    MiddleStage(FrontPlugins(o), MinPluginsFor(o), RootPlugins(o));
  }

  lemma MinForWithin(o: Options)
    ensures Within(MinPluginsFor(o), 5, 5)
  {
    if o.min {
      MinWithin();
    }
  }

  /** Taking stage 5 out of a list sorted around it gives its middle part. */
  lemma MiddleStage(front: seq<Plugin>, middle: seq<Plugin>, back: seq<Plugin>)
    requires Within(front, 0, 4) && Within(middle, 5, 5) && Within(back, 6, 6)
    ensures AtStage(front + middle + back, 5) == middle
  {
    AtStageAppend(front + middle, back, 5);
    AtStageAppend(front, middle, 5);
    AtStageNone(front, 5);
    AtStageNone(back, 5);
    AtStageWithin(middle, 5, 0);
  }

  /** The two cleanRoot passes never run together. */
  lemma CleanRootsExclusive(o: Options)
    ensures !(CleanRootFull in PluginsFor(o) && CleanRootItem in PluginsFor(o))
  {
    PluginChoice(o);
  }

  // ---------------------------------------------------------------------
  // removeColor

  /** A truthy value that `/^#/` matches. */
  predicate IsHexColor(v: string) {
    |v| > 0 && v[0] == '#'
  }

  /** The attributes after `removeColor`: a `#` fill or stroke becomes `currentColor`. */
  function DropColor(attrs: map<string, string>): (r: map<string, string>)
    ensures r.Keys == attrs.Keys
    ensures forall k :: k in attrs ==>
      r[k] == if (k == "fill" || k == "stroke") && IsHexColor(attrs[k]) then "currentColor" else attrs[k]
  {
    var filled := if "fill" in attrs && IsHexColor(attrs["fill"]) then attrs["fill" := "currentColor"] else attrs;
    if "stroke" in filled && IsHexColor(filled["stroke"]) then filled["stroke" := "currentColor"] else filled
  }

  /** Removing colours twice is removing them once. */
  lemma DropColorIdempotent(attrs: map<string, string>)
    ensures DropColor(DropColor(attrs)) == DropColor(attrs)
  {
  }

  /** The `removeColor` callback; only elements have attributes. */
  method RemoveColorPass(node: XNode)
    modifies node
    ensures node.value == old(node.value) && node.children == old(node.children)
    ensures node.attributes == if node.kind == Element then DropColor(old(node.attributes)) else old(node.attributes)
  {
    if node.kind == Element {
      if "fill" in node.attributes && IsHexColor(node.attributes["fill"]) {
        node.attributes := node.attributes["fill" := "currentColor"];
      }
      if "stroke" in node.attributes && IsHexColor(node.attributes["stroke"]) {
        node.attributes := node.attributes["stroke" := "currentColor"];
      }
    }
  }

  // ---------------------------------------------------------------------
  // keepTitle

  /**
   * The `keepTitle` callback: an element with a truthy `title` attribute
   * gets a new last child `<title>` holding the attribute's text, and
   * loses the attribute. Every other node is left alone.
   */
  method KeepTitlePass(node: XNode)
    modifies node
    ensures node.value == old(node.value)
    ensures !(node.kind == Element && Truthy(old(node.attributes), "title")) ==>
      node.attributes == old(node.attributes) && node.children == old(node.children)
    ensures node.kind == Element && Truthy(old(node.attributes), "title") ==>
      && node.attributes == old(node.attributes) - {"title"}
      && |node.children| == |old(node.children)| + 1
      && node.children[..|old(node.children)|] == old(node.children)
      && var title := node.children[|node.children| - 1];
      && fresh(title) && title.kind == Element && title.name == "title" && title.attributes == map[]
      && |title.children| == 1 && fresh(title.children[0])
      && title.children[0].kind == NodeKind.Text && title.children[0].value == old(node.attributes)["title"]
  {
    if node.kind == Element && Truthy(node.attributes, "title") {
      var text := new XNode.Text(node.attributes["title"]);
      var title := new XNode.Element("title", map[], [text]);
      node.children := node.children + [title];
      node.attributes := node.attributes - {"title"};
    }
  }

  // ---------------------------------------------------------------------
  // cleanRoot

  /**
   * The full `cleanRoot`: a root whose only child is named `svg` takes
   * that child's children in its place. The child's viewBox, when truthy,
   * is reported; any other node is left alone and nothing is reported.
   */
  method CleanRootFullPass(root: XNode) returns (reported: Option<string>)
    modifies root
    ensures root.value == old(root.value) && root.attributes == old(root.attributes)
    ensures if root.kind == NodeKind.Root && |old(root.children)| == 1 && old(root.children[0].name) == "svg"
      then
        var svg := old(root.children[0]);
        && root.children == old(svg.children)
        && reported == if Truthy(old(svg.attributes), "viewBox") then Some(old(svg.attributes)["viewBox"]) else None
      else root.children == old(root.children) && reported == None
  {
    reported := None;
    if root.kind == NodeKind.Root && |root.children| == 1 && root.children[0].name == "svg" {
      var svg := root.children[0];
      if Truthy(svg.attributes, "viewBox") {
        reported := Some(svg.attributes["viewBox"]);
      }
      root.children := svg.children;
    }
  }

  predicate EndsWithPx(v: string) {
    |v| >= 2 && v[|v| - 2..] == "px"
  }

  /** `v.replace(/px$/, "")` for a value ending in `px`. */
  function StripPx(v: string): (r: string)
    requires EndsWithPx(v)
    ensures r + "px" == v
  {
    v[..|v| - 2]
  }

  /** An `svg` element without a viewBox whose width and height are both in `px`. */
  predicate PxSized(kind: NodeKind, name: string, attrs: map<string, string>) {
    && kind == Element && name == "svg" && "viewBox" !in attrs
    && "width" in attrs && "height" in attrs && EndsWithPx(attrs["width"]) && EndsWithPx(attrs["height"])
  }

  /** `` `0 0 ${width} ${height}` `` for the numbers read from the `px` sizes. */
  function PxViewBox(attrs: map<string, string>, f: NumberFormat): string
    requires "width" in attrs && "height" in attrs && EndsWithPx(attrs["width"]) && EndsWithPx(attrs["height"])
  {
    "0 0 " + Show(f, f.parseFloat(StripPx(attrs["width"]))) + " " + Show(f, f.parseFloat(StripPx(attrs["height"])))
  }

  /**
   * The per-item `cleanRoot`: a `px`-sized svg without a viewBox loses its
   * width and height and gets the viewBox `0 0 width height`, which is also
   * reported. Any other node is left alone.
   */
  method CleanRootItemPass(node: XNode, f: NumberFormat) returns (reported: Option<string>)
    modifies node
    ensures node.value == old(node.value) && node.children == old(node.children)
    ensures if PxSized(node.kind, node.name, old(node.attributes))
      then
        var viewBox := PxViewBox(old(node.attributes), f);
        node.attributes == (old(node.attributes) - {"width", "height"})["viewBox" := viewBox] && reported == Some(viewBox)
      else node.attributes == old(node.attributes) && reported == None
  {
    reported := None;
    if node.IsElem("svg") && "viewBox" !in node.attributes && "width" in node.attributes && "height" in node.attributes
      && EndsWithPx(node.attributes["width"]) && EndsWithPx(node.attributes["height"])
    {
      var width := f.parseFloat(StripPx(node.attributes["width"]));
      var height := f.parseFloat(StripPx(node.attributes["height"]));
      ghost var original := node.attributes;
      node.attributes := node.attributes - {"width"};
      node.attributes := node.attributes - {"height"};
      var viewBox := "0 0 " + Show(f, width) + " " + Show(f, height);
      node.attributes := node.attributes["viewBox" := viewBox];
      assert viewBox == PxViewBox(original, f);
      reported := Some(viewBox);
    }
  }

  /**
   * The viewBox the per-item `cleanRoot` writes reads back as
   * `0 0 width height` for the `px` sizes it replaced, when both are numbers
   * the runtime reads back.
   */
  lemma PxViewBoxRoundTrip(attrs: map<string, string>, f: NumberFormat, fallback: real)
    requires ValidFormat(f)
    requires "width" in attrs && "height" in attrs && EndsWithPx(attrs["width"]) && EndsWithPx(attrs["height"])
    requires f.parseFloat(StripPx(attrs["width"])).Some? && f.parseFloat(StripPx(attrs["height"])).Some?
    requires ReadsBack(f, f.parseFloat(StripPx(attrs["width"])).value) && ReadsBack(f, f.parseFloat(StripPx(attrs["height"])).value)
    ensures var w, h := f.parseFloat(StripPx(attrs["width"])).value, f.parseFloat(StripPx(attrs["height"])).value;
      var cleaned := (attrs - {"width", "height"})["viewBox" := PxViewBox(attrs, f)];
      Originals(cleaned, fallback, f) == Some(Box(0.0, 0.0, w, h))
  {
    var w, h := f.parseFloat(StripPx(attrs["width"])).value, f.parseFloat(StripPx(attrs["height"])).value;
    var cleaned := (attrs - {"width", "height"})["viewBox" := PxViewBox(attrs, f)];
    var ts := [f.show(0.0), f.show(0.0), f.show(w), f.show(h)];
    assert ts[1..] == [f.show(0.0), f.show(w), f.show(h)];
    assert ts[2..] == [f.show(w), f.show(h)];
    JoinPair(f.show(w), f.show(h), " ");
    assert Join(ts[1..], " ") == "0" + " " + (f.show(w) + " " + f.show(h));
    assert Join(ts, " ") == "0" + " " + ("0" + " " + (f.show(w) + " " + f.show(h)));
    assert ViewBoxText(w, h, f) == PxViewBox(attrs, f);
    ViewBoxRoundTrip(cleaned, w, h, fallback, f);
  }
}
