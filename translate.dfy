/**
 * The `translate` pass of svgOptimizor.ts: resizes and moves an icon. The
 * first `svg` or `symbol` element sets a context (a scale and two offsets)
 * from its viewBox or its size, and rewrites the viewBox to `0 0 width
 * height`; every later geometry-bearing element is rewritten with that
 * context.
 *
 * The context is the state of a `TranslatePass` object, updated field by
 * field as the source updates its `context` object; `Visit` is the pass's
 * per-node callback. Each step is also given as a function on values
 * (`Step`), which the callback's postcondition refers to and the lemmas
 * below are about.
 */
module Translate {
  import opened Wrappers
  import opened Text
  import opened Numbers
  import opened Xast

  /** The pass's `context`: what every coordinate is multiplied by, then moved by. */
  datatype Context = Context(scale: real, offsetX: real, offsetY: real)

  /** The arguments of `translate(height, minWidth, offsetY, offsetX)`; an absent one is 0. */
  datatype Params = Params(height: real, minWidth: real, offsetY: real, offsetX: real)

  /** The original box: the viewBox fields, or the size with origin 0. */
  datatype Box = Box(x: real, y: real, width: real, height: real)

  /**
   * A `transform` value as the pass's regular expression cuts it: text
   * it leaves alone, and matches of `matrix(a,b,c,d,` or `translate(`
   * (the prefix) followed by two numbers, the separator between them and a
   * closing parenthesis.
   */
  datatype TransformPiece =
    | Verbatim(text: string)
    | Translation(prefix: string, tx: string, sep: string, ty: string)

  /**
   * The collaborators the pass calls: number text, the svgpath chain
   * `translate(offsetX, offsetY).scale(scale).abs().round(1).rel().round(1)`
   * (`None` when it throws on malformed path data), and the cutting of a
   * `transform` value into pieces.
   */
  datatype Runtime = Runtime(
    fmt: NumberFormat,
    pathData: (string, Context) -> Option<string>,
    transformPieces: string -> seq<TransformPiece>)

  const ShapeNames: set<string> := {"rect", "line", "circle", "ellipse"}
  /** Attributes moved horizontally. */
  const DxAttrs: seq<string> := ["cx", "x", "x1", "x2"]
  /** Attributes moved vertically. */
  const DyAttrs: seq<string> := ["cy", "y", "y1", "y2"]
  /** Attributes scaled. */
  const ScaleAttrs: seq<string> := ["width", "height", "rx", "ry", "r"] + DxAttrs + DyAttrs

  /** `attrs[k]` is truthy: present and not the empty string. */
  predicate Truthy(attrs: map<string, string>, k: string) {
    k in attrs && attrs[k] != ""
  }

  // ---------------------------------------------------------------------
  // svg and symbol: the context and the new viewBox

  /** `+parts[i]`; a missing field is `undefined`, which reads as `NaN`. */
  function Field(parts: seq<string>, i: nat, f: NumberFormat): Option<real> {
    if i < |parts| then f.toNumber(parts[i]) else None
  }

  /** `parseFloat(attrs[k]) || dflt`: a missing, unreadable or zero size falls back. */
  function SizeOr(attrs: map<string, string>, k: string, dflt: real, f: NumberFormat): real {
    if k !in attrs then dflt
    else match f.parseFloat(attrs[k])
      case Some(x) => if x != 0.0 then x else dflt
      case None => dflt
  }

  /**
   * The original box of an svg or symbol: its four viewBox fields, or else
   * its width and height with `height` as the fallback. `None` when a
   * viewBox field is not a number (the source would compute with `NaN`).
   */
  function Originals(attrs: map<string, string>, height: real, f: NumberFormat): Option<Box> {
    if Truthy(attrs, "viewBox") then
      var parts := SplitWs(attrs["viewBox"]);
      var x, y, w, h := Field(parts, 0, f), Field(parts, 1, f), Field(parts, 2, f), Field(parts, 3, f);
      if x.Some? && y.Some? && w.Some? && h.Some? then Some(Box(x.value, y.value, w.value, h.value))
      else None
    else
      Some(Box(0.0, 0.0, SizeOr(attrs, "width", height, f), SizeOr(attrs, "height", height, f)))
  }

  /** `Math.round(width * scale * 10000) / 10000`: a scaled width, rounded to four decimals. */
  function ScaledWidth(width: real, scale: real): real {
    Round4(width * scale)
  }

  /**
   * The context and the new viewBox width for an original box: the box is
   * scaled to the target height, moved to the origin plus the offsets, and
   * widened to `minWidth` if narrower, with the drawing kept in the middle.
   */
  function Fit(o: Box, p: Params): (r: (Context, real))
    requires o.height != 0.0
    ensures r.0.scale * o.height == p.height
    ensures p.height == 0.0 ==> r.0.scale == 0.0
    ensures r.0.offsetY == p.offsetY - o.y
    ensures r.1 >= p.minWidth && r.1 >= ScaledWidth(o.width, r.0.scale)
    ensures r.1 == p.minWidth || r.1 == ScaledWidth(o.width, r.0.scale)
    // the margin added on the left equals the one left on the right
    ensures 2.0 * (r.0.offsetX - (p.offsetX - o.x)) == r.1 - ScaledWidth(o.width, r.0.scale)
  {
    var scale := p.height / o.height;
    var width := ScaledWidth(o.width, scale);
    var context := Context(scale, -o.x + p.offsetX, -o.y + p.offsetY);
    if width < p.minWidth then
      (context.(offsetX := context.offsetX + (p.minWidth - width) / 2.0), p.minWidth)
    else
      (context, width)
  }

  /** `[0, 0, width, height].join(" ")`. */
  function ViewBoxText(width: real, height: real, f: NumberFormat): string {
    Join([f.show(0.0), f.show(0.0), f.show(width), f.show(height)], " ")
  }

  /**
   * What the pass does to an svg or symbol element. `None` when a viewBox
   * field is not a number or the original height is 0, where the source
   * would go on with `NaN` or an infinite scale.
   */
  function SvgFit(attrs: map<string, string>, p: Params, f: NumberFormat): Option<(Context, map<string, string>)> {
    match Originals(attrs, p.height, f)
    case None => None
    case Some(o) =>
      if o.height == 0.0 then None
      else
        var r := Fit(o, p);
        Some((r.0, attrs["viewBox" := ViewBoxText(r.1, p.height, f)]))
  }

  // ---------------------------------------------------------------------
  // rect, line, circle, ellipse

  /**
   * One attribute of a shape: scaled if it is a size or a position, then
   * moved by the offset if it is a position. The move reads the text the
   * scaling wrote.
   */
  function ShapeValue(k: string, v: string, c: Context, f: NumberFormat): string {
    var scaled := if k in ScaleAttrs then Times(f, v, c.scale) else v;
    var moved := if k in DxAttrs then Plus(f, scaled, c.offsetX) else scaled;
    if k in DyAttrs then Plus(f, moved, c.offsetY) else moved
  }

  function ShapeAttrs(attrs: map<string, string>, c: Context, f: NumberFormat): map<string, string> {
    map k | k in attrs :: ShapeValue(k, attrs[k], c, f)
  }

  // ---------------------------------------------------------------------
  // polyline, polygon

  /** One `x,y` point: both coordinates scaled and moved; a missing `y` becomes `NaN`. */
  function RewritePoint(token: string, c: Context, f: NumberFormat): string {
    var pair := SplitOn(token, ',');
    var x := Affine(f, pair[0], c.scale, c.offsetX);
    var y := if |pair| > 1 then Affine(f, pair[1], c.scale, c.offsetY) else NaNText;
    Join([x, y] + (if |pair| > 2 then pair[2..] else []), ",")
  }

  /** `points.trim().split(/\s+/).map(RewritePoint).join(" ")`. */
  function RewritePoints(points: string, c: Context, f: NumberFormat): string {
    var tokens := SplitWs(Trim(points));
    Join(seq(|tokens|, i requires 0 <= i < |tokens| => RewritePoint(tokens[i], c, f)), " ")
  }

  /** The points `x,y` of two coordinate lists. */
  function Pairs(xs: seq<string>, ys: seq<string>): seq<string>
    requires |xs| == |ys|
  {
    seq(|xs|, i requires 0 <= i < |xs| => xs[i] + "," + ys[i])
  }

  /** The text of a list of points, `x,y` pairs separated by single spaces. */
  function PointsText(xs: seq<string>, ys: seq<string>): string
    requires |xs| == |ys|
  {
    Join(Pairs(xs, ys), " ")
  }

  // ---------------------------------------------------------------------
  // transform

  function PieceText(piece: TransformPiece): string {
    match piece
    case Verbatim(t) => t
    case Translation(prefix, tx, sep, ty) => prefix + tx + sep + ty + ")"
  }

  function RenderPieces(pieces: seq<TransformPiece>): string {
    if pieces == [] then "" else PieceText(pieces[0]) + RenderPieces(pieces[1..])
  }

  /** The replacement callback: both translation numbers multiplied by the scale. */
  function ScalePiece(piece: TransformPiece, scale: real, f: NumberFormat): TransformPiece {
    match piece
    case Verbatim(_) => piece
    case Translation(prefix, tx, sep, ty) => Translation(prefix, Times(f, tx, scale), sep, Times(f, ty, scale))
  }

  function ScalePieces(pieces: seq<TransformPiece>, scale: real, f: NumberFormat): seq<TransformPiece> {
    seq(|pieces|, i requires 0 <= i < |pieces| => ScalePiece(pieces[i], scale, f))
  }

  /** The `transform` step, which every element goes through after its own case. */
  function RewriteTransform(attrs: map<string, string>, c: Context, rt: Runtime): map<string, string> {
    if Truthy(attrs, "transform") then
      attrs["transform" := RenderPieces(ScalePieces(rt.transformPieces(attrs["transform"]), c.scale, rt.fmt))]
    else attrs
  }

  // ---------------------------------------------------------------------
  // one visit

  /**
   * The element's own case: `None` where the source would compute with a
   * non-finite number or the path library would throw.
   */
  function Geometry(c: Context, name: string, attrs: map<string, string>, p: Params, rt: Runtime)
    : Option<(Context, map<string, string>)>
  {
    if name == "svg" || name == "symbol" then SvgFit(attrs, p, rt.fmt)
    else if name == "path" then
      if "d" !in attrs then None
      else match rt.pathData(attrs["d"], c)
        case None => None
        case Some(d) => Some((c, attrs["d" := d]))
    else if name in ShapeNames then Some((c, ShapeAttrs(attrs, c, rt.fmt)))
    else if name == "polyline" || name == "polygon" then
      var points := if "points" in attrs then attrs["points"] else "";
      Some((c, attrs["points" := RewritePoints(points, c, rt.fmt)]))
    else Some((c, attrs))
  }

  /** The context and attributes after the pass visits an element. */
  function Step(c: Context, name: string, attrs: map<string, string>, p: Params, rt: Runtime)
    : Option<(Context, map<string, string>)>
  {
    match Geometry(c, name, attrs, p, rt)
    case None => None
    case Some(r) => Some((r.0, RewriteTransform(r.1, r.0, rt)))
  }

  /** The pass object returned by `translate(...)`, holding its context. */
  class TranslatePass {
    const params: Params
    const runtime: Runtime
    var scale: real
    var offsetX: real
    var offsetY: real

    function Current(): Context
      reads this
    {
      Context(scale, offsetX, offsetY)
    }

    constructor (height: real, minWidth: real, offsetY: real, offsetX: real, runtime: Runtime)
      ensures params == Params(height, minWidth, offsetY, offsetX) && this.runtime == runtime
      ensures Current() == Context(1.0, 0.0, 0.0)
    {
      params := Params(height, minWidth, offsetY, offsetX);
      this.runtime := runtime;
      scale := 1.0;
      this.offsetX := 0.0;
      this.offsetY := 0.0;
    }

    /**
     * The per-node callback. `ok` is false, and nothing has changed, where
     * the source would compute with a non-finite number or throw.
     */
    method Visit(node: XNode) returns (ok: bool)
      modifies this, node`attributes
      ensures node.value == old(node.value) && node.children == old(node.children)
      ensures node.kind != Element ==>
        ok && node.attributes == old(node.attributes) && Current() == old(Current())
      ensures node.kind == Element ==>
        var r := Step(old(Current()), node.name, old(node.attributes), params, runtime);
        ok == r.Some? && (ok ==> Current() == r.value.0 && node.attributes == r.value.1)
      ensures !ok ==> node.attributes == old(node.attributes) && Current() == old(Current())
    {
      ok := true;
      if node.kind != Element {
        return;
      }
      var name := node.name;
      if name == "svg" || name == "symbol" {
        ok := FitViewBox(node);
        if !ok {
          return;
        }
      } else if name == "path" {
        if "d" !in node.attributes {
          ok := false;
          return;
        }
        var d := runtime.pathData(node.attributes["d"], Current());
        if d.None? {
          ok := false;
          return;
        }
        node.attributes := node.attributes["d" := d.value];
      } else if name in ShapeNames {
        ScaleShape(node);
      } else if name == "polyline" || name == "polygon" {
        var points := if "points" in node.attributes then node.attributes["points"] else "";
        node.attributes := node.attributes["points" := RewritePoints(points, Current(), runtime.fmt)];
      }
      if Truthy(node.attributes, "transform") {
        var pieces := runtime.transformPieces(node.attributes["transform"]);
        node.attributes := node.attributes["transform" := RenderPieces(ScalePieces(pieces, scale, runtime.fmt))];
      }
    }

    /** The `svg`/`symbol` case: set the context, write the new viewBox. */
    method FitViewBox(node: XNode) returns (ok: bool)
      modifies this, node`attributes
      ensures node.value == old(node.value) && node.children == old(node.children)
      ensures var r := SvgFit(old(node.attributes), params, runtime.fmt);
        ok == r.Some? && (ok ==> Current() == r.value.0 && node.attributes == r.value.1)
      ensures !ok ==> node.attributes == old(node.attributes) && Current() == old(Current())
    {
      var fmt := runtime.fmt;
      var attrs := node.attributes;
      var originalX, originalY, originalWidth, originalHeight := 0.0, 0.0, 0.0, 0.0;
      if Truthy(attrs, "viewBox") {
        var parts := SplitWs(attrs["viewBox"]);
        var x, y, w, h := Field(parts, 0, fmt), Field(parts, 1, fmt), Field(parts, 2, fmt), Field(parts, 3, fmt);
        if !(x.Some? && y.Some? && w.Some? && h.Some?) {
          return false;
        }
        originalX, originalY, originalWidth, originalHeight := x.value, y.value, w.value, h.value;
      } else {
        originalWidth := SizeOr(attrs, "width", params.height, fmt);
        originalHeight := SizeOr(attrs, "height", params.height, fmt);
      }
      if originalHeight == 0.0 {
        return false;
      }
      ghost var o := Box(originalX, originalY, originalWidth, originalHeight);
      assert Originals(attrs, params.height, fmt) == Some(o);
      offsetX := -originalX + params.offsetX;
      offsetY := -originalY + params.offsetY;
      scale := params.height / originalHeight;
      var width := ScaledWidth(originalWidth, scale);
      if width < params.minWidth {
        offsetX := offsetX + (params.minWidth - width) / 2.0;
        width := params.minWidth;
      } else {
        width := ScaledWidth(originalWidth, scale);
      }
      node.attributes := attrs["viewBox" := ViewBoxText(width, params.height, fmt)];
      ok := true;
    }

    /** The shape case: each attribute of the node, in turn, scaled and moved. */
    method ScaleShape(node: XNode)
      modifies node`attributes
      ensures node.value == old(node.value) && node.children == old(node.children)
      ensures node.attributes == ShapeAttrs(old(node.attributes), Current(), runtime.fmt)
    {
      var fmt := runtime.fmt;
      ghost var original := node.attributes;
      var pending := node.attributes.Keys;
      while pending != {}
        invariant pending <= original.Keys == node.attributes.Keys
        invariant forall k :: k in original ==>
          node.attributes[k] == if k in pending then original[k] else ShapeValue(k, original[k], Current(), fmt)
        decreases pending
      {
        var attrKey :| attrKey in pending;
        var value := node.attributes[attrKey];
        if attrKey in ScaleAttrs {
          value := Times(fmt, value, scale);
        }
        if attrKey in DxAttrs {
          value := Plus(fmt, value, offsetX);
        }
        if attrKey in DyAttrs {
          value := Plus(fmt, value, offsetY);
        }
        node.attributes := node.attributes[attrKey := value];
        pending := pending - {attrKey};
      }
      assert node.attributes == ShapeAttrs(original, Current(), fmt);
    }
  }
}
