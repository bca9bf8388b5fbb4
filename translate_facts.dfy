/**
 * What the `translate` pass guarantees, stated over the value-level steps
 * of module `Translate` (which the pass object's methods are proved to
 * follow): the viewBox it writes reads back as the box it means, a second
 * pass over its output keeps that viewBox, shapes and point lists land at
 * `coordinate * scale + offset`, and only an `svg` or `symbol` element
 * changes the context the later elements are moved with.
 */
module TranslateFacts {
  import opened Wrappers
  import opened Text
  import opened Numbers
  import opened Translate

  // ---------------------------------------------------------------------
  // the viewBox

  /** The viewBox the pass writes reads back, field by field, as `0 0 width height`. */
  lemma {:induction false} ViewBoxRoundTrip(attrs: map<string, string>, width: real, height: real, fallback: real, f: NumberFormat)
    requires ValidFormat(f) && ReadsBack(f, width) && ReadsBack(f, height)
    requires "viewBox" in attrs && attrs["viewBox"] == ViewBoxText(width, height, f)
    ensures Originals(attrs, fallback, f) == Some(Box(0.0, 0.0, width, height))
  {
    var ts := [f.show(0.0), f.show(0.0), f.show(width), f.show(height)];
    SplitWsJoin(ts);
    JoinFirst(ts, " ");
    assert SplitWs(attrs["viewBox"]) == ts;
  }

  /** A scaled width has at most four decimals. */
  lemma ScaledWidthRounded(width: real, scale: real)
    ensures Round4(ScaledWidth(width, scale)) == ScaledWidth(width, scale)
  {
    Round4Idempotent(width * scale);
  }

  /**
   * A box `0 0 width height` whose width is already rounded and at least
   * `minWidth` is fitted to itself, with scale 1.
   */
  lemma FitFitted(width: real, p: Params)
    requires p.height != 0.0 && Round4(width) == width && width >= p.minWidth
    ensures Fit(Box(0.0, 0.0, width, p.height), p) == (Context(1.0, p.offsetX, p.offsetY), width)
  {
    assert p.height / p.height == 1.0;
    assert width * 1.0 == width;
    assert ScaledWidth(width, 1.0) == width;
  }

  /**
   * Running the pass again over an `svg` it has already fitted keeps the
   * viewBox and starts the drawing at the offsets with scale 1, when the
   * target height is not zero, `minWidth` has at most four decimals and the
   * two sizes written into the viewBox read back.
   */
  lemma SvgFitAgain(attrs: map<string, string>, p: Params, f: NumberFormat)
    requires ValidFormat(f)
    requires p.height != 0.0 && Round4(p.minWidth) == p.minWidth
    requires SvgFit(attrs, p, f).Some?
    requires ReadsBack(f, p.height) && ReadsBack(f, Fit(Originals(attrs, p.height, f).value, p).1)
    ensures var fitted := SvgFit(attrs, p, f).value.1;
      SvgFit(fitted, p, f) == Some((Context(1.0, p.offsetX, p.offsetY), fitted))
  {
    var o := Originals(attrs, p.height, f).value;
    var r := Fit(o, p);
    var fitted := attrs["viewBox" := ViewBoxText(r.1, p.height, f)];
    assert SvgFit(attrs, p, f).value.1 == fitted;
    ViewBoxRoundTrip(fitted, r.1, p.height, p.height, f);
    assert Round4(r.1) == r.1 by {
      if r.1 != p.minWidth {
        ScaledWidthRounded(o.width, r.0.scale);
      }
    }
    FitFitted(r.1, p);
    assert fitted["viewBox" := ViewBoxText(r.1, p.height, f)] == fitted;
  }

  // ---------------------------------------------------------------------
  // rect, line, circle, ellipse

  /**
   * Every attribute of a shape is kept; a position reads back as
   * `coordinate * scale + offset` along its axis, a size as
   * `size * scale`, and any other attribute is untouched. A number reads
   * back when the runtime reads back the numbers printed on the way: the
   * scaled one and, for a position, the moved one.
   */
  lemma ShapeCoordinates(attrs: map<string, string>, c: Context, f: NumberFormat, k: string)
    requires ValidFormat(f)
    requires k in attrs
    ensures k in ShapeAttrs(attrs, c, f)
    ensures var v, w := attrs[k], ShapeAttrs(attrs, c, f)[k];
      var x := f.toNumber(v);
      && (k in DxAttrs && ReadsBackNum(f, AffineNum(x, c.scale, 0.0)) && ReadsBackNum(f, AffineNum(x, c.scale, c.offsetX)) ==>
            f.toNumber(w) == AffineNum(x, c.scale, c.offsetX))
      && (k in DyAttrs && ReadsBackNum(f, AffineNum(x, c.scale, 0.0)) && ReadsBackNum(f, AffineNum(x, c.scale, c.offsetY)) ==>
            f.toNumber(w) == AffineNum(x, c.scale, c.offsetY))
      && (k in ScaleAttrs && k !in DxAttrs && k !in DyAttrs && ReadsBackNum(f, AffineNum(x, c.scale, 0.0)) ==>
            f.toNumber(w) == AffineNum(x, c.scale, 0.0))
      && (k !in ScaleAttrs ==> w == v)
  {
    var v := attrs[k];
    var x := f.toNumber(v);
    var scaled := Times(f, v, c.scale);
    assert forall a :: a in DxAttrs || a in DyAttrs ==> a in ScaleAttrs;
    assert forall a :: a in DxAttrs ==> a !in DyAttrs;
    if ReadsBackNum(f, AffineNum(x, c.scale, 0.0)) {
      assert f.toNumber(scaled) == AffineNum(x, c.scale, 0.0);
      AffineThenMove(x, c.scale, c.offsetX);
      AffineThenMove(x, c.scale, c.offsetY);
      if k in DxAttrs && ReadsBackNum(f, AffineNum(x, c.scale, c.offsetX)) {
        assert ShapeAttrs(attrs, c, f)[k] == Plus(f, scaled, c.offsetX);
      }
      if k in DyAttrs && ReadsBackNum(f, AffineNum(x, c.scale, c.offsetY)) {
        assert ShapeAttrs(attrs, c, f)[k] == Plus(f, scaled, c.offsetY);
      }
    }
  }

  /** A shape's attribute names are the ones it had. */
  lemma ShapeKeys(attrs: map<string, string>, c: Context, f: NumberFormat)
    ensures ShapeAttrs(attrs, c, f).Keys == attrs.Keys
  {
  }

  // ---------------------------------------------------------------------
  // polyline, polygon

  /** One coordinate in a `points` list: a non-empty run without whitespace or commas. */
  predicate Coordinate(s: string) {
    s != [] && WsFree(s) && ',' !in s
  }

  /** A number the pass prints, `NaN` included, is a coordinate again. */
  lemma AffineCoordinate(f: NumberFormat, v: string, a: real, b: real)
    requires ValidFormat(f)
    ensures Coordinate(Affine(f, v, a, b))
  {
  }

  function MapAffine(vs: seq<string>, a: real, b: real, f: NumberFormat): (r: seq<string>)
    ensures |r| == |vs|
  {
    seq(|vs|, i requires 0 <= i < |vs| => Affine(f, vs[i], a, b))
  }

  lemma PairWsFree(x: string, y: string)
    requires Coordinate(x) && Coordinate(y)
    ensures x + "," + y != [] && WsFree(x + "," + y)
    ensures !IsWhitespace((x + "," + y)[0]) && !IsWhitespace((x + "," + y)[|x + "," + y| - 1])
  {
    var s := x + "," + y;
    forall i | 0 <= i < |s| ensures !IsWhitespace(s[i]) {
      if i < |x| {
        assert s[i] == x[i];
      } else if i > |x| {
        assert s[i] == y[i - |x| - 1];
      }
    }
  }

  /** The point `x,y` is rewritten to its two moved coordinates. */
  lemma RewritePair(x: string, y: string, c: Context, f: NumberFormat)
    requires Coordinate(x) && Coordinate(y)
    ensures RewritePoint(x + "," + y, c, f) == Affine(f, x, c.scale, c.offsetX) + "," + Affine(f, y, c.scale, c.offsetY)
  {
    JoinPair(x, y, ",");
    SplitOnJoin([x, y], ',');
    var x2, y2 := Affine(f, x, c.scale, c.offsetX), Affine(f, y, c.scale, c.offsetY);
    assert [x2, y2] + [] == [x2, y2];
    JoinPair(x2, y2, ",");
  }

  /**
   * A point list `x1,y1 x2,y2 ...` written with any whitespace around and
   * between its points is rewritten point by point: the same number of
   * points in the same order, each coordinate moved along its axis, and
   * the points rejoined with single spaces.
   */
  lemma {:induction false} PointsRewritten(xs: seq<string>, ys: seq<string>, lead: string, runs: seq<string>, trail: string,
                                           c: Context, f: NumberFormat)
    requires ValidFormat(f)
    requires |xs| == |ys| >= 1 && |runs| == |xs| - 1
    requires forall i :: 0 <= i < |xs| ==> Coordinate(xs[i]) && Coordinate(ys[i])
    requires AllWs(lead) && AllWs(trail) && forall i :: 0 <= i < |runs| ==> IsWsRun(runs[i])
    ensures var xs2, ys2 := MapAffine(xs, c.scale, c.offsetX, f), MapAffine(ys, c.scale, c.offsetY, f);
      && RewritePoints(lead + Interleave(Pairs(xs, ys), runs) + trail, c, f) == PointsText(xs2, ys2)
      && forall i :: 0 <= i < |xs| ==> Coordinate(xs2[i]) && Coordinate(ys2[i])
  {
    var tokens := Pairs(xs, ys);
    var body := Interleave(tokens, runs);
    forall i | 0 <= i < |tokens| ensures tokens[i] != [] && WsFree(tokens[i]) {
      PairWsFree(xs[i], ys[i]);
    }
    PairWsFree(xs[0], ys[0]);
    PairWsFree(xs[|xs| - 1], ys[|xs| - 1]);
    InterleaveFirst(tokens, runs);
    InterleaveLast(tokens, runs);
    TrimPadded(lead, body, trail);
    SplitWsInterleave(tokens, runs);
    var xs2, ys2 := MapAffine(xs, c.scale, c.offsetX, f), MapAffine(ys, c.scale, c.offsetY, f);
    var out := seq(|tokens|, i requires 0 <= i < |tokens| => RewritePoint(tokens[i], c, f));
    forall i | 0 <= i < |tokens| ensures out[i] == xs2[i] + "," + ys2[i] {
      RewritePair(xs[i], ys[i], c, f);
    }
    assert out == Pairs(xs2, ys2);
    forall i | 0 <= i < |xs| ensures Coordinate(xs2[i]) && Coordinate(ys2[i]) {
      AffineCoordinate(f, xs[i], c.scale, c.offsetX);
      AffineCoordinate(f, ys[i], c.scale, c.offsetY);
    }
  }


  // ---------------------------------------------------------------------
  // transform

  /** `t` reads as a number, and is exactly the text the runtime prints for it. */
  ghost predicate Canonical(t: string, f: NumberFormat) {
    f.toNumber(t).Some? && f.show(f.toNumber(t).value) == t
  }

  /** Every translation in the pieces has its numbers printed the way the runtime prints them. */
  ghost predicate CanonicalPieces(pieces: seq<TransformPiece>, f: NumberFormat) {
    forall i :: 0 <= i < |pieces| && pieces[i].Translation? ==> Canonical(pieces[i].tx, f) && Canonical(pieces[i].ty, f)
  }

  /** At scale 1 every piece is rendered as it was, when its translation numbers are canonical. */
  lemma {:induction false} ScalePiecesAtUnitScale(pieces: seq<TransformPiece>, f: NumberFormat)
    requires CanonicalPieces(pieces, f)
    ensures RenderPieces(ScalePieces(pieces, 1.0, f)) == RenderPieces(pieces)
  {
    if pieces != [] {
      var scaled := ScalePieces(pieces, 1.0, f);
      assert scaled[1..] == ScalePieces(pieces[1..], 1.0, f);
      if pieces[0].Translation? {
        var x, y := f.toNumber(pieces[0].tx).value, f.toNumber(pieces[0].ty).value;
        assert x * 1.0 + 0.0 == x && y * 1.0 + 0.0 == y;
      }
      assert scaled[0] == pieces[0];
      assert CanonicalPieces(pieces[1..], f) by {
        forall i | 0 <= i < |pieces[1..]| && pieces[1..][i].Translation?
          ensures Canonical(pieces[1..][i].tx, f) && Canonical(pieces[1..][i].ty, f)
        {
          assert pieces[1..][i] == pieces[i + 1];
        }
      }
      ScalePiecesAtUnitScale(pieces[1..], f);
    }
  }

  /**
   * With scale 1 the `transform` step gives the attributes back unchanged,
   * when cutting the `transform` value into pieces loses nothing and its
   * translation numbers are printed as the runtime prints them.
   */
  lemma TransformAtUnitScale(attrs: map<string, string>, c: Context, rt: Runtime)
    requires c.scale == 1.0
    requires Truthy(attrs, "transform") ==>
      var pieces := rt.transformPieces(attrs["transform"]);
      RenderPieces(pieces) == attrs["transform"] && CanonicalPieces(pieces, rt.fmt)
    ensures RewriteTransform(attrs, c, rt) == attrs
  {
    if Truthy(attrs, "transform") {
      ScalePiecesAtUnitScale(rt.transformPieces(attrs["transform"]), rt.fmt);
    }
  }

  /**
   * Pieces without a translation are left as they were: only translation
   * numbers are ever rewritten.
   */
  lemma ScalePiecesKeepsText(pieces: seq<TransformPiece>, scale: real, f: NumberFormat)
    ensures |ScalePieces(pieces, scale, f)| == |pieces|
    ensures forall i :: 0 <= i < |pieces| ==>
      var q := ScalePieces(pieces, scale, f)[i];
      && (pieces[i].Verbatim? ==> q == pieces[i])
      && (pieces[i].Translation? ==> q.Translation? && q.prefix == pieces[i].prefix && q.sep == pieces[i].sep)
      && (pieces[i].Translation? && ValidFormat(f) && ReadsBackNum(f, AffineNum(f.toNumber(pieces[i].tx), scale, 0.0)) ==>
            f.toNumber(q.tx) == AffineNum(f.toNumber(pieces[i].tx), scale, 0.0))
      && (pieces[i].Translation? && ValidFormat(f) && ReadsBackNum(f, AffineNum(f.toNumber(pieces[i].ty), scale, 0.0)) ==>
            f.toNumber(q.ty) == AffineNum(f.toNumber(pieces[i].ty), scale, 0.0))
  {
  }

  // ---------------------------------------------------------------------
  // the context across a document

  /**
   * The context after visiting elements in document order; `None` when a
   * visit fails.
   */
  function Visits(c: Context, elems: seq<(string, map<string, string>)>, p: Params, rt: Runtime): Option<Context>
    decreases |elems|
  {
    if elems == [] then Some(c)
    else match Step(c, elems[0].0, elems[0].1, p, rt)
      case None => None
      case Some(r) => Visits(r.0, elems[1..], p, rt)
  }

  predicate Sets(name: string) {
    name == "svg" || name == "symbol"
  }

  /** Only `svg` and `symbol` elements change the context. */
  lemma StepKeepsContext(c: Context, name: string, attrs: map<string, string>, p: Params, rt: Runtime)
    requires !Sets(name)
    requires Step(c, name, attrs, p, rt).Some?
    ensures Step(c, name, attrs, p, rt).value.0 == c
  {
  }

  /** Elements other than `svg` and `symbol` all see the same context. */
  lemma {:induction false} ContextKeptWithoutSvg(c: Context, elems: seq<(string, map<string, string>)>, p: Params, rt: Runtime)
    requires forall i :: 0 <= i < |elems| ==> !Sets(elems[i].0)
    requires Visits(c, elems, p, rt).Some?
    ensures Visits(c, elems, p, rt) == Some(c)
  {
    if elems != [] {
      StepKeepsContext(c, elems[0].0, elems[0].1, p, rt);
      ContextKeptWithoutSvg(c, elems[1..], p, rt);
    }
  }

  /**
   * After an `svg` (or `symbol`) element, the elements up to the next one
   * are moved with the context that element's viewBox set.
   */
  lemma ContextFromLastSvg(c: Context, svg: (string, map<string, string>), rest: seq<(string, map<string, string>)>,
                           p: Params, rt: Runtime)
    requires Sets(svg.0)
    requires forall i :: 0 <= i < |rest| ==> !Sets(rest[i].0)
    requires Visits(c, [svg] + rest, p, rt).Some?
    ensures SvgFit(svg.1, p, rt.fmt).Some?
    ensures Visits(c, [svg] + rest, p, rt) == Some(SvgFit(svg.1, p, rt.fmt).value.0)
  {
    assert ([svg] + rest)[1..] == rest;
    ContextKeptWithoutSvg(SvgFit(svg.1, p, rt.fmt).value.0, rest, p, rt);
  }
}
