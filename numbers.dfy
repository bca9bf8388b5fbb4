/**
 * Numbers as the passes see them. JavaScript numbers become `real`; the
 * conversions between a number and its text belong to the JavaScript
 * runtime and are parameters here, with what they are expected to keep
 * stated by `ValidFormat` and `ReadsBack`. A `None` number is JavaScript's `NaN`.
 */
module Numbers {
  import opened Wrappers
  import opened Text

  /**
   * `show` is `Number.prototype.toString`, `toNumber` is unary `+` (the
   * conversion `*` also applies to a string) and `parseFloat` is the global
   * `parseFloat`, which reads the longest numeric prefix.
   */
  datatype NumberFormat = NumberFormat(
    show: real -> string,
    toNumber: string -> Option<real>,
    parseFloat: string -> Option<real>)

  const NaNText: string := "NaN"

  /**
   * What the model expects of the runtime for every number: a printed
   * number is a non-empty word without whitespace or commas; zero prints as
   * `0` and reads back as zero; `NaN` reads as `NaN`.
   */
  ghost predicate ValidFormat(f: NumberFormat) {
    && (forall x :: f.show(x) != [] && WsFree(f.show(x)) && ',' !in f.show(x))
    && f.show(0.0) == "0"
    && ReadsBack(f, 0.0)
    && f.toNumber(NaNText) == None
  }

  /**
   * The text printed for `x` reads back as `x`, both with unary `+` and with
   * `parseFloat`. A runtime keeps this for the numbers it can print exactly,
   * which is why it is asked of the values at hand and not of every real.
   */
  ghost predicate ReadsBack(f: NumberFormat, x: real) {
    f.toNumber(f.show(x)) == Some(x) && f.parseFloat(f.show(x)) == Some(x)
  }

  /** `ReadsBack` for a JavaScript number; `NaN` needs nothing. */
  ghost predicate ReadsBackNum(f: NumberFormat, n: Option<real>) {
    n.Some? ==> ReadsBack(f, n.value)
  }

  /** A runtime meeting `ValidFormat` exists: every number printed as `0`. */
  lemma ValidFormatSatisfiable()
    ensures exists f :: ValidFormat(f)
  {
    var f := NumberFormat(x => "0", s => if s == "0" then Some(0.0) else None, s => if s == "0" then Some(0.0) else None);
    assert "0" != NaNText;
    assert ValidFormat(f);
  }

  /** The text JavaScript gives a number, `NaN` included. */
  function Show(f: NumberFormat, n: Option<real>): string {
    match n
    case Some(x) => f.show(x)
    case None => NaNText
  }

  /** `n * a + b` on a JavaScript number: `NaN` stays `NaN`. */
  function AffineNum(n: Option<real>, a: real, b: real): Option<real> {
    match n
    case Some(x) => Some(x * a + b)
    case None => None
  }

  /**
   * `(+v * a + b).toString()`: the text `v` read as a number, scaled by `a`
   * and moved by `b`, printed again; text that is not a number prints `NaN`.
   * The result reads back as that number whenever the runtime reads the
   * number it printed back exactly.
   */
  function Affine(f: NumberFormat, v: string, a: real, b: real): (r: string)
    ensures ValidFormat(f) && ReadsBackNum(f, AffineNum(f.toNumber(v), a, b)) ==>
      f.toNumber(r) == AffineNum(f.toNumber(v), a, b)
    ensures ValidFormat(f) ==> r != [] && WsFree(r) && ',' !in r
  {
    Show(f, AffineNum(f.toNumber(v), a, b))
  }

  /** `(v * a).toString()`. */
  function Times(f: NumberFormat, v: string, a: real): (r: string)
    ensures ValidFormat(f) && ReadsBackNum(f, AffineNum(f.toNumber(v), a, 0.0)) ==>
      f.toNumber(r) == AffineNum(f.toNumber(v), a, 0.0)
  {
    Affine(f, v, a, 0.0)
  }

  /** `(+v + b).toString()`. */
  function Plus(f: NumberFormat, v: string, b: real): (r: string)
    ensures ValidFormat(f) && ReadsBackNum(f, AffineNum(f.toNumber(v), 1.0, b)) ==>
      f.toNumber(r) == AffineNum(f.toNumber(v), 1.0, b)
  {
    Affine(f, v, 1.0, b)
  }

  /**
   * `Math.round(x * 10000) / 10000`, with `Math.round(y)` being
   * `floor(y + 1/2)`: the nearest multiple of 1/10000, halves rounded up.
   */
  function Round4(x: real): (r: real)
    ensures (r * 10000.0).Floor as real == r * 10000.0
    ensures -1.0 / 20000.0 < r - x <= 1.0 / 20000.0
  {
    ((x * 10000.0 + 0.5).Floor as real) / 10000.0
  }

  /** A value already rounded to four decimals is kept by `Round4`. */
  lemma Round4Idempotent(x: real)
    ensures Round4(Round4(x)) == Round4(x)
  {
    var k := (x * 10000.0 + 0.5).Floor;
    assert Round4(x) * 10000.0 == k as real;
    assert (k as real + 0.5).Floor == k;
  }

  /** Scaling, then moving the scaled number, is one affine step. */
  lemma AffineThenMove(n: Option<real>, a: real, b: real)
    ensures AffineNum(AffineNum(n, a, 0.0), 1.0, b) == AffineNum(n, a, b)
  {
    if n.Some? {
      assert AffineNum(AffineNum(n, a, 0.0), 1.0, b).value == (n.value * a + 0.0) * 1.0 + b;
      assert AffineNum(n, a, b).value == n.value * a + b;
    }
  }
}
