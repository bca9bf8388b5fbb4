/**
 * `trigo`: every input icon is optimised on its own, the viewBox the passes
 * report is captured, and the output template is filled in for it; the
 * outputs keep the order of the inputs.
 */
module Trigo {
  import opened Wrappers
  import opened SvgOptimizor
  import opened Template

  /** One icon file: where it came from and its markup. */
  datatype Input = Input(path: string, content: string)

  /** The template used when none is given. */
  const DefaultTemplate: string := "$svg"

  /**
   * What the `getViewBox` callback leaves in `viewBox` after being called
   * with each value in turn: the last value, or nothing when it was never
   * called.
   */
  function LastReported(reported: seq<string>): (r: Option<string>)
    ensures reported == [] <==> r.None?
    ensures reported != [] ==> r == Some(reported[|reported| - 1])
  {
    if reported == [] then None else Some(reported[|reported| - 1])
  }

  /** The output for one icon. */
  function Formatted(input: Input, tpl: string, o: Options, engine: Engine, env: Env): string {
    var svg := engine(input.content, PluginsFor(o));
    FormatTPL(tpl, Fields(svg.data, input.path, LastReported(svg.reported), o.removeRoot), env)
  }

  /** The outputs for all icons, in order. */
  function FormattedAll(inputs: seq<Input>, tpl: string, o: Options, engine: Engine, env: Env): (r: seq<string>)
    ensures |r| == |inputs|
    ensures forall i :: 0 <= i < |inputs| ==> r[i] == Formatted(inputs[i], tpl, o, engine, env)
  {
    seq(|inputs|, i requires 0 <= i < |inputs| => Formatted(inputs[i], tpl, o, engine, env))
  }

  /**
   * `trigo(inputs, tpl, options)`: each input is formatted in turn and its
   * output pushed. `tpl` is `None` when the caller leaves it out.
   */
  method Trigo(inputs: seq<Input>, tpl: Option<string>, o: Options, engine: Engine, env: Env)
    returns (result: seq<string>)
    ensures result == FormattedAll(inputs, tpl.GetOr(DefaultTemplate), o, engine, env)
  {
    var template := tpl.GetOr(DefaultTemplate);
    result := [];
    for j := 0 to |inputs|
      invariant result == FormattedAll(inputs[..j], template, o, engine, env)
    {
      var output := FormatOne(inputs[j], template, o, engine, env);
      result := result + [output];
      assert inputs[..j + 1] == inputs[..j] + [inputs[j]];
    }
    assert inputs[..|inputs|] == inputs;
  }

  /**
   * The body of `trigo`'s loop for one input: a fresh `viewBox`, the
   * optimiser run with `getViewBox` storing into it, then the template
   * filled in.
   */
  method FormatOne(input: Input, template: string, o: Options, engine: Engine, env: Env) returns (output: string)
    ensures output == Formatted(input, template, o, engine, env)
  {
    var viewBox: Option<string> := None;
    var svg := OptimizeSvg(input.content, Some(o), engine);
    for k := 0 to |svg.reported|
      invariant viewBox == LastReported(svg.reported[..k])
    {
      viewBox := Some(svg.reported[k]);
    }
    assert svg.reported[..|svg.reported|] == svg.reported;
    output := FormatTPL(template, Fields(svg.data, input.path, viewBox, o.removeRoot), env);
  }

  /** Icons are handled one by one: the outputs of two lists are the outputs of their concatenation. */
  lemma FormattedAllAppend(a: seq<Input>, b: seq<Input>, tpl: string, o: Options, engine: Engine, env: Env)
    ensures FormattedAll(a + b, tpl, o, engine, env) == FormattedAll(a, tpl, o, engine, env) + FormattedAll(b, tpl, o, engine, env)
  {
    var lhs := FormattedAll(a + b, tpl, o, engine, env);
    var rhs := FormattedAll(a, tpl, o, engine, env) + FormattedAll(b, tpl, o, engine, env);
    forall i | 0 <= i < |lhs| ensures lhs[i] == rhs[i] {
      if i >= |a| {
        assert (a + b)[i] == b[i - |a|];
      }
    }
  }

  /** With the default template each output is the optimised markup itself. */
  lemma DefaultTemplateGivesMarkup(input: Input, o: Options, engine: Engine, env: Env)
    ensures Formatted(input, DefaultTemplate, o, engine, env) == engine(input.content, PluginsFor(o)).data
  {
    var svg := engine(input.content, PluginsFor(o));
    var fields := Fields(svg.data, input.path, LastReported(svg.reported), o.removeRoot);
    var callback := token => Substitute(token, fields, env);
    TokenThenRest("svg", [], callback);
    assert "$" + "svg" + [] == DefaultTemplate;
    assert ReplaceTokens([], callback) == [];
  }
}
