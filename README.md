# trigo, modelled in Dafny

trigo turns a batch of SVG icon files into generated source text. It works in two steps:

1. Each icon is optimised by svgo. The list of passes handed to svgo comes from an options record. Some of those passes are written in this repository:
   - `keepTitle` turns a `title` attribute into a `<title>` child.
   - `removeColor` makes `#…` fills and strokes `currentColor`.
   - `translate` resizes and moves the drawing to a target height, a minimum width and two offsets.
   - The two `cleanRoot` variants either take the root `<svg>` away or give a `px`-sized root a viewBox.
2. An output template is filled in for each icon. Every `$word` token in the template is replaced: `$svg`, `$string`, `$path`, `$viewBox`, `$markdown` or `$name`.

The model keeps the shape of the source:
- A tree node is a class whose attributes and children are fields. Each pass is a method that changes one node in place.
- The `translate` pass is an object whose context (scale, offsetX, offsetY) is updated field by field. A traversal method calls it on every node of a document in svgo's order, each node before its children.
- The pass list is built by successive pushes.
- `trigo` is a loop. It pushes one output per input and keeps a fresh `viewBox` variable per input, which the `getViewBox` callback overwrites.
- Each method is proved against a function on values, and the lemmas state what the source promises about those functions.

The files:
- `wrappers.dfy`: an `Option` type.
- `text.dfy`: the JavaScript string operations the source uses. These are `split(/\s+/)`, `split(",")`, `join`, `trim`, a global literal `replace`, and `toUpperCase` on word characters.
- `numbers.dfy`: numbers as `real`. Number↔text conversion is a parameter, `NumberFormat`, with the properties a runtime keeps. It also defines `Math.round(x * 10000) / 10000`.
- `xast.dfy`: the svgo element tree.
- `translate.dfy`: the `translate` pass and its context.
- `translate_facts.dfy`: what the `translate` pass guarantees.
- `translate_tree.dfy`: the pre-order traversal that runs the `translate` pass over a document.
- `svgoptimizor.dfy`: `optimizeSVG`'s pass list and the inline passes.
- `template.dfy`: `formatTPL`, as written, and a corrected variant of its `$string` case.
- `trigo.dfy`: `trigo`.

## Model

| member | source | states |
|---|---|---|
| Numbers.Affine | src/svgOptimizor.ts:265-266 | `+v * a + b` is printed as a coordinate: non-empty, without whitespace or commas; it reads back as the number `v` stands for, times `a` plus `b`, wherever the runtime reads that number back; `NaN` stays `NaN` |
| Numbers.Times | src/svgOptimizor.ts:249 | `(v * scale).toString()` reads back as `v` times the scale wherever the runtime reads that number back |
| Numbers.Plus | src/svgOptimizor.ts:252 | `(+v + offset).toString()` reads back as `v` plus the offset wherever the runtime reads that number back |
| Numbers.Round4 | src/svgOptimizor.ts:216 | `Math.round(x * 10000) / 10000` is a whole number of ten-thousandths within half a ten-thousandth of `x`, halves rounded up: the nearest multiple of 1/10000 |
| Numbers.Round4Idempotent | src/svgOptimizor.ts:216 | rounding an already rounded width to four decimals keeps it |
| Numbers.AffineThenMove | src/svgOptimizor.ts:249-256 | scaling a coordinate and then adding an offset is one step `v * scale + offset` |
| Text.ToUpper | src/trigo.ts:41 | `a`..`z` become `A`..`Z` (code unit minus 32); a word character stays a word character and is not lower case; every other character is kept |
| Text.Trim | src/svgOptimizor.ts:261 | `trim()` is `s` without its leading and trailing whitespace: `s` is whitespace, then the result, then whitespace, and the result neither starts nor ends with whitespace |
| Text.SplitWsPieces | src/svgOptimizor.ts:204 | `split(/\s+/)` gives at least one piece and no piece holds whitespace |
| Text.WsRunsAreRuns | src/svgOptimizor.ts:204 | the separators `split(/\s+/)` cuts at are non-empty runs of whitespace |
| Text.SplitWsRebuild | src/svgOptimizor.ts:204 | the pieces of `split(/\s+/)` with the separators put back between them give the input back: there is one separator fewer than pieces |
| Text.SplitOn | src/svgOptimizor.ts:264 | `split(",")` gives at least one field, no field holds a comma, and joining the fields with a comma gives the input back |
| Text.SplitWsJoin | src/svgOptimizor.ts:262-269 | splitting on whitespace undoes joining non-empty whitespace-free pieces with one space |
| Text.SplitWsInterleave | src/svgOptimizor.ts:204 | splitting on whitespace undoes putting non-empty whitespace-free pieces together with any non-empty whitespace runs between them |
| Text.SplitOnJoin | src/svgOptimizor.ts:264-267 | splitting on a comma undoes joining comma-free fields with a comma |
| Text.TrimKeeps | src/svgOptimizor.ts:261 | a string that neither starts nor ends with whitespace is its own `trim()` |
| Text.TrimPadded | src/svgOptimizor.ts:261 | `trim()` removes exactly the whitespace padding around a text that neither starts nor ends with whitespace |
| Text.ReplaceAllWithoutMatch | src/trigo.ts:38 | a global replace of a text that does not occur changes nothing |
| Text.ReplaceAllFirst | src/trigo.ts:38 | a global replace replaces the first occurrence of the text and goes on scanning right after it: nothing before it, and no match overlapping it, is replaced |
| Text.ReplaceAllJoin | src/trigo.ts:38 | pieces joined by the text come out joined by the replacement, when no match of the text starts inside a piece |
| Text.NoMatchAcross | src/trigo.ts:38 | when the text's last character comes nowhere else in it but first, a match starting in a piece and running into the next occurrence would make the piece end with all of the text but its last character |
| Translate.Fit | src/svgOptimizor.ts:213-222 | scale times the original height is the target height; offsetY is `offsetY - originalY`; the width is at least `minWidth` and the scaled width; it is one of the two; the drawing is centred in the extra width |
| Translate.TranslatePass.constructor | src/svgOptimizor.ts:183-188 | the context starts at scale 1 and offsets 0, with the four arguments kept |
| Translate.TranslatePass.Visit | src/svgOptimizor.ts:192-277 | a node without attributes (not an element) is left alone, as the test at line 193 does; an element's new attributes and the new context are those `Step` gives; where `Step` fails (a viewBox field that is not a number, an original height of 0, a failing path library) nothing changes; the kind, name and children are kept |
| Translate.TranslatePass.FitViewBox | src/svgOptimizor.ts:197-229 | the context becomes what `Fit` gives for the original box and the viewBox becomes `0 0 width height`, as `SvgFit` states; nothing changes when a viewBox field is not a number or the original height is 0 |
| Translate.TranslatePass.ScaleShape | src/svgOptimizor.ts:244-257 | after the loop over the attributes, every attribute has the value `ShapeAttrs` gives it and no attribute is added or removed |
| TranslateFacts.ViewBoxRoundTrip | src/svgOptimizor.ts:203-228 | the viewBox the pass writes reads back through `Originals`, the pass's own viewBox reading, as the box `0 0 width height`, when the runtime reads those two numbers back |
| TranslateFacts.ScaledWidthRounded | src/svgOptimizor.ts:216 | a scaled width has at most four decimals |
| TranslateFacts.FitFitted | src/svgOptimizor.ts:213-222 | a box `0 0 w height` with `w` rounded and at least `minWidth` is fitted with scale 1 and the plain offsets, and keeps `w` |
| TranslateFacts.SvgFitAgain | src/svgOptimizor.ts:199-228 | `SvgFit` run again on its own output keeps the viewBox and gives scale 1 and the plain offsets, when the height is not 0, `minWidth` has at most four decimals, and the runtime reads back the two numbers written |
| TranslateFacts.ShapeCoordinates | src/svgOptimizor.ts:244-257 | for `ShapeAttrs` on rect/line/circle/ellipse, every attribute is kept; `x`-like positions read back as `v * scale + offsetX`, `y`-like as `v * scale + offsetY`, sizes as `v * scale`, wherever the runtime reads back the numbers printed on the way; any other attribute is unchanged |
| TranslateFacts.ShapeKeys | src/svgOptimizor.ts:247-257 | `ShapeAttrs` neither adds nor removes attribute names |
| TranslateFacts.AffineCoordinate | src/svgOptimizor.ts:265-267 | a printed coordinate, `NaN` included, is non-empty and free of whitespace and commas |
| TranslateFacts.RewritePair | src/svgOptimizor.ts:264-267 | `RewritePoint` turns the point `x,y` into `x',y'`, each coordinate scaled and moved along its own axis |
| TranslateFacts.PointsRewritten | src/svgOptimizor.ts:261-269 | a list of `x,y` points with any whitespace before, after and between them (runs of spaces, tabs, line breaks) is rewritten point by point: same count and order, each coordinate moved along its axis, the padding dropped and the points rejoined with single spaces |
| TranslateFacts.ScalePiecesAtUnitScale | src/svgOptimizor.ts:273-275 | at scale 1 every translation whose numbers are printed as the runtime prints them is rendered as it was |
| TranslateFacts.TransformAtUnitScale | src/svgOptimizor.ts:272-276 | at scale 1, `RewriteTransform` leaves the attributes unchanged, when the runtime's cut of the `transform` text renders back to that text and its translation numbers are printed as the runtime prints them |
| TranslateFacts.ScalePiecesKeepsText | src/svgOptimizor.ts:273-275 | text the `transform` regular expression does not match is kept; a translation keeps its prefix and separator, and both its `tx` and its `ty` read back as the old number times the scale, wherever the runtime reads those numbers back |
| TranslateFacts.StepKeepsContext | src/svgOptimizor.ts:230-276 | only an `svg` or `symbol` element changes the context that `Step` carries |
| TranslateFacts.ContextKeptWithoutSvg | src/svgOptimizor.ts:184-276 | a run of elements without `svg`/`symbol` leaves the context where it was |
| TranslateFacts.ContextFromLastSvg | src/svgOptimizor.ts:213-276 | the elements after an `svg`/`symbol`, up to the next one, are moved with the context that element's box set |
| TranslateTree.RunKeepsNames | src/svgOptimizor.ts:192-277 | a run of the pass over a list of elements rewrites attributes only: every element keeps its name, in order |
| TranslateTree.RunVisits | src/svgOptimizor.ts:184-277 | a run fails exactly where the context-only run `Visits` fails, and ends with the same context |
| TranslateTree.RunAppend | src/svgOptimizor.ts:184-277 | running over two lists in a row is running over their concatenation: the second starts from the context the first left |
| TranslateTree.NodeBeforeDescendants | src/svgOptimizor.ts:189-192 | in the order a per-item pass is called in, a node comes right before its descendants, and they come before its later siblings |
| TranslateTree.PreOrderReaches | src/svgOptimizor.ts:189-192 | the traversal reaches a node exactly when it is one of the starting nodes or a descendant of one within `depth` levels |
| TranslateTree.SvgBeforeDescendants | src/svgOptimizor.ts:197-229 | the visits after an `svg`/`symbol`, its descendants first, start from the context its own box set, whatever the elements before it left |
| TranslateTree.VisitAll | src/svgOptimizor.ts:189-278 | visiting a list of subtrees node by node, each node before its children, fails exactly where `Run` over the elements as they were fails; otherwise it ends with `Run`'s context and leaves each element with the attributes `Run` gives it |
| TranslateTree.VisitAfter | src/svgOptimizor.ts:189-278 | visiting further nodes after some have been visited is one `Run` over both |
| TranslateTree.VisitTree | src/svgOptimizor.ts:189-278 | a node and then its descendants are visited as `Run` over their pre-order |
| TranslateTree.VisitOne | src/svgOptimizor.ts:192-277 | one call of the pass is one step of `Run` |
| TranslateTree.TranslateDocument | src/svgOptimizor.ts:183-278 | a fresh pass, context at scale 1 and offset 0, run over every node under the root ends as `Run` over the document's elements says, or fails where it fails |
| SvgOptimizor.AssemblePlugins | src/svgOptimizor.ts:10-144 | the successive pushes build exactly `PluginsFor(o)` |
| SvgOptimizor.OptimizeSvg | src/svgOptimizor.ts:9-150 | svgo is run on the markup with the pass list the options give, or the default `{ min: true }` when they are left out |
| SvgOptimizor.DefaultPlugins | src/svgOptimizor.ts:9-144 | with the default options the list is the 31 `min` built-ins followed by the per-item cleanRoot |
| SvgOptimizor.PluginOrder | src/svgOptimizor.ts:10-144 | the list is ordered removeTitle, keepTitle, removeColor, translate, removeAttrs, the `min` built-ins, cleanRoot |
| SvgOptimizor.BackOrder | src/svgOptimizor.ts:61-144 | the `min` built-ins all sit at one stage and the cleanRoot pass after them |
| SvgOptimizor.PluginChoice | src/svgOptimizor.ts:11-117 | each pass is present exactly when its option asks for it; translate gets the four numbers and removeAttrs gets `removeAttrs` |
| SvgOptimizor.FlagChoice | src/svgOptimizor.ts:11-117 | the removeTitle built-in and the keepTitle pass are both present exactly when `removeTitle` is set; removeColor exactly when `removeColor` is set; the full cleanRoot exactly when `removeRoot` is set; the per-item cleanRoot exactly when `min` is set and `removeRoot` is not |
| SvgOptimizor.ParamChoice | src/svgOptimizor.ts:50-60 | translate is present exactly when one of its four numbers is non-zero, and gets those numbers; removeAttrs is present exactly when `removeAttrs` is truthy, and gets it |
| SvgOptimizor.InGroup | src/svgOptimizor.ts:10-144 | a pass is in the list exactly when it is in the group of its stage |
| SvgOptimizor.MinStage | src/svgOptimizor.ts:61-95 | the passes at the built-ins' stage are exactly the `min` list, in order |
| SvgOptimizor.MinPluginsNames | src/svgOptimizor.ts:61-95 | `min` adds a built-in exactly when its name is one of the 31 listed |
| SvgOptimizor.CleanRootsExclusive | src/svgOptimizor.ts:97-117 | the full and the per-item cleanRoot are never both in the list |
| SvgOptimizor.DropColor | src/svgOptimizor.ts:39-46 | a fill or stroke becomes `currentColor` exactly when its value starts with `#`; every other attribute and value is unchanged |
| SvgOptimizor.DropColorIdempotent | src/svgOptimizor.ts:39-46 | removing colours twice is removing them once |
| SvgOptimizor.RemoveColorPass | src/svgOptimizor.ts:38-47 | an element's attributes become `DropColor` of what they were; nothing else changes |
| SvgOptimizor.KeepTitlePass | src/svgOptimizor.ts:16-31 | an element with a truthy `title` gets one new last child `<title>` with one text child holding the value, loses the attribute and keeps its children in order; any other node is untouched |
| SvgOptimizor.CleanRootFullPass | src/svgOptimizor.ts:101-114 | a root whose only child is an `svg` takes that svg's children; the svg's viewBox is reported once when truthy; any other node is left alone and nothing is reported |
| SvgOptimizor.StripPx | src/svgOptimizor.ts:129-130 | `replace(/px$/, "")` on a value ending in `px` gives the value without that suffix |
| SvgOptimizor.CleanRootItemPass | src/svgOptimizor.ts:120-142 | a `px`-sized svg without a viewBox loses width and height and gets `0 0 w h`, which is reported; any other node is left alone and nothing is reported |
| SvgOptimizor.PxViewBoxRoundTrip | src/svgOptimizor.ts:129-139 | the viewBox written from the `px` sizes reads back as `0 0 w h`, when the runtime reads those two numbers back |
| Template.WordLength | src/trigo.ts:27 | the `\w+` run at the start of a string is maximal |
| Template.TokenLength | src/trigo.ts:27 | a `$\w+` match is `$` followed by word characters only, at least one, and is not followed by a word character |
| Template.ReplaceTokens | src/trigo.ts:27-44 | a template without `$` comes out unchanged |
| Template.FormatTPL | src/trigo.ts:26-45 | a template without `$` comes out unchanged; its tokens are characterised by TokenThenRest and ReplaceConcat |
| Template.Substitute | src/trigo.ts:28-43 | each of the six tokens gives its value: `$svg` the content, `$string` the as-written literal, `$path` the path, `$viewBox` the captured value or `undefined`, `$markdown` the image, `$name` the camel-cased name; any other token is returned as it is |
| Template.TokenThenRest | src/trigo.ts:27-44 | a token is replaced once by what the callback gives, and scanning carries on after it without scanning the replacement |
| Template.WordLengthAppend | src/trigo.ts:27 | a word followed by a non-word character is matched whole |
| Template.ReplaceConcat | src/trigo.ts:27-44 | a template cut where no token straddles the cut comes out as its two pieces' outputs |
| Template.TokenAcrossCut | src/trigo.ts:27 | a token at the start of the first piece ends inside it |
| Template.CharAcrossCut | src/trigo.ts:27 | a first piece that does not start with a token does not start one with what follows |
| Template.WordLengthPrefix | src/trigo.ts:27 | a word run ending inside a string is not lengthened by what follows it |
| Template.EscapeTicks | src/trigo.ts:32 | every backtick and `$` of the result comes right after a backslash, and removing those backslashes gives the content back |
| Template.StringLiteral | src/trigo.ts:32 | `$string` as written is two backticks around text in which every backtick and `$` is escaped, and which unescapes to the content |
| Template.StringLiteralMisreadsBackslash | src/trigo.ts:32 | for the content `\n` (backslash, `n`), the literal as written stands for a line break, not the content |
| Template.SafeStringLiteral | src/trigo.ts:32 | the corrected literal is two backticks around text that an ECMAScript template literal reads as exactly the content |
| Template.SafeEscapeTextRoundTrip | src/trigo.ts:32 | reading the corrected escape as a template literal gives the text back |
| Template.EscapesAgree | src/trigo.ts:32 | on content without a backslash or a carriage return the corrected escape is the as-written one |
| Template.SafeSubstitute | src/trigo.ts:28-43 | the corrected `$string` stands for exactly the content; every other token is replaced as `Substitute` does |
| Template.SafeFormatTPL | src/trigo.ts:26-45 | the corrected formatter keeps a template without `$` |
| Template.SafeFormatAgrees | src/trigo.ts:26-45 | on content without a backslash or a carriage return the corrected formatter gives what the source gives |
| Template.CamelCase | src/trigo.ts:41 | the converted name is never longer than the name; what the conversion does is stated by CamelCaseKeeps, CamelCaseConcat, CamelCaseSegment and CamelCaseNoLowerAfterSeparator |
| Template.CamelCaseKeeps | src/trigo.ts:41 | a name without `-` or `.` is kept |
| Template.CamelCaseConcat | src/trigo.ts:41 | a name cut after a character other than `-` or `.` converts as its two pieces |
| Template.CamelCaseSegment | src/trigo.ts:41 | `-word` or `.word` becomes `Word` |
| Template.CamelCaseExample | src/trigo.ts:41 | `icon-arrow-up` becomes `iconArrowUp` |
| Template.CamelCaseFirst | src/trigo.ts:41 | a name not starting with a word character does not come out starting with a lower-case letter |
| Template.CamelCaseNoLowerAfterSeparator | src/trigo.ts:41 | no `-` or `.` left in the output is followed by a lower-case letter |
| Template.Recolor | src/trigo.ts:38 | an icon without `"currentColor"` keeps its colours |
| Template.RecolorReplacesEach | src/trigo.ts:38 | every `"currentColor"` of the icon becomes `"#D73A49"`: the text between them comes out unchanged, provided none of it holds `"currentColor"` or ends with `"currentColor` (so that no two matches share a quote) |
| Template.SvgOpenTagShape | src/trigo.ts:39 | the wrapping root tag starts with `<svg`, ends with `>`, and holds the SVG namespace, the height `2em` and the fill `#D73A49` |
| Template.SvgOpenTagViewBox | src/trigo.ts:39 | the wrapping root tag holds ` viewBox="…"` with the captured value exactly when a truthy viewBox was captured, and no `viewBox` at all otherwise |
| Template.WrapSvg | src/trigo.ts:39 | the wrapped markup is a root tag, then the icon, then `</svg>`; the tag holds the SVG namespace, the height `2em`, the fill `#D73A49`, and the captured viewBox exactly when one was captured |
| Template.QuoteAt | src/trigo.ts:39 | the lazy `.*?"` ends at the first `"`, with no `"` or line terminator before it; when there is none, no `"` is reachable on the same line |
| Template.HeightMatch | src/trigo.ts:39 | finds the leftmost `height=".*?"` match at or after a position, or none |
| Template.ResizeFirstHeight | src/trigo.ts:39 | only the first `height="…"` (on one line) becomes `height="2em"`; the text around it is kept; no earlier position held one; without a match nothing changes |
| Template.PreviewImage | src/trigo.ts:38-39 | the image is the recoloured icon: with `removeRoot`, wrapped in a root that holds the SVG namespace, the height `2em`, the fill `#D73A49`, and the captured viewBox exactly when one was captured; otherwise with its first height set to `2em` |
| Template.Markdown | src/trigo.ts:39 | the output is `![`, the file name, `](`, the data URI of the preview image, `)` |
| Template.ViewBoxUndefined | src/trigo.ts:35-36 | with no viewBox captured, `$viewBox` is written as `undefined` |
| Trigo.LastReported | src/trigo.ts:13-19 | the captured viewBox is the last reported one, or none when nothing was reported |
| Trigo.FormattedAll | src/trigo.ts:10-23 | one output per input, the i-th formatted from the i-th input |
| Trigo.Trigo | src/trigo.ts:9-24 | the loop returns `FormattedAll`: one output per input, in input order, each with its own fresh viewBox |
| Trigo.FormatOne | src/trigo.ts:13-20 | one pass of the loop body: the viewBox left by the callback's calls is the last reported one, and the output is `Formatted` for that input |
| Trigo.FormattedAllAppend | src/trigo.ts:12-22 | the outputs for two lists of inputs are the outputs for their concatenation |
| Trigo.DefaultTemplateGivesMarkup | src/trigo.ts:9-30 | with the default template `$svg`, each output is the optimised markup |

## Left out

- svgo's parsing, printing and 31 built-in passes are a parameter, `Engine`, and the built-ins appear only by name. The model states the pass list svgo is given. It states what each pass written here does to one node, and in `TranslateTree`, how svgo's per-item traversal runs the `translate` pass over a tree. `Engine` is not tied to that traversal.
- `TranslateTree`: the tree shape is a ghost map from each node to its children, which the pass does not change. The traversal descends at most `depth` levels: `depth` is a bound, and exactly the nodes within it are visited (`PreOrderReaches`), so a tree no higher than it is visited whole. The order is svgo's documented per-item order, each node before its children; svgo's own code is not part of this model.
- `TranslateTree`: the traversal stops at the first failing visit. In the source, a throwing path library aborts the whole optimisation. A `NaN` box lets the source carry on with `NaN` numbers.
- Node kind and element name are constant fields: no pass here renames a node or changes its kind.
- The svgpath chain for `path` data (src/svgOptimizor.ts:231-238) is a parameter, `Runtime.pathData`. The model states only that `d` is replaced by its result. A malformed path that makes the library throw is `None`.
- The regular expression that finds translations in `transform` (src/svgOptimizor.ts:273) is a parameter, `Runtime.transformPieces`, which cuts the value into pieces. The model rewrites the pieces. The lemmas ask that the pieces render back to the text they were cut from.
- Number text is a parameter, `NumberFormat`: `toString`, unary `+` and `parseFloat`. So are floating point and its rounding. `ValidFormat` asks only what every runtime keeps: a printed number is a non-empty word without whitespace or commas, zero prints as `0`, and `NaN` reads as `NaN`. That a printed number reads back as itself is asked of each value at hand (`ReadsBack`), never of every real.
- Numbers.Affine, Times and Plus: the read-back holds where the runtime reads the printed number back, which a runtime does for numbers it prints exactly; for other numbers the model says nothing about the text.
- Translate.TranslatePass.Visit fails, changing nothing, when a viewBox field is not a number or the original height is 0. In those cases the source writes a viewBox and goes on computing with `NaN` or an infinite scale.
- Translate.TranslatePass.ScaleShape: the scaling and the two moves of one attribute are computed in a local and written once. The source writes after each step. The final value is the same.
- `getName` and `encodeDataURI` from tutils are parameters, `Env`.
- The legacy `node.content` branch of the full cleanRoot (src/svgOptimizor.ts:109-110) targets an older svgo tree shape. It is not modelled.
- `getViewBox` is always present in the model, as `trigo` always passes it. Its calls are the `reported` list of `Optimized`.
- `trigo` with `options` left out crashes when it reads `options.removeRoot`. The model takes the options as required.
- The `count` variable in `trigo` is never read. It is not modelled.
- The order of attributes in an element is not modelled: attributes are a map.
- Template.Cook models ECMAScript template-literal cooking, except `\x`, `\u`, octal escapes and line continuations. Those give `None`.
- In the shape case, the offset is added to the already scaled value, so `x` becomes `x * scale + offsetX`; the model does the same.
- With nothing captured, `$viewBox` is written as the text `undefined`; the model does the same.
- src/cli.ts (argument parsing, file I/O, console output) is not part of this model.

## Findings

| source | as written | input that shows it | evidently intended | confidence | as-written member | corrected member |
|---|---|---|---|---|---|---|
| src/trigo.ts:32 | `$string` escapes only backticks and `$`. Backslashes and carriage returns in the content go into the template literal as they are. | an icon whose content is `\n` (a backslash, then `n`): the generated literal stands for a line break | the generated literal stands for exactly the content | not executed | Template.StringLiteralMisreadsBackslash | Template.SafeStringLiteral |

`FormatTPL`, and with it `Trigo`, uses `StringLiteral`, the escape as written. The corrected formatter `SafeFormatTPL` uses `SafeStringLiteral` instead, which also escapes the backslash and writes a carriage return as `\r`. `SafeFormatAgrees` shows that the two formatters agree on content without a backslash or a carriage return.
