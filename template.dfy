/**
 * `formatTPL` of trigo.ts: every `$word` in the output template is replaced
 * by what the word names for one icon (`$svg`, `$string`, `$path`,
 * `$viewBox`, `$markdown`, `$name`); any other `$word` stays as written, and
 * the text put in is never scanned again.
 *
 * `getName(path, false)` (the file name without its extension) and
 * `encodeDataURI(type, data)` come from a utility library and are
 * parameters.
 */
module Template {
  import opened Wrappers
  import opened Text

  /** What one icon gives the template. `viewBox` is `None` when nothing reported one. */
  datatype Fields = Fields(content: string, path: string, viewBox: Option<string>, removeRoot: bool)

  /** `getName(path, false)` and `encodeDataURI(mimeType, data)`. */
  datatype Env = Env(baseName: string -> string, dataUri: (string, string) -> string)

  // ---------------------------------------------------------------------
  // scanning for `$word`

  /** Length of the longest prefix of `s` made of `\w` characters. */
  function WordLength(s: string): (n: nat)
    ensures n <= |s|
    ensures forall i :: 0 <= i < n ==> IsWordChar(s[i])
    ensures n < |s| ==> !IsWordChar(s[n])
  {
    if s == [] || !IsWordChar(s[0]) then 0 else 1 + WordLength(s[1..])
  }

  /** `/\$\w+/` matches at the start of `s`. */
  predicate TokenStart(s: string) {
    |s| >= 2 && s[0] == '$' && IsWordChar(s[1])
  }

  /** The length of the `/\$\w+/` match at the start of `s`: the `$` and the whole word. */
  function TokenLength(s: string): (n: nat)
    requires TokenStart(s)
    ensures 2 <= n <= |s|
    ensures forall i :: 1 <= i < n ==> IsWordChar(s[i])
    ensures n < |s| ==> !IsWordChar(s[n])
  {
    var w := WordLength(s[1..]);
    assert forall i :: 1 <= i < 1 + w ==> s[i] == s[1..][i - 1];
    1 + w
  }

  /**
   * `tpl.replace(/\$\w+/g, callback)`: scanning left to right, each match is
   * replaced by what the callback returns, and scanning resumes after the
   * match, in the template, never in the replacement.
   */
  function ReplaceTokens(tpl: string, callback: string -> string): (r: string)
    ensures '$' !in tpl ==> r == tpl
    decreases |tpl|
  {
    if tpl == [] then []
    else if TokenStart(tpl) then
      var n := TokenLength(tpl);
      callback(tpl[..n]) + ReplaceTokens(tpl[n..], callback)
    else [tpl[0]] + ReplaceTokens(tpl[1..], callback)
  }

  /**
   * `formatTPL`: the template with each `$word` replaced by what it names for
   * this icon; a template without `$` is its own output.
   */
  function FormatTPL(tpl: string, fields: Fields, env: Env): (r: string)
    ensures '$' !in tpl ==> r == tpl
  {
    ReplaceTokens(tpl, token => Substitute(token, fields, env))
  }

  /** The tokens the callback knows. */
  const KnownTokens: set<string> := {"$svg", "$string", "$path", "$viewBox", "$markdown", "$name"}

  /**
   * The callback: what each known token stands for; an unknown token is
   * returned as it is. A missing viewBox is `undefined`, which `replace`
   * writes out as the text `undefined`.
   */
  function Substitute(token: string, fields: Fields, env: Env): (r: string)
    ensures token !in KnownTokens ==> r == token
    ensures token == "$svg" ==> r == fields.content
    ensures token == "$string" ==> r == StringLiteral(fields.content)
    ensures token == "$path" ==> r == fields.path
    ensures token == "$viewBox" ==> r == if fields.viewBox.Some? then fields.viewBox.value else "undefined"
    ensures token == "$markdown" ==> r == Markdown(fields, env)
    ensures token == "$name" ==> r == CamelCase(env.baseName(fields.path))
  {
    if token == "$svg" then fields.content
    else if token == "$string" then StringLiteral(fields.content)
    else if token == "$path" then fields.path
    else if token == "$viewBox" then fields.viewBox.GetOr("undefined")
    else if token == "$markdown" then Markdown(fields, env)
    else if token == "$name" then CamelCase(env.baseName(fields.path))
    else token
  }

  /**
   * A whole token is replaced once, and scanning carries on with the text
   * after it: what the token was replaced by is not scanned.
   */
  lemma TokenThenRest(word: string, rest: string, callback: string -> string)
    requires word != [] && forall i :: 0 <= i < |word| ==> IsWordChar(word[i])
    requires rest == [] || !IsWordChar(rest[0])
    ensures ReplaceTokens("$" + word + rest, callback) == callback("$" + word) + ReplaceTokens(rest, callback)
  {
    var tpl := "$" + word + rest;
    assert tpl[1..] == word + rest;
    assert WordLength(word + rest) == |word| by {
      WordLengthAppend(word, rest);
    }
    assert tpl[..1 + |word|] == "$" + word;
    assert tpl[1 + |word|..] == rest;
  }

  lemma {:induction false} WordLengthAppend(word: string, rest: string)
    requires forall i :: 0 <= i < |word| ==> IsWordChar(word[i])
    requires rest == [] || !IsWordChar(rest[0])
    ensures WordLength(word + rest) == |word|
  {
    if word == [] {
      assert word + rest == rest;
    } else {
      assert (word + rest)[1..] == word[1..] + rest;
      WordLengthAppend(word[1..], rest);
    }
  }

  /**
   * Replacing works piece by piece: a template cut where no token can
   * straddle the cut (the second piece does not start with a word
   * character) gives its two pieces' outputs.
   */
  lemma {:induction false} ReplaceConcat(a: string, b: string, callback: string -> string)
    requires b == [] || !IsWordChar(b[0])
    ensures ReplaceTokens(a + b, callback) == ReplaceTokens(a, callback) + ReplaceTokens(b, callback)
    decreases |a|
  {
    if a == [] {
      assert a + b == b;
    } else if TokenStart(a) {
      var n := TokenLength(a);
      TokenAcrossCut(a, b);
      ReplaceConcat(a[n..], b, callback);
    } else {
      CharAcrossCut(a, b);
      ReplaceConcat(a[1..], b, callback);
    }
  }

  /** A token at the start of the first piece ends inside it. */
  lemma TokenAcrossCut(a: string, b: string)
    requires TokenStart(a)
    requires b == [] || !IsWordChar(b[0])
    ensures TokenStart(a + b) && TokenLength(a + b) == TokenLength(a)
    ensures (a + b)[..TokenLength(a)] == a[..TokenLength(a)]
    ensures (a + b)[TokenLength(a)..] == a[TokenLength(a)..] + b
  {
    assert (a + b)[1..] == a[1..] + b;
    WordLengthPrefix(a[1..], b);
  }

  /** A first piece that does not start with a token does not start one with what follows. */
  lemma CharAcrossCut(a: string, b: string)
    requires a != [] && !TokenStart(a)
    requires b == [] || !IsWordChar(b[0])
    ensures (a + b)[0] == a[0] && !TokenStart(a + b) && (a + b)[1..] == a[1..] + b
  {
    if |a| == 1 && b != [] {
      assert (a + b)[1] == b[0];
    } else if |a| >= 2 {
      assert (a + b)[1] == a[1];
    }
  }

  /** A word run that ends inside `s` is not extended by what follows `s`. */
  lemma {:induction false} WordLengthPrefix(s: string, b: string)
    requires b == [] || !IsWordChar(b[0])
    ensures WordLength(s + b) == WordLength(s)
  {
    if s == [] {
      assert s + b == b;
    } else {
      assert (s + b)[0] == s[0];
      assert (s + b)[1..] == s[1..] + b;
      WordLengthPrefix(s[1..], b);
    }
  }

  // ---------------------------------------------------------------------
  // $string

  /** Drops the backslash in front of each backtick and `$`, and nothing else. */
  function UnescapeTicks(t: string): string
    decreases |t|
  {
    if t == [] then []
    else if |t| >= 2 && t[0] == '\\' && (t[1] == '`' || t[1] == '$') then [t[1]] + UnescapeTicks(t[2..])
    else [t[0]] + UnescapeTicks(t[1..])
  }

  /** Every backtick and `$` in `t` comes right after a backslash. */
  predicate TicksEscaped(t: string) {
    forall i :: 0 <= i < |t| && (t[i] == '`' || t[i] == '$') ==> i > 0 && t[i - 1] == '\\'
  }

  /**
   * `content.replace(/[\`$]/g, "\\$&")`: a backslash goes in front of every
   * backtick and `$`, and removing those backslashes gives the content back.
   */
  function EscapeTicks(s: string): (r: string)
    ensures TicksEscaped(r)
    ensures UnescapeTicks(r) == s
  {
    if s == [] then []
    else
      var rest := EscapeTicks(s[1..]);
      var head := if s[0] == '`' || s[0] == '$' then ['\\', s[0]] else [s[0]];
      EscapedCons(s[0], head, rest);
      assert s == [s[0]] + s[1..];
      head + rest
  }

  /** Putting one escaped character in front of escaped text keeps it escaped, and unescapes to that character. */
  lemma EscapedCons(c: char, head: string, rest: string)
    requires head == if c == '`' || c == '$' then ['\\', c] else [c]
    requires TicksEscaped(rest)
    ensures TicksEscaped(head + rest)
    ensures UnescapeTicks(head + rest) == [c] + UnescapeTicks(rest)
  {
    var t := head + rest;
    assert t[|head|..] == rest;
    forall i | 0 <= i < |t| && (t[i] == '`' || t[i] == '$') ensures i > 0 && t[i - 1] == '\\' {
      if i >= |head| {
        assert t[i] == rest[i - |head|];
        if i > |head| {
          assert t[i - 1] == rest[i - 1 - |head|];
        }
      }
    }
  }

  /**
   * `$string` as the source writes it: the content between backticks, with
   * a backslash in front of every backtick and `$` in it; dropping those
   * backslashes gives the content back.
   */
  function StringLiteral(content: string): (r: string)
    ensures |r| >= 2 && r[0] == '`' && r[|r| - 1] == '`'
    ensures TicksEscaped(r[1..|r| - 1])
    ensures UnescapeTicks(r[1..|r| - 1]) == content
  {
    var r := "`" + EscapeTicks(content) + "`";
    assert r[1..|r| - 1] == EscapeTicks(content);
    r
  }

  /**
   * The character a backslash escape stands for in an ECMAScript template
   * literal; `None` for the escapes not modelled (`\x`, `\u`, digits and
   * line continuations).
   */
  function EscapedChar(c: char): Option<char> {
    if c == 'n' then Some('\n')
    else if c == 'r' then Some('\r')
    else if c == 't' then Some('\t')
    else if c == 'b' then Some('\U{0008}')
    else if c == 'f' then Some('\U{000C}')
    else if c == 'v' then Some('\U{000B}')
    else if c == 'x' || c == 'u' || ('0' <= c <= '9') then None
    else if c == '\n' || c == '\r' || c == '\U{2028}' || c == '\U{2029}' then None
    else Some(c)
  }

  function Prepend(c: char, r: Option<string>): Option<string> {
    match r
    case None => None
    case Some(t) => Some([c] + t)
  }

  /**
   * The text an ECMAScript template literal without substitutions stands
   * for, given what is between its backticks. `None` when the text would end
   * the literal early, start a `${` substitution, or use an escape not
   * modelled. A raw carriage return (alone or before a line feed) reads as
   * a line feed.
   */
  function Cook(t: string): Option<string>
    decreases |t|
  {
    if t == [] then Some([])
    else if t[0] == '`' then None
    else if t[0] == '$' && |t| >= 2 && t[1] == '{' then None
    else if t[0] == '\r' then
      if |t| >= 2 && t[1] == '\n' then Prepend('\n', Cook(t[2..])) else Prepend('\n', Cook(t[1..]))
    else if t[0] == '\\' then
      if |t| == 1 then None
      else match EscapedChar(t[1])
        case None => None
        case Some(c) => Prepend(c, Cook(t[2..]))
    else Prepend(t[0], Cook(t[1..]))
  }

  /**
   * The generated code does not hold the icon: a backslash in the content
   * is left unescaped, so `\n` in the content reads back as a line break.
   */
  lemma StringLiteralMisreadsBackslash()
    ensures var content := ['\\', 'n'];
      var literal := StringLiteral(content);
      Cook(literal[1..|literal| - 1]) == Some(['\n']) != Some(content)
  {
    var content := ['\\', 'n'];
    assert EscapeTicks(content) == content by {
      assert EscapeTicks(content[1..]) == ['n'];
    }
    var literal := StringLiteral(content);
    assert literal[1..|literal| - 1] == content;
    assert content[0] == '\\' && content[1] == 'n' && content[2..] == [];
    assert EscapedChar('n') == Some('\n');
    assert Cook(content) == Prepend('\n', Cook([]));
    assert Cook([]) == Some([]) && ['\n'] + [] == ['\n'];
    assert ['\n'] != content;
  }

  /** The escape `$string` needs: backslash, backtick, `$` and carriage return. */
  function SafeEscape(c: char): string {
    if c == '\\' || c == '`' || c == '$' then ['\\', c]
    else if c == '\r' then ['\\', 'r']
    else [c]
  }

  function SafeEscapeText(s: string): string {
    if s == [] then [] else SafeEscape(s[0]) + SafeEscapeText(s[1..])
  }

  /**
   * `$string` as intended: the content as a template literal that stands for
   * exactly the content.
   */
  function SafeStringLiteral(content: string): (r: string)
    ensures |r| >= 2 && r[0] == '`' && r[|r| - 1] == '`'
    ensures Cook(r[1..|r| - 1]) == Some(content)
  {
    var r := "`" + SafeEscapeText(content) + "`";
    assert r[1..|r| - 1] == SafeEscapeText(content);
    SafeEscapeTextRoundTrip(content);
    r
  }

  /** Content without a backslash or carriage return is escaped the same way by both. */
  lemma {:induction false} EscapesAgree(s: string)
    requires '\\' !in s && '\r' !in s
    ensures SafeEscapeText(s) == EscapeTicks(s)
  {
    if s != [] {
      assert s[0] == s[..1][0];
      assert '\\' !in s[1..] && '\r' !in s[1..];
      EscapesAgree(s[1..]);
    }
  }

  /** The callback with `$string` written as intended. */
  function SafeSubstitute(token: string, fields: Fields, env: Env): (r: string)
    ensures token == "$string" ==> |r| >= 2 && Cook(r[1..|r| - 1]) == Some(fields.content)
    ensures token != "$string" ==> r == Substitute(token, fields, env)
  {
    if token == "$string" then SafeStringLiteral(fields.content) else Substitute(token, fields, env)
  }

  /** `formatTPL` with `$string` written as intended. */
  function SafeFormatTPL(tpl: string, fields: Fields, env: Env): (r: string)
    ensures '$' !in tpl ==> r == tpl
  {
    ReplaceTokens(tpl, token => SafeSubstitute(token, fields, env))
  }

  /** Two callbacks that agree on every token give the same output. */
  lemma {:induction false} ReplaceTokensAgree(tpl: string, f: string -> string, g: string -> string)
    requires forall t :: f(t) == g(t)
    ensures ReplaceTokens(tpl, f) == ReplaceTokens(tpl, g)
    decreases |tpl|
  {
    if tpl != [] {
      if TokenStart(tpl) {
        ReplaceTokensAgree(tpl[TokenLength(tpl)..], f, g);
      } else {
        ReplaceTokensAgree(tpl[1..], f, g);
      }
    }
  }

  /**
   * The corrected formatter differs from `formatTPL` only for icons holding a
   * backslash or a carriage return.
   */
  lemma SafeFormatAgrees(tpl: string, fields: Fields, env: Env)
    requires '\\' !in fields.content && '\r' !in fields.content
    ensures SafeFormatTPL(tpl, fields, env) == FormatTPL(tpl, fields, env)
  {
    EscapesAgree(fields.content);
    ReplaceTokensAgree(tpl, token => SafeSubstitute(token, fields, env), token => Substitute(token, fields, env));
  }

  lemma {:induction false} SafeEscapeTextRoundTrip(s: string)
    ensures Cook(SafeEscapeText(s)) == Some(s)
  {
    if s != [] {
      var rest := SafeEscapeText(s[1..]);
      SafeEscapeTextRoundTrip(s[1..]);
      var c := s[0];
      assert SafeEscapeText(s) == SafeEscape(c) + rest;
      if c == '\\' || c == '`' || c == '$' || c == '\r' {
        var t := SafeEscape(c) + rest;
        assert t[0] == '\\' && t[2..] == rest;
        assert EscapedChar(t[1]) == Some(c);
        assert Cook(t) == Prepend(c, Cook(rest));
        assert s == [c] + s[1..];
      } else {
        var t := [c] + rest;
        assert SafeEscape(c) == [c] && t[0] == c && t[1..] == rest;
        assert Cook(t) == Prepend(c, Cook(rest));
        assert s == [c] + s[1..];
      }
    }
  }

  // ---------------------------------------------------------------------
  // $name

  predicate IsSeparator(c: char) {
    c == '-' || c == '.'
  }

  /**
   * `name.replace(/[\-\.](\w)/g, (_, word) => word.toUpperCase())`: a `-` or
   * `.` followed by a word character is replaced by that character in
   * upper case.
   */
  function CamelCase(s: string): (r: string)
    ensures |r| <= |s|
    decreases |s|
  {
    if |s| >= 2 && IsSeparator(s[0]) && IsWordChar(s[1]) then [ToUpper(s[1])] + CamelCase(s[2..])
    else if s == [] then []
    else [s[0]] + CamelCase(s[1..])
  }

  /** A name without `-` or `.` is kept as it is. */
  lemma {:induction false} CamelCaseKeeps(s: string)
    requires forall i :: 0 <= i < |s| ==> !IsSeparator(s[i])
    ensures CamelCase(s) == s
    decreases |s|
  {
    if s != [] {
      assert forall i :: 0 <= i < |s[1..]| ==> !IsSeparator(s[1..][i]) by {
        forall i | 0 <= i < |s[1..]| ensures !IsSeparator(s[1..][i]) {
          assert s[1..][i] == s[i + 1];
        }
      }
      CamelCaseKeeps(s[1..]);
      assert s == [s[0]] + s[1..];
    }
  }

  /**
   * A name cut after a character that is not `-` or `.` converts as its two
   * pieces: no replacement straddles the cut.
   */
  lemma {:induction false} CamelCaseConcat(a: string, b: string)
    requires a == [] || !IsSeparator(a[|a| - 1])
    ensures CamelCase(a + b) == CamelCase(a) + CamelCase(b)
    decreases |a|
  {
    var ab := a + b;
    if a == [] {
      assert ab == b;
    } else if |a| >= 2 && IsSeparator(a[0]) && IsWordChar(a[1]) {
      assert ab[0] == a[0] && ab[1] == a[1] && ab[2..] == a[2..] + b;
      CamelCaseConcat(a[2..], b);
      var head := [ToUpper(a[1])];
      assert CamelCase(ab) == head + (CamelCase(a[2..]) + CamelCase(b));
      Regroup(head, CamelCase(a[2..]), CamelCase(b));
    } else {
      assert ab[0] == a[0] && ab[1..] == a[1..] + b;
      assert |a| == 1 ==> !IsSeparator(a[0]);
      CamelCaseConcat(a[1..], b);
      var head := [a[0]];
      assert CamelCase(ab) == head + (CamelCase(a[1..]) + CamelCase(b));
      Regroup(head, CamelCase(a[1..]), CamelCase(b));
    }
  }

  /** A `-` or `.` followed by a word character, then a plain word, becomes the capitalised word. */
  lemma CamelCaseSegment(sep: char, word: string)
    requires IsSeparator(sep) && |word| >= 1 && IsWordChar(word[0])
    requires forall i :: 0 <= i < |word| ==> !IsSeparator(word[i])
    ensures CamelCase([sep] + word) == [ToUpper(word[0])] + word[1..]
  {
    var s := [sep] + word;
    assert s[2..] == word[1..];
    assert forall i :: 0 <= i < |word[1..]| ==> !IsSeparator(word[1..][i]) by {
      forall i | 0 <= i < |word[1..]| ensures !IsSeparator(word[1..][i]) {
        assert word[1..][i] == word[i + 1];
      }
    }
    CamelCaseKeeps(word[1..]);
    assert CamelCase(s) == [ToUpper(s[1])] + CamelCase(s[2..]);
  }

  lemma CamelCaseExample()
    ensures CamelCase("icon-arrow-up") == "iconArrowUp"
  {
    var first, second, third := "icon", "arrow", "up";
    var a, b := ['-'] + second, ['-'] + third;
    var tail := ['A'] + second[1..] + (['U'] + third[1..]);
    assert CamelCase(a + b) == tail by {
      CamelCaseSegment('-', second);
      CamelCaseSegment('-', third);
      assert a[|a| - 1] == 'w';
      CamelCaseConcat(a, b);
      assert ToUpper('a') == 'A' && ToUpper('u') == 'U';
    }
    assert CamelCase(first + (a + b)) == first + tail by {
      CamelCaseKeeps(first);
      CamelCaseConcat(first, a + b);
    }
    assert first + (a + b) == "icon-arrow-up";
    assert first + tail == "iconArrowUp";
  }

  /** The output of a name that does not start with a word character does not start with a lower-case letter. */
  lemma CamelCaseFirst(s: string)
    requires s != [] && !IsWordChar(s[0])
    ensures CamelCase(s) != [] && !IsLower(CamelCase(s)[0])
  {
  }

  /** No `-` or `.` in `r` is followed by a lower-case letter. */
  predicate NoLowerAfterSeparator(r: string) {
    forall i :: 0 <= i < |r| - 1 && IsSeparator(r[i]) ==> !IsLower(r[i + 1])
  }

  /** Every `-` and `.` left in the output is not followed by a lower-case letter. */
  lemma {:induction false} CamelCaseNoLowerAfterSeparator(s: string)
    ensures NoLowerAfterSeparator(CamelCase(s))
    decreases |s|
  {
    var r := CamelCase(s);
    if |s| >= 2 && IsSeparator(s[0]) && IsWordChar(s[1]) {
      CamelCaseNoLowerAfterSeparator(s[2..]);
      var rest := CamelCase(s[2..]);
      assert r == [ToUpper(s[1])] + rest;
      forall i | 0 <= i < |r| - 1 && IsSeparator(r[i]) ensures !IsLower(r[i + 1]) {
        assert IsWordChar(r[0]);
        assert r[i] == rest[i - 1] && r[i + 1] == rest[i];
      }
    } else if s != [] {
      CamelCaseNoLowerAfterSeparator(s[1..]);
      var rest := CamelCase(s[1..]);
      assert r == [s[0]] + rest;
      forall i | 0 <= i < |r| - 1 && IsSeparator(r[i]) ensures !IsLower(r[i + 1]) {
        if i == 0 {
          CamelCaseFirst(s[1..]);
          assert r[1] == rest[0];
        } else {
          assert r[i] == rest[i - 1] && r[i + 1] == rest[i];
        }
      }
    }
  }

  // ---------------------------------------------------------------------
  // $markdown

  /** The colour the markdown preview paints icons with. */
  const PreviewColor: string := "#D73A49"

  /**
   * `content.replace(/"currentColor"/g, '"#D73A49"')`; an icon without
   * `"currentColor"` keeps its colours.
   */
  function Recolor(content: string): (r: string)
    ensures !Contains(content, CurrentColor) ==> r == content
  {
    ReplaceAllWithoutMatch(content, CurrentColor, PreviewColorQuoted);
    ReplaceAll(content, CurrentColor, PreviewColorQuoted)
  }

  const CurrentColor: string := "\"currentColor\""
  const PreviewColorQuoted: string := "\"" + PreviewColor + "\""

  /** The quote that ends `"currentColor"` comes nowhere else in it but first. */
  lemma CurrentColorQuotes()
    ensures |CurrentColor| >= 2
    ensures forall i :: 0 < i < |CurrentColor| - 1 ==> CurrentColor[i] != CurrentColor[|CurrentColor| - 1]
  {
  }

  /**
   * Every `"currentColor"` of an icon becomes `"#D73A49"`: `pieces` is the
   * icon's text around its `"currentColor"`s, cut so that no match starts
   * inside a piece.
   */
  lemma RecolorReplacesEach(pieces: seq<string>)
    requires forall i :: 0 <= i < |pieces| ==>
      !Contains(pieces[i], CurrentColor) && !EndsWith(pieces[i], CurrentColor[..|CurrentColor| - 1])
    ensures Recolor(Join(pieces, CurrentColor)) == Join(pieces, PreviewColorQuoted)
  {
    CurrentColorQuotes();
    NoMatchAcrossAll(pieces, CurrentColor);
    ReplaceAllJoin(pieces, CurrentColor, PreviewColorQuoted);
  }

  /** ` viewBox="…"` when a truthy viewBox was captured, else nothing. */
  function ViewBoxAttribute(viewBox: Option<string>): (r: string)
    ensures viewBox.Some? && viewBox.value != "" ==> r == " viewBox=\"" + viewBox.value + "\""
    ensures !(viewBox.Some? && viewBox.value != "") ==> r == ""
  {
    if viewBox.Some? && viewBox.value != "" then " viewBox=\"" + viewBox.value + "\"" else ""
  }

  const SvgOpenHead: string := "<svg" + XmlnsAttribute
  const SvgOpenTail: string := PreviewHeightAttribute + PreviewFillAttribute + ">"
  const XmlnsAttribute: string := " xmlns=\"http://www.w3.org/2000/svg\""
  const PreviewHeightAttribute: string := " height=\"2em\""
  const PreviewFillAttribute: string := " fill=\"" + PreviewColor + "\""

  /** A character of a text found in `s` is a character of `s`. */
  lemma ContainsChar(s: string, sub: string, c: char)
    requires Contains(s, sub) && c in sub
    ensures c in s
  {
    var i: nat :| i <= |s| && OccursAt(s, sub, i);
    var k :| 0 <= k < |sub| && sub[k] == c;
    assert s[i + k] == s[i..i + |sub|][k];
  }

  /** The opening tag `WrapSvg` writes. */
  function SvgOpenTag(viewBox: Option<string>): string {
    SvgOpenHead + ViewBoxAttribute(viewBox) + SvgOpenTail
  }

  /** The middle of three pieces occurs where the first one ends. */
  lemma OccursBetween(a: string, b: string, c: string)
    ensures OccursAt(a + b + c, b, |a|)
  {
    assert (a + b + c)[|a|..|a| + |b|] == b;
  }

  /** A character in none of three pieces is not in their concatenation. */
  lemma NotInConcat(a: string, b: string, c: string, x: char)
    requires x !in a && x !in b && x !in c
    ensures x !in a + b + c
  {
  }

  /** The opening tag starts with `<svg`, ends with `>` and sets the height to `2em`. */
  lemma SvgOpenTagShape(viewBox: Option<string>)
    ensures var open := SvgOpenTag(viewBox);
      && |open| > 4 && open[..4] == "<svg" && open[|open| - 1] == '>'
      && Contains(open, XmlnsAttribute)
      && Contains(open, PreviewHeightAttribute)
      && Contains(open, PreviewFillAttribute)
  {
    var head, mid, tail := SvgOpenHead, ViewBoxAttribute(viewBox), SvgOpenTail;
    var open := head + mid + tail;
    assert open[..4] == "<svg" by {
      assert head[..4] == "<svg";
      assert open[..4] == head[..4];
    }
    assert open[|open| - 1] == tail[|tail| - 1];
    var xmlns, height, fill := XmlnsAttribute, PreviewHeightAttribute, PreviewFillAttribute;
    OccursBetween("<svg", xmlns, mid + tail);
    Regroup("<svg" + xmlns, mid, tail);
    Regroup(height, fill, ">");
    OccursBetween(head + mid, height, fill + ">");
    Regroup(head + mid, height, fill + ">");
    Regroup(head + mid, height + fill, ">");
    Regroup(head + mid, height, fill);
    OccursBetween(head + mid + height, fill, ">");
  }


  /** The opening tag holds a viewBox exactly when a truthy one was captured. */
  lemma SvgOpenTagViewBox(viewBox: Option<string>)
    ensures var open := SvgOpenTag(viewBox);
      && (viewBox.Some? && viewBox.value != "" ==> Contains(open, " viewBox=\"" + viewBox.value + "\""))
      && (!(viewBox.Some? && viewBox.value != "") ==> !Contains(open, "viewBox"))
  {
    var head, mid, tail := SvgOpenHead, ViewBoxAttribute(viewBox), SvgOpenTail;
    var open := head + mid + tail;
    if viewBox.Some? && viewBox.value != "" {
      OccursBetween(head, mid, tail);
    } else {
      assert 'B' !in head && 'B' !in mid && 'B' !in tail;
      NotInConcat(head, mid, tail, 'B');
      if Contains(open, "viewBox") {
        ContainsChar(open, "viewBox", 'B');
      }
    }
  }

  /**
   * The root element put back around the markup when `removeRoot` took it
   * away: an opening `<svg ...>` tag, the markup, then `</svg>`. The opening
   * tag sets the height to `2em`, and holds a viewBox exactly when a truthy
   * one was captured, with that value.
   */
  function WrapSvg(svg: string, viewBox: Option<string>): (r: string)
    ensures var open := |r| - |svg| - |"</svg>"|;
      && 4 < open && r[open..] == svg + "</svg>"
      && r[..4] == "<svg" && r[open - 1] == '>'
      && Contains(r[..open], XmlnsAttribute)
      && Contains(r[..open], PreviewHeightAttribute)
      && Contains(r[..open], PreviewFillAttribute)
      && (viewBox.Some? && viewBox.value != "" ==> Contains(r[..open], " viewBox=\"" + viewBox.value + "\""))
      && (!(viewBox.Some? && viewBox.value != "") ==> !Contains(r[..open], "viewBox"))
  {
    var open := SvgOpenTag(viewBox);
    SvgOpenTagShape(viewBox);
    SvgOpenTagViewBox(viewBox);
    WrapPieces(open, svg);
    open + svg + "</svg>"
  }

  /** The opening tag, the markup and the closing tag can be read back from the result. */
  lemma WrapPieces(open: string, svg: string)
    requires |open| > 4
    ensures var r := open + svg + "</svg>";
      && |r| - |svg| - |"</svg>"| == |open|
      && r[|open|..] == svg + "</svg>" && r[..|open|] == open
      && r[..4] == open[..4] && r[|open| - 1] == open[|open| - 1]
  {
  }

  const HeightOpen: string := "height=\""
  const PreviewHeight: string := "height=\"2em\""

  /** The characters `.` does not match. */
  predicate IsLineTerminator(c: char) {
    c == '\n' || c == '\r' || c == '\U{2028}' || c == '\U{2029}'
  }

  /** No line terminator in `s[i..k]`. */
  predicate OnOneLine(s: string, i: nat, k: nat)
    requires i <= k <= |s|
  {
    forall j :: i <= j < k ==> !IsLineTerminator(s[j])
  }

  /**
   * The first `"` at or after `i`, unless a line terminator comes first:
   * `None` exactly when no `"` can be reached from `i` on the same line.
   */
  function QuoteAt(s: string, i: nat): (r: Option<nat>)
    ensures r.Some? ==> i <= r.value < |s| && s[r.value] == '"'
    ensures r.Some? ==> forall k :: i <= k < r.value ==> s[k] != '"' && !IsLineTerminator(s[k])
    ensures r.None? ==> forall k :: i <= k < |s| && s[k] == '"' ==> !OnOneLine(s, i, k)
    decreases |s| - i
  {
    if i >= |s| then None
    else if s[i] == '"' then Some(i)
    else if IsLineTerminator(s[i]) then None
    else QuoteAt(s, i + 1)
  }

  /** `/height=".*?"/` matches at `i`. */
  predicate HeightAt(s: string, i: nat) {
    OccursAt(s, HeightOpen, i) && QuoteAt(s, i + |HeightOpen|).Some?
  }

  /**
   * The leftmost match of `/height=".*?"/` at or after `from`: where it
   * starts and where it ends.
   */
  function HeightMatch(s: string, from: nat): (r: Option<(nat, nat)>)
    ensures r.Some? ==>
      && from <= r.value.0 && HeightAt(s, r.value.0)
      && r.value.1 == QuoteAt(s, r.value.0 + |HeightOpen|).value + 1 <= |s|
    ensures r.Some? ==> forall k :: from <= k < r.value.0 ==> !HeightAt(s, k)
    ensures r.None? ==> forall k :: from <= k <= |s| ==> !HeightAt(s, k)
    decreases |s| - from
  {
    if from + |HeightOpen| > |s| then None
    else if HeightAt(s, from) then Some((from, QuoteAt(s, from + |HeightOpen|).value + 1))
    else HeightMatch(s, from + 1)
  }

  /**
   * `svg.replace(/height=".*?"/, 'height="2em"')`: the first `height="…"`
   * (on one line) becomes `height="2em"`, the text around it is kept, and no
   * earlier position held one. Without a match, nothing changes.
   */
  function ResizeFirstHeight(svg: string): (r: string)
    ensures HeightMatch(svg, 0).Some? ==>
      var i, j := HeightMatch(svg, 0).value.0, HeightMatch(svg, 0).value.1;
      && r == svg[..i] + PreviewHeight + svg[j..]
      && svg[i..i + |HeightOpen|] == HeightOpen && svg[j - 1] == '"'
      && (forall k :: i + |HeightOpen| <= k < j - 1 ==> svg[k] != '"' && !IsLineTerminator(svg[k]))
      && (forall k :: 0 <= k < i ==> !HeightAt(svg, k))
    ensures HeightMatch(svg, 0).None? ==> r == svg && forall k :: 0 <= k <= |svg| ==> !HeightAt(svg, k)
    ensures !Contains(svg, HeightOpen) ==> r == svg
  {
    match HeightMatch(svg, 0)
    case None => svg
    case Some((i, j)) => svg[..i] + PreviewHeight + svg[j..]
  }

  /**
   * The markup the preview shows: the recoloured icon, wrapped in a root
   * element when `removeRoot` took its own away, and otherwise with its first
   * height set to `2em`.
   */
  function PreviewImage(fields: Fields): (image: string)
    ensures fields.removeRoot ==>
      var open := |image| - |Recolor(fields.content)| - |"</svg>"|;
      && 4 < open && image[open..] == Recolor(fields.content) + "</svg>"
      && image[..4] == "<svg" && image[open - 1] == '>'
      && Contains(image[..open], XmlnsAttribute)
      && Contains(image[..open], PreviewHeightAttribute)
      && Contains(image[..open], PreviewFillAttribute)
      && (fields.viewBox.Some? && fields.viewBox.value != "" ==>
            Contains(image[..open], " viewBox=\"" + fields.viewBox.value + "\""))
      && (!(fields.viewBox.Some? && fields.viewBox.value != "") ==> !Contains(image[..open], "viewBox"))
    ensures !fields.removeRoot ==> image == ResizeFirstHeight(Recolor(fields.content))
  {
    var svg := Recolor(fields.content);
    if fields.removeRoot then WrapSvg(svg, fields.viewBox) else ResizeFirstHeight(svg)
  }

  /**
   * `$markdown`: a Markdown image `![name](uri)` whose alternative text is
   * the file name and whose source is the preview markup as a data URI.
   */
  function Markdown(fields: Fields, env: Env): (r: string)
    ensures var name := env.baseName(fields.path);
      && |r| == 2 + |name| + 2 + |env.dataUri("image/svg+xml", PreviewImage(fields))| + 1
      && r[..2] == "![" && r[2..2 + |name|] == name && r[2 + |name|..4 + |name|] == "]("
      && r[4 + |name|..|r| - 1] == env.dataUri("image/svg+xml", PreviewImage(fields))
      && r[|r| - 1] == ')'
  {
    var name := env.baseName(fields.path);
    var uri := env.dataUri("image/svg+xml", PreviewImage(fields));
    var r := "![" + name + "](" + uri + ")";
    assert r[2 + |name|..4 + |name|] == "](";
    r
  }

  /** With nothing captured, `$viewBox` is written as `undefined`. */
  lemma ViewBoxUndefined(content: string, path: string, removeRoot: bool, env: Env)
    ensures FormatTPL("$viewBox", Fields(content, path, None, removeRoot), env) == "undefined"
  {
    var tpl := "$viewBox";
    assert TokenStart(tpl);
    assert TokenLength(tpl) == |tpl| by {
      WordLengthAppend("viewBox", []);
      assert tpl[1..] == "viewBox" + [];
    }
    assert tpl[..|tpl|] == tpl;
    assert tpl[|tpl|..] == [];
  }
}
