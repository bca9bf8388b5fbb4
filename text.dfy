/**
 * The string operations of JavaScript that the passes and the template
 * formatter use: the `\s` and `\w` character classes, `trim`, `split` on a
 * whitespace run or on one character, `join`, and a global literal
 * `replace`. Strings are sequences of Dafny characters (Unicode scalar
 * values); no operation modelled here depends on how JavaScript encodes them.
 */
module Text {

  /** The characters `\s` matches and `String.prototype.trim` removes. */
  predicate IsWhitespace(c: char) {
    c == ' ' || c == '\t' || c == '\n' || c == '\r' || c == '\U{000B}' || c == '\U{000C}'
    || c == '\U{00A0}' || c == '\U{1680}' || ('\U{2000}' <= c <= '\U{200A}')
    || c == '\U{2028}' || c == '\U{2029}' || c == '\U{202F}' || c == '\U{205F}'
    || c == '\U{3000}' || c == '\U{FEFF}'
  }

  /** The characters `\w` matches. */
  predicate IsWordChar(c: char) {
    ('a' <= c <= 'z') || ('A' <= c <= 'Z') || ('0' <= c <= '9') || c == '_'
  }

  predicate IsLower(c: char) {
    'a' <= c <= 'z'
  }

  /** `toUpperCase` on the characters `\w` matches: only `a`..`z` change. */
  function ToUpper(c: char): (u: char)
    ensures IsLower(c) ==> u as int == c as int - 32
    ensures IsWordChar(c) ==> IsWordChar(u) && !IsLower(u)
    ensures !IsLower(c) ==> u == c
  {
    if IsLower(c) then (c as int - 32) as char else c
  }

  predicate WsFree(s: string) {
    forall i :: 0 <= i < |s| ==> !IsWhitespace(s[i])
  }

  /** Length of the longest prefix of `s` without whitespace. */
  function TokenLength(s: string): (n: nat)
    ensures n <= |s|
    ensures WsFree(s[..n])
    ensures n < |s| ==> IsWhitespace(s[n])
  {
    if s == [] || IsWhitespace(s[0]) then 0
    else
      var m := TokenLength(s[1..]);
      assert s[..1 + m] == [s[0]] + s[1..][..m];
      1 + m
  }

  /** Length of the longest prefix of `s` made of whitespace. */
  function SpaceLength(s: string): (n: nat)
    ensures n <= |s|
    ensures forall i :: 0 <= i < n ==> IsWhitespace(s[i])
    ensures n < |s| ==> !IsWhitespace(s[n])
  {
    if s == [] || !IsWhitespace(s[0]) then 0 else 1 + SpaceLength(s[1..])
  }

  /**
   * `s.trim()`: `s` is whitespace, then `r`, then whitespace, and `r` neither
   * starts nor ends with whitespace.
   */
  function Trim(s: string): (r: string)
    ensures SpaceLength(s) + |r| <= |s| && r == s[SpaceLength(s)..SpaceLength(s) + |r|]
    ensures forall k :: 0 <= k < SpaceLength(s) ==> IsWhitespace(s[k])
    ensures forall k :: SpaceLength(s) + |r| <= k < |s| ==> IsWhitespace(s[k])
    ensures r == [] || (!IsWhitespace(r[0]) && !IsWhitespace(r[|r| - 1]))
    ensures WsFree(s) ==> r == s
  {
    var lead := SpaceLength(s);
    var r := TrimEnd(s[lead..]);
    TrimPlacement(s, lead, s[lead..], r);
    TrimStart(s, lead, r);
    TrimWsFree(s, lead, r);
    r
  }

  /** What `TrimEnd` keeps of `t == s[lead..]` sits in `s` right after `lead`, with whitespace after it. */
  lemma TrimPlacement(s: string, lead: nat, t: string, r: string)
    requires lead <= |s| && t == s[lead..] && r == TrimEnd(t)
    ensures lead + |r| <= |s| && r == s[lead..lead + |r|]
    ensures forall k :: lead + |r| <= k < |s| ==> IsWhitespace(s[k])
  {
    assert r == t[..|r|];
    forall k | lead + |r| <= k < |s| ensures IsWhitespace(s[k]) {
      assert s[k] == t[k - lead];
    }
  }

  /** After the leading whitespace the kept text starts with a non-whitespace character. */
  lemma TrimStart(s: string, lead: nat, r: string)
    requires lead == SpaceLength(s) && r == TrimEnd(s[lead..])
    ensures r == [] || !IsWhitespace(r[0])
  {
    if r != [] {
      assert r[0] == s[lead..][0] == s[lead];
    }
  }

  /** Text without whitespace is its own trim. */
  lemma TrimWsFree(s: string, lead: nat, r: string)
    requires lead == SpaceLength(s) && r == TrimEnd(s[lead..])
    ensures WsFree(s) ==> r == s
  {
    if WsFree(s) && s != [] {
      assert !IsWhitespace(s[0]);
      assert s[0..] == s;
      assert !IsWhitespace(s[|s| - 1]);
    }
  }

  function TrimEnd(s: string): (r: string)
    ensures r <= s
    ensures r == [] || !IsWhitespace(r[|r| - 1])
    ensures forall i :: |r| <= i < |s| ==> IsWhitespace(s[i])
  {
    if s != [] && IsWhitespace(s[|s| - 1]) then TrimEnd(s[..|s| - 1]) else s
  }

  /**
   * `s.split(/\s+/)`: the pieces between maximal whitespace runs. There is
   * always at least one piece; leading or trailing whitespace gives an empty
   * first or last piece, and the empty string gives `[""]`.
   */
  function SplitWs(s: string): (parts: seq<string>)
    decreases |s|
  {
    var n := TokenLength(s);
    if n == |s| then [s]
    else [s[..n]] + SplitWs(s[n + SpaceLength(s[n..])..])
  }

  /** `s.split(/\s+/)` gives at least one piece, and no piece holds whitespace. */
  lemma {:induction false} SplitWsPieces(s: string)
    ensures |SplitWs(s)| >= 1
    ensures forall i :: 0 <= i < |SplitWs(s)| ==> WsFree(SplitWs(s)[i])
    decreases |s|
  {
    var n := TokenLength(s);
    if n == |s| {
      assert s[..n] == s;
    } else {
      var m := SpaceLength(s[n..]);
      SplitWsCut(s, n, m);
      SplitWsPieces(s[n + m..]);
      FreeCons(s[..n], SplitWs(s[n + m..]));
    }
  }

  lemma FreeCons(t: string, ts: seq<string>)
    requires WsFree(t) && forall i :: 0 <= i < |ts| ==> WsFree(ts[i])
    ensures forall i :: 0 <= i < |[t] + ts| ==> WsFree(([t] + ts)[i])
  {
    forall i | 1 <= i < |[t] + ts| ensures WsFree(([t] + ts)[i]) {
      assert ([t] + ts)[i] == ts[i - 1];
    }
  }

  /**
   * The whitespace runs `s.split(/\s+/)` cuts at, in order: the separators
   * between the pieces of `SplitWs(s)`.
   */
  function WsRuns(s: string): (gaps: seq<string>)
    decreases |s|
  {
    var n := TokenLength(s);
    if n == |s| then []
    else
      var m := SpaceLength(s[n..]);
      [s[n..n + m]] + WsRuns(s[n + m..])
  }

  /** The pieces with the separators put back between them. */
  function Interleave(parts: seq<string>, gaps: seq<string>): string
    requires |parts| == |gaps| + 1
  {
    if gaps == [] then parts[0] else parts[0] + gaps[0] + Interleave(parts[1..], gaps[1..])
  }

  /** `parts.join(sep)`. */
  function Join(parts: seq<string>, sep: string): string {
    if |parts| == 0 then ""
    else if |parts| == 1 then parts[0]
    else parts[0] + sep + Join(parts[1..], sep)
  }

  /** Length of the longest prefix of `s` without `c`. */
  function FieldLength(s: string, c: char): (n: nat)
    ensures n <= |s|
    ensures c !in s[..n]
    ensures n < |s| ==> s[n] == c
  {
    if s == [] || s[0] == c then 0
    else
      var m := FieldLength(s[1..], c);
      assert s[..1 + m] == [s[0]] + s[1..][..m];
      1 + m
  }

  /** `s.split(c)` for a one-character separator: empty fields are kept. */
  function SplitOn(s: string, c: char): (parts: seq<string>)
    ensures |parts| >= 1
    ensures forall i :: 0 <= i < |parts| ==> c !in parts[i]
    ensures Join(parts, [c]) == s
    decreases |s|
  {
    var n := FieldLength(s, c);
    if n == |s| then
      assert s[..n] == s;
      [s]
    else
      var rest := SplitOn(s[n + 1..], c);
      assert ([s[..n]] + rest)[1..] == rest;
      assert s == s[..n] + [c] + s[n + 1..];
      [s[..n]] + rest
  }

  lemma {:induction false} TokenLengthAppend(t: string, u: string)
    requires WsFree(t)
    ensures TokenLength(t + u) == |t| + TokenLength(u)
  {
    if t != [] {
      assert (t + u)[0] == t[0] && !IsWhitespace(t[0]);
      assert (t + u)[1..] == t[1..] + u;
      assert WsFree(t[1..]) by {
        forall i | 0 <= i < |t[1..]| ensures !IsWhitespace(t[1..][i]) {
          assert t[1..][i] == t[i + 1];
        }
      }
      TokenLengthAppend(t[1..], u);
    } else {
      assert t + u == u;
    }
  }

  lemma {:induction false} FieldLengthAppend(t: string, u: string, c: char)
    requires c !in t
    ensures FieldLength(t + u, c) == |t| + FieldLength(u, c)
  {
    if t != [] {
      assert (t + u)[0] == t[0] != c;
      assert (t + u)[1..] == t[1..] + u;
      FieldLengthAppend(t[1..], u, c);
    } else {
      assert t + u == u;
    }
  }

  /** A whitespace-free head, one space, then a rest not starting with whitespace: the head is split off. */
  lemma SplitWsStep(head: string, rest: string)
    requires head != [] && WsFree(head)
    requires rest != [] && !IsWhitespace(rest[0])
    ensures SplitWs(head + (" " + rest)) == [head] + SplitWs(rest)
  {
    var s := head + (" " + rest);
    var n := |head|;
    TokenLengthAppend(head, " " + rest);
    assert s[..n] == head;
    assert s[n..] == " " + rest;
    assert SpaceLength(s[n..]) == 1;
    assert s[n + 1..] == rest;
  }

  /** A whitespace-free word is split into itself. */
  lemma SplitWsWord(t: string)
    requires WsFree(t)
    ensures SplitWs(t) == [t]
  {
    TokenLengthAppend(t, []);
    assert t + [] == t;
  }

  /**
   * Splitting at whitespace undoes joining with single spaces, when every
   * piece is non-empty and free of whitespace.
   */
  lemma {:induction false} SplitWsJoin(ts: seq<string>)
    requires |ts| >= 1
    requires forall i :: 0 <= i < |ts| ==> ts[i] != [] && WsFree(ts[i])
    ensures SplitWs(Join(ts, " ")) == ts
  {
    if |ts| == 1 {
      SplitWsWord(ts[0]);
    } else {
      var rest := Join(ts[1..], " ");
      assert Join(ts, " ") == ts[0] + (" " + rest);
      JoinFirst(ts[1..], " ");
      SplitWsStep(ts[0], rest);
      SplitWsJoin(ts[1..]);
      assert [ts[0]] + ts[1..] == ts;
    }
  }

  /** Text made of whitespace only, possibly none. */
  predicate AllWs(t: string) {
    forall k :: 0 <= k < |t| ==> IsWhitespace(t[k])
  }

  lemma {:induction false} SpaceLengthAppend(g: string, u: string)
    requires AllWs(g)
    ensures SpaceLength(g + u) == |g| + SpaceLength(u)
  {
    if g != [] {
      assert (g + u)[0] == g[0];
      assert (g + u)[1..] == g[1..] + u;
      assert AllWs(g[1..]) by {
        forall k | 0 <= k < |g[1..]| ensures IsWhitespace(g[1..][k]) {
          assert g[1..][k] == g[k + 1];
        }
      }
      SpaceLengthAppend(g[1..], u);
    } else {
      assert g + u == u;
    }
  }

  /** A whitespace-free head, a whitespace run, then a rest not starting with whitespace: the head is split off. */
  lemma SplitWsRunStep(head: string, g: string, rest: string)
    requires head != [] && WsFree(head) && IsWsRun(g)
    requires rest != [] && !IsWhitespace(rest[0])
    ensures SplitWs(head + (g + rest)) == [head] + SplitWs(rest)
  {
    var s := head + (g + rest);
    var n, m := |head|, |g|;
    TokenLengthAppend(head, g + rest);
    assert (g + rest)[0] == g[0];
    assert TokenLength(s) == n;
    assert s[n..] == g + rest;
    SpaceLengthAppend(g, rest);
    assert SpaceLength(s[n..]) == m;
    SplitWsCut(s, n, m);
    assert s[..n] == head;
    assert s[n + m..] == rest;
  }

  /** The pieces and separators, put together, start with the first piece. */
  lemma InterleaveFirst(parts: seq<string>, gaps: seq<string>)
    requires |parts| == |gaps| + 1 && parts[0] != []
    ensures Interleave(parts, gaps) != [] && Interleave(parts, gaps)[0] == parts[0][0]
  {
    if gaps != [] {
      Regroup(parts[0], gaps[0], Interleave(parts[1..], gaps[1..]));
    }
  }

  /** The pieces and separators, put together, end with the last piece. */
  lemma {:induction false} InterleaveLast(parts: seq<string>, gaps: seq<string>)
    requires |parts| == |gaps| + 1 && parts[|parts| - 1] != []
    ensures var s := Interleave(parts, gaps);
      s != [] && s[|s| - 1] == parts[|parts| - 1][|parts[|parts| - 1]| - 1]
    decreases |gaps|
  {
    if gaps != [] {
      InterleaveLast(parts[1..], gaps[1..]);
    }
  }

  /**
   * Splitting at whitespace undoes putting non-empty, whitespace-free
   * pieces together with whitespace runs between them.
   */
  lemma {:induction false} SplitWsInterleave(ts: seq<string>, gaps: seq<string>)
    requires |ts| == |gaps| + 1
    requires forall i :: 0 <= i < |ts| ==> ts[i] != [] && WsFree(ts[i])
    requires forall i :: 0 <= i < |gaps| ==> IsWsRun(gaps[i])
    ensures SplitWs(Interleave(ts, gaps)) == ts
    decreases |gaps|
  {
    if gaps == [] {
      SplitWsWord(ts[0]);
    } else {
      var rest := Interleave(ts[1..], gaps[1..]);
      Regroup(ts[0], gaps[0], rest);
      InterleaveFirst(ts[1..], gaps[1..]);
      SplitWsRunStep(ts[0], gaps[0], rest);
      SplitWsInterleave(ts[1..], gaps[1..]);
      assert [ts[0]] + ts[1..] == ts;
    }
  }

  /** `trim()` removes exactly the padding around a body that neither starts nor ends with whitespace. */
  lemma TrimPadded(lead: string, body: string, trail: string)
    requires AllWs(lead) && AllWs(trail)
    requires body != [] && !IsWhitespace(body[0]) && !IsWhitespace(body[|body| - 1])
    ensures Trim(lead + body + trail) == body
  {
    var s := lead + body + trail;
    Regroup(lead, body, trail);
    SpaceLengthAppend(lead, body + trail);
    assert (body + trail)[0] == body[0];
    assert SpaceLength(s) == |lead|;
    var r := Trim(s);
    var e := |lead| + |body| - 1;
    assert s[e] == body[|body| - 1];
    assert |r| >= |body|;
    assert forall k :: |lead| + |body| <= k < |s| ==> s[k] == trail[k - |lead| - |body|];
    assert |r| <= |body|;
    assert r == s[|lead|..|lead| + |body|];
  }

  /** A non-empty run of whitespace. */
  predicate IsWsRun(t: string) {
    t != [] && forall k :: 0 <= k < |t| ==> IsWhitespace(t[k])
  }

  /** Every separator `s.split(/\s+/)` cuts at is a non-empty whitespace run. */
  lemma {:induction false} WsRunsAreRuns(s: string)
    ensures forall i :: 0 <= i < |WsRuns(s)| ==> IsWsRun(WsRuns(s)[i])
    decreases |s|
  {
    var n := TokenLength(s);
    if n < |s| {
      var m := SpaceLength(s[n..]);
      WsRunsCut(s, n, m);
      WsRunsAreRuns(s[n + m..]);
      FirstRun(s, n, m);
      RunsCons(s[n..n + m], WsRuns(s[n + m..]));
    }
  }

  /** The whitespace right after the first piece is a run. */
  lemma FirstRun(s: string, n: nat, m: nat)
    requires n == TokenLength(s) < |s| && m == SpaceLength(s[n..])
    ensures n + m <= |s| && IsWsRun(s[n..n + m])
  {
    assert s[n..][0] == s[n];
    var t := s[n..n + m];
    forall k | 0 <= k < |t| ensures IsWhitespace(t[k]) {
      assert t[k] == s[n..][k];
    }
  }

  lemma RunsCons(g: string, gaps: seq<string>)
    requires IsWsRun(g) && forall i :: 0 <= i < |gaps| ==> IsWsRun(gaps[i])
    ensures forall i :: 0 <= i < |[g] + gaps| ==> IsWsRun(([g] + gaps)[i])
  {
    forall i | 1 <= i < |[g] + gaps| ensures IsWsRun(([g] + gaps)[i]) {
      assert ([g] + gaps)[i] == gaps[i - 1];
    }
  }

  lemma InterleaveCons(p: string, parts: seq<string>, g: string, gaps: seq<string>)
    requires |parts| == |gaps| + 1
    ensures Interleave([p] + parts, [g] + gaps) == p + g + Interleave(parts, gaps)
  {
    assert ([p] + parts)[1..] == parts && ([g] + gaps)[1..] == gaps;
  }

  /** One step of `WsRuns`: the first run is cut off. */
  lemma WsRunsCut(s: string, n: nat, m: nat)
    requires n == TokenLength(s) < |s| && m == SpaceLength(s[n..])
    ensures WsRuns(s) == [s[n..n + m]] + WsRuns(s[n + m..])
  {
  }

  /**
   * `s` is its pieces with the whitespace runs between them: one run fewer
   * than pieces, and the runs are put back exactly where they were.
   */
  lemma {:induction false} SplitWsRebuild(s: string)
    ensures |SplitWs(s)| == |WsRuns(s)| + 1
    ensures Interleave(SplitWs(s), WsRuns(s)) == s
    decreases |s|
  {
    var n := TokenLength(s);
    if n == |s| {
      assert s[..n] == s;
    } else {
      var m := SpaceLength(s[n..]);
      var rest := s[n + m..];
      SplitWsCut(s, n, m);
      WsRunsCut(s, n, m);
      SplitWsRebuild(rest);
      InterleaveCons(s[..n], SplitWs(rest), s[n..n + m], WsRuns(rest));
      SliceConcat(s, n, n + m);
    }
  }

  /** One step of `SplitWs`: the first piece is cut off. */
  lemma SplitWsCut(s: string, n: nat, m: nat)
    requires n == TokenLength(s) < |s| && m == SpaceLength(s[n..])
    ensures SplitWs(s) == [s[..n]] + SplitWs(s[n + m..])
  {
  }

  /** Concatenation regrouped; stated once so that long proofs need not find it. */
  lemma Regroup<T>(a: seq<T>, b: seq<T>, c: seq<T>)
    ensures a + (b + c) == (a + b) + c
  {
  }

  lemma SliceConcat(s: string, i: nat, j: nat)
    requires i <= j <= |s|
    ensures s[..i] + s[i..j] + s[j..] == s
  {
    assert s[..i] + s[i..j] == s[..j];
  }

  /** A field without `c`, then `c`, then a rest: the field is split off. */
  lemma SplitOnStep(head: string, rest: string, c: char)
    requires c !in head
    ensures SplitOn(head + ([c] + rest), c) == [head] + SplitOn(rest, c)
  {
    var s := head + ([c] + rest);
    var n := |head|;
    FieldLengthAppend(head, [c] + rest, c);
    assert s[..n] == head;
    assert s[n + 1..] == rest;
  }

  /** A field without `c` is split into itself. */
  lemma SplitOnField(t: string, c: char)
    requires c !in t
    ensures SplitOn(t, c) == [t]
  {
    FieldLengthAppend(t, [], c);
    assert t + [] == t;
  }

  /** Splitting at `c` undoes joining with `c`, when no field holds `c`. */
  lemma {:induction false} SplitOnJoin(fs: seq<string>, c: char)
    requires |fs| >= 1
    requires forall i :: 0 <= i < |fs| ==> c !in fs[i]
    ensures SplitOn(Join(fs, [c]), c) == fs
  {
    if |fs| == 1 {
      SplitOnField(fs[0], c);
    } else {
      var rest := Join(fs[1..], [c]);
      assert Join(fs, [c]) == fs[0] + ([c] + rest);
      SplitOnStep(fs[0], rest, c);
      SplitOnJoin(fs[1..], c);
      assert [fs[0]] + fs[1..] == fs;
    }
  }

  /** `sub` occurs in `s` starting at index `i`. */
  predicate OccursAt(s: string, sub: string, i: nat) {
    i + |sub| <= |s| && s[i..i + |sub|] == sub
  }

  predicate Contains(s: string, sub: string) {
    exists i: nat | i <= |s| :: OccursAt(s, sub, i)
  }

  /**
   * `s.replace(/pat/g, rep)` for a pattern without metacharacters: the
   * occurrences found scanning left to right, each after the previous
   * one, are replaced.
   */
  function ReplaceAll(s: string, pat: string, rep: string): string
    requires pat != []
    decreases |s|
  {
    if |s| < |pat| then s
    else if s[..|pat|] == pat then rep + ReplaceAll(s[|pat|..], pat, rep)
    else [s[0]] + ReplaceAll(s[1..], pat, rep)
  }

  /** A string in which `pat` does not occur is left as it is. */
  lemma {:induction false} ReplaceAllWithoutMatch(s: string, pat: string, rep: string)
    requires pat != []
    ensures !Contains(s, pat) ==> ReplaceAll(s, pat, rep) == s
  {
    if |s| >= |pat| && !Contains(s, pat) {
      assert !OccursAt(s, pat, 0);
      assert s[..|pat|] != pat;
      assert !Contains(s[1..], pat) by {
        forall i: nat | OccursAt(s[1..], pat, i) ensures OccursAt(s, pat, i + 1) {
          assert s[i + 1..i + 1 + |pat|] == s[1..][i..i + |pat|];
        }
      }
      ReplaceAllWithoutMatch(s[1..], pat, rep);
    }
  }

  /** A match in `s[1..]` is a match in `s`, one place later. */
  lemma ContainsTail(s: string, pat: string)
    requires s != [] && Contains(s[1..], pat)
    ensures Contains(s, pat)
  {
    var i: nat :| i <= |s[1..]| && OccursAt(s[1..], pat, i);
    assert s[i + 1..i + 1 + |pat|] == s[1..][i..i + |pat|];
    assert OccursAt(s, pat, i + 1);
  }

  lemma DropFirst<T>(x: seq<T>, y: seq<T>)
    requires x != []
    ensures (x + y)[1..] == x[1..] + y
  {
  }

  lemma SliceShift<T>(x: seq<T>, n: nat)
    requires 1 <= n <= |x|
    ensures x[..n][1..] == x[1..][..n - 1]
  {
  }

  /** One step of the scan, at a position where `pat` does not start. */
  lemma ReplaceAllSkip(a: string, pat: string, b: string, rep: string)
    requires pat != [] && a != []
    requires !Contains((a + pat)[..|a| + |pat| - 1], pat)
    ensures ReplaceAll(a + pat + b, pat, rep) == [a[0]] + ReplaceAll(a[1..] + pat + b, pat, rep)
    ensures !Contains((a[1..] + pat)[..|a[1..]| + |pat| - 1], pat)
  {
    var s := a + pat + b;
    var front := (a + pat)[..|a| + |pat| - 1];
    assert s[..|pat|] == front[..|pat|];
    assert !OccursAt(front, pat, 0);
    DropFirst(a, pat);
    DropFirst(a + pat, b);
    assert s[1..] == a[1..] + pat + b;
    SliceShift(a + pat, |a| + |pat| - 1);
    assert (a[1..] + pat)[..|a[1..]| + |pat| - 1] == front[1..];
    if Contains(front[1..], pat) {
      ContainsTail(front, pat);
    }
  }

  /**
   * The first occurrence of `pat` is replaced and the scan resumes right
   * after it: nothing before it, nor any match that starts before it and
   * overlaps it, is replaced.
   */
  lemma {:induction false} ReplaceAllFirst(a: string, pat: string, b: string, rep: string)
    requires pat != []
    requires !Contains((a + pat)[..|a| + |pat| - 1], pat)
    ensures ReplaceAll(a + pat + b, pat, rep) == a + rep + ReplaceAll(b, pat, rep)
    decreases |a|
  {
    if a == [] {
      var s := a + pat + b;
      assert s[..|pat|] == pat && s[|pat|..] == b;
    } else {
      ReplaceAllSkip(a, pat, b, rep);
      ReplaceAllFirst(a[1..], pat, b, rep);
      assert a == [a[0]] + a[1..];
    }
  }

  predicate EndsWith(s: string, suffix: string) {
    |suffix| <= |s| && s[|s| - |suffix|..] == suffix
  }

  /**
   * When the last character of `pat` comes nowhere else in `pat` but first,
   * a match starting inside `p` and running into a `pat` after it would
   * make `p` end with all of `pat` but its last character.
   */
  lemma NoMatchAcross(p: string, pat: string)
    requires |pat| >= 2
    requires forall i :: 0 < i < |pat| - 1 ==> pat[i] != pat[|pat| - 1]
    requires !Contains(p, pat) && !EndsWith(p, pat[..|pat| - 1])
    ensures !Contains((p + pat)[..|p| + |pat| - 1], pat)
  {
    var front := (p + pat)[..|p| + |pat| - 1];
    forall j: nat | j + |pat| <= |p| ensures !OccursAt(front, pat, j) {
      assert front[j..j + |pat|] == p[j..j + |pat|];
      assert !OccursAt(p, pat, j);
    }
    forall j: nat | |p| < j + |pat| <= |front| ensures !OccursAt(front, pat, j) {
      var k := j + |pat| - 1;
      if k == |p| {
        assert front[j..k] == p[j..];
      } else {
        assert front[k] == pat[k - |p|];
      }
    }
  }

  /** `NoMatchAcross` for every piece. */
  lemma NoMatchAcrossAll(pieces: seq<string>, pat: string)
    requires |pat| >= 2
    requires forall i :: 0 < i < |pat| - 1 ==> pat[i] != pat[|pat| - 1]
    requires forall i :: 0 <= i < |pieces| ==> !Contains(pieces[i], pat) && !EndsWith(pieces[i], pat[..|pat| - 1])
    ensures forall i :: 0 <= i < |pieces| ==> !Contains((pieces[i] + pat)[..|pieces[i]| + |pat| - 1], pat)
  {
    forall i | 0 <= i < |pieces| ensures !Contains((pieces[i] + pat)[..|pieces[i]| + |pat| - 1], pat) {
      NoMatchAcross(pieces[i], pat);
    }
  }

  /** A match in a prefix of `s` is a match in `s`. */
  lemma ContainsPrefix(s: string, k: nat, pat: string)
    requires k <= |s| && Contains(s[..k], pat)
    ensures Contains(s, pat)
  {
    var i: nat :| i <= |s[..k]| && OccursAt(s[..k], pat, i);
    assert s[i..i + |pat|] == s[..k][i..i + |pat|];
    assert OccursAt(s, pat, i);
  }

  /**
   * Pieces joined around `pat` get `rep` in place of every `pat`, when no
   * match of `pat` starts inside a piece, whether it ends there or runs
   * into the `pat` after it.
   */
  lemma {:induction false} ReplaceAllJoin(pieces: seq<string>, pat: string, rep: string)
    requires pat != []
    requires forall i :: 0 <= i < |pieces| ==> !Contains((pieces[i] + pat)[..|pieces[i]| + |pat| - 1], pat)
    ensures ReplaceAll(Join(pieces, pat), pat, rep) == Join(pieces, rep)
  {
    if |pieces| == 0 {
    } else if |pieces| == 1 {
      var p := pieces[0];
      var front := (p + pat)[..|p| + |pat| - 1];
      assert p == front[..|p|];
      if Contains(p, pat) {
        ContainsPrefix(front, |p|, pat);
      }
      ReplaceAllWithoutMatch(p, pat, rep);
    } else {
      var p := pieces[0];
      ReplaceAllFirst(p, pat, Join(pieces[1..], pat), rep);
      ReplaceAllJoin(pieces[1..], pat, rep);
      Regroup(p, pat, Join(pieces[1..], pat));
      Regroup(p, rep, Join(pieces[1..], rep));
    }
  }

  /** A string that neither starts nor ends with whitespace is its own `trim()`. */
  lemma TrimKeeps(s: string)
    requires s != [] && !IsWhitespace(s[0]) && !IsWhitespace(s[|s| - 1])
    ensures Trim(s) == s
  {
    assert SpaceLength(s) == 0;
    assert s[0..] == s;
  }

  lemma JoinPair(a: string, b: string, sep: string)
    ensures Join([a, b], sep) == a + sep + b
  {
    assert [a, b][1..] == [b];
  }

  /** A join starts with the first piece's first character. */
  lemma JoinFirst(ts: seq<string>, sep: string)
    requires |ts| >= 1 && ts[0] != []
    ensures Join(ts, sep) != [] && Join(ts, sep)[0] == ts[0][0]
  {
  }

  /** A join ends with the last piece's last character. */
  lemma {:induction false} JoinLast(ts: seq<string>, sep: string)
    requires |ts| >= 1 && ts[|ts| - 1] != []
    ensures var s := Join(ts, sep); s != [] && s[|s| - 1] == ts[|ts| - 1][|ts[|ts| - 1]| - 1]
  {
    if |ts| > 1 {
      JoinLast(ts[1..], sep);
    }
  }
}
