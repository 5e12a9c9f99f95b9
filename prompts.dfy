/** The prompt library (src/components/views/PromptsView.tsx): detecting the
    `{{name}}` placeholders of a template, filling them in before copying,
    counting uses, saving from the editor and ordering the list. */
module Prompts {
  import opened Common
  import opened Types
  import opened Store

  // ---------------------------------------------------------------------------
  // Placeholders
  // ---------------------------------------------------------------------------

  /** The regular-expression class `\w`. */
  predicate IsWordChar(c: char) {
    'a' <= c <= 'z' || 'A' <= c <= 'Z' || '0' <= c <= '9' || c == '_'
  }

  /** What `\w+` matches in full: a non-empty run of word characters. */
  predicate IsName(v: string) {
    |v| > 0 && forall i :: 0 <= i < |v| ==> IsWordChar(v[i])
  }

  function Placeholder(v: string): string {
    "{{" + v + "}}"
  }

  /** The longest run of word characters at the start of `s` (greedy `\w+`). */
  function WordRun(s: string): (w: string)
    ensures |w| <= |s| && w == s[..|w|]
    ensures forall i :: 0 <= i < |w| ==> IsWordChar(w[i])
    ensures |w| == |s| || !IsWordChar(s[|w|])
  {
    if s != [] && IsWordChar(s[0]) then [s[0]] + WordRun(s[1..]) else []
  }

  /** A run of word characters ended by a non-word character is what `WordRun` finds. */
  lemma {:induction false} WordRunOf(s: string, v: string)
    requires |v| < |s| && s[..|v|] == v
    requires forall i :: 0 <= i < |v| ==> IsWordChar(v[i])
    requires !IsWordChar(s[|v|])
    ensures WordRun(s) == v
  {
    if v != [] {
      WordRunOf(s[1..], v[1..]);
    }
  }

  /** The name of the match of `/\{\{(\w+)\}\}/` that starts at the first
      character of `s`, if there is one. */
  function PlaceholderAt(s: string): (r: Option<string>)
    ensures r.Some? ==> IsName(r.value) && StartsWith(s, Placeholder(r.value))
  {
    if |s| >= 2 && s[0] == '{' && s[1] == '{' then
      var w := WordRun(s[2..]);
      if |w| > 0 && |w| + 4 <= |s| && s[|w| + 2] == '}' && s[|w| + 3] == '}' then
        assert s[..|w| + 4] == Placeholder(w);
        Some(w)
      else None
    else None
  }

  /** A placeholder of a name at the start of `s` is matched there. */
  lemma PlaceholderAtFinds(s: string, v: string)
    requires IsName(v) && StartsWith(s, Placeholder(v))
    ensures PlaceholderAt(s) == Some(v)
  {
    var p := Placeholder(v);
    assert s[..|p|] == p;
    assert s[2..][..|v|] == p[2..2 + |v|] == v;
    assert s[2..][|v|] == p[|v| + 2] == '}';
    WordRunOf(s[2..], v);
  }

  /** The names of the matches of `content.match(/\{\{(\w+)\}\}/g)`, left to right:
      the scan tries each position in turn and, after a match, resumes behind it. */
  function MatchNames(s: string): seq<string>
    decreases |s|
  {
    if s == [] then []
    else match PlaceholderAt(s)
      case Some(v) => [v] + MatchNames(s[|v| + 4..])
      case None => MatchNames(s[1..])
  }

  /** The matched texts themselves, as `match` returns them. */
  function GlobalMatch(s: string): (m: seq<string>)
    ensures |m| == |MatchNames(s)|
  {
    var names := MatchNames(s);
    seq(|names|, i requires 0 <= i < |names| => Placeholder(names[i]))
  }

  /** `m.replace(/\{\{|\}\}/g, '')`: drops every `{{` and `}}`, scanning left to right. */
  function StripBraces(s: string): string
    decreases |s|
  {
    if |s| >= 2 && (s[..2] == "{{" || s[..2] == "}}") then StripBraces(s[2..])
    else if s == [] then []
    else [s[0]] + StripBraces(s[1..])
  }

  lemma {:induction false} StripBracesOfName(v: string)
    requires forall i :: 0 <= i < |v| ==> IsWordChar(v[i])
    ensures StripBraces(v + "}}") == v
  {
    if v == [] {
      assert StripBraces("") == "";
    } else {
      assert (v + "}}")[0] == v[0];
      assert (v + "}}")[1..] == v[1..] + "}}";
      StripBracesOfName(v[1..]);
    }
  }

  /** Stripping a matched placeholder gives back its name. */
  lemma StripPlaceholder(v: string)
    requires IsName(v)
    ensures StripBraces(Placeholder(v)) == v
  {
    assert Placeholder(v)[2..] == v + "}}";
    StripBracesOfName(v);
  }

  // ---------------------------------------------------------------------------
  // Removing duplicates, first occurrence first (`[...new Set(xs)]`)
  // ---------------------------------------------------------------------------

  /** Position of the first occurrence of `x` in `xs`. */
  function IndexOf(xs: seq<string>, x: string): (k: nat)
    requires x in xs
    ensures k < |xs| && xs[k] == x && x !in xs[..k]
  {
    if xs[0] == x then 0 else 1 + IndexOf(xs[1..], x)
  }

  lemma {:induction false} IndexOfInPrefix(xs: seq<string>, y: string, x: string)
    requires x in xs
    ensures IndexOf(xs + [y], x) == IndexOf(xs, x)
  {
    if xs[0] != x {
      assert (xs + [y])[1..] == xs[1..] + [y];
      IndexOfInPrefix(xs[1..], y, x);
    }
  }

  lemma IndexOfFirstTime(xs: seq<string>, y: string)
    requires y !in xs
    ensures IndexOf(xs + [y], y) == |xs|
  {
    assert forall i :: 0 <= i < |xs| ==> (xs + [y])[i] == xs[i];
  }

  /** `[...new Set(xs)]`: each element once, in the order of its first occurrence. */
  function Dedup(xs: seq<string>): (r: seq<string>)
    ensures forall i, j :: 0 <= i < j < |r| ==> r[i] != r[j]
    ensures forall x :: x in r <==> x in xs
    ensures forall i, j :: 0 <= i < j < |r| ==> IndexOf(xs, r[i]) < IndexOf(xs, r[j])
    decreases |xs|
  {
    if xs == [] then []
    else
      var init, last := xs[..|xs| - 1], xs[|xs| - 1];
      assert xs == init + [last];
      var d := Dedup(init);
      IndexOfFirstTimeAll(init, last, d);
      if last in d then d else d + [last]
  }

  /** The first occurrences of the elements of `d` are unaffected by appending. */
  lemma IndexOfFirstTimeAll(init: seq<string>, last: string, d: seq<string>)
    requires forall x :: x in d ==> x in init
    ensures forall i :: 0 <= i < |d| ==> IndexOf(init + [last], d[i]) == IndexOf(init, d[i])
    ensures last !in init ==> IndexOf(init + [last], last) == |init|
  {
    forall i | 0 <= i < |d| ensures IndexOf(init + [last], d[i]) == IndexOf(init, d[i]) {
      IndexOfInPrefix(init, last, d[i]);
    }
    if last !in init {
      IndexOfFirstTime(init, last);
    }
  }

  // ---------------------------------------------------------------------------
  // Variable detection in the editor
  // ---------------------------------------------------------------------------

  /** `detectedVariables`: the names of the placeholders in the content, each once,
      in order of first appearance. */
  function DetectVariables(content: string): seq<string> {
    var m := GlobalMatch(content);
    Dedup(seq(|m|, i requires 0 <= i < |m| => StripBraces(m[i])))
  }

  /** Stripping the braces of the matched texts gives back the matched names. */
  lemma DetectVariablesIsDedup(content: string)
    ensures DetectVariables(content) == Dedup(MatchNames(content))
  {
    var names := MatchNames(content);
    var m := GlobalMatch(content);
    var stripped := seq(|m|, i requires 0 <= i < |m| => StripBraces(m[i]));
    MatchNamesSound(content);
    forall i | 0 <= i < |names| ensures stripped[i] == names[i] {
      StripPlaceholder(names[i]);
    }
    assert stripped == names;
  }

  /** Every name the scan reports is a name whose placeholder occurs. */
  lemma {:induction false} MatchNamesSound(s: string)
    ensures forall i :: 0 <= i < |MatchNames(s)| ==>
      IsName(MatchNames(s)[i]) && Contains(s, Placeholder(MatchNames(s)[i]))
    decreases |s|
  {
    if s != [] {
      match PlaceholderAt(s)
      case Some(v) =>
        var rest := s[|v| + 4..];
        MatchNamesSound(rest);
        ContainsAt(s, Placeholder(v), 0);
        forall i | 0 <= i < |MatchNames(rest)| ensures Contains(s, Placeholder(MatchNames(rest)[i])) {
          ContainsInSuffix(s, |v| + 4, Placeholder(MatchNames(rest)[i]));
        }
      case None =>
        MatchNamesSound(s[1..]);
        forall i | 0 <= i < |MatchNames(s[1..])| ensures Contains(s, Placeholder(MatchNames(s[1..])[i])) {
          ContainsInSuffix(s, 1, Placeholder(MatchNames(s[1..])[i]));
        }
    }
  }

  lemma ContainsInSuffix(s: string, k: nat, p: string)
    requires k <= |s| && Contains(s[k..], p)
    ensures Contains(s, p)
  {
    var j := ContainsWitness(s[k..], p);
    assert s[k + j..k + j + |p|] == s[k..][j..j + |p|];
    ContainsAt(s, p, k + j);
  }

  /** What a match `{{w}}` at the start of `s` consists of, position by position. */
  lemma PlaceholderAtShape(s: string, w: string)
    requires PlaceholderAt(s) == Some(w)
    ensures |w| + 4 <= |s| && s[|w| + 2] == '}' && s[|w| + 3] == '}'
    ensures forall j :: 2 <= j < |w| + 2 ==> IsWordChar(s[j])
  {
    var t := s[2..];
    assert WordRun(t) == w;
    forall j | 2 <= j < |w| + 2 ensures IsWordChar(s[j]) {
      assert s[j] == t[j - 2] == w[j - 2];
    }
  }

  /** Inside a match `{{w}}`, two opening braces stand only at its start. */
  lemma MatchEndsBeforeBraces(s: string, w: string, k: nat)
    requires PlaceholderAt(s) == Some(w) && 0 < k && k + 1 < |s| && s[k] == '{' && s[k + 1] == '{'
    ensures k >= |w| + 4
  {
    PlaceholderAtShape(s, w);
  }

  /** Every occurrence of a placeholder is reported: an occurrence never starts
      inside an earlier match, since inside a match `{{` appears only at its start. */
  lemma {:induction false} MatchNamesComplete(s: string, k: nat, v: string)
    requires IsName(v) && k + |v| + 4 <= |s| && s[k..k + |v| + 4] == Placeholder(v)
    ensures v in MatchNames(s)
    decreases |s|
  {
    if k == 0 {
      PlaceholderAtFinds(s, v);
    } else {
      var skip := MatchNamesSkip(s);
      if PlaceholderAt(s).Some? {
        PlaceholderOpens(s, k, v);
        MatchEndsBeforeBraces(s, PlaceholderAt(s).value, k);
      }
      SliceOfSuffix(s, skip, k, |v| + 4);
      MatchNamesComplete(s[skip..], k - skip, v);
    }
  }

  /** An occurrence of a placeholder starts with two opening braces. */
  lemma PlaceholderOpens(s: string, k: nat, v: string)
    requires k + |v| + 4 <= |s| && s[k..k + |v| + 4] == Placeholder(v)
    ensures s[k] == '{' && s[k + 1] == '{'
  {
    assert s[k] == s[k..k + |v| + 4][0] && s[k + 1] == s[k..k + |v| + 4][1];
  }

  /** Where the scan goes on from the start of `s`: behind the match there, or
      one character on. Everything it reports later is reported for `s`. */
  lemma MatchNamesSkip(s: string) returns (skip: nat)
    requires s != []
    ensures 0 < skip <= |s|
    ensures PlaceholderAt(s).Some? ==> skip == |PlaceholderAt(s).value| + 4
    ensures PlaceholderAt(s).None? ==> skip == 1
    ensures forall v :: v in MatchNames(s[skip..]) ==> v in MatchNames(s)
  {
    match PlaceholderAt(s)
    case Some(w) =>
      skip := |w| + 4;
      assert MatchNames(s) == [w] + MatchNames(s[skip..]);
    case None =>
      skip := 1;
  }

  lemma SliceOfSuffix(s: string, a: nat, k: nat, n: nat)
    requires a <= k && k + n <= |s|
    ensures s[a..][k - a..k - a + n] == s[k..k + n]
  {
  }

  /** The detected variables are exactly the names whose placeholder occurs in the
      content. */
  lemma DetectVariablesExactly(content: string, v: string)
    ensures v in DetectVariables(content) <==> IsName(v) && Contains(content, Placeholder(v))
  {
    DetectVariablesIsDedup(content);
    MatchNamesSound(content);
    if IsName(v) && Contains(content, Placeholder(v)) {
      var k := ContainsWitness(content, Placeholder(v));
      MatchNamesComplete(content, k, v);
    }
  }

  /** Each detected variable is listed once. */
  lemma DetectVariablesDistinct(content: string)
    ensures forall i, j :: 0 <= i < j < |DetectVariables(content)| ==>
      DetectVariables(content)[i] != DetectVariables(content)[j]
  {
  }

  /** `{{b}}{{a}}{{b}}` has the variables `b` and `a`: a repeat is dropped and the
      order of first appearance kept. */
  lemma DetectVariablesRepeat(a: string, b: string)
    requires IsName(a) && IsName(b) && a != b
    ensures DetectVariables(Placeholder(b) + Placeholder(a) + Placeholder(b)) == [b, a]
  {
    var s := Placeholder(b) + Placeholder(a) + Placeholder(b);
    var t := Placeholder(a) + Placeholder(b);
    assert s[..|b| + 4] == Placeholder(b) && s[|b| + 4..] == t;
    MatchNamesAfterPlaceholder(s, b);
    assert t[..|a| + 4] == Placeholder(a) && t[|a| + 4..] == Placeholder(b);
    MatchNamesAfterPlaceholder(t, a);
    assert Placeholder(b)[..|b| + 4] == Placeholder(b);
    MatchNamesAfterPlaceholder(Placeholder(b), b);
    assert Placeholder(b)[|b| + 4..] == [];
    assert MatchNames(s) == [b, a, b];
    DetectVariablesIsDedup(s);
    DedupDropsRepeat(a, b);
  }

  lemma DedupDropsRepeat(a: string, b: string)
    requires a != b
    ensures Dedup([b, a, b]) == [b, a]
  {
    DedupPair(a, b);
    assert [b, a, b][..2] == [b, a];
  }

  lemma DedupPair(a: string, b: string)
    requires a != b
    ensures Dedup([b, a]) == [b, a]
  {
    DedupSingle(b);
    assert [b, a][..1] == [b];
  }

  lemma DedupSingle(b: string)
    ensures Dedup([b]) == [b]
  {
    assert [b][..0] == [];
  }

  /** In `{{{a}}}`, the first and last braces are plain text. */
  lemma DetectVariablesExtraBraces(a: string)
    requires IsName(a)
    ensures DetectVariables("{" + Placeholder(a) + "}") == [a]
  {
    var s := "{" + Placeholder(a) + "}";
    assert s[2..][0] == '{';
    assert PlaceholderAt(s) == None;
    assert s[1..][..|a| + 4] == Placeholder(a) && s[1..][|a| + 4..] == "}";
    MatchNamesAfterPlaceholder(s[1..], a);
    assert MatchNames("}") == [];
    DetectVariablesIsDedup(s);
    assert [a][..0] == [];
  }

  /** After a match, the scan resumes right behind it. */
  lemma MatchNamesAfterPlaceholder(s: string, v: string)
    requires IsName(v) && StartsWith(s, Placeholder(v))
    ensures MatchNames(s) == [v] + MatchNames(s[|v| + 4..])
  {
    PlaceholderAtFinds(s, v);
  }

  // ---------------------------------------------------------------------------
  // Filling in the variables before copying
  // ---------------------------------------------------------------------------

  /** `s.replace(pattern, replacement)` for a global pattern that matches the
      literal text `pat`: every occurrence, left to right, without overlaps. */
  function ReplaceAll(s: string, pat: string, rep: string): string
    requires pat != []
    decreases |s|
  {
    if |s| < |pat| then s
    else if s[..|pat|] == pat then rep + ReplaceAll(s[|pat|..], pat, rep)
    else [s[0]] + ReplaceAll(s[1..], pat, rep)
  }

  /** Replacing a text by itself changes nothing. */
  lemma {:induction false} ReplaceAllBySelf(s: string, pat: string)
    requires pat != []
    ensures ReplaceAll(s, pat, pat) == s
    decreases |s|
  {
    if |s| >= |pat| {
      if s[..|pat|] == pat {
        ReplaceAllBySelf(s[|pat|..], pat);
        assert s == pat + s[|pat|..];
      } else {
        ReplaceAllBySelf(s[1..], pat);
        assert s == [s[0]] + s[1..];
      }
    }
  }

  /** Where the text does not occur, nothing is replaced. */
  lemma {:induction false} ReplaceAllAbsent(s: string, pat: string, rep: string)
    requires pat != [] && !Contains(s, pat)
    ensures ReplaceAll(s, pat, rep) == s
    decreases |s|
  {
    if |s| >= |pat| {
      assert s[..|pat|] != pat;
      ReplaceAllAbsent(s[1..], pat, rep);
      assert s == [s[0]] + s[1..];
    }
  }

  /** `variableValues[v] || '{{v}}'`: an unset or empty value leaves the placeholder. */
  function ValueFor(values: map<string, string>, v: string): (r: string)
    ensures r != []
    ensures v in values && values[v] != "" ==> r == values[v]
  {
    if v in values && values[v] != "" then values[v] else Placeholder(v)
  }

  /** The text the copy button produces: each variable in turn, in the order
      listed, has every occurrence of its placeholder replaced by its value. */
  function Fill(content: string, vars: seq<string>, values: map<string, string>): string
    decreases |vars|
  {
    if vars == [] then content
    else Fill(ReplaceAll(content, Placeholder(vars[0]), ValueFor(values, vars[0])), vars[1..], values)
  }

  /** With no values entered, the copied text is the template itself. */
  lemma {:induction false} FillWithoutValues(content: string, vars: seq<string>)
    ensures Fill(content, vars, map[]) == content
    decreases |vars|
  {
    if vars != [] {
      ReplaceAllBySelf(content, Placeholder(vars[0]));
      FillWithoutValues(content, vars[1..]);
    }
  }

  /** Variables whose placeholder is absent leave the text alone. */
  lemma {:induction false} FillAbsentVariables(content: string, vars: seq<string>, values: map<string, string>)
    requires forall i :: 0 <= i < |vars| ==> !Contains(content, Placeholder(vars[i]))
    ensures Fill(content, vars, values) == content
    decreases |vars|
  {
    if vars != [] {
      ReplaceAllAbsent(content, Placeholder(vars[0]), ValueFor(values, vars[0]));
      FillAbsentVariables(content, vars[1..], values);
    }
  }

  /** A placeholder never overlaps itself: no proper suffix of it is also a
      prefix of it, since only its first two characters are opening braces. */
  lemma PlaceholderNoSelfOverlap(v: string, d: nat)
    requires IsName(v) && 0 < d < |Placeholder(v)|
    ensures Placeholder(v)[d..] != Placeholder(v)[..|Placeholder(v)| - d]
  {
    var p := Placeholder(v);
    if d == |p| - 1 {
      assert p[d..][0] == p[d] == '}';
      assert p[..|p| - d][0] == '{';
    } else {
      assert p[..|p| - d][1] == '{';
      assert p[d..][1] == p[d + 1];
      if d + 1 < |v| + 2 {
        assert p[d + 1] == v[d - 1];
        assert IsWordChar(v[d - 1]);
      } else {
        assert p[d + 1] == '}';
      }
    }
  }

  /** A text that does not contain the pattern has no match at any position. */
  lemma {:induction false} NoMatchAt(s: string, pat: string, k: nat)
    requires !Contains(s, pat) && k <= |s|
    ensures !StartsWith(s[k..], pat)
    decreases k
  {
    if k == 0 {
      assert s[k..] == s;
    } else {
      assert s[1..][k - 1..] == s[k..];
      NoMatchAt(s[1..], pat, k - 1);
    }
  }

  /** Text in which no match of the pattern starts is passed over unchanged. */
  lemma {:induction false} ReplaceAllSkips(a: string, b: string, pat: string, rep: string)
    requires pat != []
    requires forall i :: 0 <= i < |a| ==> !StartsWith((a + b)[i..], pat)
    ensures ReplaceAll(a + b, pat, rep) == a + ReplaceAll(b, pat, rep)
    decreases |a|
  {
    if a != [] {
      var s := a + b;
      var t := ReplaceAll(b, pat, rep);
      assert s[1..] == a[1..] + b;
      forall j | 0 <= j < |a[1..]|
        ensures !StartsWith((a[1..] + b)[j..], pat)
      {
        assert (a[1..] + b)[j..] == s[j + 1..];
      }
      ReplaceAllSkips(a[1..], b, pat, rep);
      if |s| < |pat| {
        assert t == b;
      } else {
        assert s[0..] == s;
        assert ReplaceAll(s, pat, rep) == [a[0]] + ReplaceAll(a[1..] + b, pat, rep);
        assert [a[0]] + (a[1..] + t) == a + t;
      }
    } else {
      assert a + b == b;
    }
  }

  /** In a piece without the placeholder, followed by the placeholder, no match
      starts inside the piece: one reaching into the placeholder would make the
      placeholder overlap itself. */
  lemma NoMatchInPiece(a: string, t: string, v: string)
    requires IsName(v) && !Contains(a, Placeholder(v))
    ensures forall i :: 0 <= i < |a| ==> !StartsWith((a + (Placeholder(v) + t))[i..], Placeholder(v))
  {
    var p := Placeholder(v);
    var s := a + (p + t);
    forall i | 0 <= i < |a|
      ensures !StartsWith(s[i..], p)
    {
      if i + |p| <= |a| {
        assert s[i..][..|p|] == a[i..][..|p|];
        NoMatchAt(a, p, i);
      } else if i + |p| <= |s| {
        var d := |a| - i;
        assert s[i..][..|p|][d..] == (p + t)[..|p| - d] == p[..|p| - d];
        PlaceholderNoSelfOverlap(v, d);
        assert s[i..][..|p|][d..] != p[d..];
      }
    }
  }

  /** Every occurrence of a placeholder is replaced: a text made of pieces that
      do not contain the placeholder, separated by it, becomes the same pieces
      separated by the replacement. */
  lemma {:induction false} ReplaceAllJoined(pieces: seq<string>, v: string, rep: string)
    requires IsName(v) && |pieces| >= 1
    requires forall i :: 0 <= i < |pieces| ==> !Contains(pieces[i], Placeholder(v))
    ensures ReplaceAll(Join(pieces, Placeholder(v)), Placeholder(v), rep) == Join(pieces, rep)
    decreases |pieces|
  {
    var p := Placeholder(v);
    if |pieces| == 1 {
      ReplaceAllAbsent(pieces[0], p, rep);
    } else {
      var rest := Join(pieces[1..], p);
      assert Join(pieces, p) == pieces[0] + (p + rest);
      NoMatchInPiece(pieces[0], rest, v);
      ReplaceAllSkips(pieces[0], p + rest, p, rep);
      assert (p + rest)[..|p|] == p && (p + rest)[|p|..] == rest;
      ReplaceAllJoined(pieces[1..], v, rep);
      assert Join(pieces, rep) == pieces[0] + (rep + Join(pieces[1..], rep));
    }
  }

  /** Filling in one variable replaces every occurrence of its placeholder by its
      value (or by the placeholder again when none is typed); the code as written
      does the same for a name that is not all digits. */
  lemma FillEveryOccurrence(pieces: seq<string>, v: string, values: map<string, string>)
    requires IsName(v) && |pieces| >= 1
    requires forall i :: 0 <= i < |pieces| ==> !Contains(pieces[i], Placeholder(v))
    ensures Fill(Join(pieces, Placeholder(v)), [v], values) == Join(pieces, ValueFor(values, v))
    ensures !AllDigits(v) ==>
      FillAsWritten(Join(pieces, Placeholder(v)), [v], values) == Join(pieces, ValueFor(values, v))
  {
    ReplaceAllJoined(pieces, v, ValueFor(values, v));
    assert [v][1..] == [];
    if !AllDigits(v) {
      FillAsWrittenAgrees(Join(pieces, Placeholder(v)), [v], values);
    }
  }

  /** The source builds each pattern as `new RegExp('{{' + v + '}}', 'g')`. Braces
      are literal in such a pattern unless they spell a quantifier: for a name of
      digits only, `{{7}}` reads as `{` repeated seven times followed by `}`. */
  predicate AllDigits(v: string) {
    forall i :: 0 <= i < |v| ==> '0' <= v[i] <= '9'
  }

  function DecimalValue(v: string): nat
    requires AllDigits(v)
    decreases |v|
  {
    if v == [] then 0 else DecimalValue(v[..|v| - 1]) * 10 + (v[|v| - 1] as int - '0' as int)
  }

  function Repeat(c: char, n: nat): (r: string)
    ensures |r| == n && forall i :: 0 <= i < n ==> r[i] == c
  {
    if n == 0 then [] else [c] + Repeat(c, n - 1)
  }

  /** The text that pattern actually matches. */
  function PatternAsWritten(v: string): (p: string)
    requires IsName(v)
    ensures p != []
    ensures !AllDigits(v) ==> p == Placeholder(v)
  {
    if AllDigits(v) then Repeat('{', DecimalValue(v)) + "}" else Placeholder(v)
  }

  /** `handleCopyWithVariables` as written. */
  function FillAsWritten(content: string, vars: seq<string>, values: map<string, string>): string
    requires forall i :: 0 <= i < |vars| ==> IsName(vars[i])
    decreases |vars|
  {
    if vars == [] then content
    else FillAsWritten(ReplaceAll(content, PatternAsWritten(vars[0]), ValueFor(values, vars[0])), vars[1..], values)
  }

  /** For names that are not all digits, the pattern as written is the placeholder. */
  lemma {:induction false} FillAsWrittenAgrees(content: string, vars: seq<string>, values: map<string, string>)
    requires forall i :: 0 <= i < |vars| ==> IsName(vars[i]) && !AllDigits(vars[i])
    ensures FillAsWritten(content, vars, values) == Fill(content, vars, values)
    decreases |vars|
  {
    if vars != [] {
      FillAsWrittenAgrees(ReplaceAll(content, Placeholder(vars[0]), ValueFor(values, vars[0])), vars[1..], values);
    }
  }

  /** The template `{{0}}` is detected as having the variable `0`; copying it with
      no value entered should give back `{{0}}`, but the pattern as written is
      `}` and every closing brace is replaced by `{{0}}`. */
  lemma DigitNameCounterexample()
    ensures DetectVariables("{{0}}") == ["0"]
    ensures FillAsWritten("{{0}}", ["0"], map[]) == "{{0{{0}}{{0}}"
    ensures Fill("{{0}}", ["0"], map[]) == "{{0}}"
  {
    DigitNameDetected();
    DigitNamePattern();
    ReplaceClosingBraces();
    FillWithoutValues("{{0}}", ["0"]);
  }

  lemma DigitNameDetected()
    ensures DetectVariables("{{0}}") == ["0"]
  {
    assert "{{0}}"[..5] == Placeholder("0");
    PlaceholderAtFinds("{{0}}", "0");
    assert MatchNames("{{0}}") == ["0"];
    DetectVariablesIsDedup("{{0}}");
  }

  lemma DigitNamePattern()
    ensures PatternAsWritten("0") == "}"
  {
    assert DecimalValue("0") == 0;
  }

  lemma ReplaceClosingBraces()
    ensures ReplaceAll("{{0}}", "}", Placeholder("0")) == "{{0{{0}}{{0}}"
  {
    var p := Placeholder("0");
    assert ReplaceAll("}", "}", p) == p;
    assert ReplaceAll("}}", "}", p) == p + p;
    assert ReplaceAll("0}}", "}", p) == "0" + p + p;
    assert ReplaceAll("{0}}", "}", p) == "{0" + p + p;
  }

  /** The loop of `handleCopyWithVariables`, with each placeholder matched
      literally: the corrected fill. */
  method FillTemplate(content: string, vars: seq<string>, values: map<string, string>) returns (filled: string)
    ensures filled == Fill(content, vars, values)
  {
    filled := content;
    var rest := vars;
    while rest != []
      invariant Fill(filled, rest, values) == Fill(content, vars, values)
      decreases |rest|
    {
      filled := ReplaceAll(filled, Placeholder(rest[0]), ValueFor(values, rest[0]));
      rest := rest[1..];
    }
  }

  /** The loop of `handleCopyWithVariables` as written, each pattern read as the
      regular expression the source builds. */
  method FillTemplateAsWritten(content: string, vars: seq<string>, values: map<string, string>) returns (filled: string)
    requires forall i :: 0 <= i < |vars| ==> IsName(vars[i])
    ensures filled == FillAsWritten(content, vars, values)
  {
    filled := content;
    var rest := vars;
    while rest != []
      invariant forall k :: 0 <= k < |rest| ==> IsName(rest[k])
      invariant FillAsWritten(filled, rest, values) == FillAsWritten(content, vars, values)
      decreases |rest|
    {
      filled := ReplaceAll(filled, PatternAsWritten(rest[0]), ValueFor(values, rest[0]));
      rest := rest[1..];
    }
  }

  // ---------------------------------------------------------------------------
  // A prompt card: copying, with or without the variable form
  // ---------------------------------------------------------------------------

  /** The card of one prompt, with its variable form. */
  class PromptCard {
    const prompt: Prompt
    var showVariableForm: bool
    var values: map<string, string>

    constructor(p: Prompt)
      ensures prompt == p && !showVariableForm && values == map[]
    {
      prompt := p;
      showVariableForm := false;
      values := map[];
    }

    /** `handleCopy`: a prompt with variables opens the form and copies nothing;
        one without is copied as it is and its use is counted. */
    method HandleCopy(store: AppStore, now: Time) returns (copied: Option<string>)
      requires store.Valid()
      modifies this, store
      ensures store.Valid()
      ensures copied.Some? <==> |prompt.variables| == 0
      ensures copied.Some? ==> (copied.value == prompt.content && showVariableForm == old(showVariableForm)
        && store.Snapshot() == old(store.Snapshot()).(prompts := UsageIncremented(old(store.prompts), prompt.id, now)))
      ensures copied.None? ==> showVariableForm && store.Snapshot() == old(store.Snapshot())
      ensures values == old(values)
    {
      if |prompt.variables| > 0 {
        showVariableForm := true;
        return None;
      }
      store.IncrementPromptUsage(prompt.id, now);
      return Some(prompt.content);
    }

    /** Typing into the field of variable `v`. */
    method SetValue(v: string, text: string)
      modifies this
      ensures values == old(values)[v := text] && showVariableForm == old(showVariableForm)
    {
      values := values[v := text];
    }

    /** Cancel: the form closes and the values typed so far are kept. */
    method CloseForm()
      modifies this
      ensures !showVariableForm && values == old(values)
    {
      showVariableForm := false;
    }

    /** `handleCopyWithVariables`: copies the template filled in as written,
        counts the use, closes the form and forgets the values. The variables are
        names, as the editor detects them. */
    method HandleCopyWithVariables(store: AppStore, now: Time) returns (text: string)
      requires store.Valid()
      requires forall i :: 0 <= i < |prompt.variables| ==> IsName(prompt.variables[i])
      modifies this, store
      ensures store.Valid()
      ensures text == FillAsWritten(prompt.content, prompt.variables, old(values))
      ensures (forall i :: 0 <= i < |prompt.variables| ==> !AllDigits(prompt.variables[i])) ==>
        text == Fill(prompt.content, prompt.variables, old(values))
      ensures store.Snapshot() == old(store.Snapshot()).(prompts := UsageIncremented(old(store.prompts), prompt.id, now))
      ensures !showVariableForm && values == map[]
    {
      text := FillTemplateAsWritten(prompt.content, prompt.variables, values);
      if forall i :: 0 <= i < |prompt.variables| ==> !AllDigits(prompt.variables[i]) {
        FillAsWrittenAgrees(prompt.content, prompt.variables, values);
      }
      store.IncrementPromptUsage(prompt.id, now);
      showVariableForm := false;
      values := map[];
    }
  }

  /** Submitting the form with no values typed copies the template filled in as
      written; when no variable name is all digits that is the template
      unchanged, exactly as a prompt without variables is copied. */
  method CopyUntouchedForm(store: AppStore, p: Prompt, now: Time) returns (text: string)
    requires store.Valid() && |p.variables| > 0
    requires forall i :: 0 <= i < |p.variables| ==> IsName(p.variables[i])
    modifies store
    ensures text == FillAsWritten(p.content, p.variables, map[])
    ensures (forall i :: 0 <= i < |p.variables| ==> !AllDigits(p.variables[i])) ==> text == p.content
  {
    var card := new PromptCard(p);
    var none := card.HandleCopy(store, now);
    text := card.HandleCopyWithVariables(store, now);
    FillWithoutValues(p.content, p.variables);
  }

  // ---------------------------------------------------------------------------
  // The editor
  // ---------------------------------------------------------------------------

  datatype EditorFields = EditorFields(title: string, content: string, category: PromptCategory)

  /** The editor's initial fields: those of the prompt being edited, or empty with
      the category "other" for a new one. */
  function EditorDefaults(editing: Option<Prompt>): (f: EditorFields)
    ensures editing.None? ==> f == EditorFields("", "", Other)
    ensures editing.Some? ==> f == EditorFields(editing.value.title, editing.value.content, editing.value.category)
  {
    match editing
    case None => EditorFields("", "", Other)
    case Some(p) => EditorFields(p.title, p.content, p.category)
  }

  datatype SaveOutcome =
    | MissingFields
    | Update(id: Id, patch: PromptPatch)
    | Create(data: PromptData)

  /** `handleSave`: a blank title or content is refused; otherwise the fields are
      saved untrimmed, together with the variables detected in the content, and
      the usage count is left to the store. */
  function SavePrompt(f: EditorFields, editing: Option<Prompt>): (o: SaveOutcome)
    ensures o.MissingFields? <==> IsBlank(f.title) || IsBlank(f.content)
    ensures o.Update? <==> !o.MissingFields? && editing.Some?
    ensures o.Update? ==> (o.id == editing.value.id
      && o.patch == PromptPatch(Some(f.title), Some(f.content), Some(f.category), Some(DetectVariables(f.content)), None))
    ensures o.Create? ==> o.data == PromptData(f.title, f.content, f.category, DetectVariables(f.content))
  {
    if IsBlank(f.title) || IsBlank(f.content) then MissingFields
    else match editing
      case Some(p) => Update(p.id, PromptPatch(Some(f.title), Some(f.content), Some(f.category), Some(DetectVariables(f.content)), None))
      case None => Create(PromptData(f.title, f.content, f.category, DetectVariables(f.content)))
  }

  /** A saved prompt's variables are exactly the names whose placeholder occurs in
      its content, and each once. */
  lemma SavedVariablesMatchContent(f: EditorFields, editing: Option<Prompt>, v: string)
    requires SavePrompt(f, editing).Create?
    ensures v in SavePrompt(f, editing).data.variables <==> IsName(v) && Contains(f.content, Placeholder(v))
  {
    DetectVariablesExactly(f.content, v);
  }

  /** Saving from the editor, then closing it. A refused save leaves the store as it was. */
  method HandleSave(store: AppStore, f: EditorFields, editing: Option<Prompt>, newId: Id, now: Time)
    returns (o: SaveOutcome)
    requires store.Valid() && FreshId(store.prompts, PromptId, newId)
    modifies store
    ensures store.Valid() && o == SavePrompt(f, editing)
    ensures o.MissingFields? ==> store.Snapshot() == old(store.Snapshot())
    ensures o.Update? ==> store.Snapshot() == old(store.Snapshot()).(prompts := UpdatedPrompts(old(store.prompts), o.id, o.patch, now))
    ensures o.Create? ==> store.Snapshot() == old(store.Snapshot()).(prompts := [NewPrompt(o.data, newId, now)] + old(store.prompts))
  {
    o := SavePrompt(f, editing);
    match o
    case MissingFields =>
    case Update(id, patch) => store.UpdatePrompt(id, patch, now);
    case Create(data) => store.AddPrompt(data, newId, now);
  }

  // ---------------------------------------------------------------------------
  // Ordering the list
  // ---------------------------------------------------------------------------

  datatype SortBy = Recent | Used | Alpha

  /** `sortedPrompts`: most used first ("used"), by title ("alpha") or newest
      first ("recent", the default), as a stable sort of a copy, so ties keep the
      store's order and the store itself is not reordered. `collate` ranks titles
      as `localeCompare` orders them. */
  function SortPrompts(prompts: seq<Prompt>, order: SortBy, collate: string -> int): (r: seq<Prompt>)
    ensures multiset(r) == multiset(prompts) && |r| == |prompts|
    ensures order == Used ==> forall i, j :: 0 <= i < j < |r| ==> r[i].usageCount >= r[j].usageCount
    ensures order == Alpha ==> forall i, j :: 0 <= i < j < |r| ==> collate(r[i].title) <= collate(r[j].title)
    ensures order == Recent ==> forall i, j :: 0 <= i < j < |r| ==> r[i].createdAt >= r[j].createdAt
  {
    match order
    case Used => SortDesc(prompts, (p: Prompt) => p.usageCount)
    case Alpha => SortDesc(prompts, (p: Prompt) => -collate(p.title))
    case Recent => SortDesc(prompts, (p: Prompt) => p.createdAt)
  }

  /** Among prompts used equally often, the list keeps the store's order. */
  lemma SortByUsageKeepsTies(prompts: seq<Prompt>, count: nat, sameCount: Prompt -> bool, collate: string -> int)
    requires forall p :: sameCount(p) == (p.usageCount == count)
    ensures Filter(SortPrompts(prompts, Used, collate), sameCount) == Filter(prompts, sameCount)
  {
    SortDescStable(prompts, (p: Prompt) => p.usageCount, count, sameCount);
  }
}
