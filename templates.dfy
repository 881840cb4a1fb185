/**
 * The route-template compiler of web/regex2simple.py.
 *
 * A template is literal text with tokens `/{name}` or `/{name:type}`.
 * Compiling it rewrites every token into the named group
 * `/(?P<name>P)`, where P is the sub-pattern of the type, and
 * records which Python cast the captured text goes through.
 * The token grammar is the regular expression `/({[^{}:]+:?[^{}:]*})`,
 * which is written out here over characters.
 */
module Templates {
  import opened Wrappers

  /** The Python callable a captured value is converted with. */
  datatype Cast = Str | Int | Float

  /** The sub-pattern used for an empty or unknown type. */
  const WordPattern: string := "\\w+"

  /** TYPE_PATTERNS: type name to regex sub-pattern. */
  const TypePatterns: map<string, string> := map[
    "str" := "[^/]+",
    "word" := "\\w+",
    "int" := "[+-]?\\d+",
    "float" := "[+-]?\\d+\\.\\d+",
    "any" := ".+"
  ]

  /** TYPECAST: type name to cast. */
  const TypeCasts: map<string, Cast> := map[
    "str" := Str,
    "word" := Str,
    "int" := Int,
    "float" := Float,
    "any" := Str
  ]

  /** `TYPE_PATTERNS.get(type, r"\w+")` */
  function SubPattern(typ: string): string
  {
    if typ in TypePatterns then TypePatterns[typ] else WordPattern
  }

  /** `TYPECAST.get(type, str)` */
  function CastOf(typ: string): Cast
  {
    if typ in TypeCasts then TypeCasts[typ] else Str
  }

  // ---------------------------------------------------------------------
  // The token grammar
  // ---------------------------------------------------------------------

  /** A character of the class `[^{}:]`. */
  predicate IsNameChar(c: char)
  {
    c != '{' && c != '}' && c != ':'
  }

  predicate AllNameChars(s: string)
  {
    forall i :: 0 <= i < |s| ==> IsNameChar(s[i])
  }

  /** A token as it was written: `/{name}` or `/{name:typ}`; `hasType` records the `:`. */
  datatype Token = Token(name: string, hasType: bool, typ: string)

  /** The tokens the grammar admits. */
  predicate WellFormed(t: Token)
  {
    |t.name| >= 1 && AllNameChars(t.name) && AllNameChars(t.typ) && (!t.hasType ==> t.typ == "")
  }

  /** The template text of a token. */
  function Text(t: Token): string
  {
    "/{" + t.name + (if t.hasType then ":" + t.typ else "") + "}"
  }

  /** `w` occurs in `s` starting at position `p`. */
  predicate OccursAt(w: string, s: string, p: nat)
  {
    p + |w| <= |s| && s[p..p + |w|] == w
  }

  /** End of the longest run of `[^{}:]` characters starting at `i`. */
  function RunEnd(s: string, i: nat): (j: nat)
    requires i <= |s|
    ensures i <= j <= |s|
    decreases |s| - i
  {
    if i == |s| || !IsNameChar(s[i]) then i else RunEnd(s, i + 1)
  }

  /** The run is made of name characters and cannot be extended. */
  lemma {:induction false} RunEndMaximal(s: string, i: nat)
    requires i <= |s|
    ensures AllNameChars(s[i..RunEnd(s, i)])
    ensures RunEnd(s, i) == |s| || !IsNameChar(s[RunEnd(s, i)])
    decreases |s| - i
  {
    if i < |s| && IsNameChar(s[i]) {
      RunEndMaximal(s, i + 1);
      var y := s[i + 1..RunEnd(s, i)];
      forall k | 0 <= k < |s[i..RunEnd(s, i)]| ensures IsNameChar(s[i..RunEnd(s, i)][k]) {
        if k > 0 {
          assert s[i..RunEnd(s, i)][k] == y[k - 1];
        }
      }
    }
  }

  /**
   * The token the regex matches when it is tried at position `p`
   * (greedy `[^{}:]+`, optional `:`, greedy `[^{}:]*`, then `}`).
   */
  function MatchAt(s: string, p: nat): (r: Option<Token>)
    requires p <= |s|
    ensures r.Some? ==> p + |Text(r.value)| <= |s|
  {
    if p + 2 <= |s| && s[p] == '/' && s[p + 1] == '{' then
      var n := RunEnd(s, p + 2);
      if n == p + 2 || n == |s| then None
      else if s[n] == '}' then
        Some(Token(s[p + 2..n], false, ""))
      else if s[n] == ':' then
        var m := RunEnd(s, n + 1);
        if m < |s| && s[m] == '}' then Some(Token(s[p + 2..n], true, s[n + 1..m])) else None
      else None
    else None
  }

  /** The grammar is sound: what is matched at `p` is a well-formed token written at `p`. */
  lemma MatchAtSound(s: string, p: nat)
    requires p <= |s| && MatchAt(s, p).Some?
    ensures WellFormed(MatchAt(s, p).value) && OccursAt(Text(MatchAt(s, p).value), s, p)
  {
    var n := RunEnd(s, p + 2);
    RunEndMaximal(s, p + 2);
    if s[n] == '}' {
      TokenTextAt(s, p, n, n);
    } else {
      RunEndMaximal(s, n + 1);
      TokenTextAt(s, p, n, RunEnd(s, n + 1));
    }
  }

  /**
   * The characters of `s` from `p` on read `/{`, a name ending before `n`,
   * then either `}` at `n` (when `m == n`) or `:`, a type ending before `m`,
   * and `}` at `m`: that is the text of the token they spell.
   */
  lemma TokenTextAt(s: string, p: nat, n: nat, m: nat)
    requires p + 2 <= n <= m < |s| && s[p] == '/' && s[p + 1] == '{' && s[m] == '}'
    requires m > n ==> s[n] == ':'
    ensures m == n ==> s[p..m + 1] == Text(Token(s[p + 2..n], false, ""))
    ensures m > n ==> s[p..m + 1] == Text(Token(s[p + 2..n], true, s[n + 1..m]))
  {
    assert s[p..p + 2] == "/{";
    SliceSplit(s, p, p + 2, n);
    SliceSplit(s, p, m, m + 1);
    assert s[m..m + 1] == "}";
    if m > n {
      SliceSplit(s, p, n, n + 1);
      SliceSplit(s, p, n + 1, m);
      assert s[n..n + 1] == ":";
    }
  }

  /** The grammar is exact: every well-formed token written at `p` is the one matched there. */
  lemma MatchAtComplete(s: string, p: nat, t: Token)
    requires p <= |s|
    requires WellFormed(t) && OccursAt(Text(t), s, p)
    ensures MatchAt(s, p) == Some(t)
  {
    var n := p + 2 + |t.name|;
    TextChars(s, p, t);
    RunEndAt(s, p + 2, n);
    if t.hasType {
      RunEndAt(s, n + 1, n + 1 + |t.typ|);
    }
  }

  /** The characters of a token's text, read off where it is written. */
  lemma TextChars(s: string, p: nat, t: Token)
    requires OccursAt(Text(t), s, p)
    ensures var n := p + 2 + |t.name|;
      && n < |s| && s[p] == '/' && s[p + 1] == '{' && s[p + 2..n] == t.name
      && (!t.hasType ==> s[n] == '}')
      && (t.hasType ==> var m := n + 1 + |t.typ|;
            m < |s| && s[n] == ':' && s[n + 1..m] == t.typ && s[m] == '}')
  {
    var n := p + 2 + |t.name|;
    var tail := if t.hasType then ":" + t.typ + "}" else "}";
    assert Text(t) == "/{" + t.name + tail;
    OpenedName(s, p, t.name, tail);
    if t.hasType {
      Cut3(s, n, ":", t.typ, "}");
      assert s[n] == s[n..n + 1][0];
      assert s[n + 1 + |t.typ|] == s[n + 1 + |t.typ|..n + 1 + |t.typ| + 1][0];
    }
  }

  /** `/{`, a name and a tail written at `p`, read character by character. */
  lemma OpenedName(s: string, p: nat, name: string, tail: string)
    requires |tail| > 0 && OccursAt("/{" + name + tail, s, p)
    ensures var n := p + 2 + |name|;
      n < |s| && s[p] == '/' && s[p + 1] == '{' && s[p + 2..n] == name
      && s[n..n + |tail|] == tail && s[n] == tail[0]
  {
    var n := p + 2 + |name|;
    Cut3(s, p, "/{", name, tail);
    assert s[p] == s[p..p + 2][0] && s[p + 1] == s[p..p + 2][1];
    assert s[n] == s[n..n + |tail|][0];
  }

  /** Where three texts are written in a row, each is written at its own place. */
  lemma Cut3(s: string, p: nat, a: string, b: string, c: string)
    requires p + |a + b + c| <= |s| && s[p..p + |a + b + c|] == a + b + c
    ensures s[p..p + |a|] == a
    ensures s[p + |a|..p + |a| + |b|] == b
    ensures s[p + |a| + |b|..p + |a| + |b| + |c|] == c
  {
    var w := a + b + c;
    assert w[..|a|] == a && w[|a|..|a| + |b|] == b && w[|a| + |b|..] == c;
    SliceOfSlice(s, p, |w|, p, p + |a|);
    SliceOfSlice(s, p, |w|, p + |a|, p + |a| + |b|);
    SliceOfSlice(s, p, |w|, p + |a| + |b|, p + |w|);
  }

  lemma SliceOfSlice(s: string, p: nat, len: nat, a: nat, b: nat)
    requires p <= a <= b <= p + len <= |s|
    ensures s[a..b] == s[p..p + len][a - p..b - p]
  {
    var x := s[p..p + len];
    forall i | 0 <= i < b - a ensures s[a..b][i] == x[a - p..b - p][i] {
      assert x[a - p..b - p][i] == x[a - p + i] == s[a + i];
    }
  }

  lemma SliceSplit(s: string, i: nat, j: nat, k: nat)
    requires i <= j <= k <= |s|
    ensures s[i..k] == s[i..j] + s[j..k]
  {
  }

  /** A run of name characters ended by a non-name character is the longest run. */
  lemma {:induction false} RunEndAt(s: string, i: nat, j: nat)
    requires i <= j < |s|
    requires AllNameChars(s[i..j])
    requires !IsNameChar(s[j])
    ensures RunEnd(s, i) == j
    decreases j - i
  {
    if i < j {
      assert s[i] == s[i..j][0];
      var y := s[i + 1..j];
      assert AllNameChars(y) by {
        forall k | 0 <= k < |y| ensures IsNameChar(y[k]) {
          assert y[k] == s[i..j][k + 1];
        }
      }
      RunEndAt(s, i + 1, j);
    }
  }

  /**
   * `regex.search(s, from)`: the leftmost position at or after `from`
   * where a token matches, with that token.
   */
  function Search(s: string, from: nat): (r: Option<(nat, Token)>)
    requires from <= |s|
    ensures r.Some? ==> from <= r.value.0 && r.value.0 + |Text(r.value.1)| <= |s|
    decreases |s| - from
  {
    var here := MatchAt(s, from);
    if here.Some? then Some((from, here.value))
    else if from == |s| then None
    else Search(s, from + 1)
  }

  /** The search reports a real match. */
  lemma {:induction false} SearchFound(s: string, from: nat)
    requires from <= |s| && Search(s, from).Some?
    ensures MatchAt(s, Search(s, from).value.0) == Some(Search(s, from).value.1)
    decreases |s| - from
  {
    if MatchAt(s, from).None? {
      SearchFound(s, from + 1);
    }
  }

  /** The search is leftmost: no token starts before the one found, and none at all when nothing is found. */
  lemma {:induction false} SearchLeftmost(s: string, from: nat)
    requires from <= |s|
    ensures Search(s, from).Some? ==> forall q :: from <= q < Search(s, from).value.0 ==> MatchAt(s, q).None?
    ensures Search(s, from).None? ==> forall q :: from <= q <= |s| ==> MatchAt(s, q).None?
    decreases |s| - from
  {
    if MatchAt(s, from).None? && from < |s| {
      SearchLeftmost(s, from + 1);
    }
  }

  /** Conversely, the search lands on the first matching position. */
  lemma {:induction false} SearchFinds(s: string, from: nat, p: nat)
    requires from <= p <= |s|
    requires forall q :: from <= q < p ==> MatchAt(s, q).None?
    requires MatchAt(s, p).Some?
    ensures Search(s, from) == Some((p, MatchAt(s, p).value))
    decreases p - from
  {
    if from < p {
      SearchFinds(s, from + 1, p);
    }
  }

  /** And it finds nothing when no position matches. */
  lemma {:induction false} SearchNone(s: string, from: nat)
    requires from <= |s|
    requires forall q :: from <= q < |s| ==> MatchAt(s, q).None?
    ensures Search(s, from).None?
    decreases |s| - from
  {
    if from < |s| {
      SearchNone(s, from + 1);
    }
  }

  /** The token found by the search is written where it was found. */
  lemma SearchWritten(s: string, from: nat, p: nat, t: Token)
    requires from <= |s| && Search(s, from) == Some((p, t))
    ensures s[p..p + |Text(t)|] == Text(t)
  {
    SearchFound(s, from);
    MatchAtSound(s, p);
  }

  // ---------------------------------------------------------------------
  // The pieces of a template and what they compile to
  // ---------------------------------------------------------------------

  /** A template cut at its tokens: literal, token, literal, ..., literal. */
  datatype Pieces = End(last: string) | Piece(literal: string, token: Token, rest: Pieces)

  /** The pieces `parse` visits, from pointer `from` on. */
  function Scan(s: string, from: nat): (r: Pieces)
    requires from <= |s|
    ensures r.End? <==> Search(s, from).None?
    ensures r.Piece? ==> Search(s, from).value.1 == r.token
    decreases |s| - from
  {
    match Search(s, from)
    case None => End(s[from..])
    case Some((p, t)) => Piece(s[from..p], t, Scan(s, p + |Text(t)|))
  }

  /** The template text the pieces were read from. */
  function Source(ps: Pieces): string
  {
    match ps
    case End(x) => x
    case Piece(x, t, rest) => x + Text(t) + Source(rest)
  }

  /** `tran_from`: the named group replacing a token, the name, and the cast. */
  function TranslateToken(t: Token): (r: (string, string, Cast))
    ensures r.1 == t.name
    ensures r.2 == Int <==> t.typ == "int"
    ensures r.2 == Float <==> t.typ == "float"
    ensures |r.0| > 5 && r.0[..5] == "/(?P<" && r.0[|r.0| - 1] == ')'
  {
    ("/(?P<" + t.name + ">" + SubPattern(t.typ) + ")", t.name, CastOf(t.typ))
  }

  /** The compiled pattern: literals copied, tokens replaced by their named groups. */
  function Render(ps: Pieces): (r: string)
    ensures Tokens(ps) == [] ==> r == Source(ps)
  {
    match ps
    case End(x) => x
    case Piece(x, t, rest) => x + TranslateToken(t).0 + Render(rest)
  }

  /** The cast map, filled in source order on top of `acc`. */
  function Record(acc: map<string, Cast>, ps: Pieces): (r: map<string, Cast>)
    ensures acc.Keys <= r.Keys
    ensures Tokens(ps) == [] ==> r == acc
    decreases ps
  {
    match ps
    case End(_) => acc
    case Piece(_, t, rest) => Record(acc[t.name := CastOf(t.typ)], rest)
  }

  /** The tokens, in source order. */
  function Tokens(ps: Pieces): seq<Token>
  {
    match ps
    case End(_) => []
    case Piece(_, t, rest) => [t] + Tokens(rest)
  }

  /** What `parse` returns: the pattern and the name-to-cast map. */
  datatype Compiled = Compiled(pattern: string, casts: map<string, Cast>)

  function Compile(src: string): (r: Compiled)
    ensures Search(src, 0).None? ==> r == Compiled(src, map[])
  {
    var ps := Scan(src, 0);
    Compiled(Render(ps), Record(map[], ps))
  }

  /** `parse`: its pointer loop, proved to compute `Compile`. */
  method Parse(src: string) returns (result: string, translator: map<string, Cast>)
    ensures Compiled(result, translator) == Compile(src)
  {
    translator := map[];
    var start: nat := 0;
    result := "";
    assert "" + Render(Scan(src, 0)) == Render(Scan(src, 0));
    while true
      invariant start <= |src|
      invariant result + Render(Scan(src, start)) == Render(Scan(src, 0))
      invariant Record(translator, Scan(src, start)) == Record(map[], Scan(src, 0))
      decreases |src| - start
    {
      var matcher := Search(src, start);
      if matcher.Some? {
        var p, t := matcher.value.0, matcher.value.1;
        var e := p + |Text(t)|;
        ParseTurn(src, start, p, t, e, result, translator, Render(Scan(src, 0)), Record(map[], Scan(src, 0)));
        var a := TranslateToken(t);
        result := result + src[start..p] + a.0;
        translator := translator[a.1 := a.2];
        start := e;
      } else {
        result := result + src[start..];
        break;
      }
    }
  }

  /** One turn of the loop keeps the pattern and the casts still to come in step with the pieces. */
  lemma ParseTurn(s: string, from: nat, p: nat, t: Token, e: nat, result: string, translator: map<string, Cast>,
                  pattern: string, casts: map<string, Cast>)
    requires from <= |s| && Search(s, from) == Some((p, t)) && e == p + |Text(t)|
    requires result + Render(Scan(s, from)) == pattern
    requires Record(translator, Scan(s, from)) == casts
    ensures from <= p <= e <= |s|
    ensures result + s[from..p] + TranslateToken(t).0 + Render(Scan(s, e)) == pattern
    ensures Record(translator[TranslateToken(t).1 := TranslateToken(t).2], Scan(s, e)) == casts
  {
    assert Scan(s, from) == Piece(s[from..p], t, Scan(s, e));
    Associate(result, s[from..p], TranslateToken(t).0, Render(Scan(s, e)));
  }

  lemma Associate(w: string, x: string, y: string, z: string)
    ensures w + x + y + z == w + (x + y + z)
  {
  }

  // ---------------------------------------------------------------------
  // Properties
  // ---------------------------------------------------------------------

  /** Nothing of the template is lost: the pieces read back to the text they came from. */
  lemma {:induction false} ScanSource(s: string, from: nat)
    requires from <= |s|
    ensures Source(Scan(s, from)) == s[from..]
    decreases |s| - from
  {
    match Search(s, from)
    case None =>
    case Some((p, t)) =>
      var e := p + |Text(t)|;
      SearchWritten(s, from, p, t);
      ScanSource(s, e);
      SourceGlue(s, from, p, e, Text(t), Source(Scan(s, from)));
  }

  lemma SourceGlue(s: string, from: nat, p: nat, e: nat, w: string, source: string)
    requires from <= p <= e <= |s| && s[p..e] == w
    requires source == s[from..p] + w + s[e..]
    ensures source == s[from..]
  {
    SliceSplit(s, from, p, |s|);
    SliceSplit(s, p, e, |s|);
    Associate("", s[from..p], s[p..e], s[e..]);
  }

  /** Segments of the template hold no token: tokens are found leftmost-first. */
  predicate PlainLiterals(ps: Pieces)
  {
    match ps
    case End(x) => Search(x, 0).None?
    case Piece(x, _, rest) => Search(x, 0).None? && PlainLiterals(rest)
  }

  /** Everything between two tokens is copied as it stands: no literal piece contains a token. */
  lemma {:induction false} ScanPlain(s: string, from: nat)
    requires from <= |s|
    ensures PlainLiterals(Scan(s, from))
    decreases |s| - from
  {
    SearchLeftmost(s, from);
    match Search(s, from)
    case None =>
      LiteralHasNoToken(s, from, |s|);
      assert s[from..|s|] == s[from..];
    case Some((p, t)) =>
      ScanPlain(s, p + |Text(t)|);
      LiteralHasNoToken(s, from, p);
  }

  /** A token found inside a piece of the template is also a token of the whole template. */
  lemma MatchInside(s: string, a: nat, b: nat, q: nat)
    requires a <= b <= |s| && q <= b - a
    requires MatchAt(s[a..b], q).Some?
    ensures MatchAt(s, a + q) == MatchAt(s[a..b], q)
  {
    var t := MatchAt(s[a..b], q).value;
    MatchAtSound(s[a..b], q);
    SliceOfSlice(s, a, b - a, a + q, a + q + |Text(t)|);
    MatchAtComplete(s, a + q, t);
  }

  /** The text between `from` and a position with no match before it contains no token. */
  lemma LiteralHasNoToken(s: string, from: nat, p: nat)
    requires from <= p <= |s|
    requires forall q :: from <= q < p ==> MatchAt(s, q).None?
    ensures Search(s[from..p], 0).None?
  {
    var x := s[from..p];
    if Search(x, 0).Some? {
      SearchFound(x, 0);
      MatchInside(s, from, p, Search(x, 0).value.0);
      assert false;
    }
  }

  /**
   * A template compiles to itself, with an empty cast map, exactly when
   * it holds no token.
   */
  lemma NoTokenUnchanged(src: string)
    ensures Compile(src).pattern == src <==> Search(src, 0).None?
    ensures Compile(src).casts == map[] <==> Search(src, 0).None?
  {
    match Search(src, 0)
    case None =>
      assert src[0..] == src;
    case Some((p, t)) =>
      TokenRewritten(src, p, t);
      TokenRecorded(src, p, t);
  }

  /** The name of the first token is in the cast map. */
  lemma TokenRecorded(src: string, p: nat, t: Token)
    requires Search(src, 0) == Some((p, t))
    ensures t.name in Compile(src).casts
  {
    assert Scan(src, 0) == Piece(src[0..p], t, Scan(src, p + |Text(t)|));
    RecordKeys(map[t.name := CastOf(t.typ)], Scan(src, p + |Text(t)|), t.name);
  }

  /** Where the first token was, the compiled pattern has `(` instead of `{`. */
  lemma TokenRewritten(src: string, p: nat, t: Token)
    requires Search(src, 0) == Some((p, t))
    ensures src[p + 1] == '{'
    ensures p + 1 < |Render(Scan(src, 0))| && Render(Scan(src, 0))[p + 1] == '('
  {
    SearchFound(src, 0);
    assert Scan(src, 0) == Piece(src[0..p], t, Scan(src, p + |Text(t)|));
    var g := TranslateToken(t).0;
    assert g[1] == '(';
    assert (src[0..p] + g)[p + 1] == '(';
  }

  /** The cast map holds exactly the names of `acc` and the names the tokens carry. */
  lemma {:induction false} RecordKeys(acc: map<string, Cast>, ps: Pieces, k: string)
    ensures k in Record(acc, ps) <==> k in acc || exists i :: 0 <= i < |Tokens(ps)| && Tokens(ps)[i].name == k
    decreases ps
  {
    match ps
    case End(_) =>
    case Piece(_, t, rest) =>
      RecordKeys(acc[t.name := CastOf(t.typ)], rest, k);
      TokensAt(ps);
      if exists i :: 0 <= i < |Tokens(rest)| && Tokens(rest)[i].name == k {
        var i :| 0 <= i < |Tokens(rest)| && Tokens(rest)[i].name == k;
        assert Tokens(ps)[i + 1].name == k;
      }
      if exists i :: 0 <= i < |Tokens(ps)| && Tokens(ps)[i].name == k {
        var i :| 0 <= i < |Tokens(ps)| && Tokens(ps)[i].name == k;
        if i > 0 {
          assert Tokens(rest)[i - 1].name == k;
        }
      }
  }

  lemma TokensAt(ps: Pieces)
    requires ps.Piece?
    ensures |Tokens(ps)| == 1 + |Tokens(ps.rest)| && Tokens(ps)[0] == ps.token
    ensures forall i :: 0 <= i < |Tokens(ps.rest)| ==> Tokens(ps)[i + 1] == Tokens(ps.rest)[i]
  {
  }

  /** A name no token carries keeps the cast it had in `acc`. */
  lemma {:induction false} RecordUntouched(acc: map<string, Cast>, ps: Pieces, k: string)
    requires k in acc && forall j :: 0 <= j < |Tokens(ps)| ==> Tokens(ps)[j].name != k
    ensures k in Record(acc, ps) && Record(acc, ps)[k] == acc[k]
    decreases ps
  {
    match ps
    case End(_) =>
    case Piece(_, t, rest) =>
      TokensAt(ps);
      assert t.name != k by {
        assert Tokens(ps)[0] == t;
      }
      RecordUntouched(acc[t.name := CastOf(t.typ)], rest, k);
  }

  /**
   * A name carried by several tokens gets the cast of the LAST of them:
   * `translator[name] = ...` overwrites earlier entries.
   */
  lemma {:induction false} RecordLastWins(acc: map<string, Cast>, ps: Pieces, k: string, i: nat)
    requires i < |Tokens(ps)| && Tokens(ps)[i].name == k
    requires forall j :: i < j < |Tokens(ps)| ==> Tokens(ps)[j].name != k
    ensures k in Record(acc, ps) && Record(acc, ps)[k] == CastOf(Tokens(ps)[i].typ)
    decreases ps
  {
    match ps
    case Piece(_, t, rest) =>
      TokensAt(ps);
      var acc' := acc[t.name := CastOf(t.typ)];
      if i == 0 {
        RecordUntouched(acc', rest, k);
      } else {
        RecordLastWins(acc', rest, k, i - 1);
      }
  }

  /**
   * The type table: int and float are the only types with a non-string
   * cast, and a type outside the table behaves as `word`.
   */
  lemma TypeTable(typ: string)
    ensures CastOf(typ) == Int <==> typ == "int"
    ensures CastOf(typ) == Float <==> typ == "float"
    ensures typ !in TypePatterns ==> SubPattern(typ) == SubPattern("word") && CastOf(typ) == CastOf("word")
    ensures SubPattern("str") == "[^/]+" && SubPattern("int") == "[+-]?\\d+"
    ensures SubPattern("float") == "[+-]?\\d+\\.\\d+" && SubPattern("any") == ".+"
    ensures SubPattern("") == WordPattern && CastOf("") == Str
  {
  }

  // ---------------------------------------------------------------------
  // The reverse direction: pieces written out are scanned back
  // ---------------------------------------------------------------------

  /**
   * Pieces as a template author writes them: well-formed tokens and no
   * `{` in the literal text.
   */
  predicate Canonical(ps: Pieces)
  {
    match ps
    case End(x) => '{' !in x
    case Piece(x, t, rest) => '{' !in x && WellFormed(t) && Canonical(rest)
  }

  /** No match starts inside a literal without `{` that is followed by the end or by a `/`. */
  lemma PlainText(s: string, from: nat, x: string)
    requires from + |x| <= |s| && s[from..from + |x|] == x && '{' !in x
    requires from + |x| == |s| || s[from + |x|] == '/'
    ensures forall q :: from <= q < from + |x| ==> MatchAt(s, q).None?
  {
    forall q | from <= q < from + |x| ensures MatchAt(s, q).None? {
      if q + 1 < from + |x| {
        assert s[q + 1] == x[q + 1 - from];
      }
    }
  }

  /** Cutting a suffix of `s` that is three texts in a row. */
  lemma Split3(s: string, from: nat, a: string, b: string, c: string)
    requires from <= |s| && s[from..] == a + b + c
    ensures from + |a| + |b| <= |s|
    ensures s[from..from + |a|] == a
    ensures s[from + |a|..from + |a| + |b|] == b
    ensures s[from + |a| + |b|..] == c
  {
    var y := s[from..];
    assert y[..|a|] == a;
    assert y[|a|..|a| + |b|] == b;
    assert y[|a| + |b|..] == c;
    SliceOfSlice(s, from, |y|, from, from + |a|);
    SliceOfSlice(s, from, |y|, from + |a|, from + |a| + |b|);
    SliceOfSlice(s, from, |y|, from + |a| + |b|, |s|);
  }

  /**
   * Round trip: writing canonical pieces out as a template and scanning
   * that template gives the same pieces back.
   */
  lemma {:induction false} ScanSourceInverse(ps: Pieces, s: string, from: nat)
    requires Canonical(ps) && from <= |s| && s[from..] == Source(ps)
    ensures Scan(s, from) == ps
  {
    match ps
    case End(x) =>
      ScanPlainRest(s, from, x);
    case Piece(x, t, rest) =>
      SearchPlainThenToken(s, from, x, t, Source(rest));
      ScanSourceInverse(rest, s, from + |x| + |Text(t)|);
  }

  /** The rest of the template is plain text: it is one literal piece. */
  lemma ScanPlainRest(s: string, from: nat, x: string)
    requires from <= |s| && s[from..] == x && '{' !in x
    ensures Scan(s, from) == End(x)
  {
    assert s[from..from + |x|] == x;
    PlainText(s, from, x);
    SearchNone(s, from);
  }

  /** Plain text followed by a token: the search stops at the token. */
  lemma SearchPlainThenToken(s: string, from: nat, x: string, t: Token, rest: string)
    requires from <= |s| && s[from..] == x + Text(t) + rest && '{' !in x && WellFormed(t)
    ensures Search(s, from) == Some((from + |x|, t))
    ensures s[from..from + |x|] == x && s[from + |x| + |Text(t)|..] == rest
  {
    Split3(s, from, x, Text(t), rest);
    var p := from + |x|;
    assert s[p] == Text(t)[0] == '/';
    PlainText(s, from, x);
    MatchAtComplete(s, p, t);
    SearchFinds(s, from, p);
  }

  // ---------------------------------------------------------------------
  // Examples
  // ---------------------------------------------------------------------

  /** The template of the module's documentation, and its pieces. */
  const DocTemplate: string := "/student/{name:str}/xxx/{id:int}"

  const DocPieces: Pieces :=
    Piece("/student", Token("name", true, "str"), Piece("/xxx", Token("id", true, "int"), End("")))

  lemma DocText()
    ensures DocTemplate == "/student" + Text(Token("name", true, "str")) + ("/xxx" + Text(Token("id", true, "int")) + "")
  {
  }

  lemma DocGroups()
    ensures TranslateToken(Token("name", true, "str")).0 == "/(?P<name>[^/]+)"
    ensures TranslateToken(Token("id", true, "int")).0 == "/(?P<id>[+-]?\\d+)"
    ensures CastOf("str") == Str && CastOf("int") == Int
  {
  }

  lemma DocPattern()
    ensures "/student" + "/(?P<name>[^/]+)" + ("/xxx" + "/(?P<id>[+-]?\\d+)" + "")
      == "/student/(?P<name>[^/]+)/xxx/(?P<id>[+-]?\\d+)"
  {
  }

  lemma DocCanonical()
    ensures Canonical(DocPieces)
  {
  }

  /**
   * The example of the module's documentation: `name` is a string and
   * `id`, typed `int`, is cast with `int`.
   */
  lemma DocumentedExample()
    ensures Compile(DocTemplate)
      == Compiled("/student/(?P<name>[^/]+)/xxx/(?P<id>[+-]?\\d+)", map["name" := Str, "id" := Int])
  {
    DocText();
    DocCanonical();
    assert DocTemplate[0..] == DocTemplate;
    ScanSourceInverse(DocPieces, DocTemplate, 0);
    DocGroups();
    DocPattern();
  }

  /** A brace without the leading `/` is not a token. */
  lemma NearMissNoSlash()
    ensures Compile("x{a}") == Compiled("x{a}", map[])
  {
    var s := "x{a}";
    forall q | 0 <= q < |s| ensures MatchAt(s, q).None? {
      assert s[q] != '/';
    }
    SearchNone(s, 0);
    NoTokenUnchanged(s);
  }

  /** A token needs a name: `[^{}:]+` cannot match the empty text before `:`. */
  lemma NearMissNoName()
    ensures Compile("/{:int}") == Compiled("/{:int}", map[])
  {
    var s := "/{:int}";
    assert RunEnd(s, 2) == 2;
    forall q | 0 <= q < |s| ensures MatchAt(s, q).None? {
      if q > 0 {
        assert s[q] != '/';
      }
    }
    SearchNone(s, 0);
    NoTokenUnchanged(s);
  }

  /** A token holds at most one `:`. */
  lemma NearMissTwoColons()
    ensures Compile("/{a:b:c}") == Compiled("/{a:b:c}", map[])
  {
    var s := "/{a:b:c}";
    assert RunEnd(s, 2) == 3;
    assert RunEnd(s, 4) == 5;
    forall q | 0 <= q < |s| ensures MatchAt(s, q).None? {
      if q > 0 {
        assert s[q] != '/';
      }
    }
    SearchNone(s, 0);
    NoTokenUnchanged(s);
  }
}
