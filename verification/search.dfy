/** `GET /api/search` (app/api/search/route.js): query validation, the empty
    query short-cut, the escaping of LIKE wildcards, and the `ilike` filter the
    query is turned into. PostgreSQL's reading of LIKE patterns (escape
    character `\`) is modelled so that the escaping can be judged by what the
    database will match. */
module Search {
  import opened Wrappers
  import Text
  import Ledger
  import Validation

  const MaxResults: nat := 10

  // ---------------------------------------------------------------- LIKE patterns

  /** One element of a LIKE pattern. */
  datatype Token = Lit(c: char) | AnyChar | AnyRun

  /** How PostgreSQL reads a LIKE pattern whose escape character is `\`;
      None when the pattern ends with a lone escape character (an error). */
  function Tokens(p: string): Option<seq<Token>>
    decreases |p|
  {
    if |p| == 0 then Some([])
    else if p[0] == '\\' then
      if |p| == 1 then None else Prepend([Lit(p[1])], Tokens(p[2..]))
    else
      Prepend([if p[0] == '%' then AnyRun else if p[0] == '_' then AnyChar else Lit(p[0])], Tokens(p[1..]))
  }

  function Prepend(t: seq<Token>, rest: Option<seq<Token>>): Option<seq<Token>> {
    match rest
    case None => None
    case Some(r) => Some(t + r)
  }

  /** The pattern that matches exactly the text `q`. */
  function Literal(q: string): seq<Token> {
    if |q| == 0 then [] else [Lit(q[0])] + Literal(q[1..])
  }

  /** Whether a string matches a read pattern. */
  predicate Matches(t: seq<Token>, s: string)
    decreases |t|, |s|
  {
    if |t| == 0 then |s| == 0
    else match t[0]
      case Lit(c) => |s| > 0 && s[0] == c && Matches(t[1..], s[1..])
      case AnyChar => |s| > 0 && Matches(t[1..], s[1..])
      case AnyRun => Matches(t[1..], s) || (|s| > 0 && Matches(t, s[1..]))
  }

  function LowerToken(t: Token): Token {
    if t.Lit? then Lit(Text.LowerChar(t.c)) else t
  }

  function LowerTokens(t: seq<Token>): seq<Token> {
    if |t| == 0 then [] else [LowerToken(t[0])] + LowerTokens(t[1..])
  }

  /** `ILIKE`: LIKE after lower-casing the pattern and the subject. */
  predicate IMatches(t: seq<Token>, s: string) {
    Matches(LowerTokens(t), Text.Lower(s))
  }

  function Count(s: string, c: char): nat {
    if |s| == 0 then 0 else (if s[0] == c then 1 else 0) + Count(s[1..], c)
  }

  // ---------------------------------------------------------------- escaping

  /** `query.replace(/[%_]/g, '\\$&')`, as the route writes it: a backslash
      before every `%` and `_`, every other character kept in order. */
  function EscapeLike(q: string): (r: string)
    ensures |r| == |q| + Count(q, '%') + Count(q, '_')
    ensures Count(q, '%') + Count(q, '_') == 0 ==> r == q
    ensures |q| == 1 ==> r == (if q[0] == '%' || q[0] == '_' then ['\\', q[0]] else q)
    ensures '\\' !in q ==> r == EscapeLikeLiteral(q) && Tokens(r) == Some(Literal(q))
  {
    if |q| == 0 then []
    else
      var head := if q[0] == '%' || q[0] == '_' then ['\\', q[0]] else [q[0]];
      var rest := EscapeLike(q[1..]);
      assert (head + rest)[|head|..] == rest;
      head + rest
  }

  /** The escaping works character by character: escaping a concatenation
      escapes each part. */
  lemma {:induction false} EscapeLikeConcat(a: string, b: string)
    ensures EscapeLike(a + b) == EscapeLike(a) + EscapeLike(b)
    decreases |a|
  {
    if |a| == 0 {
      assert a + b == b;
    } else {
      assert (a + b)[0] == a[0];
      assert (a + b)[1..] == a[1..] + b;
      EscapeLikeConcat(a[1..], b);
    }
  }

  /** Reading an escaped character. */
  lemma TokensEscaped(c: char, rest: string)
    ensures Tokens(['\\', c] + rest) == Prepend([Lit(c)], Tokens(rest))
  {
    assert (['\\', c] + rest)[2..] == rest;
  }

  /** Reading an unescaped character. */
  lemma TokensPlain(c: char, rest: string)
    requires c != '\\'
    ensures Tokens([c] + rest) == Prepend([if c == '%' then AnyRun else if c == '_' then AnyChar else Lit(c)], Tokens(rest))
  {
    assert ([c] + rest)[1..] == rest;
  }

  lemma TokensPercent()
    ensures Tokens("%") == Some([AnyRun])
  {
    TokensPlain('%', "");
    assert ['%'] + "" == "%";
    assert Tokens("") == Some([]);
    assert [AnyRun] + [] == [AnyRun];
  }

  /** A query containing a backslash is not searched for literally. The route
      sends `%\%` for the query `\`, which PostgreSQL reads as "ends with `%`",
      and `%a\b%` for `a\b`, which searches for `ab`. */
  lemma EscapeLikeMisreadsBackslash()
    ensures Tokens(Pattern("\\")) == Some([AnyRun, Lit('%')])
    ensures IMatches([AnyRun, Lit('%')], "5%") && !Text.Includes("5%", "\\")
    ensures Tokens(Pattern("a\\b")) == Some([AnyRun] + Literal("ab") + [AnyRun])
    ensures IMatches([AnyRun] + Literal("ab") + [AnyRun], "ab") && !Text.Includes("ab", "a\\b")
  {
    LoneBackslashReadsAsEndsWithPercent();
    InnerBackslashIsDropped();
  }

  lemma LoneBackslashReadsAsEndsWithPercent()
    ensures Pattern("\\") == "%\\%" && Tokens(Pattern("\\")) == Some([AnyRun, Lit('%')])
    ensures IMatches([AnyRun, Lit('%')], "5%") && !Text.Includes("5%", "\\")
  {
    assert EscapeLike("\\") == "\\";
    assert Pattern("\\") == ['%'] + (['\\', '%'] + []);
    TokensEscaped('%', []);
    assert Tokens([]) == Some([]);
    TokensPlain('%', ['\\', '%'] + []);
    var t1: seq<Token> := [AnyRun, Lit('%')];
    assert LowerTokens(t1) == t1 by {
      assert t1[1..] == [Lit('%')] && t1[1..][1..] == [];
    }
    assert Text.Lower("5%") == "5%";
    assert Matches(t1[1..], "%");
    assert Matches(t1, "%");
    assert Matches(t1, "5%");
    assert !Text.Includes("%", "\\");
  }

  lemma InnerBackslashIsDropped()
    ensures Tokens(Pattern("a\\b")) == Some([AnyRun] + Literal("ab") + [AnyRun])
    ensures IMatches([AnyRun] + Literal("ab") + [AnyRun], "ab") && !Text.Includes("ab", "a\\b")
  {
    InnerBackslashTokens();
    var ab := Literal("ab");
    LowerLiteral("ab");
    LowerTokensConcat([AnyRun] + ab, [AnyRun]);
    LowerTokensConcat([AnyRun], ab);
    assert Text.Lower("ab") == "ab";
    SurroundedMatchesIncludes("ab", "ab");
    assert Text.StartsWith("ab", "ab");
    assert !Text.Includes("b", "a\\b");
  }

  lemma InnerBackslashTokens()
    ensures Tokens(Pattern("a\\b")) == Some([AnyRun] + Literal("ab") + [AnyRun])
  {
    TokensPercent();
    var ab := Literal("ab");
    assert ab == [Lit('a'), Lit('b')];
    EscapeLikeConcat("a", "\\b");
    EscapeLikeConcat("\\", "b");
    assert "a" + ("\\" + "b") == "a\\b";
    assert "\\" + "b" == "\\b";
    assert EscapeLike("a\\b") == "a\\b";
    assert Pattern("a\\b") == ['%'] + (['a'] + (['\\', 'b'] + "%"));
    TokensEscaped('b', "%");
    TokensPlain('a', ['\\', 'b'] + "%");
    TokensPlain('%', ['a'] + (['\\', 'b'] + "%"));
    assert [AnyRun] + ab + [AnyRun] == [AnyRun] + ([Lit('a')] + ([Lit('b')] + [AnyRun]));
  }

  /** The escaping the route needs: `%`, `_` and the escape character `\` itself. */
  function EscapeLikeLiteral(q: string): (r: string)
    ensures |r| == |q| + Count(q, '%') + Count(q, '_') + Count(q, '\\')
    ensures Tokens(r) == Some(Literal(q))
  {
    if |q| == 0 then []
    else
      var head := if q[0] == '%' || q[0] == '_' || q[0] == '\\' then ['\\', q[0]] else [q[0]];
      var rest := EscapeLikeLiteral(q[1..]);
      assert (head + rest)[|head|..] == rest;
      head + rest
  }

  /** The escaped text followed by more pattern reads as the literal followed by the rest. */
  lemma {:induction false} EscapedPrefix(q: string, more: string)
    ensures Tokens(EscapeLikeLiteral(q) + more) == Prepend(Literal(q), Tokens(more))
    decreases |q|
  {
    if |q| > 0 {
      var e := EscapeLikeLiteral(q[1..]);
      EscapedPrefix(q[1..], more);
      var head := if q[0] == '%' || q[0] == '_' || q[0] == '\\' then ['\\', q[0]] else [q[0]];
      var p := head + (e + more);
      assert EscapeLikeLiteral(q) + more == p;
      assert p[|head|..] == e + more;
      assert Tokens(p) == Prepend([Lit(q[0])], Tokens(e + more));
      PrependTwice([Lit(q[0])], Literal(q[1..]), Tokens(more));
    } else {
      assert EscapeLikeLiteral(q) + more == more;
      match Tokens(more)
      case None =>
      case Some(t) => assert Literal(q) + t == t;
    }
  }

  lemma PrependTwice(a: seq<Token>, b: seq<Token>, rest: Option<seq<Token>>)
    ensures Prepend(a, Prepend(b, rest)) == Prepend(a + b, rest)
  {
    match rest
    case None =>
    case Some(r) => assert a + (b + r) == (a + b) + r;
  }

  // ---------------------------------------------------------------- what the pattern matches

  lemma {:induction false} LiteralThenRun(q: string, s: string)
    ensures Matches(Literal(q) + [AnyRun], s) <==> Text.StartsWith(s, q)
    decreases |q|
  {
    if |q| == 0 {
      assert Literal(q) + [AnyRun] == [AnyRun];
      AnyRunMatchesAll(s);
    } else {
      assert (Literal(q) + [AnyRun])[1..] == Literal(q[1..]) + [AnyRun];
      if |s| > 0 {
        LiteralThenRun(q[1..], s[1..]);
        assert Text.StartsWith(s, q) <==> s[0] == q[0] && Text.StartsWith(s[1..], q[1..]) by {
          if |q| <= |s| {
            assert s[..|q|] == [s[0]] + s[1..][..|q| - 1];
            assert q == [q[0]] + q[1..];
          }
        }
      }
    }
  }

  lemma {:induction false} AnyRunMatchesAll(s: string)
    ensures Matches([AnyRun], s)
    decreases |s|
  {
    assert [AnyRun][1..] == [];
    if |s| > 0 {
      AnyRunMatchesAll(s[1..]);
    }
  }

  /** `%q%` matches exactly the strings that contain `q`. */
  lemma {:induction false} SurroundedMatchesIncludes(q: string, s: string)
    ensures Matches([AnyRun] + Literal(q) + [AnyRun], s) <==> Text.Includes(s, q)
    decreases |s|
  {
    var t := [AnyRun] + Literal(q) + [AnyRun];
    assert t[1..] == Literal(q) + [AnyRun];
    LiteralThenRun(q, s);
    if |s| > 0 {
      SurroundedMatchesIncludes(q, s[1..]);
    }
  }

  /** The `ilike` pattern the route sends for a query, with its own escaping. */
  function Pattern(q: string): string {
    "%" + EscapeLike(q) + "%"
  }

  /** The pattern the route needs, with `\\` escaped as well. */
  function LiteralPattern(q: string): string {
    "%" + EscapeLikeLiteral(q) + "%"
  }

  lemma {:induction false} LowerLiteral(q: string)
    ensures LowerTokens(Literal(q)) == Literal(Text.Lower(q))
    decreases |q|
  {
    if |q| > 0 {
      LowerLiteral(q[1..]);
      assert Text.Lower(q)[1..] == Text.Lower(q[1..]);
    }
  }

  lemma {:induction false} LowerTokensConcat(a: seq<Token>, b: seq<Token>)
    ensures LowerTokens(a + b) == LowerTokens(a) + LowerTokens(b)
    decreases |a|
  {
    if |a| == 0 {
      assert a + b == b;
    } else {
      assert (a + b)[1..] == a[1..] + b;
      LowerTokensConcat(a[1..], b);
    }
  }

  /** The corrected pattern reads as `%`, the query literally, `%`. */
  lemma LiteralPatternTokens(q: string)
    ensures Tokens(LiteralPattern(q)) == Some([AnyRun] + Literal(q) + [AnyRun])
  {
    EscapedPrefix(q, "%");
    var pct: string := ['%'];
    assert pct[1..] == [];
    assert Tokens(pct) == Prepend([AnyRun], Some([]));
    assert [AnyRun] + [] == [AnyRun];
    assert pct == "%";
    assert Tokens("%") == Some([AnyRun]);
    var rest := EscapeLikeLiteral(q) + "%";
    assert LiteralPattern(q) == ['%'] + rest;
    assert LiteralPattern(q)[1..] == rest;
    assert LiteralPattern(q)[0] == '%';
    assert Tokens(rest) == Some(Literal(q) + [AnyRun]);
    assert Tokens(LiteralPattern(q)) == Prepend([AnyRun], Tokens(rest));
    assert [AnyRun] + (Literal(q) + [AnyRun]) == [AnyRun] + Literal(q) + [AnyRun];
  }

  /** `%q%` read case-insensitively: a field passes exactly when it contains the query, ignoring case. */
  lemma SurroundedIMatchesIncludes(q: string, field: string)
    ensures IMatches([AnyRun] + Literal(q) + [AnyRun], field) <==> Text.Includes(Text.Lower(field), Text.Lower(q))
  {
    LowerTokensConcat([AnyRun] + Literal(q), [AnyRun]);
    LowerTokensConcat([AnyRun], Literal(q));
    LowerLiteral(q);
    assert LowerTokens([AnyRun]) == [AnyRun];
    SurroundedMatchesIncludes(Text.Lower(q), Text.Lower(field));
  }

  /** For a query without a backslash, the pattern the route sends reads as
      `%q%`, and a row passes `nome.ilike.%q%,telefone.ilike.%q%` exactly when
      its name or its phone contains the query, ignoring case. */
  lemma PatternMeansContains(q: string, field: string)
    requires '\\' !in q
    ensures Pattern(q) == LiteralPattern(q)
    ensures Tokens(Pattern(q)) == Some([AnyRun] + Literal(q) + [AnyRun])
    ensures IMatches([AnyRun] + Literal(q) + [AnyRun], field) <==> Text.Includes(Text.Lower(field), Text.Lower(q))
  {
    LiteralPatternTokens(q);
    SurroundedIMatchesIncludes(q, field);
  }

  /** With the corrected escaping every query, backslashes included, is searched
      for as itself. */
  lemma LiteralPatternMeansContains(q: string, field: string)
    ensures Tokens(LiteralPattern(q)) == Some([AnyRun] + Literal(q) + [AnyRun])
    ensures IMatches([AnyRun] + Literal(q) + [AnyRun], field) <==> Text.Includes(Text.Lower(field), Text.Lower(q))
  {
    LiteralPatternTokens(q);
    SurroundedIMatchesIncludes(q, field);
  }

  // ---------------------------------------------------------------- the route

  /** What the `clientes` query returns: the matching rows, or the store's error. */
  datatype Fetch<C> = Rows(rows: seq<C>) | StoreFailed(message: string)

  datatype Reply<C> = BadQuery | Clients(clientes: seq<C>) | Failed(error: string)

  /** `url.searchParams.get('q') || ''` */
  function QueryText(param: Option<string>): string {
    param.GetOr("")
  }

  /** The handler. `select` is the store query for an `ilike` pattern; `.limit(10)`
      keeps the first ten of its rows. */
  function Get<C>(param: Option<string>, select: string -> Fetch<C>, production: bool): (r: Reply<C>)
    ensures var q := QueryText(param);
      && (r.BadQuery? <==> |q| > 100)
      && (q == "" ==> r == Clients([]))
      && (r.Clients? ==> |r.clientes| <= MaxResults)
      && (r.Clients? && q != "" ==>
            select(Pattern(q)).Rows?
            && var rows := select(Pattern(q)).rows;
            r.clientes == (if |rows| <= MaxResults then rows else rows[..MaxResults]))
      && (q != "" && |q| <= 100 && select(Pattern(q)).Rows? ==> r.Clients?)
      && (r.Failed? ==>
            select(Pattern(q)).StoreFailed?
            && r.error == Ledger.SanitizeError(production, select(Pattern(q)).message))
  {
    var q := QueryText(param);
    if Validation.CheckSearchQuery(q) != [] then BadQuery
    else if q == "" then Clients([])
    else
      match select(Pattern(q))
      case StoreFailed(message) => Failed(Ledger.SanitizeError(production, message))
      case Rows(rows) => Clients(if |rows| <= MaxResults then rows else rows[..MaxResults])
  }

  /** An empty query is answered without consulting the store. */
  lemma EmptyQuerySkipsStore<C>(param: Option<string>, a: string -> Fetch<C>, b: string -> Fetch<C>, production: bool)
    requires QueryText(param) == ""
    ensures Get(param, a, production) == Get(param, b, production) == Clients([])
  {
  }
}
