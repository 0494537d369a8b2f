/**
 * Wildcard patterns ('*' any run of characters, '?' any one character) as the
 * engine evaluates them: it translates the pattern into an anchored regular
 * expression, escaping every other character, compiles it and asks whether it
 * matches. The model keeps both halves: the regex source text that the
 * translation loop builds, a parser for the small regex fragment it can
 * produce, and the fragment's matching relation.
 */
module Glob {

  import opened Json
  import opened Text

  /** One element of a compiled pattern. */
  datatype Tok = AnySeq | AnyChar | Lit(c: char)

  /** Characters that the `regex` crate treats as syntax and escapes. */
  predicate IsMeta(c: char)
  {
    c in {'\\', '.', '+', '*', '?', '(', ')', '|', '[', ']', '{', '}', '^', '$', '#', '&', '-', '~'}
  }

  /** The regex text one pattern character becomes. */
  function TranslateChar(c: char): (r: string)
    ensures 1 <= |r| <= 2
  {
    if c == '*' then ".*"
    else if c == '?' then "."
    else if IsMeta(c) then ['\\', c]
    else [c]
  }

  /** The body of the regex: the translations of the characters in order. */
  function TranslateBody(p: string): (r: string)
    ensures |r| >= |p|
  {
    if p == [] then [] else TranslateChar(p[0]) + TranslateBody(p[1..])
  }

  /** The full regex source: `^` + body + `$`. */
  function RegexSource(p: string): string
  {
    "^" + TranslateBody(p) + "$"
  }

  /** The token a pattern character stands for. */
  function TokOf(c: char): Tok
  {
    if c == '*' then AnySeq else if c == '?' then AnyChar else Lit(c)
  }

  /** The pattern read directly as tokens. */
  function Tokens(p: string): (r: seq<Tok>)
    ensures |r| == |p|
    ensures forall i :: 0 <= i < |p| ==> r[i] == TokOf(p[i])
  {
    if p == [] then [] else [TokOf(p[0])] + Tokens(p[1..])
  }

  /**
   * Parser for the regex fragment the translation produces: `.*`, `.`,
   * an escaped meta character, or a plain non-meta character. Anything else
   * is a syntax error (None), which is what `Regex::new` failing stands for.
   */
  function ParseBody(r: string): Option<seq<Tok>>
    decreases |r|
  {
    if r == [] then Some([])
    else if r[0] == '.' then
      if |r| >= 2 && r[1] == '*' then
        match ParseBody(r[2..])
        case Some(rest) => Some([AnySeq] + rest)
        case None => None
      else
        match ParseBody(r[1..])
        case Some(rest) => Some([AnyChar] + rest)
        case None => None
    else if r[0] == '\\' then
      if |r| >= 2 && IsMeta(r[1]) then
        match ParseBody(r[2..])
        case Some(rest) => Some([Lit(r[1])] + rest)
        case None => None
      else None
    else if IsMeta(r[0]) then None
    else
      match ParseBody(r[1..])
      case Some(rest) => Some([Lit(r[0])] + rest)
      case None => None
  }

  /** `Regex::new(source)`: the anchored fragment, or None when it does not compile. */
  function ParseRegex(source: string): Option<seq<Tok>>
  {
    if |source| >= 2 && source[0] == '^' && source[|source| - 1] == '$'
    then ParseBody(source[1..|source| - 1])
    else None
  }

  /** The translation never produces a regex that fails to compile, and it means the pattern. */
  lemma {:induction false} ParseTranslate(p: string)
    ensures ParseBody(TranslateBody(p)) == Some(Tokens(p))
  {
    if p != [] {
      ParseTranslate(p[1..]);
      var rest := TranslateBody(p[1..]);
      assert TranslateBody(p) == TranslateChar(p[0]) + rest;
      if p[0] == '*' {
        assert (".*" + rest)[2..] == rest;
      } else if p[0] == '?' {
        assert ("." + rest)[1..] == rest;
        // The next translation never starts with an unescaped '*'.
        if rest != [] {
          assert p[1..] != [];
          assert rest[0] == TranslateChar(p[1])[0];
        }
      } else if IsMeta(p[0]) {
        assert (['\\', p[0]] + rest)[2..] == rest;
      } else {
        assert ([p[0]] + rest)[1..] == rest;
      }
    }
  }

  lemma RegexCompiles(p: string)
    ensures ParseRegex(RegexSource(p)) == Some(Tokens(p))
  {
    var src := RegexSource(p);
    assert src[1..|src| - 1] == TranslateBody(p);
    ParseTranslate(p);
  }

  /** Does a token sequence match the whole of `s`? (`.` never matches '\n'.) */
  predicate Matches(toks: seq<Tok>, s: string)
    decreases |toks| + |s|
  {
    if toks == [] then s == []
    else match toks[0]
      case Lit(c) => s != [] && s[0] == c && Matches(toks[1..], s[1..])
      case AnyChar => s != [] && s[0] != '\n' && Matches(toks[1..], s[1..])
      case AnySeq =>
        Matches(toks[1..], s) || (s != [] && s[0] != '\n' && Matches(toks, s[1..]))
  }

  /** `Regex::new(&full_pattern)` then `is_match`, with the `Err(_) => false` branch. */
  predicate RegexIsMatch(p: string, s: string)
  {
    match ParseRegex(RegexSource(p))
    case Some(toks) => Matches(toks, s)
    case None => false
  }

  /**
   * The loop that builds the regex text character by character, as the
   * engine does before compiling it.
   */
  method BuildRegex(p: string) returns (source: string)
    ensures source == RegexSource(p)
    ensures ParseRegex(source) == Some(Tokens(p))
  {
    var body := "";
    var i := 0;
    while i < |p|
      invariant 0 <= i <= |p|
      invariant body + TranslateBody(p[i..]) == TranslateBody(p)
    {
      assert p[i..] == [p[i]] + p[i + 1..];
      body := body + TranslateChar(p[i]);
      i := i + 1;
    }
    source := "^" + body + "$";
    RegexCompiles(p);
  }

  // ---------------------------------------------------------------------------
  // What patterns mean
  // ---------------------------------------------------------------------------

  predicate NoNewline(s: string) { forall i :: 0 <= i < |s| ==> s[i] != '\n' }

  predicate Literal(p: string) { forall i :: 0 <= i < |p| ==> p[i] != '*' && p[i] != '?' }

  /** A pattern without wildcards matches exactly itself. */
  lemma {:induction false} LiteralMatchesOnlyItself(p: string, s: string)
    requires Literal(p)
    ensures Matches(Tokens(p), s) <==> s == p
  {
    if p != [] {
      assert Tokens(p)[1..] == Tokens(p[1..]);
      if s != [] {
        LiteralMatchesOnlyItself(p[1..], s[1..]);
        if s[0] == p[0] && s[1..] == p[1..] {
          assert s == [s[0]] + s[1..] && p == [p[0]] + p[1..];
        }
      }
    }
  }

  /** A lone '*' matches every string that holds no line break. */
  lemma {:induction false} StarMatchesAnyLine(s: string)
    ensures Matches([AnySeq], s) <==> NoNewline(s)
  {
    if s != [] {
      StarMatchesAnyLine(s[1..]);
      assert [AnySeq][1..] == [];
      if NoNewline(s) { assert NoNewline(s[1..]); }
      if !NoNewline(s) && s[0] != '\n' {
        var i :| 0 <= i < |s| && s[i] == '\n';
        assert s[1..][i - 1] == '\n';
      }
    }
  }

  /** A trailing '*' turns a literal pattern into a prefix test. */
  lemma {:induction false} LiteralStarIsPrefix(p: string, s: string)
    requires Literal(p)
    ensures Matches(Tokens(p + "*"), s) <==> StartsWith(s, p) && NoNewline(s[|p|..])
  {
    if p == [] {
      assert Tokens("*") == [AnySeq];
      StarMatchesAnyLine(s);
      assert s[0..] == s;
    } else {
      assert Tokens(p + "*")[1..] == Tokens(p[1..] + "*") by {
        assert (p + "*")[1..] == p[1..] + "*";
      }
      if s != [] {
        LiteralStarIsPrefix(p[1..], s[1..]);
        if |p| <= |s| { assert s[1..][|p| - 1..] == s[|p|..]; }
        if s[0] == p[0] && StartsWith(s[1..], p[1..]) {
          assert s[..|p|] == [s[0]] + s[1..][..|p| - 1];
        }
        if StartsWith(s, p) {
          assert s[1..][..|p| - 1] == s[..|p|][1..];
        }
      }
    }
  }


  /** The compiled form of `literal*` is a prefix test. */
  lemma RegexLiteralStar(p: string, s: string)
    requires Literal(p)
    ensures RegexIsMatch(p + "*", s) <==> StartsWith(s, p) && NoNewline(s[|p|..])
  {
    RegexCompiles(p + "*");
    LiteralStarIsPrefix(p, s);
  }

  /** The empty pattern matches only the empty name. */
  lemma EmptyPatternMatchesEmpty(s: string)
    ensures Matches(Tokens(""), s) <==> s == ""
  {
  }
}
