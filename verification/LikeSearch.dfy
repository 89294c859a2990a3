/**
 The escape chain of `ai.list_sources_excluding_kb` (migration 0023) and of `escape_like`
 against the LIKE matcher of section 9.7.1 of the PostgreSQL manual, with backslash as
 the escape character and ILIKE as LIKE on folded text.
 */
module LikeSearch {
  import opened Options

  datatype Token = AnySequence | AnyCharacter | Literal(c: char)

  /** Reads a pattern; None when it ends with a lone escape character, which the server rejects. */
  function Tokens(pattern: string): Option<seq<Token>> {
    if pattern == "" then Some([])
    else if pattern[0] == '\\' then
      if |pattern| == 1 then None
      else
        var rest := Tokens(pattern[2..]);
        if rest.None? then None else Some([Literal(pattern[1])] + rest.value)
    else
      var rest := Tokens(pattern[1..]);
      if rest.None? then None else
        Some([if pattern[0] == '%' then AnySequence
              else if pattern[0] == '_' then AnyCharacter
              else Literal(pattern[0])] + rest.value)
  }

  predicate Match(ts: seq<Token>, text: string) {
    if ts == [] then text == ""
    else match ts[0]
      case AnySequence => exists k :: 0 <= k <= |text| && Match(ts[1..], text[k..])
      case AnyCharacter => text != "" && Match(ts[1..], text[1..])
      case Literal(c) => text != "" && text[0] == c && Match(ts[1..], text[1..])
  }

  /** `text LIKE pattern ESCAPE '\'`; None is the server's error. */
  function Like(text: string, pattern: string): Option<bool> {
    var ts := Tokens(pattern);
    if ts.None? then None else Some(Match(ts.value, text))
  }

  function Fold(fold: char -> char, s: string): string {
    if s == "" then "" else [fold(s[0])] + Fold(fold, s[1..])
  }

  /** `text ILIKE pattern ESCAPE '\'` */
  function ILike(fold: char -> char, text: string, pattern: string): Option<bool> {
    Like(Fold(fold, text), Fold(fold, pattern))
  }

  predicate IsMeta(c: char) {
    c == '%' || c == '_' || c == '\\'
  }

  /** Case folding leaves the three special characters alone and makes no new ones. */
  ghost predicate IsCaseFolding(fold: char -> char) {
    forall c :: (IsMeta(c) ==> fold(c) == c) && (IsMeta(fold(c)) ==> fold(c) == c)
  }

  /** SQL `replace` with a one-character search string. */
  function Replace(s: string, c: char, sub: string): string {
    if s == "" then "" else (if s[0] == c then sub else [s[0]]) + Replace(s[1..], c, sub)
  }

  /** The chain: backslash first, then percent, then underscore. */
  function Escape(s: string): string {
    Replace(Replace(Replace(s, '\\', "\\\\"), '%', "\\%"), '_', "\\_")
  }

  /** The chain with the backslash replaced last. */
  function EscapeBackslashLast(s: string): string {
    Replace(Replace(Replace(s, '%', "\\%"), '_', "\\_"), '\\', "\\\\")
  }

  function EscapeChar(c: char): string {
    if IsMeta(c) then ['\\', c] else [c]
  }

  function EscapeOnePass(s: string): string {
    if s == "" then "" else EscapeChar(s[0]) + EscapeOnePass(s[1..])
  }

  predicate OccursAt(text: string, part: string, k: int) {
    0 <= k <= |text| - |part| && text[k..k + |part|] == part
  }

  ghost predicate Contains(text: string, part: string) {
    exists k :: OccursAt(text, part, k)
  }

  predicate Plain(s: string) {
    '%' !in s && '_' !in s
  }

  lemma {:induction false} ReplaceConcat(a: string, b: string, c: char, sub: string)
    ensures Replace(a + b, c, sub) == Replace(a, c, sub) + Replace(b, c, sub)
  {
    if a == "" {
      assert a + b == b;
    } else {
      assert (a + b)[1..] == a[1..] + b;
      ReplaceConcat(a[1..], b, c, sub);
    }
  }

  lemma ReplaceOne(d: char, c: char, sub: string)
    ensures Replace([d], c, sub) == if d == c then sub else [d]
  {
    assert [d][1..] == "";
  }

  lemma EscapeOne(d: char)
    ensures Escape([d]) == EscapeChar(d)
    ensures EscapeBackslashLast([d]) == if d == '%' || d == '_' then ['\\', '\\', d] else EscapeChar(d)
  {
    ReplaceOne(d, '\\', "\\\\");
    ReplaceOne(d, '%', "\\%");
    ReplaceOne(d, '_', "\\_");
    forall x: char, c: char, sub: string
      ensures Replace(['\\', x], c, sub) == Replace(['\\'], c, sub) + Replace([x], c, sub)
    {
      assert ['\\', x] == ['\\'] + [x];
      ReplaceConcat(['\\'], [x], c, sub);
    }
    ReplaceOne('\\', '%', "\\%");
    ReplaceOne('\\', '_', "\\_");
    ReplaceOne('\\', '\\', "\\\\");
    ReplaceOne('%', '_', "\\_");
    ReplaceOne('%', '\\', "\\\\");
    ReplaceOne('_', '\\', "\\\\");
  }

  lemma EscapeConcat(a: string, b: string)
    ensures Escape(a + b) == Escape(a) + Escape(b)
    ensures EscapeBackslashLast(a + b) == EscapeBackslashLast(a) + EscapeBackslashLast(b)
  {
    ReplaceConcat(a, b, '\\', "\\\\");
    var a1, b1 := Replace(a, '\\', "\\\\"), Replace(b, '\\', "\\\\");
    ReplaceConcat(a1, b1, '%', "\\%");
    ReplaceConcat(Replace(a1, '%', "\\%"), Replace(b1, '%', "\\%"), '_', "\\_");
    ReplaceConcat(a, b, '%', "\\%");
    var a2, b2 := Replace(a, '%', "\\%"), Replace(b, '%', "\\%");
    ReplaceConcat(a2, b2, '_', "\\_");
    ReplaceConcat(Replace(a2, '_', "\\_"), Replace(b2, '_', "\\_"), '\\', "\\\\");
  }

  /** The three passes are one pass that escapes every special character once. */
  lemma {:induction false} ThreePassesAreOne(s: string)
    ensures Escape(s) == EscapeOnePass(s)
  {
    if s != "" {
      assert s == [s[0]] + s[1..];
      EscapeConcat([s[0]], s[1..]);
      EscapeOne(s[0]);
      ThreePassesAreOne(s[1..]);
    }
  }

  function Wildcards(s: string): nat {
    if s == "" then 0 else (if s[0] == '%' || s[0] == '_' then 1 else 0) + Wildcards(s[1..])
  }

  lemma {:induction false} LateEscapeLength(s: string)
    ensures |EscapeBackslashLast(s)| == |Escape(s)| + Wildcards(s)
    ensures Wildcards(s) == 0 <==> Plain(s)
    ensures Plain(s) ==> EscapeBackslashLast(s) == Escape(s)
  {
    if s != "" {
      assert s == [s[0]] + s[1..];
      EscapeConcat([s[0]], s[1..]);
      EscapeOne(s[0]);
      LateEscapeLength(s[1..]);
    }
  }

  /** Replacing the backslash last gives the same pattern exactly when there is nothing to escape but backslashes. */
  lemma BackslashLastExactly(s: string)
    ensures EscapeBackslashLast(s) == Escape(s) <==> Plain(s)
  {
    LateEscapeLength(s);
  }

  // ---- matching -----------------------------------------------------------------------

  function Literals(s: string): seq<Token> {
    if s == "" then [] else [Literal(s[0])] + Literals(s[1..])
  }

  function TokenOf(c: char): Token {
    if c == '%' then AnySequence else if c == '_' then AnyCharacter else Literal(c)
  }

  lemma TokensPlain(c: char, rest: string)
    requires c != '\\' && Tokens(rest).Some?
    ensures Tokens([c] + rest) == Some([TokenOf(c)] + Tokens(rest).value)
  {
    assert ([c] + rest)[1..] == rest;
  }

  lemma TokensEscaped(c: char, rest: string)
    requires Tokens(rest).Some?
    ensures Tokens(['\\', c] + rest) == Some([Literal(c)] + Tokens(rest).value)
  {
    assert (['\\', c] + rest)[2..] == rest;
  }

  /** `_` matches any one character and nothing else, `%` everything; a lone escape character is an error. */
  lemma Wildcard(text: string)
    ensures Like(text, "_") == Some(|text| == 1)
    ensures Like(text, "%") == Some(true)
    ensures Like(text, "\\") == None
    ensures Like(text, "\\_") == Some(text == "_")
  {
    TokensPlain('_', "");
    assert ['_'] + "" == "_" && ['\\', '_'] + "" == "\\_";
    assert [AnyCharacter] + Tokens("").value == [AnyCharacter] && [AnyCharacter][1..] == [];
    assert Tokens("_") == Some([AnyCharacter]);
    assert Match([AnyCharacter], text) <==> text != "" && Match([], text[1..]);
    TokensOfPercent();
    assert [AnySequence][1..] == [] && Match([], text[|text|..]);
    TokensEscaped('_', "");
    assert [Literal('_')] + Tokens("").value == [Literal('_')] && [Literal('_')][1..] == [];
    assert text != "" ==> text == [text[0]] + text[1..];
  }

  lemma TokensOfChar(c: char, rest: string)
    requires Tokens(rest).Some?
    ensures Tokens(EscapeChar(c) + rest) == Some([Literal(c)] + Tokens(rest).value)
  {
    if IsMeta(c) {
      TokensEscaped(c, rest);
    } else {
      TokensPlain(c, rest);
    }
  }

  lemma TokensOfPercent()
    ensures Tokens("%") == Some([AnySequence])
  {
    TokensPlain('%', "");
    assert ['%'] + "" == "%";
    assert [AnySequence] + Tokens("").value == [AnySequence];
  }

  lemma {:induction false} EscapedTokens(s: string, ts: seq<Token>)
    requires Tokens("%") == Some(ts)
    ensures Tokens(EscapeOnePass(s) + "%") == Some(Literals(s) + ts)
  {
    if s == "" {
      assert EscapeOnePass(s) + "%" == "%";
      assert Literals(s) + ts == ts;
    } else {
      EscapedTokens(s[1..], ts);
      EscapeCons(s);
      TokensOfChar(s[0], EscapeOnePass(s[1..]) + "%");
      assert [Literal(s[0])] + (Literals(s[1..]) + ts) == Literals(s) + ts;
    }
  }

  lemma EscapeCons(s: string)
    requires s != ""
    ensures EscapeOnePass(s) + "%" == EscapeChar(s[0]) + (EscapeOnePass(s[1..]) + "%")
  {
  }

  /** Literals followed by `%` match exactly the texts that start with them. */
  lemma {:induction false} MatchLiterals(s: string, text: string)
    ensures Match(Literals(s) + [AnySequence], text) <==> |s| <= |text| && text[..|s|] == s
  {
    var ts := Literals(s) + [AnySequence];
    if s == "" {
      assert ts == [AnySequence];
      assert ts[1..] == [];
      assert Match([], text[|text|..]);
    } else {
      assert ts[0] == Literal(s[0]) && ts[1..] == Literals(s[1..]) + [AnySequence];
      if text != "" {
        MatchLiterals(s[1..], text[1..]);
        if |s| <= |text| {
          assert text[..|s|] == [text[0]] + text[1..][..|s| - 1];
          assert s == [s[0]] + s[1..];
        }
      }
    }
  }

  lemma {:induction false} FoldLength(fold: char -> char, s: string)
    ensures |Fold(fold, s)| == |s|
    ensures forall k :: 0 <= k < |s| ==> Fold(fold, s)[k] == fold(s[k])
  {
    if s != "" { FoldLength(fold, s[1..]); }
  }

  lemma {:induction false} FoldConcat(fold: char -> char, a: string, b: string)
    ensures Fold(fold, a + b) == Fold(fold, a) + Fold(fold, b)
  {
    FoldLength(fold, a + b);
    FoldLength(fold, a);
    FoldLength(fold, b);
  }

  /** Folding an escaped search string is escaping the folded one. */
  lemma {:induction false} FoldEscaped(fold: char -> char, s: string)
    requires IsCaseFolding(fold)
    ensures Fold(fold, EscapeOnePass(s)) == EscapeOnePass(Fold(fold, s))
  {
    if s != "" {
      FoldEscaped(fold, s[1..]);
      FoldConcat(fold, EscapeChar(s[0]), EscapeOnePass(s[1..]));
      FoldLength(fold, EscapeChar(s[0]));
      assert IsMeta('\\');
      assert Fold(fold, EscapeChar(s[0])) == EscapeChar(fold(s[0]));
      assert Fold(fold, s)[1..] == Fold(fold, s[1..]);
    }
  }

  lemma MatchInside(part: string, text: string)
    ensures Match([AnySequence] + (Literals(part) + [AnySequence]), text) <==> Contains(text, part)
  {
    var ts := Literals(part) + [AnySequence];
    assert ([AnySequence] + ts)[1..] == ts;
    forall k | 0 <= k <= |text|
      ensures Match(ts, text[k..]) <==> OccursAt(text, part, k)
    {
      MatchLiterals(part, text[k..]);
      if k <= |text| - |part| {
        assert text[k..][..|part|] == text[k..k + |part|];
      }
    }
    if Contains(text, part) {
      var k :| OccursAt(text, part, k);
      assert Match(ts, text[k..]);
    }
  }

  lemma FoldedPattern(fold: char -> char, search: string)
    requires IsCaseFolding(fold)
    ensures Fold(fold, "%" + Escape(search) + "%") == "%" + (EscapeOnePass(Fold(fold, search)) + "%")
  {
    ThreePassesAreOne(search);
    FoldConcat(fold, "%" + Escape(search), "%");
    FoldConcat(fold, "%", Escape(search));
    FoldEscaped(fold, search);
    assert IsMeta('%');
    FoldLength(fold, "%");
  }

  /**
   The search predicate: a name matches `'%' || escaped || '%'` exactly when the search
   string is a literal, case-folded substring of it. The pattern is never malformed.
   */
  lemma SearchIsLiteral(fold: char -> char, name: string, search: string)
    requires IsCaseFolding(fold)
    ensures ILike(fold, name, "%" + Escape(search) + "%") == Some(Contains(Fold(fold, name), Fold(fold, search)))
  {
    FoldedPattern(fold, search);
    var text, part := Fold(fold, name), Fold(fold, search);
    TokensOfPercent();
    EscapedTokens(part, [AnySequence]);
    TokensPlain('%', EscapeOnePass(part) + "%");
    MatchInside(part, text);
  }

  // ---- the backslash replaced last ----------------------------------------------------

  function EscapeLate(c: char): string {
    if c == '%' || c == '_' then ['\\', '\\', c] else EscapeChar(c)
  }

  lemma LateCons(s: string)
    requires s != ""
    ensures EscapeBackslashLast(s) == EscapeLate(s[0]) + EscapeBackslashLast(s[1..])
  {
    assert s == [s[0]] + s[1..];
    EscapeConcat([s[0]], s[1..]);
    EscapeOne(s[0]);
  }

  lemma {:induction false} FoldLate(fold: char -> char, s: string)
    requires IsCaseFolding(fold)
    ensures Fold(fold, EscapeBackslashLast(s)) == EscapeBackslashLast(Fold(fold, s))
  {
    if s != "" {
      LateCons(s);
      FoldLate(fold, s[1..]);
      FoldConcat(fold, EscapeLate(s[0]), EscapeBackslashLast(s[1..]));
      FoldLength(fold, EscapeLate(s[0]));
      assert IsMeta('\\');
      assert Fold(fold, EscapeLate(s[0])) == EscapeLate(fold(s[0]));
      assert Fold(fold, s)[1..] == Fold(fold, s[1..]);
      LateCons(Fold(fold, s));
    }
  }

  function Backslashes(s: string): nat {
    if s == "" then 0 else (if s[0] == '\\' then 1 else 0) + Backslashes(s[1..])
  }

  function LiteralBackslashes(ts: seq<Token>): nat {
    if ts == [] then 0 else (if ts[0] == Literal('\\') then 1 else 0) + LiteralBackslashes(ts[1..])
  }

  lemma {:induction false} SuffixBackslashes(s: string, k: nat)
    requires k <= |s|
    ensures Backslashes(s[k..]) <= Backslashes(s)
  {
    if k > 0 {
      assert s[k..] == s[1..][k - 1..];
      SuffixBackslashes(s[1..], k - 1);
    }
  }

  /** A text can only match if it has a backslash for every literal one of the pattern. */
  lemma {:induction false} MatchNeedsBackslashes(ts: seq<Token>, text: string)
    requires Match(ts, text)
    ensures LiteralBackslashes(ts) <= Backslashes(text)
  {
    if ts != [] {
      match ts[0]
      case AnySequence =>
        var k :| 0 <= k <= |text| && Match(ts[1..], text[k..]);
        MatchNeedsBackslashes(ts[1..], text[k..]);
        SuffixBackslashes(text, k);
      case AnyCharacter => MatchNeedsBackslashes(ts[1..], text[1..]);
      case Literal(_) => MatchNeedsBackslashes(ts[1..], text[1..]);
    }
  }

  lemma LateTokensOfChar(c: char, rest: string)
    requires Tokens(rest).Some?
    ensures Tokens(EscapeLate(c) + rest).Some?
    ensures LiteralBackslashes(Tokens(EscapeLate(c) + rest).value) ==
            LiteralBackslashes(Tokens(rest).value) + Backslashes([c]) + Wildcards([c])
  {
    var ts := Tokens(rest).value;
    assert [c][1..] == "";
    if c == '%' || c == '_' {
      TokensPlain(c, rest);
      TokensEscaped('\\', [c] + rest);
      assert EscapeLate(c) + rest == ['\\', '\\'] + ([c] + rest);
      var inner := [TokenOf(c)] + ts;
      assert inner[1..] == ts && ([Literal('\\')] + inner)[1..] == inner;
    } else {
      TokensOfChar(c, rest);
      assert ([Literal(c)] + ts)[1..] == ts;
    }
  }

  /** Escaped late, every wildcard becomes a literal backslash and stays a wildcard. */
  lemma {:induction false} LateTokens(s: string)
    ensures Tokens(EscapeBackslashLast(s) + "%").Some?
    ensures LiteralBackslashes(Tokens(EscapeBackslashLast(s) + "%").value) == Backslashes(s) + Wildcards(s)
  {
    if s == "" {
      TokensOfPercent();
      assert EscapeBackslashLast(s) + "%" == "%";
    } else {
      LateTokens(s[1..]);
      LateCons(s);
      var rest := EscapeBackslashLast(s[1..]) + "%";
      LateTokensOfChar(s[0], rest);
      assert EscapeBackslashLast(s) + "%" == EscapeLate(s[0]) + rest;
      CountsOfFirst(s);
    }
  }

  lemma CountsOfFirst(s: string)
    requires s != ""
    ensures Backslashes(s) == Backslashes([s[0]]) + Backslashes(s[1..])
    ensures Wildcards(s) == Wildcards([s[0]]) + Wildcards(s[1..])
  {
    assert [s[0]][1..] == "";
  }

  lemma LatePattern(fold: char -> char, search: string)
    requires IsCaseFolding(fold)
    ensures Fold(fold, "%" + EscapeBackslashLast(search) + "%") == "%" + (EscapeBackslashLast(Fold(fold, search)) + "%")
  {
    FoldConcat(fold, "%" + EscapeBackslashLast(search), "%");
    FoldConcat(fold, "%", EscapeBackslashLast(search));
    FoldLate(fold, search);
    assert IsMeta('%');
    FoldLength(fold, "%");
  }

  /** The name that is the search string itself is not found when there is a wildcard in it. */
  lemma LateMissesItself(fold: char -> char, search: string)
    requires IsCaseFolding(fold) && Wildcards(Fold(fold, search)) > 0
    ensures ILike(fold, search, "%" + EscapeBackslashLast(search) + "%") == Some(false)
  {
    var text := Fold(fold, search);
    LatePattern(fold, search);
    LateTokens(text);
    var ts := Tokens(EscapeBackslashLast(text) + "%").value;
    TokensPlain('%', EscapeBackslashLast(text) + "%");
    assert ([AnySequence] + ts)[1..] == ts;
    if Match([AnySequence] + ts, text) {
      MatchNeedsBackslashes([AnySequence] + ts, text);
    }
  }

  lemma FoldKeepsPlain(fold: char -> char, s: string)
    requires IsCaseFolding(fold)
    ensures Plain(Fold(fold, s)) <==> Plain(s)
  {
    FoldLength(fold, s);
    assert IsMeta('%') && IsMeta('_');
    forall k | 0 <= k < |s| ensures fold(s[k]) == '%' <==> s[k] == '%' {}
    forall k | 0 <= k < |s| ensures fold(s[k]) == '_' <==> s[k] == '_' {}
  }

  /**
   With the backslash replaced last, the search is the literal substring test for all names if
   and only if there is neither a percent sign nor an underscore in the search string.
   */
  lemma LateSearchExactly(fold: char -> char, search: string)
    requires IsCaseFolding(fold)
    ensures Plain(search) <==>
      forall name ::
        ILike(fold, name, "%" + EscapeBackslashLast(search) + "%") ==
        Some(Contains(Fold(fold, name), Fold(fold, search)))
  {
    LateEscapeLength(search);
    if Plain(search) {
      forall name
        ensures ILike(fold, name, "%" + EscapeBackslashLast(search) + "%") ==
                Some(Contains(Fold(fold, name), Fold(fold, search)))
      {
        SearchIsLiteral(fold, name, search);
      }
    } else {
      FoldKeepsPlain(fold, search);
      LateEscapeLength(Fold(fold, search));
      LateMissesItself(fold, search);
      assert OccursAt(Fold(fold, search), Fold(fold, search), 0);
    }
  }
}
