/** Reading the refresh token out of a `Cookie` header. */
module Cookies {
  import opened Wrappers
  import opened Text

  const NAME := "refreshToken"

  // ── The extraction: the leftmost match of `/(?:^|;\s*)refreshToken=([^;]+)/` ──

  predicate StartsWith(s: string, prefix: string) {
    |prefix| <= |s| && s[..|prefix|] == prefix
  }

  /** The longest run of `[^;]`. */
  function UpToSemicolon(s: string): string {
    if s == "" || s[0] == ';' then "" else [s[0]] + UpToSemicolon(s[1..])
  }

  /** `refreshToken=([^;]+)` at the start of `s`. */
  function Token(s: string): Option<string> {
    if StartsWith(s, NAME + "=") && UpToSemicolon(s[|NAME| + 1..]) != "" then Some(UpToSemicolon(s[|NAME| + 1..])) else None
  }

  function DropSpace(s: string): string {
    s[SkipSpace(s, 0)..]
  }

  function Search(s: string, atStart: bool): Option<string> {
    if atStart && Token(s).Some? then Token(s)
    else if s == "" then None
    else if s[0] == ';' && Token(DropSpace(s[1..])).Some? then Token(DropSpace(s[1..]))
    else Search(s[1..], false)
  }

  /** `extractRefreshTokenFromCookies`. */
  function Extract(header: Option<string>): Option<string> {
    if header.None? || header.value == "" then None else Search(header.value, true)
  }

  /** Giving `\s*` fewer characters than there are never makes a match: only the longest run can be followed by the name. */
  lemma SpaceRunIsForced(s: string, n: nat)
    requires n <= |s| && (forall i | 0 <= i < n :: IsSpace(s[i])) && Token(s[n..]).Some?
    ensures s[n..] == DropSpace(s)
  {
    assert s[n..][..|NAME| + 1][0] == 'r';
    assert s[n] == 'r';
  }

  // ── What is matched ─────────────────────────────────────────────────────

  /** `refreshToken=` stands at `a`, and `s[a + 13..b]` is the value after it: not empty, and all there is up to the next
      semicolon or the end. */
  predicate TokenAt(s: string, a: nat, b: nat) {
    && a + 13 < b <= |s| && s[a..a + 13] == "refreshToken="
    && (forall i | a + 13 <= i < b :: s[i] != ';') && (b < |s| ==> s[b] == ';')
  }

  /** A match that begins at `i`: the token at the very beginning, or a semicolon there and, after any white space, the
      token. */
  predicate MatchAt(s: string, i: nat, a: nat, b: nat) {
    && i <= a && TokenAt(s, a, b)
    && (a == i == 0 || (i < a && s[i] == ';' && forall k | i < k < a :: IsSpace(s[k])))
  }

  lemma {:induction false} UpToSemicolonMeaning(s: string)
    ensures var n := |UpToSemicolon(s)|;
            && n <= |s| && UpToSemicolon(s) == s[..n] && (forall i | 0 <= i < n :: s[i] != ';') && (n < |s| ==> s[n] == ';')
  {
    if s != "" && s[0] != ';' {
      UpToSemicolonMeaning(s[1..]);
      assert s == [s[0]] + s[1..];
    }
  }

  /** `Token` on what is left from `a` on. */
  lemma TokenMeaning(s: string, a: nat)
    requires a <= |s|
    ensures Token(s[a..]).Some? ==> exists b: nat :: TokenAt(s, a, b) && Token(s[a..]) == Some(s[a + 13..b])
    ensures forall b: nat | TokenAt(s, a, b) :: Token(s[a..]) == Some(s[a + 13..b])
  {
    var rest := s[a..];
    assert |NAME + "="| == 13;
    if StartsWith(rest, NAME + "=") {
      var value := UpToSemicolon(rest[13..]);
      UpToSemicolonMeaning(rest[13..]);
      var b := a + 13 + |value|;
      assert s[a + 13..b] == value && s[a..a + 13] == rest[..13];
      if value != "" { assert TokenAt(s, a, b); }
      forall other: nat | TokenAt(s, a, other) ensures other == b {
        assert forall i | 0 <= i < |value| :: s[a + 13 + i] == value[i];
      }
    }
    forall b: nat | TokenAt(s, a, b) ensures StartsWith(rest, NAME + "=") { assert rest[..13] == s[a..a + 13]; }
  }

  /** The leftmost match gives the result; without a match there is none. */
  ghost predicate Leftmost(s: string, from: nat, result: Option<string>) {
    if result.None? then forall i: nat, a: nat, b: nat | from <= i :: !MatchAt(s, i, a, b)
    else exists i: nat, a: nat, b: nat ::
           && from <= i && MatchAt(s, i, a, b) && result == Some(s[a + 13..b])
           && forall j: nat, c: nat, d: nat | from <= j < i :: !MatchAt(s, j, c, d)
  }

  lemma MatchIsForced(s: string, i: nat, a: nat, b: nat)
    requires i < |s| && s[i] == ';' && MatchAt(s, i, a, b)
    ensures a == SkipSpace(s[i + 1..], 0) + i + 1
  {
    assert s[a] == s[a..a + 13][0] == 'r';
    var rest := s[i + 1..];
    var n := SkipSpace(rest, 0);
    assert forall k | 0 <= k < n :: IsSpace(rest[k]);
    assert n <= a - i - 1 && !IsSpace(rest[a - i - 1]);
  }

  lemma {:induction false} SearchIsLeftmost(s: string, from: nat)
    requires 0 < from <= |s|
    ensures Leftmost(s, from, Search(s[from..], false))
    decreases |s| - from
  {
    if from < |s| {
      SearchIsLeftmost(s, from + 1);
      SearchStep(s, from);
      assert s[from..][1..] == s[from + 1..];
      hide Search;
    }
  }

  lemma SearchStep(s: string, from: nat)
    requires from < |s| && Leftmost(s, from + 1, Search(s[from + 1..], false))
    requires from == 0 ==> Token(s).None?
    ensures Leftmost(s, from, Search(s[from..], false))
  {
    var rest := s[from + 1..];
    assert s[from..][1..] == rest && s[from..][0] == s[from];
    var a := SkipSpace(rest, 0) + from + 1;
    MatchesHere(s, from, a);
    var here := if s[from] == ';' then Token(DropSpace(rest)) else None;
    assert Search(s[from..], false) == if here.Some? then here else Search(rest, false);
    hide Search, Token, DropSpace, MatchAt, SkipSpace;
    if here.Some? {
      var b: nat :| MatchAt(s, from, a, b) && here == Some(s[a + 13..b]);
    }
  }

  /** The matches that begin at `from`: only after a semicolon, and only one. */
  lemma MatchesHere(s: string, from: nat, a: nat)
    requires from < |s| && a == SkipSpace(s[from + 1..], 0) + from + 1
    requires from == 0 ==> Token(s).None?
    ensures var here := if s[from] == ';' then Token(DropSpace(s[from + 1..])) else None;
            && (here.None? ==> forall c: nat, d: nat :: !MatchAt(s, from, c, d))
            && (here.Some? ==> exists b: nat :: MatchAt(s, from, a, b) && here == Some(s[a + 13..b]))
  {
    assert DropSpace(s[from + 1..]) == s[a..] && s[0..] == s;
    TokenMeaning(s, a);
    TokenMeaning(s, 0);
    forall c: nat, d: nat | MatchAt(s, from, c, d) ensures s[from] == ';' && c == a { MatchIsForced(s, from, c, d); }
    hide Token;
    if s[from] == ';' && Token(s[a..]).Some? {
      var b: nat :| TokenAt(s, a, b) && Token(s[a..]) == Some(s[a + 13..b]);
      assert MatchAt(s, from, a, b);
    }
  }

  /** For every header text, well-formed or not, the extraction gives the value of the leftmost match of the pattern, and
      nothing when there is no match. */
  lemma ExtractIsLeftmost(header: string)
    ensures Leftmost(header, 0, Extract(Some(header)))
  {
    TokenMeaning(header, 0);
    assert header[0..] == header;
    SearchAtStart(header);
    hide Search, Token;
    if Token(header).Some? {
      var b: nat :| TokenAt(header, 0, b) && Token(header) == Some(header[13..b]);
      assert MatchAt(header, 0, 0, b);
    } else if header != "" {
      SearchIsLeftmost(header, 1);
      SearchStep(header, 0);
    }
  }

  // ── Cookie strings ──────────────────────────────────────────────────────

  datatype Cookie = Cookie(name: string, value: string)

  /** What a cookie-pair of section 4.1.1 of RFC 6265 never contains; the section forbids more. */
  predicate WellFormed(c: Cookie) {
    && c.name != ""
    && (forall i | 0 <= i < |c.name| :: c.name[i] != '=' && c.name[i] != ';' && !IsSpace(c.name[i]))
    && (forall i | 0 <= i < |c.value| :: c.value[i] != ';' && !IsSpace(c.value[i]))
  }

  function Pair(c: Cookie): string {
    c.name + "=" + c.value
  }

  /** The cookie-string of section 4.2.1 of RFC 6265. */
  function Render(cookies: seq<Cookie>): string {
    if cookies == [] then ""
    else Pair(cookies[0]) + if |cookies| == 1 then "" else "; " + Render(cookies[1..])
  }

  /** The value of the first cookie named exactly `refreshToken` that has one. */
  function FirstValue(cookies: seq<Cookie>): Option<string> {
    if cookies == [] then None
    else if cookies[0].name == NAME && cookies[0].value != "" then Some(cookies[0].value)
    else FirstValue(cookies[1..])
  }

  lemma {:induction false} ValueEnds(value: string, rest: string)
    requires forall i | 0 <= i < |value| :: value[i] != ';'
    requires rest == "" || rest[0] == ';'
    ensures UpToSemicolon(value + rest) == value
  {
    if value == "" {
      assert value + rest == rest;
    } else {
      assert (value + rest)[1..] == value[1..] + rest;
      ValueEnds(value[1..], rest);
    }
  }

  lemma UpToEquals(s: string, a: string, b: string)
    requires |a| < |s| && |b| < |s| && s[..|a|] == a && s[..|b|] == b && s[|a|] == '=' && s[|b|] == '='
    requires (forall i | 0 <= i < |a| :: a[i] != '=') && (forall i | 0 <= i < |b| :: b[i] != '=')
    ensures a == b
  {
    assert (forall i | 0 <= i < |a| :: s[i] == a[i]) && (forall i | 0 <= i < |b| :: s[i] == b[i]);
  }

  /** At the start of a pair the token is found exactly when the pair is the one looked for. */
  lemma TokenOfPair(c: Cookie, rest: string)
    requires WellFormed(c) && (rest == "" || rest[0] == ';')
    ensures Token(Pair(c) + rest) == if c.name == NAME && c.value != "" then Some(c.value) else None
  {
    var s := Pair(c) + rest;
    assert s[|c.name|] == '=';
    assert forall i | 0 <= i < |c.name| :: s[i] == c.name[i];
    if StartsWith(s, NAME + "=") {
      assert s[..|c.name|] == c.name;
      assert s[|NAME|] == s[..|NAME| + 1][|NAME|] && s[..|NAME|] == s[..|NAME| + 1][..|NAME|];
      UpToEquals(s, c.name, NAME);
    }
    if c.name == NAME {
      assert s[..|NAME| + 1] == NAME + "=";
      assert s[|NAME| + 1..] == c.value + rest;
      ValueEnds(c.value, rest);
    }
  }

  lemma {:induction false} SearchSkips(text: string, rest: string)
    requires forall i | 0 <= i < |text| :: text[i] != ';'
    ensures Search(text + rest, false) == Search(rest, false)
  {
    if text == "" {
      assert text + rest == rest;
    } else {
      assert (text + rest)[1..] == text[1..] + rest;
      SearchSkips(text[1..], rest);
    }
  }

  lemma SpaceBefore(c: Cookie, rest: string)
    requires WellFormed(c)
    ensures DropSpace((" " + Pair(c)) + rest) == Pair(c) + rest
  {
    var s := (" " + Pair(c)) + rest;
    assert s[0] == ' ' && s[1] == c.name[0];
    assert s[1..] == Pair(c) + rest;
  }

  lemma SearchAtSeparator(text: string)
    ensures Search(";" + text, false)
            == if Token(DropSpace(text)).Some? then Token(DropSpace(text)) else Search(text, false)
  {
    hide Token, DropSpace;
    assert (";" + text)[1..] == text;
  }

  lemma SearchAtStart(s: string)
    ensures Search(s, true) == if Token(s).Some? then Token(s) else Search(s, false)
  {
    hide Token, DropSpace;
  }

  lemma PairHasNoSemicolon(c: Cookie)
    requires WellFormed(c)
    ensures forall i | 0 <= i < |" " + Pair(c)| :: (" " + Pair(c))[i] != ';'
  {
  }

  /** The search at a separator in front of a pair. */
  lemma SearchPair(c: Cookie, rest: string)
    requires WellFormed(c) && (rest == "" || rest[0] == ';')
    ensures Search("; " + Pair(c) + rest, false)
            == if c.name == NAME && c.value != "" then Some(c.value) else Search(rest, false)
  {
    hide Search, Token, DropSpace, Pair, UpToSemicolon;
    var text := (" " + Pair(c)) + rest;
    assert "; " + Pair(c) + rest == ";" + text;
    SearchAtSeparator(text);
    SpaceBefore(c, rest);
    TokenOfPair(c, rest);
    PairHasNoSemicolon(c);
    SearchSkips(" " + Pair(c), rest);
  }

  /** What stands after the first pair. */
  function Tail(cookies: seq<Cookie>): string {
    if cookies == [] then "" else "; " + Render(cookies)
  }

  /** From a separator on, the search finds the first value among the remaining pairs. */
  lemma {:induction false} SearchFromSeparator(cookies: seq<Cookie>)
    requires forall i | 0 <= i < |cookies| :: WellFormed(cookies[i])
    ensures Search(Tail(cookies), false) == FirstValue(cookies)
  {
    hide Search, Pair, WellFormed;
    if cookies == [] {
      NothingThere();
    } else {
      SearchFromSeparator(cookies[1..]);
      SearchPair(cookies[0], Tail(cookies[1..]));
      assert Tail(cookies) == "; " + Pair(cookies[0]) + Tail(cookies[1..]);
    }
  }

  lemma NothingThere()
    ensures Search("", false) == None
  {
  }

  /** For every list of well-formed cookies, the extraction from their cookie-string returns the value of the first one
      that is named exactly `refreshToken` and is not empty, and nothing when there is none. */
  lemma ExtractFindsFirst(cookies: seq<Cookie>)
    requires forall i | 0 <= i < |cookies| :: WellFormed(cookies[i])
    ensures Extract(Some(Render(cookies))) == FirstValue(cookies)
  {
    hide Search, Token, Pair, Render, Tail, WellFormed;
    if cookies == [] {
      RenderNothing();
    } else {
      var c, rest := cookies[0], Tail(cookies[1..]);
      RenderFirst(cookies);
      SearchAtStart(Pair(c) + rest);
      TokenOfPair(c, rest);
      SearchSkipsPair(c, rest);
      SearchFromSeparator(cookies[1..]);
    }
  }

  lemma RenderNothing()
    ensures Render([]) == ""
  {
  }

  lemma RenderFirst(cookies: seq<Cookie>)
    requires cookies != []
    ensures Render(cookies) == Pair(cookies[0]) + Tail(cookies[1..]) != ""
    ensures Tail(cookies[1..]) == "" || Tail(cookies[1..])[0] == ';'
  {
  }

  lemma SearchSkipsPair(c: Cookie, rest: string)
    requires WellFormed(c)
    ensures Search(Pair(c) + rest, false) == Search(rest, false)
  {
    PairHasNoSemicolon(c);
    hide Search, Pair;
    assert forall i | 0 <= i < |Pair(c)| :: Pair(c)[i] == (" " + Pair(c))[i + 1];
    SearchSkips(Pair(c), rest);
  }
}
