/** The file names of uploaded work orders. */
module WorkOrderNames {
  import opened Text

  /** `\w`. */
  predicate IsWord(c: char) {
    'a' <= c <= 'z' || 'A' <= c <= 'Z' || '0' <= c <= '9' || c == '_'
  }

  /** `.replace(/[^\w\s-]/g, '')`. */
  function Strip(s: string): string {
    if s == "" then "" else (if IsWord(s[0]) || IsSpace(s[0]) || s[0] == '-' then [s[0]] else "") + Strip(s[1..])
  }

  /** Stripping keeps letters, digits, underscores, hyphens and white space, drops every other character, and works on the
      parts of a text one by one; so it keeps exactly those characters, in their order. */
  lemma {:induction false} StripKeeps(a: string, b: string, ch: char)
    ensures Strip([ch]) ==
            if 'a' <= ch <= 'z' || 'A' <= ch <= 'Z' || '0' <= ch <= '9' || ch in {'_', '-'} || IsSpace(ch) then [ch] else ""
    ensures Strip(a + b) == Strip(a) + Strip(b)
  {
    assert [ch][1..] == "" && Strip("") == "";
    if a == "" {
      assert a + b == b;
    } else {
      StripKeeps(a[1..], b, ch);
      assert (a + b)[1..] == a[1..] + b && (a + b)[0] == a[0];
    }
  }

  /** `.replace(/\s+/g, ' ')`. */
  function Collapse(s: string): string
    decreases |s|
  {
    if s == "" then ""
    else if IsSpace(s[0]) then " " + Collapse(s[SkipSpace(s, 0)..])
    else [s[0]] + Collapse(s[1..])
  }

  const FALLBACK := "Work Order"

  /** The name, before the date is added. */
  function SafeName(name: string): string {
    var cleaned := Trim(Collapse(Strip(Trim(name))));
    if cleaned == "" then FALLBACK else cleaned
  }

  // ── What the chain of replacements amounts to ───────────────────────────

  function WordEnd(s: string, i: nat): (j: nat)
    requires i <= |s|
    ensures i <= j <= |s| && (forall k | i <= k < j :: !IsSpace(s[k])) && (j < |s| ==> IsSpace(s[j]))
    decreases |s| - i
  {
    if i < |s| && !IsSpace(s[i]) then WordEnd(s, i + 1) else i
  }

  predicate Solid(w: string) {
    w != "" && forall i | 0 <= i < |w| :: !IsSpace(w[i])
  }

  /** The words of a text: its longest stretches without white space. */
  function Words(s: string): (words: seq<string>)
    ensures forall i | 0 <= i < |words| :: Solid(words[i])
    decreases |s|
  {
    var a := SkipSpace(s, 0);
    if a == |s| then [] else [s[a..WordEnd(s, a)]] + Words(s[WordEnd(s, a)..])
  }

  function Join(words: seq<string>): string {
    if words == [] then "" else words[0] + if |words| == 1 then "" else " " + Join(words[1..])
  }

  lemma {:induction false} CollapseWord(s: string, a: nat, b: nat)
    requires a <= b <= |s| && forall i | a <= i < b :: !IsSpace(s[i])
    ensures Collapse(s[a..]) == s[a..b] + Collapse(s[b..])
    decreases b - a
  {
    if a < b {
      CollapseWord(s, a + 1, b);
      assert s[a..][1..] == s[a + 1..] && s[a..b] == [s[a]] + s[a + 1..b];
    }
  }

  function Lead(s: string): string {
    if s != "" && IsSpace(s[0]) && Words(s) != [] then " " else ""
  }

  function Trail(s: string): string {
    if s != "" && IsSpace(s[|s| - 1]) then " " else ""
  }

  lemma CollapseSpace(s: string)
    ensures Collapse(s) == (if s != "" && IsSpace(s[0]) then " " else "") + Collapse(s[SkipSpace(s, 0)..])
  {
    if s == "" || !IsSpace(s[0]) { assert s[SkipSpace(s, 0)..] == s; }
  }

  lemma JoinCons(w: string, words: seq<string>)
    ensures Join([w] + words) == w + if words == [] then "" else " " + Join(words)
  {
    assert ([w] + words)[1..] == words;
  }

  lemma TrailOfRest(s: string, b: nat)
    requires 0 < b <= |s| && !IsSpace(s[b - 1])
    ensures Trail(s[b..]) == Trail(s)
  {
  }

  /** The first word, and what follows it. */
  lemma FirstWord(s: string, a: nat, b: nat)
    requires a == SkipSpace(s, 0) < |s| && b == WordEnd(s, a)
    ensures b > 0 && Words(s) == [s[a..b]] + Words(s[b..])
    ensures Lead(s) == if IsSpace(s[0]) then " " else ""
    ensures Words(s[b..]) != [] ==> Lead(s[b..]) == " "
    ensures Trail(s[b..]) == Trail(s)
  {
    TrailOfRest(s, b);
    hide Collapse;
  }

  lemma CollapseFirstWord(s: string, a: nat, b: nat)
    requires a == SkipSpace(s, 0) < |s| && b == WordEnd(s, a)
    ensures Collapse(s) == (if IsSpace(s[0]) then " " else "") + s[a..b] + Collapse(s[b..])
  {
    hide Collapse, Words;
    CollapseSpace(s);
    CollapseWord(s, a, b);
    hide SkipSpace, WordEnd;
  }

  lemma NoWord(s: string)
    requires SkipSpace(s, 0) == |s|
    ensures Collapse(s) == Lead(s) + Join(Words(s)) + Trail(s)
  {
    CollapseSpace(s);
  }

  /** Collapsing leaves the words, one space between any two, and at most one space at either end. */
  lemma {:induction false} CollapseMeaning(s: string)
    ensures Collapse(s) == Lead(s) + Join(Words(s)) + Trail(s)
    decreases |s|
  {
    hide Collapse, Words, Join, Lead, Trail, SkipSpace, WordEnd;
    var a := SkipSpace(s, 0);
    if a == |s| {
      NoWord(s);
    } else {
      var b := WordEnd(s, a);
      FirstWord(s, a, b);
      CollapseFirstWord(s, a, b);
      CollapseMeaning(s[b..]);
      LeadJoin(s[b..]);
      JoinCons(s[a..b], Words(s[b..]));
      Glue(Lead(s), s[a..b], Lead(s[b..]), Join(Words(s[b..])), Trail(s));
    }
  }

  lemma LeadJoin(s: string)
    requires Words(s) != [] ==> Lead(s) == " "
    ensures Lead(s) + Join(Words(s)) == if Words(s) == [] then "" else " " + Join(Words(s))
  {
    hide Words;
  }

  lemma Glue(lead: string, w: string, space: string, joined: string, trail: string)
    ensures lead + w + (space + joined + trail) == lead + (w + (space + joined)) + trail
  {
  }

  lemma {:induction false} JoinTrimmed(words: seq<string>)
    requires forall i | 0 <= i < |words| :: Solid(words[i])
    ensures Trimmed(Join(words)) && (words != [] ==> Join(words) != "")
  {
    if words != [] {
      assert Solid(words[0]);
      JoinTrimmed(words[1..]);
    }
  }

  lemma TrimPadded(before: string, core: string, after: string)
    requires Trimmed(core) && (before == "" || before == " ") && (after == "" || after == " ")
    ensures Trim(before + core + after) == core
  {
    var s := before + core + after;
    var a := SkipSpace(s, 0);
    if core == "" {
      assert forall i | 0 <= i < |s| :: IsSpace(s[i]);
    } else {
      assert s[|before|] == core[0];
      assert a == |before|;
      var b := SkipSpaceBack(s, a, |s|);
      assert s[|before| + |core| - 1] == core[|core| - 1];
      assert b == |before| + |core|;
      assert s[a..b] == core;
    }
  }

  /** Collapsing and trimming keeps exactly the words, one space apart. */
  lemma TrimCollapseIsJoin(s: string)
    ensures Trim(Collapse(s)) == Join(Words(s))
  {
    CollapseMeaning(s);
    JoinTrimmed(Words(s));
    TrimPadded(Lead(s), Join(Words(s)), Trail(s));
  }

  // ── The normal form ─────────────────────────────────────────────────────

  /** Not empty; only word characters, hyphens and spaces; and each space between two characters that are none. */
  predicate Safe(s: string) {
    && s != ""
    && (forall i | 0 <= i < |s| :: IsWord(s[i]) || s[i] == '-' || s[i] == ' ')
    && (forall i | 0 <= i < |s| && s[i] == ' ' :: 0 < i < |s| - 1 && s[i + 1] != ' ')
  }

  lemma {:induction false} StripMeaning(s: string)
    ensures Kept(Strip(s))
    ensures Kept(s) ==> Strip(s) == s
  {
    if s != "" {
      StripMeaning(s[1..]);
      assert s == [s[0]] + s[1..];
    }
  }

  predicate Plain(w: string) {
    w != "" && forall i | 0 <= i < |w| :: IsWord(w[i]) || w[i] == '-'
  }

  predicate Kept(s: string) {
    forall i | 0 <= i < |s| :: IsWord(s[i]) || IsSpace(s[i]) || s[i] == '-'
  }

  lemma {:induction false} WordsPlain(s: string)
    requires Kept(s)
    ensures forall i | 0 <= i < |Words(s)| :: Plain(Words(s)[i])
    decreases |s|
  {
    var a := SkipSpace(s, 0);
    if a < |s| { WordsPlain(s[WordEnd(s, a)..]); }
  }

  lemma {:induction false} JoinSafe(words: seq<string>)
    requires words != [] && forall i | 0 <= i < |words| :: Plain(words[i])
    ensures Safe(Join(words))
  {
    var first := words[0];
    assert Plain(first);
    if |words| > 1 {
      JoinSafe(words[1..]);
      var rest := Join(words[1..]);
      var s := Join(words);
      assert s == first + " " + rest;
      forall i | 0 <= i < |s| ensures IsWord(s[i]) || s[i] == '-' || s[i] == ' '
                             ensures s[i] == ' ' ==> 0 < i < |s| - 1 && s[i + 1] != ' ' {
        if i < |first| {
          assert s[i] == first[i];
        } else if i == |first| {
          assert s[i + 1] == rest[0];
        } else {
          assert s[i] == rest[i - |first| - 1];
          if i < |s| - 1 { assert s[i + 1] == rest[i - |first|]; }
        }
      }
    } else {
      assert Join(words) == first;
    }
  }

  lemma {:induction false} CollapseFixed(s: string)
    requires forall i | 0 <= i < |s| && IsSpace(s[i]) :: s[i] == ' ' && (i + 1 < |s| ==> !IsSpace(s[i + 1]))
    ensures Collapse(s) == s
  {
    if s != "" {
      CollapseFixed(s[1..]);
      assert s == [s[0]] + s[1..];
      if IsSpace(s[0]) { assert SkipSpace(s, 0) == 1; }
    }
  }

  lemma FallbackIsSafe()
    ensures Safe(FALLBACK)
  {
    assert |FALLBACK| == 10 && FALLBACK[4] == ' ';
  }

  /** The sanitised name is made of the words of the stripped name, one space apart, or is the fallback when there are
      none; it is always in the normal form; and the names it leaves alone are exactly those in normal form. Hence
      sanitising twice is sanitising once. */
  lemma SafeNameMeaning(name: string)
    ensures SafeName(name) == var words := Words(Strip(Trim(name))); if words == [] then "Work Order" else Join(words)
    ensures Safe(SafeName(name))
    ensures SafeName(name) == name <==> Safe(name)
    ensures SafeName(SafeName(name)) == SafeName(name)
  {
    IsSafeName(name);
    SafeIsFixed(SafeName(name));
    if Safe(name) { SafeIsFixed(name); }
  }

  lemma IsSafeName(name: string)
    ensures SafeName(name) == var words := Words(Strip(Trim(name))); if words == [] then FALLBACK else Join(words)
    ensures Safe(SafeName(name))
  {
    var stripped := Strip(Trim(name));
    var words := Words(stripped);
    TrimCollapseIsJoin(stripped);
    JoinTrimmed(words);
    StripMeaning(Trim(name));
    FallbackIsSafe();
    if words != [] {
      WordsPlain(stripped);
      JoinSafe(words);
    }
  }

  lemma SafeIsFixed(s: string)
    requires Safe(s)
    ensures SafeName(s) == s
  {
    assert Trimmed(s);
    TrimFixed(s);
    StripMeaning(s);
    CollapseFixed(s);
  }
}
