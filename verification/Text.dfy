/** The string primitives the services share: JavaScript's white space, `trim`, and
    ASCII case mapping, together with the `normalizeResource` normal form. */
module Text {

  /** The characters that `String.prototype.trim` strips and `\s` matches. */
  predicate IsSpace(c: char) {
    || '\U{0009}' <= c <= '\U{000D}'
    || c == ' '
    || c == '\U{00A0}'
    || c == '\U{1680}'
    || '\U{2000}' <= c <= '\U{200A}'
    || c == '\U{2028}'
    || c == '\U{2029}'
    || c == '\U{202F}'
    || c == '\U{205F}'
    || c == '\U{3000}'
    || c == '\U{FEFF}'
  }

  function UpperChar(c: char): char {
    if 'a' <= c <= 'z' then (c as int - 32) as char else c
  }

  function LowerChar(c: char): char {
    if 'A' <= c <= 'Z' then (c as int + 32) as char else c
  }

  function ToUpper(s: string): string {
    seq(|s|, i requires 0 <= i < |s| => UpperChar(s[i]))
  }

  function ToLower(s: string): string {
    seq(|s|, i requires 0 <= i < |s| => LowerChar(s[i]))
  }

  /** The first position from `i` on that holds no white space. */
  function SkipSpace(s: string, i: nat): (j: nat)
    requires i <= |s|
    ensures i <= j <= |s| && forall k | i <= k < j :: IsSpace(s[k])
    ensures j < |s| ==> !IsSpace(s[j])
    decreases |s| - i
  {
    if i < |s| && IsSpace(s[i]) then SkipSpace(s, i + 1) else i
  }

  /** The position just after the last one between `i` and `j` that holds no white space, or `i`. */
  function SkipSpaceBack(s: string, i: nat, j: nat): (k: nat)
    requires i <= j <= |s|
    ensures i <= k <= j && forall m | k <= m < j :: IsSpace(s[m])
    ensures i < k ==> !IsSpace(s[k - 1])
    decreases j
  {
    if i < j && IsSpace(s[j - 1]) then SkipSpaceBack(s, i, j - 1) else j
  }

  function Trim(s: string): string {
    var start := SkipSpace(s, 0);
    s[start..SkipSpaceBack(s, start, |s|)]
  }

  /** No white space at either end. */
  predicate Trimmed(s: string) {
    s == "" || (!IsSpace(s[0]) && !IsSpace(s[|s| - 1]))
  }

  /** `normalizeResource`: an absent resource arrives here as the empty string. */
  function Normalize(s: string): string {
    ToUpper(Trim(s))
  }

  /** The normal forms of `Normalize`. */
  predicate IsNormal(s: string) {
    Trimmed(s) && forall c | c in s :: UpperChar(c) == c
  }

  /** `trim` cuts off white space only, and leaves none at either end. */
  lemma TrimMeaning(s: string)
    ensures Trimmed(Trim(s))
    ensures exists a: nat, b: nat ::
              && a <= b <= |s| && Trim(s) == s[a..b]
              && (forall i | 0 <= i < a :: IsSpace(s[i])) && (forall i | b <= i < |s| :: IsSpace(s[i]))
  {
    var a := SkipSpace(s, 0);
    var b := SkipSpaceBack(s, a, |s|);
    assert Trim(s) == s[a..b];
  }

  lemma TrimFixed(s: string)
    requires Trimmed(s)
    ensures Trim(s) == s
  {
    assert s[0..|s|] == s;
  }

  lemma UpperKeepsSpace(c: char)
    ensures IsSpace(UpperChar(c)) == IsSpace(c) && UpperChar(UpperChar(c)) == UpperChar(c)
  {
  }

  /** `normalizeResource` lands in its normal forms and fixes each of them. */
  lemma NormalizeMeaning(s: string)
    ensures IsNormal(Normalize(s))
    ensures IsNormal(s) ==> Normalize(s) == s
  {
    TrimMeaning(s);
    var t := Trim(s);
    if t != "" {
      UpperKeepsSpace(t[0]);
      UpperKeepsSpace(t[|t| - 1]);
    }
    if IsNormal(s) {
      TrimFixed(s);
      assert forall i | 0 <= i < |s| :: s[i] in s;
      assert ToUpper(s) == s;
    }
  }

  /** The same letter of the alphabet in either case, or the very same character. */
  predicate SameLetter(c: char, d: char) {
    || c == d
    || ('a' <= c <= 'z' && 'A' <= d <= 'Z' && c as int - 'a' as int == d as int - 'A' as int)
    || ('A' <= c <= 'Z' && 'a' <= d <= 'z' && c as int - 'A' as int == d as int - 'a' as int)
  }

  /** `s` is `w` in any case and between any white space; the middle part starts at `a`. */
  predicate SpellsAt(s: string, w: string, a: nat) {
    && a + |w| <= |s|
    && (forall i | 0 <= i < a :: IsSpace(s[i])) && (forall i | a + |w| <= i < |s| :: IsSpace(s[i]))
    && (forall i | 0 <= i < |w| :: SameLetter(s[a + i], w[i]))
  }

  ghost predicate Spells(s: string, w: string) {
    exists a: nat :: SpellsAt(s, w, a)
  }

  lemma SpaceHasNoCase(c: char, d: char)
    requires SameLetter(c, d)
    ensures IsSpace(c) == IsSpace(d) && UpperChar(c) == UpperChar(d)
  {
  }

  /** Trimming finds the middle part. */
  lemma TrimFinds(s: string, a: nat, b: nat)
    requires a < b <= |s| && !IsSpace(s[a]) && !IsSpace(s[b - 1])
    requires (forall i | 0 <= i < a :: IsSpace(s[i])) && (forall i | b <= i < |s| :: IsSpace(s[i]))
    ensures Trim(s) == s[a..b]
  {
    var start := SkipSpace(s, 0);
    assert start == a;
    var end := SkipSpaceBack(s, start, |s|);
    assert !IsSpace(s[end - 1]) && end == b;
  }

  lemma TrimBlank(s: string)
    requires forall i | 0 <= i < |s| :: IsSpace(s[i])
    ensures Trim(s) == ""
  {
  }

  /** The normal form of a text is the one name in normal form that the text spells. */
  lemma NormalFormIsSpelled(s: string, w: string)
    requires IsNormal(w)
    ensures Normalize(s) == w <==> Spells(s, w)
  {
    if Spells(s, w) {
      var a: nat :| SpellsAt(s, w, a);
      SpelledNormalizes(s, w, a);
    }
    if Normalize(s) == w { NormalizedIsSpelled(s); }
    hide Normalize, IsNormal, SpellsAt;
  }

  lemma NormalizedIsSpelled(s: string)
    ensures Spells(s, Normalize(s))
  {
    var w := Normalize(s);
    TrimMeaning(s);
    var a: nat, b: nat :| a <= b <= |s| && Trim(s) == s[a..b]
      && (forall i | 0 <= i < a :: IsSpace(s[i])) && (forall i | b <= i < |s| :: IsSpace(s[i]));
    hide Trim, IsSpace;
    forall i | 0 <= i < |w| ensures SameLetter(s[a + i], w[i]) { assert w[i] == UpperChar(s[a..b][i]); }
    assert SpellsAt(s, w, a);
  }

  lemma SpelledNormalizes(s: string, w: string, a: nat)
    requires IsNormal(w) && SpellsAt(s, w, a)
    ensures Normalize(s) == w
  {
    if w == "" {
      TrimBlank(s);
    } else {
      SpaceHasNoCase(s[a], w[0]);
      assert SameLetter(s[a + (|w| - 1)], w[|w| - 1]);
      SpaceHasNoCase(s[a + |w| - 1], w[|w| - 1]);
      TrimFinds(s, a, a + |w|);
      forall i | 0 <= i < |w| ensures UpperChar(s[a + i]) == w[i] {
        SpaceHasNoCase(s[a + i], w[i]);
        assert w[i] in w;
      }
    }
  }

  /** Lower case, letter by letter. */
  lemma LowerSpells(s: string, w: string)
    requires forall i | 0 <= i < |w| :: !('A' <= w[i] <= 'Z')
    ensures ToLower(s) == w <==> |s| == |w| && forall i | 0 <= i < |w| :: SameLetter(s[i], w[i])
  {
    if |s| == |w| && forall i | 0 <= i < |w| :: SameLetter(s[i], w[i]) {
      forall i | 0 <= i < |w| ensures LowerChar(s[i]) == w[i] { assert SameLetter(s[i], w[i]); }
    }
    if ToLower(s) == w {
      forall i | 0 <= i < |w| ensures SameLetter(s[i], w[i]) { assert w[i] == LowerChar(s[i]); }
    }
  }
}
