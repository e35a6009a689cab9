/**
 The logic guard: canonical keys for claims, and the search for a claim that is
 both asserted and negated.
 */
module LogicGuard {
  import opened Options
  import opened Engines

  // --------------------------------------------------------------------
  // Canonical keys
  // --------------------------------------------------------------------

  /** The Unicode general categories that matter here: format, control, any other. */
  datatype Category = Cf | Cc | Other

  /** The Unicode tables the key is computed with. `ignorable` are the default-ignorables outside `Cf`. */
  datatype Unicode = Unicode(
    ignorable: char -> bool,
    category: char -> Category,
    space: char -> bool,
    nfkc: string -> string,
    casefold: string -> string)

  predicate AsciiChar(c: char) { c as int < 128 }

  predicate IsAscii(s: string) {
    forall i | 0 <= i < |s| :: AsciiChar(s[i])
  }

  /** Tab to carriage return, the four information separators, and the space. */
  predicate AsciiSpace(c: char) {
    9 <= c as int <= 13 || 28 <= c as int <= 31 || c == ' '
  }

  predicate AsciiPrintable(c: char) {
    32 <= c as int < 127
  }

  function LowerChar(c: char): char {
    if 'A' <= c <= 'Z' then (c as int + 32) as char else c
  }

  function Lower(s: string): string {
    seq(|s|, i requires 0 <= i < |s| => LowerChar(s[i]))
  }

  /** The tables' values on ASCII. */
  ghost predicate FitsAscii(u: Unicode) {
    && (forall c | AsciiChar(c) ::
          && !u.ignorable(c)
          && u.category(c) == (if c as int < 32 || c as int == 127 then Cc else Other)
          && u.space(c) == AsciiSpace(c))
    && (forall s | IsAscii(s) :: u.nfkc(s) == s && u.casefold(s) == Lower(s))
  }

  function Without(drop: char -> bool, s: string): string {
    if s == "" then "" else (if drop(s[0]) then "" else [s[0]]) + Without(drop, s[1..])
  }

  /** The length of the leading run of characters that are not spaces. */
  function WordLength(space: char -> bool, s: string): (n: nat)
    ensures n <= |s| && forall i | 0 <= i < n :: !space(s[i])
    ensures n < |s| ==> space(s[n])
  {
    if s == "" || space(s[0]) then 0 else 1 + WordLength(space, s[1..])
  }

  /** Splitting at runs of spaces. */
  function Words(space: char -> bool, s: string): seq<string>
    decreases |s|
  {
    if s == "" then []
    else if space(s[0]) then Words(space, s[1..])
    else [s[..WordLength(space, s)]] + Words(space, s[WordLength(space, s)..])
  }

  function Join(words: seq<string>): string {
    if words == [] then ""
    else if |words| == 1 then words[0]
    else words[0] + " " + Join(words[1..])
  }

  /** The control characters that are not spaces. */
  predicate AsciiInvisible(c: char) {
    c as int < 9 || 14 <= c as int < 28 || c as int == 127
  }

  /** The translation is skipped when every character is printable. */
  function Visible(claim: string): string {
    if forall i | 0 <= i < |claim| :: AsciiPrintable(claim[i]) then claim else Without(AsciiInvisible, claim)
  }

  function FastKey(claim: string): string {
    Join(Words(AsciiSpace, Lower(Visible(claim))))
  }

  function FullKey(u: Unicode, claim: string): string {
    var text := Without(u.ignorable, claim);
    var kept := Without((c: char) => u.category(c).Cf? || (u.category(c).Cc? && !u.space(c)), text);
    Join(Words(u.space, u.nfkc(u.casefold(u.nfkc(kept)))))
  }

  function NormalizeClaim(u: Unicode, claim: string): string {
    if IsAscii(claim) then FastKey(claim) else FullKey(u, claim)
  }

  // --------------------------------------------------------------------
  // The fast path is the full pipeline
  // --------------------------------------------------------------------

  lemma {:induction false} WithoutAgrees(f: char -> bool, g: char -> bool, s: string)
    requires forall i | 0 <= i < |s| :: f(s[i]) == g(s[i])
    ensures Without(f, s) == Without(g, s)
  {
    if s != "" { WithoutAgrees(f, g, s[1..]); }
  }

  lemma {:induction false} WithoutNone(drop: char -> bool, s: string)
    requires forall i | 0 <= i < |s| :: !drop(s[i])
    ensures Without(drop, s) == s
  {
    if s != "" { WithoutNone(drop, s[1..]); }
  }

  lemma {:induction false} WithoutKeeps(drop: char -> bool, s: string)
    ensures forall c | c in Without(drop, s) :: c in s && !drop(c)
  {
    if s != "" { WithoutKeeps(drop, s[1..]); }
  }

  lemma {:induction false} WordsAgree(f: char -> bool, g: char -> bool, s: string)
    requires forall i | 0 <= i < |s| :: f(s[i]) == g(s[i])
    ensures Words(f, s) == Words(g, s)
    decreases |s|
  {
    if s != "" {
      if f(s[0]) {
        WordsAgree(f, g, s[1..]);
      } else {
        WordLengthAgrees(f, g, s);
        WordsAgree(f, g, s[WordLength(f, s)..]);
      }
    }
  }

  lemma {:induction false} WordLengthAgrees(f: char -> bool, g: char -> bool, s: string)
    requires forall i | 0 <= i < |s| :: f(s[i]) == g(s[i])
    ensures WordLength(f, s) == WordLength(g, s)
  {
    if s != "" { WordLengthAgrees(f, g, s[1..]); }
  }

  /** Whether or not the translation is skipped, the invisible characters are gone. */
  lemma VisibleDrops(claim: string)
    ensures Visible(claim) == Without(AsciiInvisible, claim)
  {
    if forall i | 0 <= i < |claim| :: AsciiPrintable(claim[i]) {
      WithoutNone(AsciiInvisible, claim);
    }
  }

  lemma VisibleAscii(claim: string)
    requires IsAscii(claim)
    ensures IsAscii(Visible(claim)) && forall c | c in Visible(claim) :: !AsciiInvisible(c)
  {
    VisibleDrops(claim);
    WithoutKeeps(AsciiInvisible, claim);
    forall i | 0 <= i < |Visible(claim)|
      ensures AsciiChar(Visible(claim)[i])
    {
      assert Visible(claim)[i] in claim;
    }
  }

  /** On ASCII the fast path computes what the full pipeline does. */
  lemma FastPathIsExact(u: Unicode, claim: string)
    requires FitsAscii(u) && IsAscii(claim)
    ensures FastKey(claim) == FullKey(u, claim)
  {
    var drop := (c: char) => u.category(c).Cf? || (u.category(c).Cc? && !u.space(c));
    WithoutNone(u.ignorable, claim);
    WithoutAgrees(drop, AsciiInvisible, claim);
    VisibleDrops(claim);
    VisibleAscii(claim);
    var text := Lower(Visible(claim));
    assert IsAscii(text);
    WordsAgree(u.space, AsciiSpace, text);
  }

  // --------------------------------------------------------------------
  // Normal forms
  // --------------------------------------------------------------------

  predicate IsWord(w: string) {
    w != "" && forall i | 0 <= i < |w| :: AsciiPrintable(w[i]) && w[i] != ' ' && LowerChar(w[i]) == w[i]
  }

  predicate AreWords(words: seq<string>) {
    forall i | 0 <= i < |words| :: IsWord(words[i])
  }

  /** The words of a claim: what its key is made of. */
  function ClaimWords(claim: string): seq<string> {
    Words(AsciiSpace, Lower(Without(AsciiInvisible, claim)))
  }

  /** A character of a word of a claim, before it is split. */
  predicate WordChar(c: char) {
    AsciiChar(c) && !AsciiInvisible(c) && LowerChar(c) == c
  }

  lemma {:induction false} WordsAreWords(s: string)
    requires forall i | 0 <= i < |s| :: WordChar(s[i])
    ensures AreWords(Words(AsciiSpace, s))
    decreases |s|
  {
    if s != "" {
      if AsciiSpace(s[0]) {
        WordsAreWords(s[1..]);
      } else {
        var n := WordLength(AsciiSpace, s);
        assert IsWord(s[..n]);
        WordsAreWords(s[n..]);
      }
    }
  }

  lemma ClaimWordsAreWords(claim: string)
    requires IsAscii(claim)
    ensures AreWords(ClaimWords(claim))
  {
    VisibleDrops(claim);
    VisibleAscii(claim);
    var text := Lower(Visible(claim));
    forall i | 0 <= i < |text|
      ensures WordChar(text[i])
    {
      assert Visible(claim)[i] in Visible(claim);
    }
    WordsAreWords(text);
  }

  lemma {:induction false} WordLengthOf(w: string, rest: string)
    requires forall i | 0 <= i < |w| :: !AsciiSpace(w[i])
    requires rest == "" || rest[0] == ' '
    ensures WordLength(AsciiSpace, w + rest) == |w|
  {
    if w == "" {
      assert w + rest == rest;
    } else {
      WordLengthOf(w[1..], rest);
      assert (w + rest)[1..] == w[1..] + rest;
    }
  }

  lemma WordFirst(w: string, rest: string)
    requires IsWord(w) && (rest == "" || rest[0] == ' ')
    ensures Words(AsciiSpace, w + rest) == [w] + Words(AsciiSpace, rest)
  {
    WordLengthOf(w, rest);
    var s := w + rest;
    assert s[..|w|] == w && s[|w|..] == rest && s[0] == w[0];
  }

  /** Splitting undoes joining. */
  lemma {:induction false} WordsOfJoin(words: seq<string>)
    requires AreWords(words)
    ensures Words(AsciiSpace, Join(words)) == words
  {
    if |words| == 1 {
      WordFirst(words[0], "");
      assert words[0] + "" == words[0];
    } else if words != [] {
      var rest := Join(words[1..]);
      WordsOfJoin(words[1..]);
      assert words[0] + " " + rest == words[0] + (" " + rest);
      WordFirst(words[0], " " + rest);
      assert (" " + rest)[1..] == rest;
    }
  }

  lemma {:induction false} JoinChars(words: seq<string>, i: nat)
    requires AreWords(words) && i < |Join(words)|
    ensures AsciiPrintable(Join(words)[i]) && LowerChar(Join(words)[i]) == Join(words)[i]
  {
    if |words| > 1 {
      var first := words[0] + " ";
      if i < |words[0]| {
        assert Join(words)[i] == words[0][i];
      } else if i >= |first| {
        assert Join(words)[i] == Join(words[1..])[i - |first|];
        JoinChars(words[1..], i - |first|);
      }
    }
  }

  lemma KeyIsJoin(claim: string)
    ensures FastKey(claim) == Join(ClaimWords(claim))
  {
    VisibleDrops(claim);
  }

  /** The words of the key are the words of the claim. */
  lemma WordsOfKey(words: seq<string>)
    requires AreWords(words)
    ensures IsAscii(Join(words)) && ClaimWords(Join(words)) == words
  {
    var key := Join(words);
    forall i | 0 <= i < |key|
      ensures AsciiPrintable(key[i]) && LowerChar(key[i]) == key[i]
    {
      JoinChars(words, i);
    }
    WithoutNone(AsciiInvisible, key);
    assert Lower(key) == key;
    WordsOfJoin(words);
  }

  /** A key is its own key. */
  lemma KeyIsIdempotent(u: Unicode, claim: string)
    requires IsAscii(claim)
    ensures NormalizeClaim(u, NormalizeClaim(u, claim)) == NormalizeClaim(u, claim)
  {
    KeyIsJoin(claim);
    ClaimWordsAreWords(claim);
    WordsOfKey(ClaimWords(claim));
    KeyIsJoin(FastKey(claim));
  }

  /** Two claims share a key exactly if they have the same words. */
  lemma SameKeySameWords(u: Unicode, a: string, b: string)
    requires IsAscii(a) && IsAscii(b)
    ensures NormalizeClaim(u, a) == NormalizeClaim(u, b) <==> ClaimWords(a) == ClaimWords(b)
  {
    KeyIsJoin(a);
    KeyIsJoin(b);
    ClaimWordsAreWords(a);
    ClaimWordsAreWords(b);
    WordsOfJoin(ClaimWords(a));
    WordsOfJoin(ClaimWords(b));
  }

  /** The same letter, perhaps in the other case, or the same character. */
  predicate SameLetter(c: char, d: char) {
    c == d || ('a' <= c <= 'z' && c as int == d as int + 32) || ('a' <= d <= 'z' && d as int == c as int + 32)
  }

  predicate SameLetters(a: string, b: string) {
    |a| == |b| && forall i | 0 <= i < |a| :: SameLetter(a[i], b[i])
  }

  lemma {:induction false} LettersAreLowered(a: string, b: string)
    requires SameLetters(a, b)
    ensures Lower(Without(AsciiInvisible, a)) == Lower(Without(AsciiInvisible, b))
  {
    if a != "" {
      LettersAreLowered(a[1..], b[1..]);
      assert SameLetter(a[0], b[0]);
      LowerFirst(a);
      LowerFirst(b);
    }
  }

  lemma LowerFirst(s: string)
    requires s != ""
    ensures Lower(Without(AsciiInvisible, s))
            == (if AsciiInvisible(s[0]) then "" else [LowerChar(s[0])]) + Lower(Without(AsciiInvisible, s[1..]))
  {
    var rest := Without(AsciiInvisible, s[1..]);
    if AsciiInvisible(s[0]) {
      assert Without(AsciiInvisible, s) == "" + rest == rest;
    } else {
      LowerCons(s[0], rest);
    }
  }

  lemma LowerCons(c: char, s: string)
    ensures Lower([c] + s) == [LowerChar(c)] + Lower(s)
  {
  }

  /** Writing letters in the other case does not change the key. */
  lemma CaseIsIgnored(u: Unicode, a: string, b: string)
    requires IsAscii(a) && IsAscii(b) && SameLetters(a, b)
    ensures NormalizeClaim(u, a) == NormalizeClaim(u, b)
  {
    LettersAreLowered(a, b);
    SameKeySameWords(u, a, b);
  }

  predicate OneWord(s: string) {
    s != "" && forall i | 0 <= i < |s| :: AsciiPrintable(s[i]) && s[i] != ' '
  }

  lemma OneWordKey(s: string)
    requires OneWord(s)
    ensures FastKey(s) == Lower(s)
    ensures SameLetters(FastKey(s), s) && forall c | c in FastKey(s) :: !('A' <= c <= 'Z')
  {
    WithoutNone(AsciiInvisible, s);
    WordFirst(Lower(s), "");
    KeyIsJoin(s);
    assert Lower(s) + "" == Lower(s);
    assert Words(AsciiSpace, "") == [];
  }

  /** Claims of one word share a key exactly if they have the same letters. */
  lemma OneWordKeysExactly(u: Unicode, a: string, b: string)
    requires OneWord(a) && OneWord(b)
    ensures NormalizeClaim(u, a) == NormalizeClaim(u, b) <==> SameLetters(a, b)
  {
    OneWordKey(a);
    OneWordKey(b);
    if SameLetters(a, b) { CaseIsIgnored(u, a, b); }
    if Lower(a) == Lower(b) {
      forall i | 0 <= i < |a|
        ensures SameLetter(a[i], b[i])
      {
        assert Lower(a)[i] == Lower(b)[i];
      }
    }
  }

  lemma WithoutFirst(drop: char -> bool, c: char, s: string)
    ensures Without(drop, [c] + s) == (if drop(c) then "" else [c]) + Without(drop, s)
  {
    assert ([c] + s)[1..] == s;
  }

  lemma {:induction false} WithoutSum(drop: char -> bool, s: string, t: string)
    ensures Without(drop, s + t) == Without(drop, s) + Without(drop, t)
  {
    if s == "" {
      assert s + t == t && Without(drop, s) == "";
    } else {
      var c, rest := s[0], s[1..];
      assert s == [c] + rest && s + t == [c] + (rest + t);
      WithoutFirst(drop, c, rest);
      WithoutFirst(drop, c, rest + t);
      WithoutSum(drop, rest, t);
    }
  }

  /** The characters a claim is split at. */
  predicate Separates(c: char) {
    c == '\t' || c == '\n' || c as int == 11 || c as int == 12 || c == '\r' || 28 <= c as int <= 31 || c == ' '
  }

  lemma {:induction false} WordLengthBefore(s: string, c: char, t: string)
    requires Separates(c)
    ensures WordLength(AsciiSpace, s + [c] + t) == WordLength(AsciiSpace, s)
  {
    if s == "" {
      assert s + [c] + t == [c] + t;
    } else {
      WordLengthBefore(s[1..], c, t);
      assert (s + [c] + t)[1..] == s[1..] + [c] + t;
    }
  }

  lemma WordsFrom(s: string, n: nat)
    requires s != "" && !AsciiSpace(s[0]) && n == WordLength(AsciiSpace, s)
    ensures Words(AsciiSpace, s) == [s[..n]] + Words(AsciiSpace, s[n..])
  {
  }

  lemma WordsSkip(c: char, s: string)
    requires AsciiSpace(c)
    ensures Words(AsciiSpace, [c] + s) == Words(AsciiSpace, s)
  {
    assert ([c] + s)[1..] == s;
  }

  lemma Regrouped(s: string, c: char, t: string, n: nat)
    requires n <= |s|
    ensures (s + [c] + t)[..n] == s[..n] && (s + [c] + t)[n..] == s[n..] + [c] + t
  {
  }

  lemma {:induction false} WordsSplit(s: string, c: char, t: string)
    requires Separates(c)
    ensures Words(AsciiSpace, s + [c] + t) == Words(AsciiSpace, s) + Words(AsciiSpace, t)
    decreases |s|
  {
    if s == "" {
      assert s + [c] + t == [c] + t;
      WordsSkip(c, t);
    } else if AsciiSpace(s[0]) {
      var rest := s[1..];
      assert s == [s[0]] + rest && s + [c] + t == [s[0]] + (rest + [c] + t);
      WordsSkip(s[0], rest);
      WordsSkip(s[0], rest + [c] + t);
      WordsSplit(rest, c, t);
    } else {
      var n := WordLength(AsciiSpace, s);
      WordLengthBefore(s, c, t);
      Regrouped(s, c, t, n);
      WordsFrom(s, n);
      WordsFrom(s + [c] + t, n);
      WordsSplit(s[n..], c, t);
    }
  }

  lemma LowerParts(s: string, c: char, t: string)
    requires !('A' <= c <= 'Z')
    ensures Lower(s + [c] + t) == Lower(s) + [c] + Lower(t)
  {
  }

  /** The words before a space, of whatever kind, and after it are the words of the claim. */
  lemma SpacesSeparate(a: string, c: char, b: string)
    requires Separates(c)
    ensures ClaimWords(a + [c] + b) == ClaimWords(a) + ClaimWords(b)
  {
    WithoutSum(AsciiInvisible, a + [c], b);
    WithoutSum(AsciiInvisible, a, [c]);
    assert Without(AsciiInvisible, [c]) == [c];
    LowerParts(Without(AsciiInvisible, a), c, Without(AsciiInvisible, b));
    WordsSplit(Lower(Without(AsciiInvisible, a)), c, Lower(Without(AsciiInvisible, b)));
  }

  /** Any other control character can be left out of an ASCII claim. */
  lemma InvisibleIsIgnored(u: Unicode, a: string, c: char, b: string)
    requires IsAscii(a) && IsAscii(b) && (c as int < 9 || 14 <= c as int <= 27 || c as int == 127)
    ensures NormalizeClaim(u, a + [c] + b) == NormalizeClaim(u, a + b)
  {
    WithoutSum(AsciiInvisible, a + [c], b);
    WithoutSum(AsciiInvisible, a, [c]);
    WithoutSum(AsciiInvisible, a, b);
    assert Without(AsciiInvisible, [c]) == "";
    assert Without(AsciiInvisible, a) + "" == Without(AsciiInvisible, a);
    assert IsAscii(a + [c] + b) && IsAscii(a + b);
    SameKeySameWords(u, a + [c] + b, a + b);
  }

  /** A claim is too empty to judge exactly if nothing but spaces and invisible characters is in it. */
  lemma {:induction false} EmptyKeyExactly(u: Unicode, claim: string)
    requires IsAscii(claim)
    ensures NormalizeClaim(u, claim) == "" <==> forall c | c in claim :: AsciiInvisible(c) || AsciiSpace(c)
  {
    KeyIsJoin(claim);
    ClaimWordsAreWords(claim);
    assert Join(ClaimWords(claim)) == "" <==> ClaimWords(claim) == [];
    NoWords(Lower(Without(AsciiInvisible, claim)));
    OnlySpacesLeft(claim);
  }

  predicate AllSpace(s: string) {
    forall i | 0 <= i < |s| :: AsciiSpace(s[i])
  }

  lemma AllSpaceFirst(c: char, rest: string)
    ensures AllSpace([c] + rest) <==> AsciiSpace(c) && AllSpace(rest)
  {
    assert ([c] + rest)[0] == c;
    assert forall i | 0 <= i < |rest| :: rest[i] == ([c] + rest)[i + 1];
  }

  lemma {:induction false} NoWords(s: string)
    ensures Words(AsciiSpace, s) == [] <==> AllSpace(s)
  {
    if s != "" && AsciiSpace(s[0]) {
      NoWords(s[1..]);
      AllSpaceFirst(s[0], s[1..]);
      assert s == [s[0]] + s[1..];
    }
  }

  lemma {:induction false} OnlySpacesLeft(s: string)
    ensures (forall c | c in s :: AsciiInvisible(c) || AsciiSpace(c)) <==> AllSpace(Lower(Without(AsciiInvisible, s)))
  {
    if s != "" {
      OnlySpacesLeft(s[1..]);
      var c, rest := s[0], Lower(Without(AsciiInvisible, s[1..]));
      assert s == [c] + s[1..];
      assert forall x :: x in s <==> x == c || x in s[1..];
      if AsciiInvisible(c) {
        assert Without(AsciiInvisible, s) == Without(AsciiInvisible, s[1..]);
      } else {
        assert Lower(Without(AsciiInvisible, s)) == [LowerChar(c)] + rest;
        AllSpaceFirst(LowerChar(c), rest);
      }
    }
  }

  // --------------------------------------------------------------------
  // The check
  // --------------------------------------------------------------------

  datatype Negated = Absent | Polarity(value: bool) | NotABool

  /** `claim` is `None` when it is missing or not a string. */
  datatype Assertion = NotAMapping | Assertion(claim: Option<string>, negated: Negated)

  predicate WellFormed(u: Unicode, a: Assertion) {
    a.Assertion? && a.claim.Some? && NormalizeClaim(u, a.claim.value) != "" && !a.negated.NotABool?
  }

  function Key(u: Unicode, a: Assertion): string
    requires WellFormed(u, a)
  {
    NormalizeClaim(u, a.claim.value)
  }

  /** An absent flag asserts the claim. */
  predicate IsNegated(a: Assertion)
    requires a.Assertion?
  {
    a.negated.Polarity? && a.negated.value
  }

  ghost predicate Contradict(u: Unicode, a: Assertion, b: Assertion) {
    WellFormed(u, a) && WellFormed(u, b) && Key(u, a) == Key(u, b) && IsNegated(a) != IsNegated(b)
  }

  ghost predicate AllWellFormed(u: Unicode, assertions: seq<Assertion>) {
    forall a | a in assertions :: WellFormed(u, a)
  }

  /** `None` where the payload's field is not a list; a missing field is an empty list. */
  ghost predicate Assessable(u: Unicode, assertions: Option<seq<Assertion>>) {
    assertions.Some? && assertions.value != [] && AllWellFormed(u, assertions.value)
  }

  ghost predicate Contradictory(u: Unicode, assertions: seq<Assertion>) {
    exists a, b | a in assertions && b in assertions :: Contradict(u, a, b)
  }

  /** The keys of the assertions with the given polarity. */
  ghost predicate Keyed(u: Unicode, assertions: seq<Assertion>, negated: bool, key: string) {
    exists a | a in assertions :: WellFormed(u, a) && Key(u, a) == key && IsNegated(a) == negated
  }

  /** What the check should conclude: every pair of assertions compared. */
  ghost function Judge(u: Unicode, assertions: Option<seq<Assertion>>): EngineResult {
    if !Assessable(u, assertions) then Unverifiable
    else if Contradictory(u, assertions.value) then NotVerified
    else HeuristicPass
  }

  lemma KeyedOneMore(u: Unicode, assertions: seq<Assertion>, a: Assertion, negated: bool, key: string)
    requires WellFormed(u, a)
    ensures Keyed(u, assertions + [a], negated, key)
            <==> Keyed(u, assertions, negated, key) || (Key(u, a) == key && IsNegated(a) == negated)
  {
    if Keyed(u, assertions, negated, key) {
      var b :| b in assertions && WellFormed(u, b) && Key(u, b) == key && IsNegated(b) == negated;
      assert b in assertions + [a];
    }
    if Key(u, a) == key && IsNegated(a) == negated {
      assert a in assertions + [a];
    }
  }

  ghost predicate Collected(u: Unicode, assertions: seq<Assertion>, positive: set<string>, negative: set<string>) {
    && AllWellFormed(u, assertions)
    && (forall key :: key in positive <==> Keyed(u, assertions, false, key))
    && (forall key :: key in negative <==> Keyed(u, assertions, true, key))
  }

  lemma CollectOneMore(u: Unicode, assertions: seq<Assertion>, a: Assertion, positive: set<string>,
                       negative: set<string>)
    requires Collected(u, assertions, positive, negative) && WellFormed(u, a)
    ensures Collected(u, assertions + [a],
                      if IsNegated(a) then positive else positive + {Key(u, a)},
                      if IsNegated(a) then negative + {Key(u, a)} else negative)
  {
    forall key, negated
      ensures Keyed(u, assertions + [a], negated, key)
              <==> Keyed(u, assertions, negated, key) || (Key(u, a) == key && IsNegated(a) == negated)
    {
      KeyedOneMore(u, assertions, a, negated, key);
    }
  }

  /** A key on both sides is a pair of contradicting assertions. */
  lemma CommonKey(u: Unicode, assertions: seq<Assertion>, positive: set<string>, negative: set<string>)
    requires Collected(u, assertions, positive, negative)
    ensures positive * negative != {} <==> Contradictory(u, assertions)
  {
    if key :| key in positive * negative {
      var a :| a in assertions && WellFormed(u, a) && Key(u, a) == key && !IsNegated(a);
      var b :| b in assertions && WellFormed(u, b) && Key(u, b) == key && IsNegated(b);
      assert Contradict(u, a, b);
    }
    if a, b :| a in assertions && b in assertions && Contradict(u, a, b) {
      assert Keyed(u, assertions, IsNegated(a), Key(u, a)) && Keyed(u, assertions, IsNegated(b), Key(u, a));
      assert Key(u, a) in positive * negative;
    }
  }

  /** The key of one assertion, or `None` where it is malformed or its claim empty. */
  method ReadAssertion(u: Unicode, a: Assertion) returns (key: Option<string>)
    ensures key.Some? <==> WellFormed(u, a)
    ensures key.Some? ==> key.value == Key(u, a)
  {
    if a.NotAMapping? {
      return None;
    }
    var normalized := if a.claim.Some? then NormalizeClaim(u, a.claim.value) else "";
    if normalized == "" {
      return None;
    }
    if a.negated.NotABool? {
      return None;
    }
    return Some(normalized);
  }

  /** The loop over the assertions; it stops at the first one that cannot be read. */
  method CollectKeys(u: Unicode, assertions: seq<Assertion>)
      returns (ok: bool, positive: set<string>, negative: set<string>)
    ensures ok <==> AllWellFormed(u, assertions)
    ensures ok ==> Collected(u, assertions, positive, negative)
  {
    positive, negative := {}, {};
    for i := 0 to |assertions|
      invariant Collected(u, assertions[..i], positive, negative)
    {
      var a := assertions[i];
      var key := ReadAssertion(u, a);
      if key.None? {
        assert a in assertions;
        return false, {}, {};
      }
      assert assertions[..i + 1] == assertions[..i] + [a];
      CollectOneMore(u, assertions[..i], a, positive, negative);
      if IsNegated(a) {
        negative := negative + {key.value};
      } else {
        positive := positive + {key.value};
      }
      assert Collected(u, assertions[..i + 1], positive, negative);
    }
    assert assertions[..|assertions|] == assertions;
    ok := true;
  }

  /**
   One pass with two sets of keys blocks exactly when some two assertions
   contradict each other, and names exactly the keys they share.
   */
  method VerifyLogic(u: Unicode, assertions: Option<seq<Assertion>>)
      returns (result: EngineResult, contradictions: set<string>)
    ensures result == Judge(u, assertions)
    ensures forall key :: key in contradictions <==>
              Assessable(u, assertions) && Keyed(u, assertions.value, false, key)
                && Keyed(u, assertions.value, true, key)
  {
    contradictions := {};
    if assertions.None? || assertions.value == [] {
      return Unverifiable, {};
    }
    var ok, positive, negative := CollectKeys(u, assertions.value);
    if !ok {
      return Unverifiable, {};
    }
    CollectedIsJudged(u, assertions.value, positive, negative);
    contradictions := positive * negative;
    result := if contradictions != {} then NotVerified else HeuristicPass;
  }

  lemma CollectedIsJudged(u: Unicode, assertions: seq<Assertion>, positive: set<string>, negative: set<string>)
    requires assertions != [] && Collected(u, assertions, positive, negative)
    ensures Assessable(u, Some(assertions))
    ensures Judge(u, Some(assertions)) == if positive * negative != {} then NotVerified else HeuristicPass
  {
    CommonKey(u, assertions, positive, negative);
  }

  // --------------------------------------------------------------------
  // What the conclusion does not depend on
  // --------------------------------------------------------------------

  /** The claim replaced by its key. */
  function Canonical(u: Unicode, a: Assertion): Assertion {
    if a.Assertion? && a.claim.Some? then a.(claim := Some(NormalizeClaim(u, a.claim.value))) else a
  }

  function CanonicalAll(u: Unicode, assertions: seq<Assertion>): seq<Assertion> {
    seq(|assertions|, i requires 0 <= i < |assertions| => Canonical(u, assertions[i]))
  }

  predicate AsciiClaim(a: Assertion) {
    a.Assertion? && a.claim.Some? ==> IsAscii(a.claim.value)
  }

  lemma CanonicalSame(u: Unicode, a: Assertion)
    requires AsciiClaim(a)
    ensures WellFormed(u, Canonical(u, a)) == WellFormed(u, a)
    ensures WellFormed(u, a) ==> Key(u, Canonical(u, a)) == Key(u, a) && IsNegated(Canonical(u, a)) == IsNegated(a)
  {
    if a.Assertion? && a.claim.Some? { KeyIsIdempotent(u, a.claim.value); }
  }

  /**
   Only the keys and polarities matter: neither the order nor the repetition of
   assertions, nor how the claims are written.
   */
  lemma OnlyKeysMatter(u: Unicode, xs: seq<Assertion>, ys: seq<Assertion>)
    requires xs == [] <==> ys == []
    requires AllWellFormed(u, xs) <==> AllWellFormed(u, ys)
    requires forall key, negated :: Keyed(u, xs, negated, key) <==> Keyed(u, ys, negated, key)
    ensures Judge(u, Some(xs)) == Judge(u, Some(ys))
  {
    ContradictoryExactly(u, xs);
    ContradictoryExactly(u, ys);
  }

  lemma ContradictoryExactly(u: Unicode, assertions: seq<Assertion>)
    ensures Contradictory(u, assertions) <==> exists key ::
            Keyed(u, assertions, false, key) && Keyed(u, assertions, true, key)
  {
    if a, b :| a in assertions && b in assertions && Contradict(u, a, b) {
      assert Keyed(u, assertions, IsNegated(a), Key(u, a)) && Keyed(u, assertions, IsNegated(b), Key(u, a));
    }
    if key :| Keyed(u, assertions, false, key) && Keyed(u, assertions, true, key) {
      var a :| a in assertions && WellFormed(u, a) && Key(u, a) == key && !IsNegated(a);
      var b :| b in assertions && WellFormed(u, b) && Key(u, b) == key && IsNegated(b);
      assert Contradict(u, a, b);
    }
  }

  /** The assertions, position by position, are as well formed, and have the same keys and polarities. */
  ghost predicate SameKeys(u: Unicode, xs: seq<Assertion>, ys: seq<Assertion>) {
    && |xs| == |ys|
    && (forall i | 0 <= i < |xs| :: WellFormed(u, ys[i]) == WellFormed(u, xs[i]))
    && (forall i | 0 <= i < |xs| && WellFormed(u, xs[i]) ::
          Key(u, ys[i]) == Key(u, xs[i]) && IsNegated(ys[i]) == IsNegated(xs[i]))
  }

  lemma SameKeysKeyed(u: Unicode, xs: seq<Assertion>, ys: seq<Assertion>, negated: bool, key: string)
    requires SameKeys(u, xs, ys) && Keyed(u, xs, negated, key)
    ensures Keyed(u, ys, negated, key)
  {
    var a :| a in xs && WellFormed(u, a) && Key(u, a) == key && IsNegated(a) == negated;
    var i :| 0 <= i < |xs| && xs[i] == a;
    assert ys[i] in ys;
  }

  lemma SameKeysWellFormed(u: Unicode, xs: seq<Assertion>, ys: seq<Assertion>)
    requires SameKeys(u, xs, ys) && AllWellFormed(u, xs)
    ensures AllWellFormed(u, ys)
  {
    forall b | b in ys
      ensures WellFormed(u, b)
    {
      var i :| 0 <= i < |ys| && ys[i] == b;
      assert xs[i] in xs;
    }
  }

  lemma SameKeysJudgeAlike(u: Unicode, xs: seq<Assertion>, ys: seq<Assertion>)
    requires SameKeys(u, xs, ys) && SameKeys(u, ys, xs)
    ensures Judge(u, Some(ys)) == Judge(u, Some(xs))
  {
    if AllWellFormed(u, xs) { SameKeysWellFormed(u, xs, ys); }
    if AllWellFormed(u, ys) { SameKeysWellFormed(u, ys, xs); }
    forall key, negated
      ensures Keyed(u, xs, negated, key) <==> Keyed(u, ys, negated, key)
    {
      if Keyed(u, xs, negated, key) { SameKeysKeyed(u, xs, ys, negated, key); }
      if Keyed(u, ys, negated, key) { SameKeysKeyed(u, ys, xs, negated, key); }
    }
    OnlyKeysMatter(u, xs, ys);
  }

  /** Writing every claim in its canonical form changes nothing. */
  lemma CanonicalClaimsJudgeAlike(u: Unicode, xs: seq<Assertion>)
    requires forall a | a in xs :: AsciiClaim(a)
    ensures Judge(u, Some(CanonicalAll(u, xs))) == Judge(u, Some(xs))
  {
    var ys := CanonicalAll(u, xs);
    forall i | 0 <= i < |xs|
      ensures WellFormed(u, ys[i]) == WellFormed(u, xs[i])
      ensures WellFormed(u, xs[i]) ==> Key(u, ys[i]) == Key(u, xs[i]) && IsNegated(ys[i]) == IsNegated(xs[i])
    {
      assert xs[i] in xs;
      CanonicalSame(u, xs[i]);
    }
    SameKeysJudgeAlike(u, xs, ys);
  }

  /** A contradiction cannot be talked away: more well-formed assertions leave the message blocked. */
  lemma ContradictionsStay(u: Unicode, xs: seq<Assertion>, ys: seq<Assertion>)
    requires Judge(u, Some(xs)).NotVerified? && AllWellFormed(u, ys)
    requires forall a | a in xs :: a in ys
    ensures Judge(u, Some(ys)).NotVerified?
  {
    var a, b :| a in xs && b in xs && Contradict(u, a, b);
    assert a in ys && b in ys;
  }

  // --------------------------------------------------------------------
  // The conclusion, by the assertions as written
  // --------------------------------------------------------------------

  /** The claim is denied: the flag is there and true. */
  predicate Denies(a: Assertion) {
    a.Assertion? && a.negated == Polarity(true)
  }

  /** The claim is asserted: the flag is absent, or false. */
  predicate Asserts(a: Assertion) {
    a.Assertion? && (a.negated == Absent || a.negated == Polarity(false))
  }

  /** The claims are strings with the same key. */
  predicate SameClaim(u: Unicode, a: Assertion, b: Assertion) {
    && a.Assertion? && b.Assertion? && a.claim.Some? && b.claim.Some?
    && NormalizeClaim(u, a.claim.value) == NormalizeClaim(u, b.claim.value)
  }

  /** It is no mapping, has no claim or one with an empty key, or a flag that is no boolean. */
  predicate IsMalformed(u: Unicode, a: Assertion) {
    || a == NotAMapping
    || a.claim == None
    || NormalizeClaim(u, a.claim.value) == ""
    || a.negated == NotABool
  }

  lemma MalformedExactly(u: Unicode, a: Assertion)
    ensures IsMalformed(u, a) <==> !WellFormed(u, a)
    ensures !IsMalformed(u, a) ==> (Denies(a) <==> IsNegated(a)) && (Asserts(a) <==> !IsNegated(a))
  {
  }

  /**
   What the guard concludes of a list, as written: it is unverifiable if and only
   if it is absent, empty or has a malformed assertion; and refuted if and only if
   it is none of these and some claim is asserted, by a flag that is absent or
   false, that another one with the same key denies.
   */
  lemma JudgedExactly(u: Unicode, assertions: Option<seq<Assertion>>)
    ensures Judge(u, assertions) == Unverifiable <==>
            || assertions == None || assertions == Some([])
            || exists a | a in assertions.value :: IsMalformed(u, a)
    ensures Judge(u, assertions) == NotVerified <==>
            && assertions.Some? && (forall a | a in assertions.value :: !IsMalformed(u, a))
            && exists a, b | a in assertions.value && b in assertions.value ::
                 Asserts(a) && Denies(b) && SameClaim(u, a, b)
    ensures Judge(u, assertions) != EngineResult.Verified
  {
    forall a: Assertion
      ensures IsMalformed(u, a) <==> !WellFormed(u, a)
      ensures !IsMalformed(u, a) ==> (Denies(a) <==> IsNegated(a)) && (Asserts(a) <==> !IsNegated(a))
    {
      MalformedExactly(u, a);
    }
    if assertions.Some? && AllWellFormed(u, assertions.value) { ContradictoryAsWritten(u, assertions.value); }
  }

  lemma ContradictoryAsWritten(u: Unicode, assertions: seq<Assertion>)
    requires AllWellFormed(u, assertions)
    ensures Contradictory(u, assertions) <==>
            exists a, b | a in assertions && b in assertions :: Asserts(a) && Denies(b) && SameClaim(u, a, b)
  {
    if a, b :| a in assertions && b in assertions && Contradict(u, a, b) {
      MalformedExactly(u, a);
      MalformedExactly(u, b);
      assert if IsNegated(a) then Asserts(b) && Denies(a) && SameClaim(u, b, a)
             else Asserts(a) && Denies(b) && SameClaim(u, a, b);
    }
    if a, b :| a in assertions && b in assertions && Asserts(a) && Denies(b) && SameClaim(u, a, b) {
      MalformedExactly(u, a);
      MalformedExactly(u, b);
      assert Contradict(u, a, b);
    }
  }

  /** A claim without a flag, and its denial, are refuted. */
  lemma DenialIsRefuted(u: Unicode, claim: string, denial: string)
    requires NormalizeClaim(u, claim) == NormalizeClaim(u, denial) != ""
    ensures Judge(u, Some([Assertion(Some(claim), Absent), Assertion(Some(denial), Polarity(true))])) == NotVerified
  {
    var a, b := Assertion(Some(claim), Absent), Assertion(Some(denial), Polarity(true));
    assert a in [a, b] && b in [a, b] && Contradict(u, a, b);
  }

  /** A list that only asserts, or only denies, passes. */
  lemma OneSidedPasses(u: Unicode, assertions: seq<Assertion>)
    requires assertions != [] && forall a | a in assertions :: !IsMalformed(u, a)
    requires (forall a | a in assertions :: Asserts(a)) || (forall a | a in assertions :: Denies(a))
    ensures Judge(u, Some(assertions)) == HeuristicPass
  {
    JudgedExactly(u, Some(assertions));
  }

  /** An absent flag is a false one. */
  function Flagged(a: Assertion): Assertion {
    if a.Assertion? && a.negated == Absent then a.(negated := Polarity(false)) else a
  }

  function AllFlagged(assertions: seq<Assertion>): seq<Assertion> {
    seq(|assertions|, i requires 0 <= i < |assertions| => Flagged(assertions[i]))
  }

  /** Writing absent flags out changes nothing. */
  lemma FlagsMayBeWrittenOut(u: Unicode, xs: seq<Assertion>)
    ensures Judge(u, Some(AllFlagged(xs))) == Judge(u, Some(xs))
  {
    SameKeysJudgeAlike(u, xs, AllFlagged(xs));
  }
}
