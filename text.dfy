/**
 * String primitives the chatbot engine is built on: JavaScript's
 * `toLowerCase`, `normalize("NFD")`, `trim`, `split(' ')`, `includes`,
 * `join` and `Number.prototype.toString`, and the two normalisations built
 * from them (geminiService.ts `normalizeText` and the weaker accent fold used
 * by the subject resolver).
 *
 * The Unicode tables are modelled on the part of Unicode that Spanish text
 * uses: lower-casing covers Basic Latin and Latin-1, canonical decomposition
 * covers the precomposed Latin-1 letters, and the letter class covers Basic
 * Latin, Latin-1 and Latin Extended-A/B.
 */
module Text {

  // ---------------------------------------------------------------------
  // Character classes
  // ---------------------------------------------------------------------

  /** JavaScript's `\s` class, which is also what `String.prototype.trim` removes. */
  predicate IsSpace(c: char) {
    c == '\t' || c == '\n' || c == '\U{B}' || c == '\U{C}' || c == '\r' || c == ' '
    || c == '\U{A0}' || c == '\U{1680}' || ('\U{2000}' <= c <= '\U{200A}')
    || c == '\U{2028}' || c == '\U{2029}' || c == '\U{202F}' || c == '\U{205F}'
    || c == '\U{3000}' || c == '\U{FEFF}'
  }

  /** The characters a regular-expression `.` does not match. */
  predicate IsLineTerminator(c: char) {
    c == '\n' || c == '\r' || c == '\U{2028}' || c == '\U{2029}'
  }

  /** JavaScript's `\d`: ASCII digits only. */
  predicate IsAsciiDigit(c: char) {
    '0' <= c <= '9'
  }

  /** `\p{Letter}`, restricted to the Latin blocks. */
  predicate IsLetter(c: char) {
    ('A' <= c <= 'Z') || ('a' <= c <= 'z')
    || c == '\U{AA}' || c == '\U{B5}' || c == '\U{BA}'
    || ('\U{C0}' <= c <= '\U{FF}' && c != '\U{D7}' && c != '\U{F7}')
    || ('\U{100}' <= c <= '\U{24F}')
  }

  /** `\p{Number}`, restricted to ASCII and Latin-1. */
  predicate IsNumber(c: char) {
    IsAsciiDigit(c) || c == '\U{B2}' || c == '\U{B3}' || c == '\U{B9}'
    || ('\U{BC}' <= c <= '\U{BE}')
  }

  /** The characters `normalizeText` keeps: `[\p{Letter}\p{Number}\s]`. */
  predicate IsWordChar(c: char) {
    IsLetter(c) || IsNumber(c) || IsSpace(c)
  }

  /** The block U+0300..U+036F of combining diacritical marks. */
  predicate IsCombiningMark(c: char) {
    '\U{300}' <= c <= '\U{36F}'
  }

  predicate IsUpper(c: char) {
    ('A' <= c <= 'Z') || ('\U{C0}' <= c <= '\U{DE}' && c != '\U{D7}')
  }

  /** `toLowerCase` on one character. */
  function LowerChar(c: char): (r: char)
    ensures IsUpper(c) ==> r as int == c as int + 32
    ensures !IsUpper(c) ==> r == c
    ensures !IsUpper(r)
  {
    if IsUpper(c) then ((c as int) + 32) as char else c
  }

  // ---------------------------------------------------------------------
  // Canonical decomposition of the precomposed Latin-1 letters
  // ---------------------------------------------------------------------

  /**
   * Offset j of a Latin-1 letter from U+00C0 (upper case) or U+00E0 (lower
   * case) that has a canonical decomposition. Offsets 6 (Æ), 16 (Ð), 23 (×)
   * and 24 (Ø) have none.
   */
  predicate HasDecomposition(j: int) {
    0 <= j <= 29 && j != 6 && j != 16 && j != 23 && j != 24
  }

  function UpperBase(j: int): (r: char)
    requires HasDecomposition(j)
    ensures 'A' <= r <= 'Z'
  {
    if j <= 5 then 'A' else if j == 7 then 'C' else if j <= 11 then 'E'
    else if j <= 15 then 'I' else if j == 17 then 'N' else if j <= 22 then 'O'
    else if j <= 28 then 'U' else 'Y'
  }

  function Mark(j: int): (r: char)
    requires HasDecomposition(j)
    ensures IsCombiningMark(r)
  {
    if j == 0 || j == 8 || j == 12 || j == 18 || j == 25 then '\U{300}'        // grave
    else if j == 1 || j == 9 || j == 13 || j == 19 || j == 26 || j == 29 then '\U{301}' // acute
    else if j == 2 || j == 10 || j == 14 || j == 20 || j == 27 then '\U{302}'  // circumflex
    else if j == 3 || j == 17 || j == 21 then '\U{303}'                       // tilde
    else if j == 4 || j == 11 || j == 15 || j == 22 || j == 28 then '\U{308}'  // diaeresis
    else if j == 5 then '\U{30A}'                                            // ring
    else '\U{327}'                                                           // cedilla
  }

  predicate Decomposable(c: char) {
    var k := c as int;
    (0xC0 <= k <= 0xDD && HasDecomposition(k - 0xC0))
    || (0xE0 <= k <= 0xFD && HasDecomposition(k - 0xE0))
    || k == 0xFF
  }

  /** NFD on one character: a base letter followed by its combining mark. */
  function Decompose(c: char): (r: seq<char>)
    ensures !Decomposable(c) ==> r == [c]
    ensures Decomposable(c) ==> |r| == 2 && (('A' <= r[0] <= 'Z') || ('a' <= r[0] <= 'z')) && IsCombiningMark(r[1])
  {
    var k := c as int;
    if 0xC0 <= k <= 0xDD && HasDecomposition(k - 0xC0) then [UpperBase(k - 0xC0), Mark(k - 0xC0)]
    else if 0xE0 <= k <= 0xFD && HasDecomposition(k - 0xE0) then [LowerChar(UpperBase(k - 0xE0)), Mark(k - 0xE0)]
    else if k == 0xFF then ['y', '\U{308}']
    else [c]
  }

  lemma DecomposeParts(c: char)
    ensures forall i :: 0 <= i < |Decompose(c)| ==> !Decomposable(Decompose(c)[i])
  {
  }

  /** Lower-casing keeps the character classes the normalisation relies on. */
  lemma LowerCharFacts(c: char)
    ensures LowerChar(LowerChar(c)) == LowerChar(c)
    ensures IsSpace(LowerChar(c)) <==> IsSpace(c)
    ensures IsWordChar(c) ==> IsWordChar(LowerChar(c))
    ensures !Decomposable(c) ==> !Decomposable(LowerChar(c))
  {
  }

  // ---------------------------------------------------------------------
  // String transformations
  // ---------------------------------------------------------------------

  /** `s.toLowerCase()` */
  function LowerCase(s: string): (r: string)
    ensures |r| == |s|
    ensures forall i :: 0 <= i < |s| ==> r[i] == LowerChar(s[i])
  {
    seq(|s|, i requires 0 <= i < |s| => LowerChar(s[i]))
  }

  /** `toLowerCase` applied twice is applied once. */
  lemma LowerCaseIdempotent(s: string)
    ensures LowerCase(LowerCase(s)) == LowerCase(s)
  {
    forall i | 0 <= i < |s|
      ensures LowerCase(LowerCase(s))[i] == LowerCase(s)[i]
    {
      LowerCharFacts(s[i]);
    }
  }

  /** `s.normalize("NFD")` */
  function Nfd(s: string): (r: string)
  {
    if s == [] then [] else Decompose(s[0]) + Nfd(s[1..])
  }

  /** `s.replace(/[^\p{Letter}\p{Number}\s]/gu, '')` */
  function KeepWordChars(s: string): (r: string)
  {
    if s == [] then []
    else if IsWordChar(s[0]) then [s[0]] + KeepWordChars(s[1..])
    else KeepWordChars(s[1..])
  }

  /** `s.replace(/[\u0300-\u036f]/g, '')` */
  function StripMarks(s: string): (r: string)
  {
    if s == [] then []
    else if IsCombiningMark(s[0]) then StripMarks(s[1..])
    else [s[0]] + StripMarks(s[1..])
  }

  lemma {:induction false} NfdConcat(a: string, b: string)
    ensures Nfd(a + b) == Nfd(a) + Nfd(b)
  {
    if a != [] {
      assert (a + b)[1..] == a[1..] + b;
      NfdConcat(a[1..], b);
    } else {
      assert a + b == b;
    }
  }

  lemma {:induction false} KeepWordCharsConcat(a: string, b: string)
    ensures KeepWordChars(a + b) == KeepWordChars(a) + KeepWordChars(b)
  {
    if a != [] {
      assert (a + b)[1..] == a[1..] + b;
      KeepWordCharsConcat(a[1..], b);
    } else {
      assert a + b == b;
    }
  }

  lemma {:induction false} StripMarksConcat(a: string, b: string)
    ensures StripMarks(a + b) == StripMarks(a) + StripMarks(b)
  {
    if a != [] {
      assert (a + b)[1..] == a[1..] + b;
      StripMarksConcat(a[1..], b);
    } else {
      assert a + b == b;
    }
  }

  lemma {:induction false} StripMarksIdentity(s: string)
    requires forall i :: 0 <= i < |s| ==> !IsCombiningMark(s[i])
    ensures StripMarks(s) == s
  {
    if s != [] {
      StripMarksIdentity(s[1..]);
    }
  }

  function TrimStart(s: string): (r: string)
    ensures |r| <= |s|
    ensures r == [] || !IsSpace(r[0])
  {
    if s != [] && IsSpace(s[0]) then TrimStart(s[1..]) else s
  }

  function TrimEnd(s: string): (r: string)
    ensures |r| <= |s|
    ensures r == [] || !IsSpace(r[|r| - 1])
  {
    if s != [] && IsSpace(s[|s| - 1]) then TrimEnd(s[..|s| - 1]) else s
  }

  /** `trimStart` drops a prefix. */
  lemma {:induction false} TrimStartSuffix(s: string)
    ensures TrimStart(s) == s[|s| - |TrimStart(s)|..]
  {
    if s != [] && IsSpace(s[0]) {
      TrimStartSuffix(s[1..]);
    }
  }

  /** `trimEnd` drops a suffix. */
  lemma {:induction false} TrimEndPrefix(s: string)
    ensures TrimEnd(s) == s[..|TrimEnd(s)|]
  {
    if s != [] && IsSpace(s[|s| - 1]) {
      TrimEndPrefix(s[..|s| - 1]);
    }
  }

  /** `s.trim()` */
  function Trim(s: string): string {
    TrimEnd(TrimStart(s))
  }

  /** A string with no white space at either end. */
  predicate Trimmed(s: string) {
    s == [] || (!IsSpace(s[0]) && !IsSpace(s[|s| - 1]))
  }

  /** `trim` returns a contiguous piece of its input that has no white space at either end. */
  lemma TrimFacts(s: string)
    ensures Trimmed(Trim(s))
    ensures exists a, b :: 0 <= a <= b <= |s| && Trim(s) == s[a..b]
  {
    var u := TrimStart(s);
    var r := TrimEnd(u);
    TrimStartSuffix(s);
    TrimEndPrefix(u);
    var a := |s| - |u|;
    var b := a + |r|;
    assert r == s[a..b] by {
      forall k | 0 <= k < |r|
        ensures r[k] == s[a + k]
      {
        assert r[k] == u[k];
      }
    }
    if r != [] {
      assert r[0] == u[0];
    }
  }

  lemma TrimOfTrimmed(s: string)
    requires Trimmed(s)
    ensures Trim(s) == s
  {
  }

  /** geminiService.ts `normalizeText` and ChatbotService.ts `normalizeName`. */
  function NormalizeText(s: string): string {
    TrimEnd(TrimStart(LowerCase(KeepWordChars(Nfd(s)))))
  }

  /** The weaker fold `s.toLowerCase().normalize("NFD").replace(/[\u0300-\u036f]/g, "")`. */
  function FoldAccents(s: string): string {
    StripMarks(Nfd(LowerCase(s)))
  }

  /** `areStringsEquivalent`: both present (truthy) and equal after normalisation. */
  predicate Equivalent(a: string, b: string) {
    |a| > 0 && |b| > 0 && NormalizeText(a) == NormalizeText(b)
  }

  lemma EquivalentFacts(a: string, b: string, c: string)
    ensures a != "" ==> Equivalent(a, a)
    ensures Equivalent(a, b) ==> Equivalent(b, a)
    ensures Equivalent(a, b) && Equivalent(b, c) ==> Equivalent(a, c)
    ensures Equivalent(a, b) ==> (Equivalent(a, c) <==> Equivalent(b, c))
  {
  }

  // ---------------------------------------------------------------------
  // Idempotence of normalizeText
  // ---------------------------------------------------------------------

  lemma {:induction false} NfdNoDecomposable(s: string)
    ensures forall i :: 0 <= i < |Nfd(s)| ==> !Decomposable(Nfd(s)[i])
  {
    if s != [] {
      DecomposeParts(s[0]);
      NfdNoDecomposable(s[1..]);
      var d, rest := Decompose(s[0]), Nfd(s[1..]);
      assert Nfd(s) == d + rest;
      forall i | 0 <= i < |Nfd(s)| ensures !Decomposable(Nfd(s)[i]) {
        if i < |d| { assert Nfd(s)[i] == d[i]; } else { assert Nfd(s)[i] == rest[i - |d|]; }
      }
    }
  }

  lemma {:induction false} NfdIdentity(s: string)
    requires forall i :: 0 <= i < |s| ==> !Decomposable(s[i])
    ensures Nfd(s) == s
  {
    if s != [] {
      NfdIdentity(s[1..]);
    }
  }

  lemma {:induction false} KeepWordCharsFacts(s: string)
    requires forall i :: 0 <= i < |s| ==> !Decomposable(s[i])
    ensures forall i :: 0 <= i < |KeepWordChars(s)| ==> IsWordChar(KeepWordChars(s)[i]) && !Decomposable(KeepWordChars(s)[i])
  {
    if s != [] {
      KeepWordCharsFacts(s[1..]);
    }
  }

  lemma {:induction false} KeepWordCharsIdentity(s: string)
    requires forall i :: 0 <= i < |s| ==> IsWordChar(s[i])
    ensures KeepWordChars(s) == s
  {
    if s != [] {
      KeepWordCharsIdentity(s[1..]);
    }
  }

  /** A character `normalizeText` leaves alone. */
  predicate Normal(c: char) {
    IsWordChar(c) && !Decomposable(c) && LowerChar(c) == c
  }

  lemma LowerCaseNormal(k: string)
    requires forall i :: 0 <= i < |k| ==> IsWordChar(k[i]) && !Decomposable(k[i])
    ensures forall i :: 0 <= i < |LowerCase(k)| ==> Normal(LowerCase(k)[i])
  {
    forall i | 0 <= i < |k|
      ensures Normal(LowerCase(k)[i])
    {
      LowerCharFacts(k[i]);
    }
  }

  lemma TrimKeeps(l: string, p: char -> bool)
    requires forall i :: 0 <= i < |l| ==> p(l[i])
    ensures forall i :: 0 <= i < |Trim(l)| ==> p(Trim(l)[i])
  {
    TrimFacts(l);
    var a, b :| 0 <= a <= b <= |l| && Trim(l) == l[a..b];
    forall i | 0 <= i < |Trim(l)|
      ensures p(Trim(l)[i])
    {
      assert Trim(l)[i] == l[a + i];
    }
  }

  lemma NormalizeOutput(s: string)
    ensures Trimmed(NormalizeText(s))
    ensures forall i :: 0 <= i < |NormalizeText(s)| ==> Normal(NormalizeText(s)[i])
  {
    NfdNoDecomposable(s);
    KeepWordCharsFacts(Nfd(s));
    LowerCaseNormal(KeepWordChars(Nfd(s)));
    TrimKeeps(LowerCase(KeepWordChars(Nfd(s))), Normal);
    TrimFacts(LowerCase(KeepWordChars(Nfd(s))));
  }

  lemma NormalizeOfNormal(t: string)
    requires Trimmed(t)
    requires forall i :: 0 <= i < |t| ==> Normal(t[i])
    ensures NormalizeText(t) == t
  {
    NfdIdentity(t);
    KeepWordCharsIdentity(t);
    assert LowerCase(t) == t;
    TrimOfTrimmed(t);
  }

  /** Normalising twice is normalising once. */
  lemma NormalizeIdempotent(s: string)
    ensures NormalizeText(NormalizeText(s)) == NormalizeText(s)
  {
    NormalizeOutput(s);
    NormalizeOfNormal(NormalizeText(s));
  }

  // ---------------------------------------------------------------------
  // Both normalisations on Spanish text: ASCII letters, digits and spaces
  // plus accented Latin-1 letters lose their accents and their case.
  // ---------------------------------------------------------------------

  predicate IsLatin(c: char) {
    ('A' <= c <= 'Z') || ('a' <= c <= 'z') || IsAsciiDigit(c) || c == ' ' || Decomposable(c)
  }

  /** The base letter of an accented letter, any other character itself. */
  function BaseLetter(c: char): char {
    Decompose(c)[0]
  }

  function Bases(s: string): (r: string)
    ensures |r| == |s| && forall i :: 0 <= i < |s| ==> r[i] == BaseLetter(s[i])
  {
    seq(|s|, i requires 0 <= i < |s| => BaseLetter(s[i]))
  }

  lemma LatinChar(c: char)
    requires IsLatin(c)
    ensures KeepWordChars(Decompose(c)) == [BaseLetter(c)]
    ensures StripMarks(Decompose(LowerChar(c))) == [LowerChar(BaseLetter(c))]
  {
    var d := Decompose(c);
    if Decomposable(c) {
      assert d[1..] == [d[1]] && d[1..][1..] == [];
      assert IsWordChar(d[0]) && !IsWordChar(d[1]);
      assert KeepWordChars(d[1..]) == [];
      assert KeepWordChars(d) == [d[0]] + KeepWordChars(d[1..]);
      var lc := LowerChar(c);
      var k := c as int;
      if 0xC0 <= k <= 0xDD {
        assert lc as int == k + 32;
      }
      assert Decomposable(lc);
      var e := Decompose(lc);
      assert e[1..] == [e[1]] && e[1..][1..] == [];
      assert e[0] == LowerChar(d[0]);
      assert StripMarks(e[1..]) == [];
      assert StripMarks(e) == [e[0]] + StripMarks(e[1..]);
    }
  }

  lemma {:induction false} KeepWordCharsOfLatin(s: string)
    requires forall i :: 0 <= i < |s| ==> IsLatin(s[i])
    ensures KeepWordChars(Nfd(s)) == Bases(s)
  {
    if s != [] {
      KeepWordCharsOfLatin(s[1..]);
      LatinChar(s[0]);
      assert Nfd(s) == Decompose(s[0]) + Nfd(s[1..]);
      KeepWordCharsConcat(Decompose(s[0]), Nfd(s[1..]));
      assert Bases(s) == [BaseLetter(s[0])] + Bases(s[1..]);
    }
  }

  lemma {:induction false} StripMarksOfLatin(s: string)
    requires forall i :: 0 <= i < |s| ==> IsLatin(s[i])
    ensures StripMarks(Nfd(LowerCase(s))) == LowerCase(Bases(s))
  {
    if s != [] {
      StripMarksOfLatin(s[1..]);
      LatinChar(s[0]);
      var l := LowerCase(s);
      assert l[1..] == LowerCase(s[1..]);
      assert Nfd(l) == Decompose(l[0]) + Nfd(l[1..]);
      StripMarksConcat(Decompose(l[0]), Nfd(l[1..]));
      assert LowerCase(Bases(s)) == [LowerChar(BaseLetter(s[0]))] + LowerCase(Bases(s[1..]));
    }
  }

  /** On Spanish text `normalizeText` drops accents and case, then trims. */
  lemma NormalizeTextOfLatin(s: string)
    requires forall i :: 0 <= i < |s| ==> IsLatin(s[i])
    ensures NormalizeText(s) == Trim(LowerCase(Bases(s)))
  {
    KeepWordCharsOfLatin(s);
  }

  /** On Spanish text the accent fold agrees with `normalizeText` but for the trim. */
  lemma FoldAccentsOfLatin(s: string)
    requires forall i :: 0 <= i < |s| ==> IsLatin(s[i])
    ensures FoldAccents(s) == LowerCase(Bases(s))
    ensures NormalizeText(s) == Trim(FoldAccents(s))
  {
    KeepWordCharsOfLatin(s);
    StripMarksOfLatin(s);
  }

  /**
   * Evaluating either normalisation on a concrete Spanish string: show the
   * characters are Latin and what the lower-cased base letters are.
   */
  lemma NormalizeLatinTo(s: string, t: string)
    requires forall i :: 0 <= i < |s| ==> IsLatin(s[i])
    requires LowerCase(Bases(s)) == t && Trimmed(t)
    ensures NormalizeText(s) == t && FoldAccents(s) == t
  {
    FoldAccentsOfLatin(s);
    TrimOfTrimmed(t);
  }

  // ---------------------------------------------------------------------
  // Substring search, split and join
  // ---------------------------------------------------------------------

  predicate StartsWith(s: string, p: string) {
    |p| <= |s| && s[..|p|] == p
  }

  /** `s.includes(sub)` */
  predicate Contains(s: string, sub: string)
    decreases |s|
  {
    StartsWith(s, sub) || (s != [] && Contains(s[1..], sub))
  }

  predicate OccursAt(s: string, sub: string, i: int) {
    0 <= i && i + |sub| <= |s| && s[i..i + |sub|] == sub
  }

  /** `includes` holds exactly when the substring occurs at some position. */
  lemma {:induction false} ContainsIff(s: string, sub: string)
    ensures Contains(s, sub) <==> exists i :: OccursAt(s, sub, i)
    decreases |s|
  {
    if StartsWith(s, sub) {
      assert OccursAt(s, sub, 0);
    } else if s != [] {
      ContainsIff(s[1..], sub);
      if exists i :: OccursAt(s, sub, i) {
        var i :| OccursAt(s, sub, i);
        assert i != 0;
        assert OccursAt(s[1..], sub, i - 1) by {
          assert s[1..][i - 1..i - 1 + |sub|] == s[i..i + |sub|];
        }
      }
      if exists i :: OccursAt(s[1..], sub, i) {
        var i :| OccursAt(s[1..], sub, i);
        assert s[1..][i..i + |sub|] == s[i + 1..i + 1 + |sub|];
        assert OccursAt(s, sub, i + 1);
      }
    }
  }

  lemma ContainsAt(s: string, sub: string, i: int)
    requires OccursAt(s, sub, i)
    ensures Contains(s, sub)
  {
    ContainsIff(s, sub);
  }

  lemma ContainsEmpty(s: string)
    ensures Contains(s, "")
  {
    assert StartsWith(s, "");
  }

  lemma ContainsSelf(s: string)
    ensures Contains(s, s)
  {
    assert StartsWith(s, s);
  }

  /** `this.split(sep)` for a one-character separator. */
  function Split(s: string, sep: char): (r: seq<string>)
    ensures |r| >= 1
    ensures forall k :: 0 <= k < |r| ==> sep !in r[k]
  {
    if s == [] then [""]
    else
      var rest := Split(s[1..], sep);
      if s[0] == sep then [""] + rest else [[s[0]] + rest[0]] + rest[1..]
  }

  /** `parts.join(sep)` */
  function Join(parts: seq<string>, sep: string): string {
    if |parts| == 0 then ""
    else if |parts| == 1 then parts[0]
    else parts[0] + sep + Join(parts[1..], sep)
  }

  /** Splitting and joining again with the same separator gives back the input. */
  lemma {:induction false} JoinSplit(s: string, sep: char)
    ensures Join(Split(s, sep), [sep]) == s
  {
    if s != [] {
      JoinSplit(s[1..], sep);
      var rest := Split(s[1..], sep);
      if s[0] == sep {
        assert Split(s, sep) == [""] + rest;
        assert ([""] + rest)[1..] == rest;
      } else {
        var r := [[s[0]] + rest[0]] + rest[1..];
        assert Split(s, sep) == r;
        if |rest| == 1 {
          assert Join(rest, [sep]) == rest[0];
        } else {
          assert r[1..] == rest[1..];
          assert Join(rest, [sep]) == rest[0] + [sep] + Join(rest[1..], [sep]);
        }
      }
    }
  }

  lemma {:induction false} SplitNoSeparator(a: string, sep: char)
    requires sep !in a
    ensures Split(a, sep) == [a]
  {
    if a != [] {
      assert a[0] in a;
      SplitNoSeparator(a[1..], sep);
      assert [a[0]] + a[1..] == a;
    }
  }

  lemma {:induction false} SplitAtSeparator(a: string, sep: char, b: string)
    ensures Split(a + [sep] + b, sep) == Split(a, sep) + Split(b, sep)
  {
    if a == [] {
      assert a + [sep] + b == [sep] + b;
      assert ([sep] + b)[1..] == b;
    } else {
      assert (a + [sep] + b)[1..] == a[1..] + [sep] + b;
      SplitAtSeparator(a[1..], sep, b);
    }
  }

  /** Joining parts free of the separator and splitting again gives back the parts. */
  lemma {:induction false} SplitJoin(parts: seq<string>, sep: char)
    requires |parts| >= 1
    requires forall k :: 0 <= k < |parts| ==> sep !in parts[k]
    ensures Split(Join(parts, [sep]), sep) == parts
  {
    if |parts| == 1 {
      SplitNoSeparator(parts[0], sep);
    } else {
      SplitJoin(parts[1..], sep);
      SplitNoSeparator(parts[0], sep);
      SplitAtSeparator(parts[0], sep, Join(parts[1..], [sep]));
      assert [parts[0]] + parts[1..] == parts;
    }
  }

  // ---------------------------------------------------------------------
  // Decimal rendering of counters (`counter.toString()`)
  // ---------------------------------------------------------------------

  function DigitChar(d: int): (c: char)
    requires 0 <= d < 10
    ensures IsAsciiDigit(c) && c as int - '0' as int == d
  {
    (('0' as int) + d) as char
  }

  function NatToString(n: nat): (r: string)
    decreases n
  {
    if n < 10 then [DigitChar(n)] else NatToString(n / 10) + [DigitChar(n % 10)]
  }

  /** A decimal numeral is non-empty, all digits, and two digits or more only from ten on. */
  lemma {:induction false} NatToStringShape(n: nat)
    ensures 1 <= |NatToString(n)|
    ensures forall i :: 0 <= i < |NatToString(n)| ==> IsAsciiDigit(NatToString(n)[i])
    ensures n < 10 <==> |NatToString(n)| == 1
    ensures n < 100 <==> |NatToString(n)| <= 2
    decreases n
  {
    if n >= 10 {
      NatToStringShape(n / 10);
    }
  }

  /** Distinct counters give distinct option ids. */
  lemma {:induction false} NatToStringInjective(a: nat, b: nat)
    requires NatToString(a) == NatToString(b)
    ensures a == b
    decreases a
  {
    NatToStringShape(a);
    NatToStringShape(b);
    if a >= 10 && b >= 10 {
      var sa, sb := NatToString(a), NatToString(b);
      assert sa[|sa| - 1] == DigitChar(a % 10);
      assert sb[|sb| - 1] == DigitChar(b % 10);
      assert sa[..|sa| - 1] == NatToString(a / 10);
      assert sb[..|sb| - 1] == NatToString(b / 10);
      NatToStringInjective(a / 10, b / 10);
    }
  }

  /** The contrapositive: different numbers have different numerals. */
  lemma NatToStringDistinct(a: nat, b: nat)
    requires a != b
    ensures NatToString(a) != NatToString(b)
  {
    if NatToString(a) == NatToString(b) {
      NatToStringInjective(a, b);
    }
  }
}
