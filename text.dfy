/** Python string operations the chatbot's logic relies on, over `string = seq<char>`
    (one `char` per Unicode code point, as Python indexes `str`). */
module Text {

  datatype Option<+T> = None | Some(value: T)

  datatype Result<+T> = Ok(value: T) | Err(message: string)

  function Min(a: int, b: int): int {
    if a < b then a else b
  }

  // ---------------------------------------------------------------- whitespace

  /** The characters Python treats as whitespace: `str.isspace`, `str.split()`,
      `str.strip()` and the `\s` class of `re` on `str` patterns. */
  predicate IsSpace(c: char) {
    || ('\t' <= c <= '\r')
    || ('\U{1c}' <= c <= '\U{1f}')
    || c == ' ' || c == '\U{85}' || c == '\U{a0}' || c == '\U{1680}'
    || ('\U{2000}' <= c <= '\U{200a}')
    || c == '\U{2028}' || c == '\U{2029}' || c == '\U{202f}' || c == '\U{205f}' || c == '\U{3000}'
  }

  predicate AllSpace(s: string) {
    forall i :: 0 <= i < |s| ==> IsSpace(s[i])
  }

  predicate NoSpace(s: string) {
    forall i :: 0 <= i < |s| ==> !IsSpace(s[i])
  }

  /** first index at or after `i` that does not hold whitespace */
  function SkipSpace(s: string, i: nat): (j: nat)
    requires i <= |s|
    ensures i <= j <= |s|
    ensures forall k :: i <= k < j ==> IsSpace(s[k])
    ensures j == |s| || !IsSpace(s[j])
    decreases |s| - i
  {
    if i < |s| && IsSpace(s[i]) then SkipSpace(s, i + 1) else i
  }

  /** last index `j <= i` such that `s[j..i]` is all whitespace */
  function SkipSpaceBack(s: string, i: nat): (j: nat)
    requires i <= |s|
    ensures j <= i
    ensures forall k :: j <= k < i ==> IsSpace(s[k])
    ensures j == 0 || !IsSpace(s[j - 1])
  {
    if i > 0 && IsSpace(s[i - 1]) then SkipSpaceBack(s, i - 1) else i
  }

  /** `s` without its leading whitespace */
  function TrimStart(s: string): (r: string)
    ensures |r| <= |s| && r == s[|s| - |r|..]
    ensures AllSpace(s[..|s| - |r|])
    ensures r == [] || !IsSpace(r[0])
  {
    var j := SkipSpace(s, 0);
    assert forall k :: 0 <= k < j ==> s[..j][k] == s[k];
    s[j..]
  }

  /** `s` without its trailing whitespace */
  function TrimEnd(s: string): (r: string)
    ensures |r| <= |s| && r == s[..|r|]
    ensures AllSpace(s[|r|..])
    ensures r == [] || !IsSpace(r[|r| - 1])
  {
    var j := SkipSpaceBack(s, |s|);
    assert forall k :: 0 <= k < |s| - j ==> s[j..][k] == s[j + k];
    s[..j]
  }

  /** Python's `s.strip()` */
  function Strip(s: string): (r: string)
    ensures r == [] <==> AllSpace(s)
    ensures r != [] ==> !IsSpace(r[0]) && !IsSpace(r[|r| - 1])
  {
    var t := TrimStart(s);
    var r := TrimEnd(t);
    assert r == [] ==> AllSpace(s) by {
      if r == [] {
        assert s == s[..|s| - |t|] + t;
        assert t == t[..0] + t[0..];
      }
    }
    r
  }

  /** `Strip(s)` is `s` with a whitespace prefix and a whitespace suffix cut off */
  lemma StripCutsWhitespace(s: string)
    ensures exists a: nat ::
              && a + |Strip(s)| <= |s| && Strip(s) == s[a..a + |Strip(s)|]
              && AllSpace(s[..a]) && AllSpace(s[a + |Strip(s)|..])
  {
    var t := TrimStart(s);
    var r := TrimEnd(t);
    assert r == Strip(s);
    var a := |s| - |t|;
    assert t == s[a..];
    assert r == s[a..a + |r|];
    assert s[a + |r|..] == t[|r|..];
  }

  // ---------------------------------------------------------------- str.split()

  /** the longest prefix of `s` holding no whitespace */
  function TakeWord(s: string): (w: string)
    ensures |w| <= |s| && w == s[..|w|] && NoSpace(w)
    ensures |w| == |s| || IsSpace(s[|w|])
  {
    if s == [] || IsSpace(s[0]) then [] else [s[0]] + TakeWord(s[1..])
  }

  /** Python's `s.split()`: the maximal runs of non-whitespace characters, in order */
  function Words(s: string): seq<string>
    decreases |s|
  {
    var t := TrimStart(s);
    if t == [] then []
    else
      var w := TakeWord(t);
      [w] + Words(t[|w|..])
  }

  /** the non-whitespace characters of `s`, in order */
  function NonSpace(s: string): string {
    if s == [] then [] else (if IsSpace(s[0]) then [] else [s[0]]) + NonSpace(s[1..])
  }

  function Concat(ss: seq<string>): string {
    if ss == [] then [] else ss[0] + Concat(ss[1..])
  }

  lemma {:induction false} NonSpaceAppend(a: string, b: string)
    ensures NonSpace(a + b) == NonSpace(a) + NonSpace(b)
    decreases |a|
  {
    if a != [] {
      assert (a + b)[1..] == a[1..] + b;
      NonSpaceAppend(a[1..], b);
    } else {
      assert a + b == b;
    }
  }

  lemma {:induction false} NonSpaceOfSpaces(s: string)
    requires AllSpace(s)
    ensures NonSpace(s) == []
    decreases |s|
  {
    if s != [] { NonSpaceOfSpaces(s[1..]); }
  }

  lemma {:induction false} NonSpaceOfWord(s: string)
    requires NoSpace(s)
    ensures NonSpace(s) == s
    decreases |s|
  {
    if s != [] { NonSpaceOfWord(s[1..]); }
  }

  /** one step of `str.split()`: skip the leading whitespace, take one token */
  lemma WordsStep(s: string)
    requires TrimStart(s) != []
    ensures var t := TrimStart(s); var w := TakeWord(t);
      && w != [] && NoSpace(w) && t == w + t[|w|..]
      && Words(s) == [w] + Words(t[|w|..])
  {
    var t := TrimStart(s);
    var w := TakeWord(t);
    assert !IsSpace(t[0]);
    assert t == w + t[|w|..];
  }

  /** every token of `str.split()` is non-empty and holds no whitespace */
  lemma {:induction false} WordsAreTokens(s: string)
    ensures forall i :: 0 <= i < |Words(s)| ==> Words(s)[i] != [] && NoSpace(Words(s)[i])
    decreases |s|
  {
    var t := TrimStart(s);
    if t != [] {
      WordsStep(s);
      var w := TakeWord(t);
      var rest := t[|w|..];
      WordsAreTokens(rest);
      var ws := Words(rest);
      var all := Words(s);
      assert all == [w] + ws;
      forall i | 0 <= i < |all| ensures all[i] != [] && NoSpace(all[i]) {
        if i > 0 { assert all[i] == ws[i - 1]; }
      }
    }
  }

  /** the tokens of `str.split()`, put back together, are exactly the
      non-whitespace characters of the input */
  lemma {:induction false} WordsCoverText(s: string)
    ensures Concat(Words(s)) == NonSpace(s)
    decreases |s|
  {
    var t := TrimStart(s);
    var pre := s[..|s| - |t|];
    assert s == pre + t;
    NonSpaceAppend(pre, t);
    NonSpaceOfSpaces(pre);
    if t != [] {
      WordsStep(s);
      var w := TakeWord(t);
      var rest := t[|w|..];
      WordsCoverText(rest);
      NonSpaceAppend(w, rest);
      NonSpaceOfWord(w);
      var all := Words(s);
      assert all == [w] + Words(rest);
      assert all[1..] == Words(rest);
      assert Concat(all) == w + Concat(Words(rest));
    }
  }

  /** a non-empty run without whitespace is one token */
  lemma WordsOfToken(s: string)
    requires s != [] && NoSpace(s)
    ensures Words(s) == [s]
  {
    assert !IsSpace(s[0]);
    assert TrimStart(s) == s;
    assert TakeWord(s) == s;
    assert s[|s|..] == [];
  }

  /** the whitespace runs around and between the tokens of `str.split()` */
  function Gaps(s: string): seq<string>
    decreases |s|
  {
    var t := TrimStart(s);
    if t == [] then [s]
    else
      var w := TakeWord(t);
      [s[..|s| - |t|]] + Gaps(t[|w|..])
  }

  /** `gaps[0] + words[0] + gaps[1] + ... + words[n-1] + gaps[n]` */
  function Layout(gaps: seq<string>, words: seq<string>): string {
    if gaps == [] then ""
    else if words == [] then gaps[0]
    else gaps[0] + words[0] + Layout(gaps[1..], words[1..])
  }

  lemma FirstGapNonEmpty(r: string)
    requires r != [] && IsSpace(r[0])
    ensures Gaps(r)[0] != []
  {
    var t := TrimStart(r);
    if t != [] {
      assert t[0] == r[|r| - |t|];
      assert |r| - |t| > 0;
    }
  }

  lemma {:induction false} GapsLength(s: string)
    ensures |Gaps(s)| == |Words(s)| + 1
    decreases |s|
  {
    var t := TrimStart(s);
    if t != [] {
      WordsStep(s);
      GapsLength(t[|TakeWord(t)|..]);
    }
  }

  lemma {:induction false} GapsAreSpace(s: string)
    ensures forall i :: 0 <= i < |Gaps(s)| ==> AllSpace(Gaps(s)[i])
    decreases |s|
  {
    var t := TrimStart(s);
    if t == [] {
      assert s[..|s| - |t|] == s;
    } else {
      var rest := t[|TakeWord(t)|..];
      GapsAreSpace(rest);
      var g := Gaps(s);
      assert g == [s[..|s| - |t|]] + Gaps(rest);
      forall i | 0 <= i < |g| ensures AllSpace(g[i]) {
        if i > 0 { assert g[i] == Gaps(rest)[i - 1]; }
      }
    }
  }

  /** one step of `Gaps`, alongside `WordsStep` */
  lemma GapsStep(s: string)
    requires TrimStart(s) != []
    ensures var t := TrimStart(s);
      Gaps(s) == [s[..|s| - |t|]] + Gaps(t[|TakeWord(t)|..])
  {
  }

  lemma LayoutCons(g: string, w: string, gaps: seq<string>, words: seq<string>)
    requires gaps != []
    ensures Layout([g] + gaps, [w] + words) == g + w + Layout(gaps, words)
  {
    assert ([g] + gaps)[1..] == gaps && ([w] + words)[1..] == words;
  }

  /** what follows a token, if it holds another token, starts with whitespace */
  lemma GapAfterToken(t: string, rest: string)
    requires rest == t[|TakeWord(t)|..] && Words(rest) != []
    ensures |Gaps(rest)| > 0 && Gaps(rest)[0] != []
  {
    assert TrimStart(rest) != [];
    assert IsSpace(t[|TakeWord(t)|]);
    assert rest[0] == t[|TakeWord(t)|];
    FirstGapNonEmpty(rest);
  }

  /** the gaps strictly between `n` tokens are non-empty */
  predicate InnerNonEmpty(gaps: seq<string>, n: nat) {
    forall i :: 0 < i < n && i < |gaps| ==> gaps[i] != []
  }

  lemma InnerCons(g: string, gaps: seq<string>, n: nat)
    requires InnerNonEmpty(gaps, n)
    requires n > 0 ==> |gaps| > 0 && gaps[0] != []
    ensures InnerNonEmpty([g] + gaps, n + 1)
  {
    var all := [g] + gaps;
    forall i | 0 < i < n + 1 && i < |all| ensures all[i] != [] {
      assert all[i] == gaps[i - 1];
    }
  }

  lemma {:induction false} InnerGapsNonEmpty(s: string)
    ensures InnerNonEmpty(Gaps(s), |Words(s)|)
    decreases |s|
  {
    var t := TrimStart(s);
    if t != [] {
      WordsStep(s);
      GapsStep(s);
      var w := TakeWord(t);
      var rest := t[|w|..];
      InnerGapsNonEmpty(rest);
      if Words(rest) != [] { GapAfterToken(t, rest); }
      InnerCons(s[..|s| - |t|], Gaps(rest), |Words(rest)|);
    }
  }

  lemma {:induction false} LayoutRestores(s: string)
    ensures Layout(Gaps(s), Words(s)) == s
    decreases |s|
  {
    var t := TrimStart(s);
    var pre := s[..|s| - |t|];
    if t == [] {
      assert s == pre;
    } else {
      WordsStep(s);
      GapsStep(s);
      var w := TakeWord(t);
      var rest := t[|w|..];
      LayoutRestores(rest);
      GapsLength(rest);
      LayoutCons(pre, w, Gaps(rest), Words(rest));
      assert Gaps(s) == [pre] + Gaps(rest) && Words(s) == [w] + Words(rest);
      Reassemble(s, |s| - |t|, w, rest);
    }
  }

  lemma Reassemble(s: string, k: nat, w: string, rest: string)
    requires k <= |s| && s[k..] == w + rest
    ensures s[..k] + w + rest == s
  {
    assert s == s[..k] + s[k..];
  }

  /** `str.split()` cuts at whitespace and nowhere else: the text is its tokens
      laid out between whitespace runs, and the runs between two tokens are
      non-empty, so each token is a maximal run of non-whitespace characters */
  lemma WordsAreMaximalRuns(s: string)
    ensures |Gaps(s)| == |Words(s)| + 1
    ensures forall i :: 0 <= i < |Gaps(s)| ==> AllSpace(Gaps(s)[i])
    ensures forall i :: 0 < i < |Words(s)| ==> Gaps(s)[i] != []
    ensures Layout(Gaps(s), Words(s)) == s
  {
    GapsLength(s);
    GapsAreSpace(s);
    InnerGapsNonEmpty(s);
    LayoutRestores(s);
  }

  /** `str.split()` finds no token exactly when the input is blank */
  lemma WordsEmptyIff(s: string)
    ensures Words(s) == [] <==> AllSpace(s)
  {
    var t := TrimStart(s);
    if t != [] {
      assert s[|s| - |t|] == t[0];
    } else {
      assert s == s[..|s| - |t|];
    }
  }

  // ---------------------------------------------------------------- str.split(sep)

  /** Python's `s.split(sep)` for a one-character separator */
  function Split(s: string, sep: char): (parts: seq<string>)
    ensures |parts| >= 1
    ensures forall p :: p in parts ==> sep !in p
    ensures Join(parts, [sep]) == s
  {
    if s == [] then [""]
    else
      var rest := Split(s[1..], sep);
      if s[0] == sep then
        JoinCons("", rest, [sep]);
        [""] + rest
      else
        var parts := [[s[0]] + rest[0]] + rest[1..];
        assert parts[1..] == rest[1..];
        assert Join(parts, [sep]) == [s[0]] + Join(rest, [sep]) by {
          if |rest| > 1 { JoinCons(rest[0], rest[1..], [sep]); }
        }
        parts
  }

  /** Python's `sep.join(parts)` */
  function Join(parts: seq<string>, sep: string): string {
    if |parts| == 0 then ""
    else if |parts| == 1 then parts[0]
    else parts[0] + sep + Join(parts[1..], sep)
  }

  lemma JoinCons(x: string, rest: seq<string>, sep: string)
    requires rest != []
    ensures Join([x] + rest, sep) == x + sep + Join(rest, sep)
  {
    assert ([x] + rest)[1..] == rest;
  }

  // ---------------------------------------------------------------- str.lower()

  /** `c.lower()`: ASCII letters, and the two non-ASCII characters whose
      lower case holds an ASCII letter (KELVIN SIGN, LATIN CAPITAL LETTER I
      WITH DOT ABOVE); every other character is kept. */
  function LowerChar(c: char): string {
    if 'A' <= c <= 'Z' then [(c as int + 32) as char]
    else if c == '\U{212a}' then "k"
    else if c == '\U{130}' then "i\U{307}"
    else [c]
  }

  function Lower(s: string): string {
    if s == [] then [] else LowerChar(s[0]) + Lower(s[1..])
  }

  lemma {:induction false} LowerAppend(a: string, b: string)
    ensures Lower(a + b) == Lower(a) + Lower(b)
    decreases |a|
  {
    if a == [] {
      assert a + b == b;
    } else {
      assert (a + b)[1..] == a[1..] + b;
      LowerAppend(a[1..], b);
    }
  }

  /** lower-casing twice changes nothing more than lower-casing once */
  lemma {:induction false} LowerIdempotent(s: string)
    ensures Lower(Lower(s)) == Lower(s)
    decreases |s|
  {
    if s != [] {
      var c := LowerChar(s[0]);
      LowerAppend(c, Lower(s[1..]));
      LowerIdempotent(s[1..]);
      if c == "i\U{307}" {
        assert c == ['i'] + ['\U{307}'];
        LowerAppend(['i'], ['\U{307}']);
      }
      assert Lower(c) == c;
    }
  }

  /** away from the two special characters, lower-casing keeps the length,
      maps `A`..`Z` to `a`..`z` and keeps every other character */
  lemma {:induction false} LowerPerChar(s: string)
    requires forall i :: 0 <= i < |s| ==> s[i] != '\U{212a}' && s[i] != '\U{130}'
    ensures |Lower(s)| == |s|
    ensures forall i :: 0 <= i < |s| ==>
      Lower(s)[i] == if 'A' <= s[i] <= 'Z' then (s[i] as int + 32) as char else s[i]
    decreases |s|
  {
    if s != [] {
      LowerPerChar(s[1..]);
      var l := Lower(s);
      assert l == LowerChar(s[0]) + Lower(s[1..]);
      assert |LowerChar(s[0])| == 1;
      forall i | 0 <= i < |s|
        ensures l[i] == if 'A' <= s[i] <= 'Z' then (s[i] as int + 32) as char else s[i]
      {
        if i > 0 { assert l[i] == Lower(s[1..])[i - 1] && s[i] == s[1..][i - 1]; }
      }
    }
  }

  /** no ASCII upper-case letter survives lower-casing */
  lemma {:induction false} LowerHasNoCapitals(s: string)
    ensures forall i :: 0 <= i < |Lower(s)| ==> !('A' <= Lower(s)[i] <= 'Z')
    decreases |s|
  {
    if s != [] { LowerHasNoCapitals(s[1..]); }
  }

  // ---------------------------------------------------------------- substrings

  /** `needle` occurs in `hay` at position `i` */
  predicate OccursAt(needle: string, hay: string, i: nat) {
    i + |needle| <= |hay| && hay[i..i + |needle|] == needle
  }

  /** Python's `hay.find(needle, from)`, as an option */
  function Find(hay: string, needle: string, from: nat): (r: Option<nat>)
    ensures r.Some? ==> from <= r.value && OccursAt(needle, hay, r.value)
    ensures r.Some? ==> forall k :: from <= k < r.value ==> !OccursAt(needle, hay, k)
    ensures r.None? ==> forall k :: from <= k ==> !OccursAt(needle, hay, k)
    decreases |hay| - from
  {
    if from + |needle| > |hay| then None
    else if hay[from..from + |needle|] == needle then Some(from)
    else Find(hay, needle, from + 1)
  }

  /** Python's `needle in hay` */
  predicate Contains(hay: string, needle: string) {
    Find(hay, needle, 0).Some?
  }

  lemma ContainsIff(hay: string, needle: string)
    ensures Contains(hay, needle) <==> exists k :: OccursAt(needle, hay, k)
  {
    if Contains(hay, needle) {
      assert OccursAt(needle, hay, Find(hay, needle, 0).value);
    }
  }

  // ---------------------------------------------------------------- misc

  /** Python's `s.replace(from, to)` for single characters */
  function ReplaceChar(s: string, from: char, to: char): (r: string)
    ensures |r| == |s|
    ensures forall i :: 0 <= i < |s| ==> r[i] == if s[i] == from then to else s[i]
  {
    if s == [] then [] else [if s[0] == from then to else s[0]] + ReplaceChar(s[1..], from, to)
  }

  /** Python's `str(n)` for a non-negative integer: decimal digits, no leading zero */
  function Decimal(n: nat): (r: string)
    ensures |r| >= 1 && forall k :: 0 <= k < |r| ==> '0' <= r[k] <= '9'
    ensures (|r| == 1) == (n < 10)
    ensures r[0] != '0' || n == 0
  {
    if n < 10 then [Digit(n)] else Decimal(n / 10) + [Digit(n % 10)]
  }

  /** the number a string of decimal digits spells, read left to right */
  function DigitsValue(s: string): int {
    if s == [] then 0 else 10 * DigitsValue(s[..|s| - 1]) + (s[|s| - 1] as int - '0' as int)
  }

  /** the digits of `str(n)` spell `n` */
  lemma {:induction false} DecimalValue(n: nat)
    ensures DigitsValue(Decimal(n)) == n
    decreases n
  {
    var d := Decimal(n);
    if n >= 10 {
      assert d[..|d| - 1] == Decimal(n / 10);
      DecimalValue(n / 10);
    }
  }

  function Digit(d: nat): (c: char)
    requires d < 10
    ensures '0' <= c <= '9'
  {
    ('0' as int + d) as char
  }

  /** distinct numbers have distinct decimal forms */
  lemma {:induction false} DecimalInjective(a: nat, b: nat)
    requires Decimal(a) == Decimal(b)
    ensures a == b
    decreases a
  {
    if a >= 10 && b >= 10 {
      var da, db := Decimal(a), Decimal(b);
      assert da[..|da| - 1] == Decimal(a / 10);
      assert db[..|db| - 1] == Decimal(b / 10);
      DecimalInjective(a / 10, b / 10);
      assert Digit(a % 10) == Digit(b % 10);
    }
  }
}
