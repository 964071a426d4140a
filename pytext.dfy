/** The Python string and list built-ins the tool relies on: whitespace,
    `str.strip()`, `str.split()`, `str.split(sep)`, `str.replace`, `str(int)`,
    zero-padded integer formatting and list indexing. */
module PyText {
  import opened Wrappers

  /** `str.isspace()` for one character: the whitespace set that both
      `str.split()` and `str.strip()` use. */
  predicate IsSpace(c: char) {
    var n := c as int;
    (9 <= n <= 13) || (28 <= n <= 32) || n == 0x85 || n == 0xA0 || n == 0x1680
    || (0x2000 <= n <= 0x200A) || n == 0x2028 || n == 0x2029 || n == 0x202F
    || n == 0x205F || n == 0x3000
  }

  predicate AllSpace(s: string) {
    forall i :: 0 <= i < |s| ==> IsSpace(s[i])
  }

  /** A non-empty run of non-whitespace characters: what `str.split()` yields. */
  predicate IsToken(w: string) {
    |w| > 0 && forall i :: 0 <= i < |w| ==> !IsSpace(w[i])
  }

  /** `str.lstrip()`. */
  function TrimStart(s: string): (r: string)
    ensures |r| <= |s|
    ensures r == [] || !IsSpace(r[0])
    decreases |s|
  {
    if s != [] && IsSpace(s[0]) then TrimStart(s[1..]) else s
  }

  /** `lstrip()` removes a prefix of whitespace and keeps the rest. */
  lemma {:induction false} TrimStartFacts(s: string)
    ensures TrimStart(s) == s[|s| - |TrimStart(s)|..]
    ensures forall i :: 0 <= i < |s| - |TrimStart(s)| ==> IsSpace(s[i])
    decreases |s|
  {
    if s != [] && IsSpace(s[0]) {
      TrimStartFacts(s[1..]);
      assert s[1..][|s| - 1 - |TrimStart(s)|..] == s[|s| - |TrimStart(s)|..];
      forall i | 1 <= i < |s| - |TrimStart(s)|
        ensures IsSpace(s[i])
      {
        assert s[i] == s[1..][i - 1];
      }
    }
  }

  /** `str.rstrip()`. */
  function TrimEnd(s: string): (r: string)
    ensures |r| <= |s|
    ensures r == [] || !IsSpace(r[|r| - 1])
    decreases |s|
  {
    if s != [] && IsSpace(s[|s| - 1]) then TrimEnd(s[..|s| - 1]) else s
  }

  /** `rstrip()` removes a suffix of whitespace and keeps the rest. */
  lemma {:induction false} TrimEndFacts(s: string)
    ensures TrimEnd(s) == s[..|TrimEnd(s)|]
    ensures forall i :: |TrimEnd(s)| <= i < |s| ==> IsSpace(s[i])
    decreases |s|
  {
    if s != [] && IsSpace(s[|s| - 1]) {
      TrimEndFacts(s[..|s| - 1]);
      assert s[..|s| - 1][..|TrimEnd(s)|] == s[..|TrimEnd(s)|];
      forall i | |TrimEnd(s)| <= i < |s| - 1
        ensures IsSpace(s[i])
      {
        assert s[i] == s[..|s| - 1][i];
      }
    }
  }

  /** `str.strip()`: the result neither starts nor ends with whitespace, and
      it is empty exactly when `s` is all whitespace. */
  function Strip(s: string): (r: string)
    ensures |r| <= |s|
    ensures r == [] || (!IsSpace(r[0]) && !IsSpace(r[|r| - 1]))
    ensures |r| == 0 <==> AllSpace(s)
  {
    var t := TrimStart(s);
    var r := TrimEnd(t);
    assert |r| == 0 <==> AllSpace(s) by {
      TrimStartFacts(s);
      TrimEndFacts(t);
      if |r| == 0 {
        assert AllSpace(t);
        assert t == [];
      } else {
        assert !IsSpace(t[0]) && s[|s| - |t|] == t[0];
      }
    }
    if r != [] then
      assert r[0] == t[0] by { TrimEndFacts(t); }
      r
    else r
  }

  /** `strip()` keeps the slice of `s` between a whitespace prefix and a
      whitespace suffix. */
  lemma StripIsSlice(s: string)
    ensures var i := |s| - |TrimStart(s)|;
      i + |Strip(s)| <= |s| && Strip(s) == s[i..i + |Strip(s)|] &&
      AllSpace(s[..i]) && AllSpace(s[i + |Strip(s)|..])
  {
    var t := TrimStart(s);
    var i := |s| - |t|;
    var r := TrimEnd(t);
    assert Strip(s) == r;
    TrimStartSlice(s);
    TrimEndSlice(t);
    SliceOfSuffix(s, i, r);
  }

  /** A prefix `r` of the suffix `s[i..]` is the slice `s[i..i + |r|]`, and
      what follows it in the suffix is what follows it in `s`. */
  lemma SliceOfSuffix(s: string, i: nat, r: string)
    requires i <= |s| && |r| <= |s| - i && r == s[i..][..|r|]
    ensures r == s[i..i + |r|] && s[i + |r|..] == s[i..][|r|..]
  {
  }

  lemma TrimStartSlice(s: string)
    ensures var i := |s| - |TrimStart(s)|;
      TrimStart(s) == s[i..] && AllSpace(s[..i])
  {
    TrimStartFacts(s);
    var prefix := s[..|s| - |TrimStart(s)|];
    forall j | 0 <= j < |prefix|
      ensures IsSpace(prefix[j])
    {
      assert prefix[j] == s[j];
    }
  }

  lemma TrimEndSlice(t: string)
    ensures TrimEnd(t) == t[..|TrimEnd(t)|] && AllSpace(t[|TrimEnd(t)|..])
  {
    TrimEndFacts(t);
    var suffix := t[|TrimEnd(t)|..];
    forall j | 0 <= j < |suffix|
      ensures IsSpace(suffix[j])
    {
      assert suffix[j] == t[|TrimEnd(t)| + j];
    }
  }

  /** The longest prefix of `s` without whitespace. */
  function Word(s: string): (w: string)
    ensures |w| <= |s|
    ensures s != [] && !IsSpace(s[0]) ==> |w| > 0
    decreases |s|
  {
    if s == [] || IsSpace(s[0]) then [] else [s[0]] + Word(s[1..])
  }

  /** `str.split()` with no separator: the maximal runs of non-whitespace
      characters, in order. */
  function Split(s: string): (words: seq<string>)
    decreases |s|
  {
    var t := TrimStart(s);
    if t == [] then []
    else
      var w := Word(t);
      [w] + Split(t[|w|..])
  }

  /** The first word has no whitespace. */
  lemma {:induction false} WordHasNoSpace(s: string)
    ensures forall i :: 0 <= i < |Word(s)| ==> !IsSpace(Word(s)[i])
    decreases |s|
  {
    if s != [] && !IsSpace(s[0]) {
      WordHasNoSpace(s[1..]);
      forall i | 1 <= i < |Word(s)|
        ensures !IsSpace(Word(s)[i])
      {
        assert Word(s)[i] == Word(s[1..])[i - 1];
      }
    }
  }

  /** Every word `str.split()` yields is a token. */
  lemma {:induction false} SplitWordsAreTokens(s: string)
    ensures forall k :: 0 <= k < |Split(s)| ==> IsToken(Split(s)[k])
    decreases |s|
  {
    var t := TrimStart(s);
    if t != [] {
      var w := Word(t);
      WordHasNoSpace(t);
      SplitWordsAreTokens(t[|w|..]);
      var rest := Split(t[|w|..]);
      assert Split(s) == [w] + rest;
      forall k | 1 <= k < |Split(s)|
        ensures IsToken(Split(s)[k])
      {
        assert Split(s)[k] == rest[k - 1];
      }
    }
  }

  /** `' '.join(ws)`. */
  function Unwords(ws: seq<string>): string
    decreases |ws|
  {
    if |ws| == 0 then ""
    else if |ws| == 1 then ws[0]
    else ws[0] + " " + Unwords(ws[1..])
  }

  lemma {:induction false} WordOfTokenThenSpace(w: string, rest: string)
    requires forall i :: 0 <= i < |w| ==> !IsSpace(w[i])
    requires rest == [] || IsSpace(rest[0])
    ensures Word(w + rest) == w
    decreases |w|
  {
    if w != [] {
      assert (w + rest)[1..] == w[1..] + rest;
      WordOfTokenThenSpace(w[1..], rest);
    }
  }

  lemma {:induction false} SplitTokenThenRest(w: string, rest: string)
    requires IsToken(w)
    requires rest == [] || IsSpace(rest[0])
    ensures Split(w + rest) == [w] + Split(rest)
  {
    var s := w + rest;
    assert TrimStart(s) == s;
    WordOfTokenThenSpace(w, rest);
    assert s[|w|..] == rest;
    if rest != [] {
      assert TrimStart(rest) == TrimStart(rest[1..]);
      assert Split(rest) == Split(rest[1..]);
    }
  }

  /** Leading whitespace does not change what `str.split()` yields. */
  lemma SplitAfterSpace(c: char, tail: string)
    requires IsSpace(c)
    ensures Split([c] + tail) == Split(tail)
  {
    assert ([c] + tail)[1..] == tail;
    assert TrimStart([c] + tail) == TrimStart(tail);
  }

  /** Splitting a space-joined list of tokens gives the tokens back. */
  lemma {:induction false} SplitUnwords(ws: seq<string>)
    requires forall k :: 0 <= k < |ws| ==> IsToken(ws[k])
    ensures Split(Unwords(ws)) == ws
    decreases |ws|
  {
    if |ws| == 1 {
      assert Unwords(ws) == ws[0];
      SplitToken(ws[0]);
    } else if |ws| > 1 {
      SplitUnwords(ws[1..]);
      SplitJoinedStep(ws);
    }
  }

  /** A lone token splits into itself. */
  lemma SplitToken(w: string)
    requires IsToken(w)
    ensures Split(w) == [w]
  {
    var e: string := [];
    assert w + e == w;
    SplitTokenThenRest(w, e);
    assert Split(e) == [];
  }

  lemma SplitJoinedStep(ws: seq<string>)
    requires |ws| > 1 && IsToken(ws[0])
    requires Split(Unwords(ws[1..])) == ws[1..]
    ensures Split(Unwords(ws)) == ws
  {
    SplitConsStep(ws[0], ws[1..]);
    assert [ws[0]] + ws[1..] == ws;
  }

  lemma SplitConsStep(w: string, ws: seq<string>)
    requires IsToken(w) && |ws| > 0
    ensures Split(Unwords([w] + ws)) == [w] + Split(Unwords(ws))
  {
    assert ([w] + ws)[1..] == ws;
    assert Unwords([w] + ws) == w + " " + Unwords(ws);
    SplitTokenSpace(w, Unwords(ws));
  }

  /** A token, a space and a tail split into the token and the tail's words. */
  lemma SplitTokenSpace(w: string, tail: string)
    requires IsToken(w)
    ensures Split(w + " " + tail) == [w] + Split(tail)
  {
    var rest := [' '] + tail;
    assert w + " " + tail == w + rest;
    SplitTokenThenRest(w, rest);
    SplitAfterSpace(' ', tail);
  }

  /** `str.split()` yields nothing exactly when `str.strip()` yields the
      empty string. */
  lemma SplitEmptyIffBlank(s: string)
    ensures |Split(s)| == 0 <==> |Strip(s)| == 0
  {
    var t := TrimStart(s);
    TrimStartFacts(s);
    if t == [] {
      assert AllSpace(s);
    } else {
      assert !IsSpace(s[|s| - |t|]);
    }
  }

  /** `str.split(sep)` with a one-character separator. */
  function SplitOn(s: string, sep: char): (parts: seq<string>)
    ensures |parts| >= 1
    ensures forall k :: 0 <= k < |parts| ==> sep !in parts[k]
    decreases |s|
  {
    if s == [] then [""]
    else
      var rest := SplitOn(s[1..], sep);
      if s[0] == sep then [""] + rest
      else [[s[0]] + rest[0]] + rest[1..]
  }

  /** `sep.join(parts)`. */
  function JoinOn(parts: seq<string>, sep: char): string
    decreases |parts|
  {
    if |parts| == 0 then ""
    else if |parts| == 1 then parts[0]
    else parts[0] + [sep] + JoinOn(parts[1..], sep)
  }

  /** Joining the pieces of a split with the same separator restores the input. */
  lemma {:induction false} JoinSplitOn(s: string, sep: char)
    ensures JoinOn(SplitOn(s, sep), sep) == s
    decreases |s|
  {
    if s != [] {
      var rest := SplitOn(s[1..], sep);
      JoinSplitOn(s[1..], sep);
      if s[0] != sep {
        var parts := [[s[0]] + rest[0]] + rest[1..];
        if |rest| == 1 {
          assert JoinOn(parts, sep) == [s[0]] + rest[0];
        } else {
          assert parts[1..] == rest[1..];
          assert JoinOn(rest, sep) == rest[0] + [sep] + JoinOn(rest[1..], sep);
        }
        assert s == [s[0]] + s[1..];
      } else {
        assert s == [sep] + s[1..];
      }
    }
  }

  /** A separator-free piece followed by the separator is the first field. */
  lemma {:induction false} SplitOnField(a: string, sep: char, b: string)
    requires sep !in a
    ensures SplitOn(a + [sep] + b, sep) == [a] + SplitOn(b, sep)
    decreases |a|
  {
    var s := a + [sep] + b;
    if a == [] {
      assert s[1..] == b;
    } else {
      assert s[1..] == a[1..] + [sep] + b;
      SplitOnField(a[1..], sep, b);
      assert [a[0]] + a[1..] == a;
    }
  }

  /** A string without the separator splits into itself alone. */
  lemma {:induction false} SplitOnWhole(a: string, sep: char)
    requires sep !in a
    ensures SplitOn(a, sep) == [a]
    decreases |a|
  {
    if a != [] {
      SplitOnWhole(a[1..], sep);
      assert [a[0]] + a[1..] == a;
    }
  }

  predicate StartsWith(s: string, pat: string) {
    |pat| <= |s| && s[..|pat|] == pat
  }

  /** `pat in s` for strings. */
  predicate Contains(s: string, pat: string)
    decreases |s|
  {
    StartsWith(s, pat) || (s != [] && Contains(s[1..], pat))
  }

  /** `str.replace(pat, rep)`: left-to-right, non-overlapping replacement of
      every occurrence of a non-empty pattern. */
  function Replace(s: string, pat: string, rep: string): string
    requires |pat| > 0
    decreases |s|
  {
    if StartsWith(s, pat) then rep + Replace(s[|pat|..], pat, rep)
    else if s == [] then []
    else [s[0]] + Replace(s[1..], pat, rep)
  }

  /** The number of occurrences of `c` in `s`. */
  function Count(s: string, c: char): nat
    decreases |s|
  {
    if s == [] then 0 else (if s[0] == c then 1 else 0) + Count(s[1..], c)
  }

  /** Replacing a character by a string free of it removes the character,
      and every occurrence adds `|rep| - 1` characters. */
  lemma ReplaceChar(s: string, c: char, rep: string)
    requires c !in rep
    ensures c !in Replace(s, [c], rep)
    ensures |Replace(s, [c], rep)| == |s| + Count(s, c) * (|rep| - 1)
  {
    ReplaceCharRemoves(s, c, rep);
    ReplaceCharLength(s, c, rep);
  }

  lemma {:induction false} ReplaceCharRemoves(s: string, c: char, rep: string)
    requires c !in rep
    ensures c !in Replace(s, [c], rep)
    decreases |s|
  {
    if s != [] {
      ReplaceCharRemoves(s[1..], c, rep);
      if s[0] == c {
        assert StartsWith(s, [c]);
        assert Replace(s, [c], rep) == rep + Replace(s[1..], [c], rep);
      } else {
        assert !StartsWith(s, [c]);
        assert Replace(s, [c], rep) == [s[0]] + Replace(s[1..], [c], rep);
      }
    }
  }

  lemma {:induction false} ReplaceCharLength(s: string, c: char, rep: string)
    ensures |Replace(s, [c], rep)| == |s| + Count(s, c) * (|rep| - 1)
    decreases |s|
  {
    if s != [] {
      ReplaceCharLength(s[1..], c, rep);
      var k := Count(s[1..], c);
      var tail := Replace(s[1..], [c], rep);
      assert |tail| == |s| - 1 + k * (|rep| - 1);
      if s[0] == c {
        assert StartsWith(s, [c]);
        assert Replace(s, [c], rep) == rep + tail;
        assert Count(s, c) == 1 + k;
        assert (1 + k) * (|rep| - 1) == k * (|rep| - 1) + |rep| - 1;
      } else {
        assert !StartsWith(s, [c]);
        assert Replace(s, [c], rep) == [s[0]] + tail;
        assert Count(s, c) == k;
      }
    }
  }

  /** Replacing a pattern that does not occur changes nothing. */
  lemma {:induction false} ReplaceAbsent(s: string, pat: string, rep: string)
    requires |pat| > 0 && !Contains(s, pat)
    ensures Replace(s, pat, rep) == s
    decreases |s|
  {
    if s != [] {
      ReplaceAbsent(s[1..], pat, rep);
      assert [s[0]] + s[1..] == s;
    }
  }

  /** A leading occurrence is replaced and the scan resumes after it. */
  lemma ReplaceLeading(pat: string, rest: string, rep: string)
    requires |pat| > 0
    ensures Replace(pat + rest, pat, rep) == rep + Replace(rest, pat, rep)
  {
    assert StartsWith(pat + rest, pat);
    assert (pat + rest)[|pat|..] == rest;
  }

  /** Replacement distributes over a prefix that holds no part of the pattern:
      here, the prefix does not contain the pattern's first character. */
  lemma {:induction false} ReplaceFreePrefix(a: string, rest: string, pat: string, rep: string)
    requires |pat| > 0 && pat[0] !in a
    ensures Replace(a + rest, pat, rep) == a + Replace(rest, pat, rep)
    decreases |a|
  {
    if a != [] {
      var s := a + rest;
      assert s[0] == a[0];
      assert !StartsWith(s, pat);
      assert Replace(s, pat, rep) == [a[0]] + Replace(s[1..], pat, rep);
      assert s[1..] == a[1..] + rest;
      ReplaceFreePrefix(a[1..], rest, pat, rep);
      assert [a[0]] + (a[1..] + Replace(rest, pat, rep)) == a + Replace(rest, pat, rep);
    } else {
      assert a + rest == rest;
    }
  }

  /** Two separator-free pieces joined by the separator split back apart. */
  lemma SplitOnPair(a: string, sep: char, b: string)
    requires sep !in a && sep !in b
    ensures SplitOn(a + [sep] + b, sep) == [a, b]
  {
    SplitOnField(a, sep, b);
    SplitOnWhole(b, sep);
  }

  // ----- decimal digits -----

  predicate IsDigit(c: char) { '0' <= c <= '9' }

  predicate IsDigits(s: string) {
    forall i :: 0 <= i < |s| ==> IsDigit(s[i])
  }

  /** A digit string holds no character other than a digit. */
  lemma DigitsExclude(s: string, c: char)
    requires IsDigits(s) && !IsDigit(c)
    ensures c !in s
  {
    assert forall i :: 0 <= i < |s| ==> s[i] != c;
  }

  /** The value of a string of decimal digits, most significant first. */
  function DigitsValue(s: string): nat
    requires IsDigits(s)
    decreases |s|
  {
    if s == [] then 0
    else 10 * DigitsValue(s[..|s| - 1]) + (s[|s| - 1] as int - '0' as int)
  }

  function DigitChar(d: nat): (c: char)
    requires d < 10
    ensures IsDigit(c) && c as int - '0' as int == d
  {
    ('0' as int + d) as char
  }

  /** `str(n)` for a non-negative int: decimal digits without leading zeros,
      whose value is `n`. */
  function NatToString(n: nat): (r: string)
    ensures |r| > 0 && IsDigits(r) && DigitsValue(r) == n
    ensures n < 10 <==> |r| == 1
    ensures 10 <= n < 100 ==> |r| == 2
    ensures |r| > 1 ==> r[0] != '0'
    decreases n
  {
    if n < 10 then [DigitChar(n)]
    else
      var r := NatToString(n / 10) + [DigitChar(n % 10)];
      assert r[..|r| - 1] == NatToString(n / 10);
      r
  }

  function Pow10(k: nat): (p: nat)
    ensures p > 0
    decreases k
  {
    if k == 0 then 1 else 10 * Pow10(k - 1)
  }

  /** A number below `10^k` takes at most `k` digits (and always one). */
  lemma {:induction false} NatToStringLength(n: nat, k: nat)
    requires n < Pow10(k)
    ensures |NatToString(n)| <= if k == 0 then 1 else k
    decreases k
  {
    if n >= 10 {
      NatToStringLength(n / 10, k - 1);
    }
  }

  function Zeros(k: nat): (z: string)
    ensures |z| == k && forall i :: 0 <= i < k ==> z[i] == '0'
    decreases k
  {
    if k == 0 then "" else "0" + Zeros(k - 1)
  }

  /** Leading zeros do not change the value of a digit string. */
  lemma {:induction false} LeadingZerosValue(k: nat, s: string)
    requires IsDigits(s)
    ensures IsDigits(Zeros(k) + s) && DigitsValue(Zeros(k) + s) == DigitsValue(s)
    decreases |s|
  {
    var z := Zeros(k);
    if s == [] {
      assert z + s == z;
      ZerosValue(k);
    } else {
      var t := z + s;
      assert t[..|t| - 1] == z + s[..|s| - 1];
      LeadingZerosValue(k, s[..|s| - 1]);
    }
  }

  lemma {:induction false} ZerosValue(k: nat)
    ensures IsDigits(Zeros(k)) && DigitsValue(Zeros(k)) == 0
    decreases k
  {
    if k > 0 {
      var z := Zeros(k);
      assert z[..k - 1] == Zeros(k - 1);
      ZerosValue(k - 1);
    }
  }

  /** `f'{n:0{width}d}'` for a non-negative int: decimal digits padded on the
      left with zeros to at least `width` characters, whose value is `n`. */
  function ZeroPad(n: nat, width: nat): (r: string)
    ensures IsDigits(r) && DigitsValue(r) == n
    ensures |r| == if |NatToString(n)| < width then width else |NatToString(n)|
  {
    var d := NatToString(n);
    if |d| < width then
      LeadingZerosValue(width - |d|, d);
      Zeros(width - |d|) + d
    else d
  }

  /** Python indexing of a list, where a negative index counts from the end;
      `None` is the place where Python raises `IndexError`. */
  function PyIndex<T>(s: seq<T>, i: int): Option<T>
  {
    if 0 <= i < |s| then Some(s[i])
    else if -|s| <= i < 0 then Some(s[|s| + i])
    else None
  }
}
