/**
 * ASCII-only models of the Python string operations the reporter relies on:
 * `lower`/`upper`/`title`/`capitalize`/`isupper`, `strip`, the `in` substring
 * test, `find`, `split()`, `split(sep)`, `join`, `replace`, and the decimal
 * conversions `str(n)` / `int(digits)`.
 */
module Text {
  import opened Wrappers

  // ---------------------------------------------------------------------------
  // Character classes
  // ---------------------------------------------------------------------------

  /** Python's `str.isspace` (also `\s` of `re`), restricted to ASCII. */
  predicate IsSpace(c: char) {
    c == ' ' || c == '\t' || c == '\n' || c == '\r' || c == '\U{B}' || c == '\U{C}'
    || ('\U{1C}' <= c <= '\U{1F}')
  }

  predicate IsUpper(c: char) { 'A' <= c <= 'Z' }
  predicate IsLower(c: char) { 'a' <= c <= 'z' }
  predicate IsLetter(c: char) { IsUpper(c) || IsLower(c) }
  predicate IsDigit(c: char) { '0' <= c <= '9' }

  /** `\w` of Python's `re` over ASCII: letters, digits and `_`. */
  predicate IsWordChar(c: char) { IsLetter(c) || IsDigit(c) || c == '_' }

  predicate AllSpace(s: string) { forall i :: 0 <= i < |s| ==> IsSpace(s[i]) }
  predicate AllDigits(s: string) { forall i :: 0 <= i < |s| ==> IsDigit(s[i]) }

  // ---------------------------------------------------------------------------
  // Case mapping
  // ---------------------------------------------------------------------------

  function ToLower(c: char): (r: char)
    ensures !IsUpper(r)
    ensures IsUpper(c) ==> IsLower(r) && r as int == c as int + 32
    ensures !IsUpper(c) ==> r == c
  {
    if IsUpper(c) then (c as int + 32) as char else c
  }

  function ToUpper(c: char): (r: char)
    ensures !IsLower(r)
    ensures IsLower(c) ==> IsUpper(r) && r as int == c as int - 32
    ensures !IsLower(c) ==> r == c
  {
    if IsLower(c) then (c as int - 32) as char else c
  }

  /** Python's `s.lower()` on ASCII. */
  function Lower(s: string): (r: string)
    ensures |r| == |s|
    ensures forall i :: 0 <= i < |s| ==> r[i] == ToLower(s[i])
  {
    seq(|s|, i requires 0 <= i < |s| => ToLower(s[i]))
  }

  /** Python's `s.upper()` on ASCII. */
  function Upper(s: string): (r: string)
    ensures |r| == |s|
    ensures forall i :: 0 <= i < |s| ==> r[i] == ToUpper(s[i])
  {
    seq(|s|, i requires 0 <= i < |s| => ToUpper(s[i]))
  }

  lemma UpperOfLowerChar(c: char)
    ensures ToUpper(ToLower(c)) == ToUpper(c)
  {
  }

  /** Upper-casing forgets whether the input was lower-cased first. */
  lemma UpperOfLower(s: string)
    ensures Upper(Lower(s)) == Upper(s)
  {
    forall i | 0 <= i < |s| ensures Upper(Lower(s))[i] == Upper(s)[i] {
      UpperOfLowerChar(s[i]);
    }
  }

  lemma LowerOfUpperChar(c: char)
    ensures ToLower(ToUpper(c)) == ToLower(c)
  {
  }

  /** Lower-casing forgets whether the input was upper-cased first. */
  lemma LowerOfUpper(s: string)
    ensures Lower(Upper(s)) == Lower(s)
  {
    forall i | 0 <= i < |s| ensures Lower(Upper(s))[i] == Lower(s)[i] {
      LowerOfUpperChar(s[i]);
    }
  }

  lemma UpperIdempotent(s: string)
    ensures Upper(Upper(s)) == Upper(s)
  {
  }

  lemma UpperConcat(a: string, b: string)
    ensures Upper(a + b) == Upper(a) + Upper(b)
  {
    assert forall i :: 0 <= i < |a| + |b| ==> Upper(a + b)[i] == (Upper(a) + Upper(b))[i];
  }

  lemma LowerConcat(a: string, b: string)
    ensures Lower(a + b) == Lower(a) + Lower(b)
  {
    assert forall i :: 0 <= i < |a| + |b| ==> Lower(a + b)[i] == (Lower(a) + Lower(b))[i];
  }

  /** Python's `s.capitalize()` on ASCII: first character upper-cased, the rest lower-cased. */
  function Capitalize(s: string): (r: string)
    ensures |r| == |s|
    ensures |s| > 0 ==> r[0] == ToUpper(s[0]) && r[1..] == Lower(s[1..])
  {
    if s == [] then [] else [ToUpper(s[0])] + Lower(s[1..])
  }

  /**
   * Python's `s.title()` on ASCII: a letter is upper-cased when the character
   * before it is not a letter, and lower-cased otherwise; other characters are kept.
   */
  function TitleFrom(s: string, afterLetter: bool): (r: string)
    ensures |r| == |s|
  {
    if s == [] then []
    else
      [TitleChar(s[0], afterLetter)] + TitleFrom(s[1..], IsLetter(s[0]))
  }

  /** One character of a title: a letter after a letter is lower-cased, any other letter upper-cased. */
  function TitleChar(c: char, afterLetter: bool): (r: char)
    ensures IsLetter(r) <==> IsLetter(c)
    ensures !IsLetter(c) ==> r == c
    ensures ToLower(r) == ToLower(c)
  {
    if !IsLetter(c) then c else if afterLetter then ToLower(c) else ToUpper(c)
  }

  function Title(s: string): (r: string)
    ensures |r| == |s|
  {
    TitleFrom(s, false)
  }

  /** Title-casing works character by character: each character depends only on itself and the one before. */
  lemma {:induction false} TitleFromChars(s: string, afterLetter: bool)
    ensures forall i :: 0 <= i < |s| ==>
              TitleFrom(s, afterLetter)[i] == TitleChar(s[i], if i == 0 then afterLetter else IsLetter(s[i - 1]))
    decreases |s|
  {
    if s != [] {
      var r := TitleFrom(s, afterLetter);
      TitleFromChars(s[1..], IsLetter(s[0]));
      forall i | 0 < i < |s|
        ensures r[i] == TitleChar(s[i], IsLetter(s[i - 1]))
      {
        assert r[i] == TitleFrom(s[1..], IsLetter(s[0]))[i - 1];
        assert s[1..][i - 1] == s[i];
        if i > 1 {
          assert s[1..][i - 2] == s[i - 1];
        }
      }
    }
  }

  /**
   * `s.title()` changes only the case of letters: a letter is upper-cased exactly when
   * it does not follow a letter, and lower-casing the title gives back `s.lower()`.
   */
  lemma TitleChars(s: string)
    ensures forall i :: 0 <= i < |s| ==> Title(s)[i] == TitleChar(s[i], 0 < i && IsLetter(s[i - 1]))
    ensures forall i :: 0 <= i < |s| ==> !IsLetter(s[i]) ==> Title(s)[i] == s[i]
    ensures forall i :: 0 <= i < |s| ==> (IsLetter(Title(s)[i]) <==> IsLetter(s[i]))
    ensures Lower(Title(s)) == Lower(s)
  {
    var r := Title(s);
    TitleFromChars(s, false);
    forall i | 0 <= i < |s|
      ensures r[i] == TitleChar(s[i], 0 < i && IsLetter(s[i - 1]))
      ensures Lower(r)[i] == Lower(s)[i]
    {
      assert r[i] == TitleChar(s[i], if i == 0 then false else IsLetter(s[i - 1]));
    }
    assert Lower(r) == Lower(s);
  }

  /** Python's `s.isupper()` on ASCII: some upper-case letter and no lower-case one. */
  predicate IsUpperString(s: string) {
    (exists i :: 0 <= i < |s| && IsUpper(s[i])) && forall i :: 0 <= i < |s| ==> !IsLower(s[i])
  }

  // ---------------------------------------------------------------------------
  // strip()
  // ---------------------------------------------------------------------------

  /** Python's `s.lstrip()`. */
  function LStrip(s: string): (r: string)
    ensures |r| <= |s| && r == s[|s| - |r|..]
    ensures r == [] || !IsSpace(r[0])
    ensures forall i :: 0 <= i < |s| - |r| ==> IsSpace(s[i])
  {
    if |s| > 0 && IsSpace(s[0]) then LStrip(s[1..]) else s
  }

  /** Python's `s.rstrip()`. */
  function RStrip(s: string): (r: string)
    ensures |r| <= |s| && r == s[..|r|]
    ensures r == [] || !IsSpace(r[|r| - 1])
    ensures forall i :: |r| <= i < |s| ==> IsSpace(s[i])
  {
    if |s| > 0 && IsSpace(s[|s| - 1]) then RStrip(s[..|s| - 1]) else s
  }

  /** Python's `s.strip()`. */
  function Strip(s: string): (r: string)
    ensures |r| <= |s|
    ensures r == [] || (!IsSpace(r[0]) && !IsSpace(r[|r| - 1]))
  {
    RStrip(LStrip(s))
  }

  lemma LStripOfSpaceFree(s: string)
    requires s == [] || !IsSpace(s[0])
    ensures LStrip(s) == s
  {
  }

  lemma RStripOfSpaceFree(s: string)
    requires s == [] || !IsSpace(s[|s| - 1])
    ensures RStrip(s) == s
  {
  }

  /** A string with no surrounding white space is its own `strip()`. */
  lemma StripOfTrimmed(s: string)
    requires s == [] || (!IsSpace(s[0]) && !IsSpace(s[|s| - 1]))
    ensures Strip(s) == s
  {
  }

  /** `lstrip()` stops inside `a` when `a` holds a non-space, so what follows `a` is kept. */
  lemma {:induction false} LStripConcat(a: string, b: string)
    requires !AllSpace(a)
    ensures LStrip(a + b) == LStrip(a) + b
    decreases |a|
  {
    assert (a + b)[0] == a[0];
    if IsSpace(a[0]) {
      var i :| 0 <= i < |a| && !IsSpace(a[i]);
      assert i != 0;
      assert a[1..][i - 1] == a[i];
      assert (a + b)[1..] == a[1..] + b;
      assert LStrip(a + b) == LStrip(a[1..] + b);
      LStripConcat(a[1..], b);
    } else {
      LStripOfSpaceFree(a);
      LStripOfSpaceFree(a + b);
    }
  }

  /** `rstrip()` stops inside `b` when `b` holds a non-space, so what precedes `b` is kept. */
  lemma {:induction false} RStripConcat(a: string, b: string)
    requires !AllSpace(b)
    ensures RStrip(a + b) == a + RStrip(b)
    decreases |b|
  {
    var n := |b| - 1;
    assert (a + b)[|a + b| - 1] == b[n];
    if IsSpace(b[n]) {
      var i :| 0 <= i < |b| && !IsSpace(b[i]);
      assert b[..n][i] == b[i];
      RStripConcat(a, b[..n]);
      assert (a + b)[..|a + b| - 1] == a + b[..n];
    }
  }

  /** `rstrip()` removes a trailing run of white space entirely. */
  lemma {:induction false} RStripSpaceSuffix(a: string, w: string)
    requires AllSpace(w)
    ensures RStrip(a + w) == RStrip(a)
    decreases |w|
  {
    if w == [] {
      assert a + w == a;
    } else {
      var n := |w| - 1;
      assert (a + w)[|a + w| - 1] == w[n];
      assert (a + w)[..|a + w| - 1] == a + w[..n];
      RStripSpaceSuffix(a, w[..n]);
    }
  }

  /** `strip()` of a string is empty exactly when the string is all white space. */
  lemma StripEmptyIff(s: string)
    ensures Strip(s) == [] <==> AllSpace(s)
  {
    var l := LStrip(s);
    var r := RStrip(l);
    assert Strip(s) == r;
    if AllSpace(s) {
      assert l == [] by {
        if l != [] {
          assert false;
        }
      }
    } else {
      var i :| 0 <= i < |s| && !IsSpace(s[i]);
      assert i >= |s| - |l|;
      assert l != [];
      assert !IsSpace(l[0]);
      assert r != [] by {
        if r == [] {
          assert false;
        }
      }
    }
  }

  lemma StripIdempotent(s: string)
    ensures Strip(Strip(s)) == Strip(s)
  {
    StripOfTrimmed(Strip(s));
  }

  // ---------------------------------------------------------------------------
  // Substrings: `p in s`, `s.find(p)`, `s.startswith(p)`
  // ---------------------------------------------------------------------------

  predicate ContainsAt(s: string, p: string, i: int) {
    0 <= i && i + |p| <= |s| && s[i..i + |p|] == p
  }

  predicate StartsWith(s: string, p: string) {
    |p| <= |s| && s[..|p|] == p
  }

  /** The first index at or after `i` where `p` occurs in `s`. */
  function IndexFrom(s: string, p: string, i: nat): (r: Option<nat>)
    ensures r.Some? ==> i <= r.value && ContainsAt(s, p, r.value)
    ensures r.Some? ==> forall j :: i <= j < r.value ==> !ContainsAt(s, p, j)
    ensures r.None? ==> forall j :: i <= j ==> !ContainsAt(s, p, j)
    decreases |s| - i
  {
    if i + |p| > |s| then None
    else if s[i..i + |p|] == p then Some(i)
    else IndexFrom(s, p, i + 1)
  }

  /** Python's `s.find(p)` (with `None` for -1). */
  function IndexOf(s: string, p: string): (r: Option<nat>)
    ensures r.Some? <==> exists j :: ContainsAt(s, p, j)
    ensures r.Some? ==> ContainsAt(s, p, r.value) && forall j :: 0 <= j < r.value ==> !ContainsAt(s, p, j)
  {
    IndexFrom(s, p, 0)
  }

  /** Python's `p in s`. */
  predicate Contains(s: string, p: string) {
    IndexOf(s, p).Some?
  }

  lemma ContainsAtWitness(s: string, p: string, i: int)
    requires ContainsAt(s, p, i)
    ensures Contains(s, p)
  {
  }

  lemma NotContainsAt(s: string, p: string, i: int)
    requires !Contains(s, p)
    ensures !ContainsAt(s, p, i)
  {
  }

  lemma ContainsEmpty(s: string)
    ensures Contains(s, "")
  {
    assert ContainsAt(s, "", 0);
  }

  lemma ContainsSelf(s: string)
    ensures Contains(s, s)
  {
    assert ContainsAt(s, s, 0);
  }

  lemma ContainsInLeft(a: string, b: string, p: string)
    requires Contains(a, p)
    ensures Contains(a + b, p)
  {
    var i := IndexOf(a, p).value;
    assert (a + b)[i..i + |p|] == a[i..i + |p|];
    assert ContainsAt(a + b, p, i);
  }

  lemma ContainsInRight(a: string, b: string, p: string)
    requires Contains(b, p)
    ensures Contains(a + b, p)
  {
    var i := IndexOf(b, p).value;
    assert (a + b)[|a| + i..|a| + i + |p|] == b[i..i + |p|];
    assert ContainsAt(a + b, p, |a| + i);
  }

  /** A character occurs as a one-character substring exactly when it is an element. */
  lemma ContainsCharIff(s: string, c: char)
    ensures Contains(s, [c]) <==> c in s
  {
    if c in s {
      var i :| 0 <= i < |s| && s[i] == c;
      assert s[i..i + 1] == [c];
      assert ContainsAt(s, [c], i);
    }
    if Contains(s, [c]) {
      var i := IndexOf(s, [c]).value;
      assert s[i] == s[i..i + 1][0];
    }
  }

  lemma StartsWithContains(s: string, p: string)
    requires StartsWith(s, p)
    ensures Contains(s, p)
  {
    assert ContainsAt(s, p, 0);
  }

  // ---------------------------------------------------------------------------
  // split(sep, 1), split(c), split(), join, replace
  // ---------------------------------------------------------------------------

  /** Python's `s.split(d, 1)` when `d` occurs in `s`: the parts around its first occurrence. */
  function SplitOnce(s: string, d: string): (r: (string, string))
    requires Contains(s, d)
    ensures s == r.0 + d + r.1
    ensures forall j :: 0 <= j < |r.0| ==> !ContainsAt(s, d, j)
  {
    var i := IndexOf(s, d).value;
    assert s == s[..i] + d + s[i + |d|..];
    (s[..i], s[i + |d|..])
  }

  /** Python's `s.split(c)` for a one-character separator: never empty. */
  function SplitOn(s: string, c: char): (r: seq<string>)
    ensures |r| >= 1
    ensures forall k :: 0 <= k < |r| ==> c !in r[k]
    decreases |s|
  {
    if c !in s then [s]
    else
      var i := FirstIndexOf(s, c);
      [s[..i]] + SplitOn(s[i + 1..], c)
  }

  function FirstIndexOf(s: string, c: char): (i: nat)
    requires c in s
    ensures i < |s| && s[i] == c && c !in s[..i]
  {
    if s[0] == c then 0 else 1 + FirstIndexOf(s[1..], c)
  }

  /** Python's `sep.join(parts)`. */
  function Join(parts: seq<string>, sep: string): string {
    if |parts| == 0 then ""
    else if |parts| == 1 then parts[0]
    else parts[0] + sep + Join(parts[1..], sep)
  }

  lemma JoinCons(p: string, rest: seq<string>, sep: string)
    requires rest != []
    ensures Join([p] + rest, sep) == p + sep + Join(rest, sep)
  {
    assert ([p] + rest)[1..] == rest;
  }

  /** Joining on a character and splitting on it again gives the parts back. */
  lemma {:induction false} SplitJoin(parts: seq<string>, c: char)
    requires |parts| >= 1
    requires forall k :: 0 <= k < |parts| ==> c !in parts[k]
    ensures SplitOn(Join(parts, [c]), c) == parts
  {
    if |parts| == 1 {
    } else {
      var rest := parts[1..];
      var s := Join(parts, [c]);
      assert s == parts[0] + [c] + Join(rest, [c]);
      assert c in s by { assert s[|parts[0]|] == c; }
      var i := FirstIndexOf(s, c);
      assert i <= |parts[0]|;
      assert i == |parts[0]| by { assert s[..|parts[0]|] == parts[0]; }
      assert s[..i] == parts[0];
      assert s[i + 1..] == Join(rest, [c]);
      SplitJoin(rest, c);
    }
  }

  /** Splitting on a character and joining on it again gives the string back. */
  lemma {:induction false} JoinSplit(s: string, c: char)
    ensures Join(SplitOn(s, c), [c]) == s
    decreases |s|
  {
    if c in s {
      var i := FirstIndexOf(s, c);
      JoinSplit(s[i + 1..], c);
      JoinCons(s[..i], SplitOn(s[i + 1..], c), [c]);
      assert s == s[..i] + [c] + s[i + 1..];
    }
  }

  /** The first line of `s` (`s.split("\n")[0]`). */
  function FirstLine(s: string): (r: string)
    ensures '\n' !in r
  {
    SplitOn(s, '\n')[0]
  }

  lemma FirstLineOfNoNewline(s: string)
    requires '\n' !in s
    ensures FirstLine(s) == s
  {
  }

  lemma FirstLineOfConcat(a: string, b: string)
    requires '\n' !in a
    ensures FirstLine(a + "\n" + b) == a
  {
    var s := a + "\n" + b;
    assert s[|a|] == '\n';
    var i := FirstIndexOf(s, '\n');
    assert i <= |a|;
    assert i == |a| by { assert s[..|a|] == a; }
    assert s[..i] == a;
  }

  /** The length of the run of non-space characters at the front of `s`. */
  function WordLength(s: string): (n: nat)
    ensures n <= |s|
    ensures forall i :: 0 <= i < n ==> !IsSpace(s[i])
    ensures n < |s| ==> IsSpace(s[n])
  {
    if s == [] || IsSpace(s[0]) then 0 else 1 + WordLength(s[1..])
  }

  /** Python's `s.split()`: the maximal runs of non-space characters. */
  function Words(s: string): (r: seq<string>)
    ensures forall k :: 0 <= k < |r| ==> IsWord(r[k])
    decreases |s|
  {
    var t := LStrip(s);
    if t == [] then []
    else
      var n := WordLength(t);
      var rest := Words(t[n..]);
      WordsCons(t[..n], rest);
      [t[..n]] + rest
  }

  lemma WordsCons(w: string, rest: seq<string>)
    requires IsWord(w)
    requires forall k :: 0 <= k < |rest| ==> IsWord(rest[k])
    ensures forall k :: 0 <= k < 1 + |rest| ==> IsWord(([w] + rest)[k])
  {
    forall k | 0 <= k < 1 + |rest| ensures IsWord(([w] + rest)[k]) {
      if k > 0 {
        assert ([w] + rest)[k] == rest[k - 1];
      }
    }
  }

  /** A non-empty string without white space. */
  predicate IsWord(w: string) {
    w != [] && forall i :: 0 <= i < |w| ==> !IsSpace(w[i])
  }

  /** A string without white space is a single word (or none, when empty). */
  lemma WordsOfSpaceFree(s: string)
    requires forall i :: 0 <= i < |s| ==> !IsSpace(s[i])
    ensures Words(s) == if s == [] then [] else [s]
  {
    if s != [] {
      WordsOfWordStart(s);
      var n := WordLength(s);
      assert n == |s|;
      assert s[n..] == [];
      assert s[..n] == s;
      WordsOfEmpty();
    }
  }

  /** A string that starts with a word splits into that word and the split of the rest. */
  lemma WordsOfWordStart(s: string)
    requires s != [] && !IsSpace(s[0])
    ensures Words(s) == [s[..WordLength(s)]] + Words(s[WordLength(s)..])
  {
    LStripOfSpaceFree(s);
  }

  lemma WordsOfEmpty()
    ensures Words([]) == []
  {
    assert LStrip([]) == [];
  }

  /** Python's `s.replace(a, b)` for single characters. */
  function ReplaceChar(s: string, a: char, b: char): (r: string)
    ensures |r| == |s|
    ensures forall i :: 0 <= i < |s| ==> r[i] == if s[i] == a then b else s[i]
  {
    seq(|s|, i requires 0 <= i < |s| => if s[i] == a then b else s[i])
  }

  /** Python's `s.replace(c, "")`. */
  function RemoveChar(s: string, c: char): (r: string)
    ensures c !in r
    ensures forall x :: x in r ==> x in s
  {
    if s == [] then [] else (if s[0] == c then [] else [s[0]]) + RemoveChar(s[1..], c)
  }

  // ---------------------------------------------------------------------------
  // Decimal numerals: `str(n)` and `int(digits)`
  // ---------------------------------------------------------------------------

  function DigitChar(d: nat): (c: char)
    requires d < 10
    ensures IsDigit(c) && c as int - '0' as int == d
  {
    ('0' as int + d) as char
  }

  /** Python's `str(n)` for a natural number. */
  function NatToString(n: nat): (r: string)
    ensures r != [] && AllDigits(r)
  {
    if n < 10 then [DigitChar(n)] else NatToString(n / 10) + [DigitChar(n % 10)]
  }

  /** Python's `int(ds)` for a run of ASCII digits. */
  function DigitsValue(ds: string): nat
    requires AllDigits(ds)
  {
    if ds == [] then 0
    else DigitsValue(ds[..|ds| - 1]) * 10 + (ds[|ds| - 1] as int - '0' as int)
  }

  /** Reading back the numeral of `n` gives `n`. */
  lemma {:induction false} DigitsValueOfNatToString(n: nat)
    ensures DigitsValue(NatToString(n)) == n
  {
    if n >= 10 {
      var s := NatToString(n);
      assert s[..|s| - 1] == NatToString(n / 10);
      DigitsValueOfNatToString(n / 10);
    }
  }

  // ---------------------------------------------------------------------------
  // String order: Python's `<` on `str` and `sorted()` of a set of strings
  // ---------------------------------------------------------------------------

  /** Python's `a < b`: code points compared left to right, a proper prefix first. */
  predicate Less(a: string, b: string) {
    if a == [] then b != []
    else if b == [] then false
    else if a[0] != b[0] then a[0] < b[0]
    else Less(a[1..], b[1..])
  }

  lemma {:induction false} LessIrreflexive(a: string)
    ensures !Less(a, a)
    decreases |a|
  {
    if a != [] {
      LessIrreflexive(a[1..]);
    }
  }

  lemma {:induction false} LessTransitive(a: string, b: string, c: string)
    requires Less(a, b) && Less(b, c)
    ensures Less(a, c)
    decreases |a|
  {
    if a != [] && b != [] && c != [] && a[0] == b[0] == c[0] {
      LessTransitive(a[1..], b[1..], c[1..]);
    }
  }

  /** Any two different strings are ordered one way or the other. */
  lemma {:induction false} LessTotal(a: string, b: string)
    ensures a == b || Less(a, b) || Less(b, a)
    decreases |a|
  {
    if a != [] && b != [] && a[0] == b[0] {
      LessTotal(a[1..], b[1..]);
      if a[1..] == b[1..] {
        assert a == [a[0]] + a[1..] && b == [b[0]] + b[1..];
      }
    }
  }

  predicate StrictlySorted(xs: seq<string>) {
    forall i, j :: 0 <= i < j < |xs| ==> Less(xs[i], xs[j])
  }

  /** `x` inserted at its place in a sorted list, which keeps only one copy of it. */
  function InsertSorted(xs: seq<string>, x: string): (r: seq<string>)
    requires StrictlySorted(xs)
    ensures StrictlySorted(r)
    ensures forall y :: y in r <==> y in xs || y == x
    decreases |xs|
  {
    if xs == [] then [x]
    else if xs[0] == x then xs
    else if Less(x, xs[0]) then
      assert forall j :: 0 <= j < |xs| ==> Less(x, xs[j]) by {
        forall j | 0 < j < |xs| ensures Less(x, xs[j]) {
          LessTransitive(x, xs[0], xs[j]);
        }
      }
      [x] + xs
    else
      LessTotal(x, xs[0]);
      var rest := InsertSorted(xs[1..], x);
      assert forall y :: y in rest ==> Less(xs[0], y) by {
        forall y | y in rest ensures Less(xs[0], y) {
          if y != x {
            var j :| 1 <= j < |xs| && xs[j] == y;
          }
        }
      }
      [xs[0]] + rest
  }

  /** Python's `sorted(set(xs))`: the distinct values of `xs` in increasing order. */
  function SortedSet(xs: seq<string>): (r: seq<string>)
    ensures StrictlySorted(r)
    ensures forall y :: y in r <==> y in xs
  {
    if xs == [] then [] else InsertSorted(SortedSet(xs[..|xs| - 1]), xs[|xs| - 1])
  }

  // ---------------------------------------------------------------------------
  // Greedy runs, as `\s*` and `\d+` of Python's `re` consume them
  // ---------------------------------------------------------------------------

  /** The length of the white-space run of `s` starting at `i`. */
  function SpaceRun(s: string, i: nat): (n: nat)
    requires i <= |s|
    ensures i + n <= |s|
    ensures forall j :: i <= j < i + n ==> IsSpace(s[j])
    ensures i + n == |s| || !IsSpace(s[i + n])
    decreases |s| - i
  {
    if i < |s| && IsSpace(s[i]) then 1 + SpaceRun(s, i + 1) else 0
  }

  /** The length of the ASCII digit run of `s` starting at `i`. */
  function DigitRun(s: string, i: nat): (n: nat)
    requires i <= |s|
    ensures i + n <= |s|
    ensures AllDigits(s[i..i + n])
    ensures i + n == |s| || !IsDigit(s[i + n])
    decreases |s| - i
  {
    if i < |s| && IsDigit(s[i]) then
      var n := DigitRun(s, i + 1);
      assert s[i..i + 1 + n] == [s[i]] + s[i + 1..i + 1 + n];
      1 + n
    else 0
  }
}
