/**
 * Post-processing of the verification pass: the `[FLAG: ...]` annotations the
 * checking model writes inline, the verification-summary section it appends, and
 * the final count and status of the report. The checked report text (the model's
 * reply) is an input.
 */
module Checker {
  import opened Wrappers
  import opened Text

  // ---------------------------------------------------------------------------
  // VerificationResult
  // ---------------------------------------------------------------------------

  /** One annotation: its type and its quoted description (`""` when there is none). */
  datatype Flag = Flag(kind: string, description: string)

  datatype VerificationResult = VerificationResult(
    report: string,
    flags: seq<Flag>,
    totalFlags: int,
    status: string)
  {
    predicate Passed() { totalFlags == 0 }
    predicate NeedsReview() { 1 <= totalFlags <= 5 }
    predicate HasMajorIssues() { totalFlags > 5 }
  }

  /** A non-negative count falls in exactly one of the three classes. */
  lemma ExactlyOneClass(r: VerificationResult)
    requires r.totalFlags >= 0
    ensures r.Passed() || r.NeedsReview() || r.HasMajorIssues()
    ensures !(r.Passed() && r.NeedsReview()) && !(r.Passed() && r.HasMajorIssues())
    ensures !(r.NeedsReview() && r.HasMajorIssues())
  {
  }

  // ---------------------------------------------------------------------------
  // extract_flags: the scanner of \[FLAG:\s*([^"\]]+?)(?:\s+"([^"]+)")?\]
  // ---------------------------------------------------------------------------

  const FlagOpen := "[FLAG:"

  /** The characters the type group `[^"\]]` cannot contain. */
  predicate Closing(c: char) {
    c == '"' || c == ']'
  }

  /** The length of the run of non-quote characters (`[^"]`) starting at `i`. */
  function NonQuoteRun(s: string, i: nat): (n: nat)
    requires i <= |s|
    ensures i + n <= |s|
    ensures forall j :: i <= j < i + n ==> s[j] != '"'
    ensures i + n == |s| || s[i + n] == '"'
    decreases |s| - i
  {
    if i < |s| && s[i] != '"' then 1 + NonQuoteRun(s, i + 1) else 0
  }

  /**
   * The optional part `\s+"([^"]+)"` followed by the closing `]`, tried at `e`: the
   * description and the end of the match. Only the longest white-space run and the
   * longest description can be followed by the quote they need, so no other choice matters.
   */
  function QuotedTail(s: string, e: nat): (r: Option<(string, nat)>)
    requires e <= |s|
    ensures r.Some? ==> e < r.value.1 <= |s| && r.value.0 != ""
  {
    var m := SpaceRun(s, e);
    var j := e + m;
    if m == 0 || j >= |s| || s[j] != '"' then None
    else
      var d := NonQuoteRun(s, j + 1);
      var k := j + 1 + d;
      if d == 0 || k + 1 >= |s| || s[k + 1] != ']' then None
      else Some((s[j + 1..k], k + 2))
  }

  /** What may follow the type group at `e`: the quoted part first, else the bare `]`. */
  function CloseAt(s: string, e: nat): (r: Option<(string, nat)>)
    requires e <= |s|
    ensures r.Some? ==> e < r.value.1 <= |s|
  {
    var t := QuotedTail(s, e);
    if t.Some? then t
    else if e < |s| && s[e] == ']' then Some(("", e + 1))
    else None
  }

  /**
   * The lazy type group `([^"\]]+?)` starting at `g`, tried with end `e` and then
   * longer: the group end, the description and the end of the match.
   */
  function LazyGroup(s: string, g: nat, e: nat): (r: Option<(nat, string, nat)>)
    requires g < e <= |s|
    ensures r.Some? ==> e <= r.value.0 < r.value.2 <= |s|
    decreases |s| - e
  {
    match CloseAt(s, e)
    case Some(t) => Some((e, t.0, t.1))
    case None => if e < |s| && !Closing(s[e]) then LazyGroup(s, g, e + 1) else None
  }

  /**
   * `\s*` before the group, backtracking: the group starts after `k` of the leading
   * white-space characters, for `k` from the whole run down to none.
   */
  function GroupFrom(s: string, q: nat, k: nat): (r: Option<(nat, nat, string, nat)>)
    requires q + k <= |s|
    ensures r.Some? ==> q <= r.value.0 < r.value.1 < r.value.3 <= |s|
    decreases k
  {
    var g := q + k;
    var found := if g < |s| && !Closing(s[g]) then LazyGroup(s, g, g + 1) else None;
    if found.Some? then Some((g, found.value.0, found.value.1, found.value.2))
    else if k == 0 then None
    else GroupFrom(s, q, k - 1)
  }

  /** The match of the pattern at the start of `s`, if any: the flag and the end of the match. */
  function MatchFront(s: string): (r: Option<(Flag, nat)>)
    ensures r.Some? ==> 0 < r.value.1 <= |s|
    ensures r.Some? ==> ContainsAt(s, FlagOpen, 0)
  {
    if ContainsAt(s, FlagOpen, 0) then
      var q := |FlagOpen|;
      match GroupFrom(s, q, SpaceRun(s, q))
      case None => None
      case Some(m) => Some((Flag(Strip(s[m.0..m.1]), m.2), m.3))
    else None
  }

  /**
   * The match of the pattern at position `p`, if any: the flag and the end of the match.
   * The pattern has no anchor and no look-behind, so only the text from `p` on matters.
   */
  function MatchAt(s: string, p: nat): (r: Option<(Flag, nat)>)
    requires p <= |s|
    ensures r.Some? ==> p < r.value.1 <= |s| && ContainsAt(s, FlagOpen, p)
  {
    var m := MatchFront(s[p..]);
    if m.None? then None
    else
      assert s[p..][0..|FlagOpen|] == s[p..p + |FlagOpen|];
      Some((m.value.0, m.value.1 + p))
  }

  /** Nothing is matched where the text does not continue with `[FLAG:`. */
  lemma NoMarkerNoMatch(s: string, p: nat)
    requires p <= |s| && !ContainsAt(s, FlagOpen, p)
    ensures MatchAt(s, p) == None
  {
    if p + |FlagOpen| <= |s| {
      assert s[p..][0..|FlagOpen|] == s[p..p + |FlagOpen|];
    }
  }

  function ShiftEnd<T>(r: Option<(T, nat)>, o: nat): Option<(T, nat)> {
    if r.None? then None else Some((r.value.0, r.value.1 + o))
  }

  /**
   * `re.findall` over `t`: a match at the start is kept and the search resumes after
   * it; otherwise the search moves one character on.
   */
  function FlagsIn(t: string): seq<Flag>
    decreases |t|
  {
    if t == [] then []
    else
      match MatchFront(t)
      case Some(m) => [m.0] + FlagsIn(t[m.1..])
      case None => FlagsIn(t[1..])
  }

  /** `re.findall` from position `p`, which sees only the text from `p` on. */
  function FlagsFrom(s: string, p: nat): seq<Flag>
    requires p <= |s|
  {
    FlagsIn(s[p..])
  }

  /** `extract_flags`: the annotations in order of appearance. */
  method ExtractFlags(checkedReport: string) returns (flags: seq<Flag>)
    ensures flags == FlagsFrom(checkedReport, 0)
  {
    var s := checkedReport;
    flags := [];
    var p := 0;
    while p < |s|
      invariant 0 <= p <= |s|
      invariant FlagsFrom(s, 0) == flags + FlagsFrom(s, p)
      decreases |s| - p
    {
      flags, p := ScanStep(s, p, flags);
    }
    EndOfFlags(s);
  }

  /**
   * One turn of the scan of `extract_flags`: a match at `p` is kept and the
   * scan resumes after it; otherwise the scan moves one character on. Either
   * way the flags found so far plus those still ahead are unchanged.
   */
  method ScanStep(s: string, p: nat, flags: seq<Flag>) returns (flags': seq<Flag>, p': nat)
    requires p < |s|
    ensures p < p' <= |s|
    ensures flags' + FlagsFrom(s, p') == flags + FlagsFrom(s, p)
  {
    var m := MatchAt(s, p);
    if m.Some? {
      FlagsStep(s, p, m.value.0, m.value.1);
      AppendAssoc(flags, [m.value.0], FlagsFrom(s, m.value.1));
      flags' := flags + [m.value.0];
      p' := m.value.1;
    } else {
      FlagsSkipStep(s, p);
      flags' := flags;
      p' := p + 1;
    }
  }

  /** The search has nothing left to find at the end of the text. */
  lemma EndOfFlags(s: string)
    ensures FlagsFrom(s, |s|) == []
  {
  }

  lemma {:induction false} FlagsFromWithoutMarker(s: string, p: nat)
    requires p <= |s|
    requires forall j :: p <= j ==> !ContainsAt(s, FlagOpen, j)
    ensures FlagsFrom(s, p) == []
    decreases |s| - p
  {
    if p < |s| {
      NoMarkerNoMatch(s, p);
      FlagsSkipStep(s, p);
      FlagsFromWithoutMarker(s, p + 1);
    }
  }

  /** Text containing no `[FLAG:` has no flags. */
  lemma NoMarkerNoFlags(s: string)
    requires !Contains(s, FlagOpen)
    ensures FlagsFrom(s, 0) == []
  {
    FlagsFromWithoutMarker(s, 0);
  }

  /** A type as annotations write it: non-empty, trimmed, and free of `"` and `]`. */
  predicate PlainType(t: string) {
    t != [] && !IsSpace(t[0]) && !IsSpace(t[|t| - 1]) && forall i :: 0 <= i < |t| ==> !Closing(t[i])
  }

  /** A description as annotations write it: non-empty and free of `"`. */
  predicate PlainDescription(d: string) {
    d != [] && forall i :: 0 <= i < |d| ==> d[i] != '"'
  }

  /** `[FLAG: t "d"]`, or `[FLAG: t]` when `d` is empty. */
  function Annotation(t: string, d: string): string {
    if d == "" then FlagOpen + " " + t + "]"
    else FlagOpen + " " + t + " \"" + d + "\"]"
  }

  /** Inside the type, the lazy group cannot stop: the rest of the type is not white space then a quote. */
  lemma {:induction false} LazyGroupInsideType(s: string, t: string, e: nat, tail: (nat, string, nat))
    requires |s| > 7 + |t| && PlainType(t) && s[7..7 + |t|] == t
    requires 8 <= e <= 7 + |t|
    requires LazyGroup(s, 7, 7 + |t|) == Some(tail)
    ensures LazyGroup(s, 7, e) == Some(tail)
    decreases 7 + |t| - e
  {
    if e < 7 + |t| {
      LazyGroupInsideType(s, t, e + 1, tail);
      assert !IsSpace(s[6 + |t|]) by {
        assert s[6 + |t|] == t[|t| - 1];
      }
      var m := SpaceRun(s, e);
      assert s[e + m] == t[e + m - 7];
      assert s[e] == t[e - 7];
    }
  }

  /** The text after the type of a bare annotation closes the match with an empty description. */
  lemma BareClose(s: string, n: nat)
    requires |s| >= 8 + n && s[7 + n] == ']'
    ensures CloseAt(s, 7 + n) == Some(("", 8 + n))
  {
    assert SpaceRun(s, 7 + n) == 0;
  }

  /** The text after the type of a quoted annotation closes the match with its description. */
  lemma QuotedClose(s: string, n: nat, d: string)
    requires PlainDescription(d)
    requires |s| >= 11 + n + |d|
    requires s[7 + n] == ' ' && s[8 + n] == '"' && s[9 + n..9 + n + |d|] == d
    requires s[9 + n + |d|] == '"' && s[10 + n + |d|] == ']'
    ensures CloseAt(s, 7 + n) == Some((d, 11 + n + |d|))
  {
    var k := 9 + n + |d|;
    assert SpaceRun(s, 7 + n) == 1 by {
      assert SpaceRun(s, 8 + n) == 0;
    }
    forall j | 9 + n <= j < k ensures s[j] != '"' {
      assert s[j] == d[j - 9 - n];
    }
    NonQuoteRunOf(s, 9 + n, k);
  }

  /** `[FLAG: t` followed by a closing part is matched at 0 with the stripped type. */
  lemma TypedMatch(s: string, t: string, tail: (string, nat))
    requires PlainType(t) && |s| > 7 + |t|
    requires s[..6] == FlagOpen && s[6] == ' ' && s[7..7 + |t|] == t
    requires CloseAt(s, 7 + |t|) == Some(tail)
    ensures MatchAt(s, 0) == Some((Flag(t, tail.0), tail.1))
  {
    assert s[0..] == s;
    var n := |t|;
    assert SpaceRun(s, 6) == 1 by {
      assert s[7] == t[0];
      assert SpaceRun(s, 7) == 0;
    }
    assert LazyGroup(s, 7, 7 + n) == Some((7 + n, tail.0, tail.1));
    if n > 1 {
      LazyGroupInsideType(s, t, 8, (7 + n, tail.0, tail.1));
    }
    assert s[7] == t[0];
    assert GroupFrom(s, 6, 1) == Some((7, 7 + n, tail.0, tail.1));
    StripOfTrimmed(t);
  }

  /**
   * An annotation at the start of the text is matched there, whatever follows it: the
   * match ends at the annotation's closing `]`.
   */
  lemma AnnotationMatch(t: string, d: string, s: string)
    requires PlainType(t)
    requires d == "" || PlainDescription(d)
    requires |Annotation(t, d)| <= |s| && s[..|Annotation(t, d)|] == Annotation(t, d)
    ensures MatchAt(s, 0) == Some((Flag(t, d), |Annotation(t, d)|))
  {
    var a := Annotation(t, d);
    var n := |t|;
    assert forall k :: 0 <= k < |a| ==> s[k] == a[k] by {
      forall k | 0 <= k < |a| ensures s[k] == a[k] {
        assert s[..|a|][k] == s[k];
      }
    }
    assert s[..6] == a[..6] == FlagOpen;
    assert s[6] == ' ' && s[7..7 + n] == a[7..7 + n] == t;
    if d == "" {
      assert |a| == 8 + n && s[7 + n] == ']';
      BareClose(s, n);
      TypedMatch(s, t, ("", 8 + n));
    } else {
      assert |a| == 11 + n + |d|;
      assert s[7 + n] == ' ' && s[8 + n] == '"' && s[9 + n..9 + n + |d|] == a[9 + n..9 + n + |d|] == d;
      assert s[9 + n + |d|] == '"' && s[10 + n + |d|] == ']';
      QuotedClose(s, n, d);
      TypedMatch(s, t, (d, |a|));
    }
  }

  /** An annotation written as the prompt asks for it is read back as exactly one flag. */
  lemma AnnotationRoundTrip(t: string, d: string)
    requires PlainType(t)
    requires d == "" || PlainDescription(d)
    ensures FlagsFrom(Annotation(t, d), 0) == [Flag(t, d)]
  {
    var a := Annotation(t, d);
    assert a[..|a|] == a;
    AnnotationMatch(t, d, a);
    EndOfFlags(a);
  }

  /** Text holding no `[`, so no annotation can start in it. */
  predicate MarkerFree(g: string) {
    forall i :: 0 <= i < |g| ==> g[i] != '['
  }

  /** An annotation `(type, description)` as the prompt asks for it. */
  predicate WellFormedNote(n: (string, string)) {
    PlainType(n.0) && (n.1 == "" || PlainDescription(n.1))
  }

  /**
   * An annotation inside a report: text before it without a `[` yields no flag, the
   * annotation yields its own, and the search goes on after it as in the rest alone.
   */
  lemma AnnotationInContext(pre: string, t: string, d: string, post: string)
    requires MarkerFree(pre)
    requires PlainType(t)
    requires d == "" || PlainDescription(d)
    ensures FlagsFrom(pre + Annotation(t, d) + post, 0) == [Flag(t, d)] + FlagsFrom(post, 0)
  {
    var a := Annotation(t, d);
    var s := pre + a + post;
    forall j | 0 <= j < |pre| ensures s[j] != '[' {
      assert s[j] == pre[j];
    }
    FlagsFromSkip(s, 0, |pre|);
    assert s[|pre|..|pre| + |a|] == a;
    assert s[|pre| + |a|..] == post;
    AnnotationAt(s, |pre|, |pre| + |a|, t, d);
  }

  /** An annotation from `o` to `e` yields its flag, and the search resumes at `e`. */
  lemma AnnotationAt(s: string, o: nat, e: nat, t: string, d: string)
    requires PlainType(t)
    requires d == "" || PlainDescription(d)
    requires e == o + |Annotation(t, d)| && e <= |s| && s[o..e] == Annotation(t, d)
    ensures FlagsFrom(s, o) == [Flag(t, d)] + FlagsFrom(s[e..], 0)
  {
    AnnotationInSuffix(s, o, t, d);
    MatchOfSuffix(s, o, Flag(t, d), |Annotation(t, d)|, e);
    MatchResumes(s, o, Flag(t, d), e);
  }

  lemma AnnotationInSuffix(s: string, o: nat, t: string, d: string)
    requires PlainType(t)
    requires d == "" || PlainDescription(d)
    requires o + |Annotation(t, d)| <= |s| && s[o..o + |Annotation(t, d)|] == Annotation(t, d)
    ensures MatchAt(s[o..], 0) == Some((Flag(t, d), |Annotation(t, d)|))
  {
    var a := Annotation(t, d);
    var y := s[o..];
    assert y[..|a|] == s[o..o + |a|];
    AnnotationMatch(t, d, y);
  }

  /** A match at the start of `s[o..]` is a match at `o` in `s`. */
  lemma MatchOfSuffix(s: string, o: nat, f: Flag, n: nat, e: nat)
    requires o + n <= |s| && e == o + n && MatchAt(s[o..], 0) == Some((f, n))
    ensures MatchAt(s, o) == Some((f, e))
  {
    MatchAtSuffix(s, o);
    ShiftSome(f, n, o, e);
  }

  lemma ShiftSome<T>(f: T, n: nat, o: nat, e: nat)
    requires e == o + n
    ensures ShiftEnd(Some((f, n)), o) == Some((f, e))
  {
  }

  /** A match at `o` ending at `e` contributes its flag, and the search goes on from `e` alone. */
  lemma MatchResumes(s: string, o: nat, f: Flag, e: nat)
    requires o < |s| && MatchAt(s, o) == Some((f, e))
    ensures FlagsFrom(s, o) == [f] + FlagsFrom(s[e..], 0)
  {
    FlagsFromSuffix(s, e);
  }

  /** Marker-free gaps, each followed by an annotation: `gaps[i] + [FLAG: ...]` for each `i`. */
  function Annotated(gaps: seq<string>, notes: seq<(string, string)>): string
    requires |gaps| == |notes|
  {
    if gaps == [] then ""
    else gaps[0] + Annotation(notes[0].0, notes[0].1) + Annotated(gaps[1..], notes[1..])
  }

  /** The flags of annotations `(type, description)`, in order. */
  function FlagsOf(notes: seq<(string, string)>): (r: seq<Flag>)
    ensures |r| == |notes|
    ensures forall i :: 0 <= i < |notes| ==> r[i] == Flag(notes[i].0, notes[i].1)
  {
    if notes == [] then [] else [Flag(notes[0].0, notes[0].1)] + FlagsOf(notes[1..])
  }

  /**
   * Annotations separated by text without `[` are read back as their flags in order,
   * followed by the flags of whatever text comes after them.
   */
  lemma {:induction false} AnnotationsInText(gaps: seq<string>, notes: seq<(string, string)>, post: string)
    requires |gaps| == |notes|
    requires forall k :: 0 <= k < |gaps| ==> MarkerFree(gaps[k])
    requires forall k :: 0 <= k < |notes| ==> WellFormedNote(notes[k])
    ensures FlagsFrom(Annotated(gaps, notes) + post, 0) == FlagsOf(notes) + FlagsFrom(post, 0)
    decreases |gaps|
  {
    if gaps != [] {
      var n := notes[0];
      var rest := Annotated(gaps[1..], notes[1..]);
      forall k | 0 <= k < |gaps| - 1 ensures MarkerFree(gaps[1..][k]) && WellFormedNote(notes[1..][k]) {
        assert gaps[1..][k] == gaps[k + 1] && notes[1..][k] == notes[k + 1];
      }
      AnnotationsInText(gaps[1..], notes[1..], post);
      Regroup(gaps[0], Annotation(n.0, n.1), rest, post);
      AnnotationInContext(gaps[0], n.0, n.1, rest + post);
    }
  }

  lemma Regroup<T>(a: seq<T>, b: seq<T>, c: seq<T>, d: seq<T>)
    ensures (a + b + c) + d == a + b + (c + d)
  {
  }

  /** The scan moves past text holding no `[` without finding anything. */
  lemma {:induction false} FlagsFromSkip(s: string, p: nat, q: nat)
    requires p <= q <= |s|
    requires forall j :: p <= j < q ==> s[j] != '['
    ensures FlagsFrom(s, p) == FlagsFrom(s, q)
    decreases q - p
  {
    if p < q {
      if p + |FlagOpen| <= |s| {
        assert s[p..p + |FlagOpen|][0] == s[p];
      }
      NoMarkerNoMatch(s, p);
      FlagsSkipStep(s, p);
      FlagsFromSkip(s, p + 1, q);
    }
  }

  // ---------------------------------------------------------------------------
  // A match depends only on the text from its start on
  // ---------------------------------------------------------------------------

  lemma MatchAtFront(s: string, q: nat)
    requires q <= |s|
    ensures MatchAt(s, q) == ShiftEnd(MatchFront(s[q..]), q)
  {
  }

  lemma MatchAtSuffix(s: string, o: nat)
    requires o <= |s|
    ensures MatchAt(s, o) == ShiftEnd(MatchAt(s[o..], 0), o)
  {
    MatchAtShift(s, o, 0);
  }

  lemma MatchAtShift(s: string, o: nat, p: nat)
    requires o + p <= |s|
    ensures MatchAt(s, o + p) == ShiftEnd(MatchAt(s[o..], p), o)
  {
    var y := s[o..];
    MatchAtFront(s, o + p);
    assert y[p..] == s[o + p..];
    MatchAtFront(y, p);
    ShiftTwice(MatchFront(s[o + p..]), p, o);
  }

  lemma ShiftTwice<T>(m: Option<(T, nat)>, p: nat, o: nat)
    ensures ShiftEnd(ShiftEnd(m, p), o) == ShiftEnd(m, o + p)
  {
  }

  lemma FlagsFromSuffix(s: string, p: nat)
    requires p <= |s|
    ensures FlagsFrom(s, p) == FlagsFrom(s[p..], 0)
  {
    FlagsFromShift(s, p, 0);
  }

  /** The flags found in `s` from `o + p` are those found in `s[o..]` from `p`. */
  lemma FlagsFromShift(s: string, o: nat, p: nat)
    requires o + p <= |s|
    ensures FlagsFrom(s, o + p) == FlagsFrom(s[o..], p)
  {
    assert s[o..][p..] == s[o + p..];
  }

  /** One step of `findall`: a match from `p` to `e` is kept and the search resumes at `e`. */
  lemma FlagsStep(s: string, p: nat, f: Flag, e: nat)
    requires p < |s| && MatchAt(s, p) == Some((f, e))
    ensures FlagsFrom(s, p) == [f] + FlagsFrom(s, e)
  {
    var t := s[p..];
    var n := MatchFront(t).value.1;
    assert t[n..] == s[e..];
  }

  /** One step of `findall`: with no match at `p` the search moves on by one character. */
  lemma FlagsSkipStep(s: string, p: nat)
    requires p < |s| && MatchAt(s, p).None?
    ensures FlagsFrom(s, p) == FlagsFrom(s, p + 1)
  {
    assert s[p..][1..] == s[p + 1..];
  }

  lemma {:induction false} NonQuoteRunOf(s: string, i: nat, k: nat)
    requires i <= k < |s| && s[k] == '"'
    requires forall j :: i <= j < k ==> s[j] != '"'
    ensures NonQuoteRun(s, i) == k - i
    decreases k - i
  {
    if i < k {
      NonQuoteRunOf(s, i + 1, k);
    }
  }

  // ---------------------------------------------------------------------------
  // parse_verification_summary
  // ---------------------------------------------------------------------------

  const TotalLabel := "**Total flags:**"
  const StatusLabel := "**Verification status:**"
  const Statuses: seq<string> := ["PASS", "REVIEW NEEDED", "MAJOR ISSUES"]

  /** The breakdown patterns: label and key, in the order they are searched. */
  const BreakdownPatterns: seq<(string, string)> := [
    ("Unknown persons:", "unknown_persons"),
    ("Unknown organizations:", "unknown_organizations"),
    ("Unverified talks:", "unverified_talks"),
    ("Unsupported claims:", "unsupported_claims"),
    ("Other issues:", "other_issues")]

  datatype Summary = Summary(totalFlags: nat, status: string, breakdown: map<string, nat>)

  /** `label\s*(\d+)` matched at `p`: the number. */
  function NumberAt(s: string, marker: string, p: nat): (r: Option<nat>)
    requires p <= |s|
  {
    if !ContainsAt(s, marker, p) then None
    else
      var i := p + |marker| + SpaceRun(s, p + |marker|);
      var n := DigitRun(s, i);
      if n == 0 then None else Some(DigitsValue(s[i..i + n]))
  }

  /** `re.search(label + r"\s*(\d+)", s)` from `p`: the number of the first position that matches. */
  function NumberAfter(s: string, marker: string, p: nat): Option<nat>
    requires p <= |s|
    decreases |s| - p
  {
    var here := NumberAt(s, marker, p);
    if here.Some? then here
    else if p == |s| then None
    else NumberAfter(s, marker, p + 1)
  }

  /** The search yields the number of the first matching position, and nothing when no position matches. */
  lemma {:induction false} NumberAfterIsFirst(s: string, marker: string, p: nat)
    requires p <= |s|
    ensures var r := NumberAfter(s, marker, p);
            (r.Some? ==> exists j :: p <= j <= |s| && NumberAt(s, marker, j) == r
                                     && forall k :: p <= k < j ==> NumberAt(s, marker, k).None?)
            && (r.None? ==> forall j :: p <= j <= |s| ==> NumberAt(s, marker, j).None?)
    decreases |s| - p
  {
    var here := NumberAt(s, marker, p);
    if here.Some? {
      assert NumberAfter(s, marker, p) == here;
    } else if p < |s| {
      NumberAfterIsFirst(s, marker, p + 1);
      var r := NumberAfter(s, marker, p);
      assert r == NumberAfter(s, marker, p + 1);
      if r.Some? {
        var j :| p + 1 <= j <= |s| && NumberAt(s, marker, j) == r
                 && forall k :: p + 1 <= k < j ==> NumberAt(s, marker, k).None?;
        forall k | p <= k < j ensures NumberAt(s, marker, k).None? {
          if k == p {
            assert NumberAt(s, marker, k) == here;
          }
        }
      } else {
        forall j | p <= j <= |s| ensures NumberAt(s, marker, j).None? {
          if j == p {
            assert NumberAt(s, marker, j) == here;
          }
        }
      }
    }
  }

  /** `\*\*Verification status:\*\*\s*(PASS|REVIEW NEEDED|MAJOR ISSUES)` matched at `p`. */
  function StatusAt(s: string, p: nat): (r: Option<string>)
    requires p <= |s|
    ensures r.Some? ==> r.value in Statuses
  {
    if !ContainsAt(s, StatusLabel, p) then None
    else
      var i := p + |StatusLabel| + SpaceRun(s, p + |StatusLabel|);
      if ContainsAt(s, "PASS", i) then Some("PASS")
      else if ContainsAt(s, "REVIEW NEEDED", i) then Some("REVIEW NEEDED")
      else if ContainsAt(s, "MAJOR ISSUES", i) then Some("MAJOR ISSUES")
      else None
  }

  /** The status of the first position where the status pattern matches. */
  function StatusAfter(s: string, p: nat): (r: Option<string>)
    requires p <= |s|
    ensures r.Some? ==> r.value in Statuses
    decreases |s| - p
  {
    var here := StatusAt(s, p);
    if here.Some? then here
    else if p == |s| then None
    else StatusAfter(s, p + 1)
  }

  /** The status search yields the status of the first matching position, and nothing when none matches. */
  lemma {:induction false} StatusAfterIsFirst(s: string, p: nat)
    requires p <= |s|
    ensures var r := StatusAfter(s, p);
            (r.Some? ==> exists j :: p <= j <= |s| && StatusAt(s, j) == r
                                     && forall k :: p <= k < j ==> StatusAt(s, k).None?)
            && (r.None? ==> forall j :: p <= j <= |s| ==> StatusAt(s, j).None?)
    decreases |s| - p
  {
    var here := StatusAt(s, p);
    if here.Some? {
      assert StatusAfter(s, p) == here;
    } else if p < |s| {
      StatusAfterIsFirst(s, p + 1);
      var r := StatusAfter(s, p);
      assert r == StatusAfter(s, p + 1);
      if r.Some? {
        var j :| p + 1 <= j <= |s| && StatusAt(s, j) == r
                 && forall k :: p + 1 <= k < j ==> StatusAt(s, k).None?;
        forall k | p <= k < j ensures StatusAt(s, k).None? {
          if k == p {
            assert StatusAt(s, k) == here;
          }
        }
      } else {
        forall j | p <= j <= |s| ensures StatusAt(s, j).None? {
          if j == p {
            assert StatusAt(s, j) == here;
          }
        }
      }
    }
  }

  /** The breakdown entries of the given patterns: a key for each label followed by a number. */
  function BreakdownOf(s: string, patterns: seq<(string, string)>): map<string, nat> {
    if patterns == [] then map[]
    else
      var last := patterns[|patterns| - 1];
      var n := NumberAfter(s, last.0, 0);
      var init := BreakdownOf(s, patterns[..|patterns| - 1]);
      if n.Some? then init[last.1 := n.value] else init
  }

  /** The summary the report's text yields. */
  function SummaryOf(s: string): Summary {
    Summary(
      NumberAfter(s, TotalLabel, 0).GetOr(0),
      StatusAfter(s, 0).GetOr("UNKNOWN"),
      BreakdownOf(s, BreakdownPatterns))
  }

  /** `parse_verification_summary`: defaults, then the total, the status and each breakdown pattern in turn. */
  method ParseVerificationSummary(checkedReport: string) returns (summary: Summary)
    ensures summary == SummaryOf(checkedReport)
  {
    var s := checkedReport;
    summary := Summary(0, "UNKNOWN", map[]);
    var total := NumberAfter(s, TotalLabel, 0);
    if total.Some? {
      summary := summary.(totalFlags := total.value);
    }
    var status := StatusAfter(s, 0);
    if status.Some? {
      summary := summary.(status := status.value);
    }
    var breakdown := map[];
    var i := 0;
    while i < |BreakdownPatterns|
      invariant 0 <= i <= |BreakdownPatterns|
      invariant breakdown == BreakdownOf(s, BreakdownPatterns[..i])
    {
      var pattern := BreakdownPatterns[i];
      var m := NumberAfter(s, pattern.0, 0);
      BreakdownOfSnoc(s, BreakdownPatterns, i);
      if m.Some? {
        breakdown := breakdown[pattern.1 := m.value];
      }
      i := i + 1;
    }
    assert BreakdownPatterns[..i] == BreakdownPatterns;
    summary := summary.(breakdown := breakdown);
  }

  /** Taking one more pattern adds its key when its label is followed by a number. */
  lemma BreakdownOfSnoc(s: string, patterns: seq<(string, string)>, i: nat)
    requires i < |patterns|
    ensures var n := NumberAfter(s, patterns[i].0, 0);
            BreakdownOf(s, patterns[..i + 1])
            == if n.Some? then BreakdownOf(s, patterns[..i])[patterns[i].1 := n.value] else BreakdownOf(s, patterns[..i])
  {
    assert patterns[..i + 1][..i] == patterns[..i];
  }

  predicate DistinctKeys(patterns: seq<(string, string)>) {
    forall i, j :: 0 <= i < j < |patterns| ==> patterns[i].1 != patterns[j].1
  }

  lemma {:induction false} BreakdownOfKeys(s: string, patterns: seq<(string, string)>)
    requires DistinctKeys(patterns)
    ensures forall i :: 0 <= i < |patterns| ==>
              (patterns[i].1 in BreakdownOf(s, patterns) <==> NumberAfter(s, patterns[i].0, 0).Some?)
    ensures forall i :: 0 <= i < |patterns| && patterns[i].1 in BreakdownOf(s, patterns) ==>
              Some(BreakdownOf(s, patterns)[patterns[i].1]) == NumberAfter(s, patterns[i].0, 0)
    ensures forall k :: k in BreakdownOf(s, patterns) ==> exists i :: 0 <= i < |patterns| && patterns[i].1 == k
    decreases |patterns|
  {
    if patterns != [] {
      var init := patterns[..|patterns| - 1];
      assert forall i :: 0 <= i < |init| ==> init[i] == patterns[i];
      BreakdownOfKeys(s, init);
    }
  }

  /**
   * A breakdown key is present exactly when its label is followed by digits somewhere,
   * with the number of the first such place; there are no other keys.
   */
  lemma BreakdownIff(s: string)
    ensures forall i :: 0 <= i < |BreakdownPatterns| ==>
              var (marker, key) := BreakdownPatterns[i];
              (key in SummaryOf(s).breakdown <==> NumberAfter(s, marker, 0).Some?)
              && (key in SummaryOf(s).breakdown ==> Some(SummaryOf(s).breakdown[key]) == NumberAfter(s, marker, 0))
    ensures forall k :: k in SummaryOf(s).breakdown ==> exists i :: 0 <= i < |BreakdownPatterns| && BreakdownPatterns[i].1 == k
  {
    BreakdownOfKeys(s, BreakdownPatterns);
  }

  lemma {:induction false} NumberAfterWithoutLabel(s: string, marker: string, p: nat)
    requires p <= |s|
    requires forall j :: p <= j ==> !ContainsAt(s, marker, j)
    ensures NumberAfter(s, marker, p).None?
    decreases |s| - p
  {
    if p < |s| {
      NumberAfterWithoutLabel(s, marker, p + 1);
    }
  }

  lemma {:induction false} StatusAfterWithoutLabel(s: string, p: nat)
    requires p <= |s|
    requires forall j :: p <= j ==> !ContainsAt(s, StatusLabel, j)
    ensures StatusAfter(s, p).None?
    decreases |s| - p
  {
    if p < |s| {
      StatusAfterWithoutLabel(s, p + 1);
    }
  }

  /** A report with none of the summary labels parses to the defaults. */
  lemma NoMarkersDefaultSummary(s: string)
    requires !Contains(s, TotalLabel) && !Contains(s, StatusLabel)
    requires forall i :: 0 <= i < |BreakdownPatterns| ==> !Contains(s, BreakdownPatterns[i].0)
    ensures SummaryOf(s) == Summary(0, "UNKNOWN", map[])
  {
    NumberAfterWithoutLabel(s, TotalLabel, 0);
    StatusAfterWithoutLabel(s, 0);
    forall i | 0 <= i < |BreakdownPatterns| ensures NumberAfter(s, BreakdownPatterns[i].0, 0).None? {
      NumberAfterWithoutLabel(s, BreakdownPatterns[i].0, 0);
    }
    BreakdownOfKeys(s, BreakdownPatterns);
    assert SummaryOf(s).breakdown == map[];
  }

  /** `**Total flags:** n` is read back as `n`. */
  lemma TotalRoundTrip(n: nat)
    ensures SummaryOf(TotalLabel + " " + NatToString(n)).totalFlags == n
  {
    var digits := NatToString(n);
    var s := TotalLabel + " " + digits;
    var i := |TotalLabel| + 1;
    assert s[..|TotalLabel|] == TotalLabel;
    assert s[i..] == digits;
    assert SpaceRun(s, i) == 0 by {
      assert s[i] == digits[0];
    }
    assert SpaceRun(s, |TotalLabel|) == 1;
    DigitRunAll(s, i);
    assert s[i..i + |digits|] == digits;
    DigitsValueOfNatToString(n);
    assert NumberAt(s, TotalLabel, 0) == Some(n);
  }

  lemma {:induction false} DigitRunAll(s: string, i: nat)
    requires i <= |s| && AllDigits(s[i..])
    ensures DigitRun(s, i) == |s| - i
    decreases |s| - i
  {
    if i < |s| {
      assert s[i] == s[i..][0];
      assert s[i + 1..] == s[i..][1..];
      DigitRunAll(s, i + 1);
    }
  }

  // ---------------------------------------------------------------------------
  // check_report: count and status of the checked report
  // ---------------------------------------------------------------------------

  /** The status the thresholds give a count. */
  function StatusFor(total: int): (r: string)
    ensures r in Statuses
    ensures r == "PASS" <==> total == 0
    ensures r == "REVIEW NEEDED" <==> 1 <= total <= 5 || total < 0
    ensures r == "MAJOR ISSUES" <==> total > 5
  {
    if total == 0 then "PASS" else if total <= 5 then "REVIEW NEEDED" else "MAJOR ISSUES"
  }

  /** The post-processing of `check_report` applied to the checking model's reply. */
  method CheckReport(checkedReport: string) returns (r: VerificationResult)
    ensures r.report == checkedReport && r.flags == FlagsFrom(checkedReport, 0)
    ensures var sm := SummaryOf(checkedReport);
            r.totalFlags == (if sm.totalFlags > 0 then sm.totalFlags else |r.flags|)
            && (sm.status != "UNKNOWN" ==> r.status == sm.status)
            && (sm.status == "UNKNOWN" ==> r.status == StatusFor(r.totalFlags))
    ensures r.status in Statuses
    ensures r.totalFlags >= 0
  {
    var flags := ExtractFlags(checkedReport);
    var summary := ParseVerificationSummary(checkedReport);
    var total := if summary.totalFlags > 0 then summary.totalFlags else |flags|;
    var status := summary.status;
    if status == "UNKNOWN" {
      if total == 0 {
        status := "PASS";
      } else if total <= 5 {
        status := "REVIEW NEEDED";
      } else {
        status := "MAJOR ISSUES";
      }
    }
    r := VerificationResult(checkedReport, flags, total, status);
  }

  /** Without a parsed status, the final status agrees with the count's class. */
  lemma UnknownStatusFollowsCount(r: VerificationResult)
    requires r.totalFlags >= 0 && r.status == StatusFor(r.totalFlags)
    ensures r.Passed() <==> r.status == "PASS"
    ensures r.NeedsReview() <==> r.status == "REVIEW NEEDED"
    ensures r.HasMajorIssues() <==> r.status == "MAJOR ISSUES"
  {
  }
}
