/**
 * The earlier single-session report generator: the rule that decides whether a
 * session label belongs to a breakout group, the acronym filter over the
 * lightning-talk submissions, the scan of a model response for error codes, the
 * report file name, and the two appendices (attendees and lightning talks).
 *
 * CSV files are modelled by their already-parsed rows (one map from column
 * header to cell per row); a file that does not exist is `None`.
 */
module LegacyReport {
  import opened Wrappers
  import opened Text

  type Row = map<string, string>

  /** `row.get(column, default)`. */
  function Cell(row: Row, column: string, default: string): string {
    if column in row then row[column] else default
  }

  // ---------------------------------------------------------------------------
  // session_matches
  // ---------------------------------------------------------------------------

  /** `s.upper().strip()`. */
  function Normalized(s: string): string {
    Strip(Upper(s))
  }

  /** The distinct words of `s` once commas and colons are removed. */
  function MatchWords(s: string): set<string> {
    var w := Words(RemoveChar(RemoveChar(s, ','), ':'));
    set k | 0 <= k < |w| :: w[k]
  }

  function Min(a: int, b: int): int {
    if a <= b then a else b
  }

  /** Enough of the target's words occur in the session: two, or all of them when there are fewer. */
  predicate WordsOverlap(target: string, session: string) {
    |MatchWords(target) * MatchWords(session)| >= Min(2, |MatchWords(target)|)
  }

  /** `session_matches`: equality, containment either way, or word overlap, all after normalising. */
  predicate SessionMatches(targetGroup: string, sessionLabel: string) {
    if targetGroup == "" || sessionLabel == "" then false
    else
      var target := Normalized(targetGroup);
      var session := Normalized(sessionLabel);
      if target == session then true
      else if Contains(session, target) then true
      else if Contains(target, session) then true
      else WordsOverlap(target, session)
  }

  /**
   * The three tiers as one rule: an empty argument never matches; otherwise the
   * label matches when either normalised string contains the other, or when
   * the words overlap enough. (Equality is the containment of a string in itself.)
   */
  lemma SessionMatchesRule(targetGroup: string, sessionLabel: string)
    ensures SessionMatches(targetGroup, sessionLabel)
            <==> targetGroup != "" && sessionLabel != ""
                 && (Contains(Normalized(sessionLabel), Normalized(targetGroup))
                     || Contains(Normalized(targetGroup), Normalized(sessionLabel))
                     || WordsOverlap(Normalized(targetGroup), Normalized(sessionLabel)))
  {
    ContainsSelf(Normalized(sessionLabel));
  }

  /** Containment is symmetric in the rule: a group contained in a label matches it, and the label matches the group. */
  lemma ContainmentMatchesBothWays(a: string, b: string)
    requires a != "" && b != ""
    requires Contains(Normalized(b), Normalized(a))
    ensures SessionMatches(a, b) && SessionMatches(b, a)
  {
  }

  lemma UpperOfSpaces(s: string)
    requires AllSpace(s)
    ensures Upper(s) == s
  {
  }

  /** A target of white space only normalises to "" and therefore matches every non-empty label. */
  lemma BlankTargetMatches(targetGroup: string, sessionLabel: string)
    requires targetGroup != "" && AllSpace(targetGroup) && sessionLabel != ""
    ensures SessionMatches(targetGroup, sessionLabel)
  {
    UpperOfSpaces(targetGroup);
    StripEmptyIff(targetGroup);
    ContainsEmpty(Normalized(sessionLabel));
  }

  lemma NormalizedOfLower(s: string)
    ensures Normalized(Lower(s)) == Normalized(s)
  {
    UpperOfLower(s);
  }

  lemma NormalizedOfUpper(s: string)
    ensures Normalized(Upper(s)) == Normalized(s)
  {
    UpperIdempotent(s);
  }

  /** Matching ignores the case of the group. */
  lemma SessionMatchesIgnoresGroupCase(targetGroup: string, sessionLabel: string)
    ensures SessionMatches(Lower(targetGroup), sessionLabel) == SessionMatches(targetGroup, sessionLabel)
    ensures SessionMatches(Upper(targetGroup), sessionLabel) == SessionMatches(targetGroup, sessionLabel)
  {
    NormalizedOfLower(targetGroup);
    NormalizedOfUpper(targetGroup);
    assert Lower(targetGroup) == "" <==> targetGroup == "";
    assert Upper(targetGroup) == "" <==> targetGroup == "";
  }

  /** Matching ignores the case of the label. */
  lemma SessionMatchesIgnoresLabelCase(targetGroup: string, sessionLabel: string)
    ensures SessionMatches(targetGroup, Lower(sessionLabel)) == SessionMatches(targetGroup, sessionLabel)
    ensures SessionMatches(targetGroup, Upper(sessionLabel)) == SessionMatches(targetGroup, sessionLabel)
  {
    NormalizedOfLower(sessionLabel);
    NormalizedOfUpper(sessionLabel);
    assert Lower(sessionLabel) == "" <==> sessionLabel == "";
    assert Upper(sessionLabel) == "" <==> sessionLabel == "";
  }

  lemma {:induction false} LStripOfSpaces(pad: string, s: string)
    requires AllSpace(pad)
    ensures LStrip(pad + s) == LStrip(s)
    decreases |pad|
  {
    if pad != [] {
      var t := pad + s;
      assert IsSpace(t[0]) by { assert t[0] == pad[0]; }
      assert LStrip(t) == LStrip(t[1..]);
      assert t[1..] == pad[1..] + s;
      assert AllSpace(pad[1..]) by {
        forall i | 0 <= i < |pad| - 1 ensures IsSpace(pad[1..][i]) {
          assert pad[1..][i] == pad[i + 1];
        }
      }
      LStripOfSpaces(pad[1..], s);
    } else {
      assert pad + s == s;
    }
  }

  /** Leading white space of a label does not change the outcome (trailing white space neither, when the label has some other character). */
  lemma SessionMatchesIgnoresLeadingSpace(targetGroup: string, pad: string, sessionLabel: string)
    requires AllSpace(pad) && sessionLabel != ""
    ensures SessionMatches(targetGroup, pad + sessionLabel) == SessionMatches(targetGroup, sessionLabel)
  {
    UpperConcat(pad, sessionLabel);
    UpperOfSpaces(pad);
    LStripOfSpaces(pad, Upper(sessionLabel));
  }

  lemma SingletonMeets<T>(t: set<T>, u: set<T>)
    requires |t| == 1
    ensures |t * u| >= 1 <==> t <= u
  {
    var w :| w in t;
    assert t == {w} by {
      assert t == (t - {w}) + {w};
      assert |t - {w}| == 0;
    }
    if w in u {
      assert w in t * u;
    } else {
      assert t * u == {};
    }
  }

  /** A one-word target needs its word among the label's words. */
  lemma OneWordTarget(target: string, session: string)
    requires |MatchWords(target)| == 1
    ensures WordsOverlap(target, session) <==> MatchWords(target) <= MatchWords(session)
  {
    var t := MatchWords(target);
    var u := MatchWords(session);
    SingletonMeets(t, u);
    assert WordsOverlap(target, session) <==> |t * u| >= 1;
  }

  /** A target of two words or more needs two words in common with the label. */
  lemma ManyWordTarget(target: string, session: string)
    requires |MatchWords(target)| >= 2
    ensures WordsOverlap(target, session) <==> |MatchWords(target) * MatchWords(session)| >= 2
  {
  }

  /**
   * A non-empty target without any word (only commas, colons and blanks around
   * them) matches every non-empty label: no shared word is needed.
   */
  lemma WordlessTargetMatches(targetGroup: string, sessionLabel: string)
    requires targetGroup != "" && sessionLabel != ""
    requires MatchWords(Normalized(targetGroup)) == {}
    ensures SessionMatches(targetGroup, sessionLabel)
  {
  }

  // ---------------------------------------------------------------------------
  // filter_talks_by_exact_acronym
  // ---------------------------------------------------------------------------

  const SessionColumn := "Which session is best fit for your proposed lightning talk?  Some sessions have already filled up but please submit and if full you will be put on a standby list."
  const TitleColumn := "Title of your proposed lightning talk"
  const AuthorColumn := "Your full name"
  const InstitutionColumn := "Your institution"
  const AbstractColumn := "Abstract of your proposed lightning talk (80-100 words)"

  datatype LightningTalk = LightningTalk(title: string, author: string, institution: string, abstractText: string, sessionLabel: string)

  /** The label names the group as a parenthesised acronym, as given or upper-cased. */
  predicate ListsGroup(sessionLabel: string, group: string) {
    Contains(sessionLabel, "(" + group + ")") || Contains(sessionLabel, "(" + Upper(group) + ")")
  }

  function TalkOfRow(row: Row): LightningTalk {
    LightningTalk(
      Cell(row, TitleColumn, "No title"),
      Cell(row, AuthorColumn, "No author"),
      Cell(row, InstitutionColumn, "No institution"),
      Cell(row, AbstractColumn, "No abstract"),
      Cell(row, SessionColumn, ""))
  }

  function RowTalk(row: Row, group: string): (r: Option<LightningTalk>)
    ensures r.Some? <==> ListsGroup(Cell(row, SessionColumn, ""), group)
    ensures r.Some? ==> r.value.sessionLabel == Cell(row, SessionColumn, "")
  {
    if ListsGroup(Cell(row, SessionColumn, ""), group) then Some(TalkOfRow(row)) else None
  }

  function RowTalks(rows: seq<Row>, group: string): (r: seq<Option<LightningTalk>>)
    ensures |r| == |rows| && forall i :: 0 <= i < |rows| ==> r[i] == RowTalk(rows[i], group)
  {
    seq(|rows|, i requires 0 <= i < |rows| => RowTalk(rows[i], group))
  }

  /** The talks of the rows whose session label lists the group, in row order. */
  function FilteredTalks(rows: seq<Row>, group: string): seq<LightningTalk> {
    Somes(RowTalks(rows, group))
  }

  /** `filter_talks_by_exact_acronym`: no submissions file gives no talks. */
  method FilterTalksByExactAcronym(file: Option<seq<Row>>, group: string) returns (talks: seq<LightningTalk>)
    ensures talks == (if file.None? then [] else FilteredTalks(file.value, group))
  {
    if file.None? {
      return [];
    }
    var rows := file.value;
    talks := [];
    var i := 0;
    while i < |rows|
      invariant 0 <= i <= |rows|
      invariant talks == FilteredTalks(rows[..i], group)
    {
      FilteredTalksStep(rows, i, group);
      var sessionLabel := Cell(rows[i], SessionColumn, "");
      if Contains(sessionLabel, "(" + group + ")") || Contains(sessionLabel, "(" + Upper(group) + ")") {
        talks := talks + [TalkOfRow(rows[i])];
      }
      i := i + 1;
    }
    assert rows[..i] == rows;
  }

  /** One more row adds its talk exactly when its session label lists the group. */
  lemma FilteredTalksStep(rows: seq<Row>, i: nat, group: string)
    requires i < |rows|
    ensures FilteredTalks(rows[..i + 1], group)
            == FilteredTalks(rows[..i], group)
               + (if ListsGroup(Cell(rows[i], SessionColumn, ""), group) then [TalkOfRow(rows[i])] else [])
  {
    var xs := RowTalks(rows[..i + 1], group);
    assert xs[..i] == RowTalks(rows[..i], group);
    assert xs[i] == RowTalk(rows[i], group);
  }

  /** The filtered talks are exactly the talks of the rows whose label lists the group. */
  lemma FilteredTalksMembers(rows: seq<Row>, group: string)
    ensures forall t :: t in FilteredTalks(rows, group)
                        <==> exists i :: 0 <= i < |rows| && ListsGroup(Cell(rows[i], SessionColumn, ""), group) && t == TalkOfRow(rows[i])
    ensures forall t :: t in FilteredTalks(rows, group) ==> ListsGroup(t.sessionLabel, group)
  {
    var xs := RowTalks(rows, group);
    SomesMembers(xs);
    forall t | t in FilteredTalks(rows, group) ensures ListsGroup(t.sessionLabel, group) {
      var i :| 0 <= i < |xs| && xs[i] == Some(t);
    }
  }

  /** Any label that lists the upper-cased group also lists the group itself. */
  lemma ListsUpperGroup(sessionLabel: string, group: string)
    requires ListsGroup(sessionLabel, Upper(group))
    ensures ListsGroup(sessionLabel, group)
  {
    UpperIdempotent(group);
  }

  // ---------------------------------------------------------------------------
  // check_for_errors
  // ---------------------------------------------------------------------------

  const ErrorMarker := "ERROR: "

  /** The error codes a response may start with, in the order they are looked for. */
  const ErrorCodes: seq<string> := [
    ErrorMarker + "lightning talks URL not accessible",
    ErrorMarker + "program information not found",
    ErrorMarker + "notes URL not found",
    ErrorMarker + "participants URL not found",
    ErrorMarker + "local files not found",
    ErrorMarker + "missing input"
  ]

  /** The first line of the stripped response, stripped again. */
  function ResponseFirstLine(content: string): string {
    Strip(FirstLine(Strip(content)))
  }

  /** The first of `codes` that occurs in `line`. */
  function FirstCodeIn(line: string, codes: seq<string>): (r: Option<string>)
    ensures r.Some? ==> r.value in codes && Contains(line, r.value)
    ensures r.None? <==> forall k :: 0 <= k < |codes| ==> !Contains(line, codes[k])
    ensures r.Some? ==> exists k :: 0 <= k < |codes| && codes[k] == r.value
                                    && forall j :: 0 <= j < k ==> !Contains(line, codes[j])
  {
    if codes == [] then None
    else if Contains(line, codes[0]) then Some(codes[0])
    else
      var r := FirstCodeIn(line, codes[1..]);
      assert forall k :: 1 <= k < |codes| ==> codes[k] == codes[1..][k - 1];
      if r.Some? then
        var k :| 0 <= k < |codes[1..]| && codes[1..][k] == r.value
                 && forall j :: 0 <= j < k ==> !Contains(line, codes[1..][j]);
        assert codes[k + 1] == r.value;
        r
      else r
  }

  /** `check_for_errors`: `Some(code)` for `(True, code)` and `None` for `(False, None)`. */
  function CheckForErrors(content: string): Option<string> {
    FirstCodeIn(ResponseFirstLine(content), ErrorCodes)
  }

  lemma StripElements(s: string)
    ensures forall c :: c in Strip(s) ==> c in s
  {
    var l := LStrip(s);
    assert l == s[|s| - |l|..];
    assert RStrip(l) == l[..|RStrip(l)|];
  }

  /**
   * Only the first line is looked at: a response whose first line holds a non-space
   * character is judged by that line alone, whatever follows the line break.
   */
  lemma CheckForErrorsFirstLineOnly(line: string, rest: string)
    requires '\n' !in line && !AllSpace(line)
    ensures CheckForErrors(line + "\n" + rest) == CheckForErrors(line)
  {
    FirstLineOfResponse(line, rest);
  }

  /** The first line of such a response, stripped, is the stripped line. */
  lemma FirstLineOfResponse(line: string, rest: string)
    requires '\n' !in line && !AllSpace(line)
    ensures ResponseFirstLine(line + "\n" + rest) == Strip(line)
    ensures ResponseFirstLine(line) == Strip(line)
  {
    StripElements(line);
    FirstLineOfNoNewline(Strip(line));
    StripIdempotent(line);
    var s := Strip(line + "\n" + rest);
    if AllSpace(rest) {
      StripOfLineAndSpace(line, rest);
      assert s == Strip(line);
    } else {
      StripOfLineAndMore(line, rest);
      FirstLineOfConcat(LStrip(line), RStrip(rest));
      assert FirstLine(s) == LStrip(line);
      LStripOfSpaceFree(LStrip(line));
      assert Strip(LStrip(line)) == Strip(line);
    }
  }

  /** Stripping a line followed by nothing but white space strips the line alone. */
  lemma StripOfLineAndSpace(line: string, rest: string)
    requires !AllSpace(line) && AllSpace(rest)
    ensures Strip(line + "\n" + rest) == Strip(line)
  {
    var t := "\n" + rest;
    assert AllSpace(t) by {
      assert forall i :: 0 < i < |t| ==> t[i] == rest[i - 1];
    }
    assert line + "\n" + rest == line + t;
    LStripConcat(line, t);
    RStripSpaceSuffix(LStrip(line), t);
  }

  /** Stripping a line followed by more text strips the two ends apart. */
  lemma StripOfLineAndMore(line: string, rest: string)
    requires !AllSpace(line) && !AllSpace(rest)
    ensures Strip(line + "\n" + rest) == LStrip(line) + "\n" + RStrip(rest)
  {
    var t := "\n" + rest;
    var x := line + t;
    assert line + "\n" + rest == x;
    LStripConcat(line, t);
    var y := LStrip(line) + "\n";
    assert LStrip(x) == y + rest;
    RStripConcat(y, rest);
    assert Strip(x) == RStrip(LStrip(x));
  }

  lemma MarkerPrefix(rest: string)
    ensures StartsWith(ErrorMarker + rest, ErrorMarker)
  {
    assert (ErrorMarker + rest)[..|ErrorMarker|] == ErrorMarker;
  }

  /** Every listed code starts with "ERROR: ". */
  lemma CodesStartWithMarker()
    ensures forall k :: 0 <= k < |ErrorCodes| ==> StartsWith(ErrorCodes[k], ErrorMarker)
  {
    MarkerPrefix("lightning talks URL not accessible");
    MarkerPrefix("program information not found");
    MarkerPrefix("notes URL not found");
    MarkerPrefix("participants URL not found");
    MarkerPrefix("local files not found");
    MarkerPrefix("missing input");
  }

  /** A code can only be reported when "ERROR: " occurs in the first line. */
  lemma NoErrorWithoutMarker(content: string)
    requires !Contains(ResponseFirstLine(content), ErrorMarker)
    ensures CheckForErrors(content) == None
  {
    var line := ResponseFirstLine(content);
    CodesStartWithMarker();
    forall k | 0 <= k < |ErrorCodes| ensures !Contains(line, ErrorCodes[k]) {
      if Contains(line, ErrorCodes[k]) {
        ContainsPrefixOf(line, ErrorCodes[k], ErrorMarker);
      }
    }
  }

  lemma ContainsPrefixOf(s: string, p: string, q: string)
    requires Contains(s, p) && StartsWith(p, q)
    ensures Contains(s, q)
  {
    var i := IndexOf(s, p).value;
    assert s[i..i + |q|] == p[..|q|];
    assert ContainsAt(s, q, i);
  }

  lemma ShorterContainsNot(s: string, p: string)
    requires |p| > |s|
    ensures !Contains(s, p)
  {
  }

  /** The last listed code, alone on the first line, is reported (the longer codes cannot occur in it). */
  lemma MissingInputReported()
    ensures CheckForErrors(ErrorCodes[5]) == Some(ErrorCodes[5])
  {
    var c := ErrorCodes[5];
    assert c[0] == 'E' && c[|c| - 1] == 't';
    StripOfTrimmed(c);
    assert '\n' !in c by {
      assert forall i :: 0 <= i < |c| ==> c[i] != '\n';
    }
    FirstLineOfNoNewline(c);
    assert ResponseFirstLine(c) == c;
    ContainsSelf(c);
    forall k | 0 <= k < 5 ensures !Contains(c, ErrorCodes[k]) {
      ShorterContainsNot(c, ErrorCodes[k]);
    }
  }

  // ---------------------------------------------------------------------------
  // generate_report_filename
  // ---------------------------------------------------------------------------

  /** The length of the run of upper-case letters of `s` starting at `i`. */
  function UpperRun(s: string, i: nat): (n: nat)
    requires i <= |s|
    ensures i + n <= |s|
    ensures forall j :: i <= j < i + n ==> IsUpper(s[j])
    ensures i + n == |s| || !IsUpper(s[i + n])
    decreases |s| - i
  {
    if i < |s| && IsUpper(s[i]) then 1 + UpperRun(s, i + 1) else 0
  }

  /** `\(([A-Z]+)\)` matches at `i`. */
  predicate AcronymAt(s: string, i: nat) {
    i < |s| && s[i] == '(' && UpperRun(s, i + 1) > 0
    && i + 1 + UpperRun(s, i + 1) < |s| && s[i + 1 + UpperRun(s, i + 1)] == ')'
  }

  /** The leftmost match at or after `i`. */
  function AcronymFrom(s: string, i: nat): (r: Option<nat>)
    ensures r.Some? ==> i <= r.value && AcronymAt(s, r.value)
    ensures r.Some? ==> forall j :: i <= j < r.value ==> !AcronymAt(s, j)
    ensures r.None? ==> forall j :: i <= j ==> !AcronymAt(s, j)
    decreases |s| - i
  {
    if i >= |s| then None
    else if AcronymAt(s, i) then Some(i)
    else AcronymFrom(s, i + 1)
  }

  /** Group 1 of `re.search(r"\(([A-Z]+)\)", title)`. */
  function ParenAcronym(title: string): (r: Option<string>)
    ensures r.Some? ==> r.value != [] && forall k :: 0 <= k < |r.value| ==> IsUpper(r.value[k])
  {
    match AcronymFrom(title, 0)
    case None => None
    case Some(i) => Some(title[i + 1..i + 1 + UpperRun(title, i + 1)])
  }

  /** A given acronym used as it is: non-empty, at most six characters and `isupper()`. */
  predicate AcronymLike(acronym: string) {
    acronym != "" && |acronym| <= 6 && IsUpperString(acronym)
  }

  /** `re.sub(r"^" + p + r"\s*", "", s)` for a literal prefix `p`. */
  function DropLeading(s: string, p: string): (r: string)
    ensures |r| <= |s| && r == s[|s| - |r|..]
    ensures !StartsWith(s, p) ==> r == s
  {
    if StartsWith(s, p) then s[|p| + SpaceRun(s, |p|)..] else s
  }

  function CleanTitle(title: string): string {
    DropLeading(DropLeading(title, "Session:"), "BOF:")
  }

  /** The length of the run of word characters at the front of `s`. */
  function WordCharRun(s: string): (n: nat)
    ensures n <= |s|
    ensures forall i :: 0 <= i < n ==> IsWordChar(s[i])
    ensures n < |s| ==> !IsWordChar(s[n])
  {
    if s == [] || !IsWordChar(s[0]) then 0 else 1 + WordCharRun(s[1..])
  }

  predicate IsWordRun(w: string) {
    w != [] && forall i :: 0 <= i < |w| ==> IsWordChar(w[i])
  }

  /** `re.findall(r"\b\w+\b", s)`: the maximal runs of word characters, in order. */
  function WordRuns(s: string): (r: seq<string>)
    ensures forall k :: 0 <= k < |r| ==> IsWordRun(r[k])
    decreases |s|
  {
    if s == [] then []
    else if !IsWordChar(s[0]) then WordRuns(s[1..])
    else
      var n := WordCharRun(s);
      assert IsWordRun(s[..n]);
      [s[..n]] + WordRuns(s[n..])
  }

  /** `"".join(word.capitalize() for word in words)`. */
  function CamelCase(words: seq<string>): string {
    if words == [] then "" else Capitalize(words[0]) + CamelCase(words[1..])
  }

  /** The name in the report file name. */
  function ReportName(title: string, acronym: string): string {
    match ParenAcronym(title)
    case Some(a) => a
    case None =>
      if AcronymLike(acronym) then acronym
      else CamelCase(WordRuns(CleanTitle(title)))
  }

  const FilenamePrefix := "draft-report-"

  /** `generate_report_filename`; a session without a title is titled "Session: " and the acronym. */
  function ReportFilename(title: Option<string>, acronym: string): string {
    FilenamePrefix + ReportName(title.GetOr("Session: " + acronym), acronym) + ".md"
  }

  /** A parenthesised upper-case acronym in the title names the report, whatever the given acronym. */
  lemma FilenameOfTitleAcronym(before: string, a: string, after: string, acronym: string)
    requires '(' !in before
    requires a != [] && forall k :: 0 <= k < |a| ==> IsUpper(a[k])
    ensures ReportFilename(Some(before + "(" + a + ")" + after), acronym) == FilenamePrefix + a + ".md"
  {
    var t := before + "(" + a + ")" + after;
    ParenAcronymInTitle(before, a, after);
    assert ReportName(t, acronym) == a;
  }

  /** The acronym search finds the first parenthesised upper-case run. */
  lemma ParenAcronymInTitle(before: string, a: string, after: string)
    requires '(' !in before
    requires a != [] && forall k :: 0 <= k < |a| ==> IsUpper(a[k])
    ensures ParenAcronym(before + "(" + a + ")" + after) == Some(a)
  {
    var t := before + "(" + a + ")" + after;
    var i := |before|;
    TitleLayout(before, a, after);
    forall j | 0 <= j < i ensures !AcronymAt(t, j) {
      assert t[j] == before[j];
    }
    UpperRunIs(t, i + 1, |a|);
    assert AcronymAt(t, i);
    AcronymFromFirst(t, 0, i);
    assert t[i + 1..i + 1 + |a|] == a;
  }

  lemma TitleLayout(before: string, a: string, after: string)
    ensures var t := before + "(" + a + ")" + after;
            var i := |before|;
            |t| == i + |a| + 2 + |after|
            && t[i] == '('
            && (forall j :: 0 <= j < i ==> t[j] == before[j])
            && (forall j :: 0 <= j < |a| ==> t[i + 1 + j] == a[j])
            && t[i + 1 + |a|] == ')'
  {
  }

  lemma {:induction false} UpperRunIs(s: string, i: nat, n: nat)
    requires i + n < |s|
    requires forall j :: i <= j < i + n ==> IsUpper(s[j])
    requires !IsUpper(s[i + n])
    ensures UpperRun(s, i) == n
    decreases n
  {
    if n > 0 {
      UpperRunIs(s, i + 1, n - 1);
    }
  }

  lemma {:induction false} AcronymFromFirst(s: string, i: nat, m: nat)
    requires i <= m && AcronymAt(s, m)
    requires forall j :: i <= j < m ==> !AcronymAt(s, j)
    ensures AcronymFrom(s, i) == Some(m)
    decreases m - i
  {
    if i < m {
      AcronymFromFirst(s, i + 1, m);
    }
  }

  /** Without one in the title, a short upper-case acronym names the report. */
  lemma FilenameOfGivenAcronym(title: string, acronym: string)
    requires ParenAcronym(title).None? && AcronymLike(acronym)
    ensures ReportFilename(Some(title), acronym) == FilenamePrefix + acronym + ".md"
  {
  }

  /** Otherwise the name is built from word characters only. */
  lemma {:induction false} CamelCaseWordChars(words: seq<string>)
    requires forall k :: 0 <= k < |words| ==> IsWordRun(words[k])
    ensures forall i :: 0 <= i < |CamelCase(words)| ==> IsWordChar(CamelCase(words)[i])
  {
    if words != [] {
      CamelCaseWordChars(words[1..]);
      var w := words[0];
      var c := Capitalize(w);
      forall i | 0 <= i < |c| ensures IsWordChar(c[i]) {
        if i > 0 {
          assert c[i] == Lower(w[1..])[i - 1] == ToLower(w[i]);
        }
      }
    }
  }

  lemma FallbackNameIsWordChars(title: string, acronym: string)
    requires ParenAcronym(title).None? && !AcronymLike(acronym)
    ensures forall i :: 0 <= i < |ReportName(title, acronym)| ==> IsWordChar(ReportName(title, acronym)[i])
  {
    CamelCaseWordChars(WordRuns(CleanTitle(title)));
  }

  /** A leading "Session:" and the blanks after it are dropped before the words are taken. */
  lemma CleanTitleDropsSessionPrefix(pad: string, rest: string)
    requires AllSpace(pad)
    requires rest == [] || !IsSpace(rest[0])
    requires !StartsWith(rest, "BOF:")
    ensures CleanTitle("Session:" + pad + rest) == rest
  {
    var p := "Session:";
    var s := p + pad + rest;
    assert s[..|p|] == p;
    SpaceRunIs(s, |p|, |pad|);
    assert s[|p| + |pad|..] == rest;
  }

  lemma {:induction false} SpaceRunIs(s: string, i: nat, n: nat)
    requires i + n <= |s|
    requires forall j :: i <= j < i + n ==> IsSpace(s[j])
    requires i + n == |s| || !IsSpace(s[i + n])
    ensures SpaceRun(s, i) == n
    decreases n
  {
    if n > 0 {
      SpaceRunIs(s, i + 1, n - 1);
    }
  }

  // ---------------------------------------------------------------------------
  // generate_lightning_talks_appendix
  // ---------------------------------------------------------------------------

  /** The concatenation of `parts`. */
  function Concat(parts: seq<string>): string {
    if parts == [] then "" else Concat(parts[..|parts| - 1]) + parts[|parts| - 1]
  }

  lemma ConcatSnoc(parts: seq<string>, p: string)
    ensures Concat(parts + [p]) == Concat(parts) + p
  {
    assert (parts + [p])[..|parts|] == parts;
  }

  /** Every part occurs in the concatenation. */
  lemma {:induction false} ConcatContains(parts: seq<string>, k: nat)
    requires k < |parts|
    ensures Contains(Concat(parts), parts[k])
    decreases |parts|
  {
    var init := parts[..|parts| - 1];
    if k == |parts| - 1 {
      ContainsSelf(parts[k]);
      ContainsInRight(Concat(init), parts[k], parts[k]);
    } else {
      ConcatContains(init, k);
      ContainsInLeft(Concat(init), parts[|parts| - 1], parts[k]);
    }
  }

  const LightningHeading := "## Appendix B: Lightning Talks\n\n"
  const NoLightningTalks := LightningHeading + "No lightning talks found for this session.\n\n"
  const BlockEnd := "---\n\n"

  predicate EndsWith(s: string, p: string) {
    |p| <= |s| && s[|s| - |p|..] == p
  }

  function TitleLine(n: nat, t: LightningTalk): (r: string)
    ensures StartsWith(r, "### " + NatToString(n) + ". ")
  {
    var number := "### " + NatToString(n) + ". ";
    assert (number + t.title + "\n\n")[..|number|] == number;
    number + t.title + "\n\n"
  }

  function AuthorLine(t: LightningTalk): string {
    "**Author:** " + t.author + "\n\n"
  }

  function InstitutionLine(t: LightningTalk): string {
    "**Institution:** " + t.institution + "\n\n"
  }

  function AbstractLine(t: LightningTalk): string {
    "**Abstract:** " + t.abstractText + "\n\n"
  }

  /** The block of the `n`-th talk: its numbered title, author, institution and abstract, then the separator. */
  function TalkBlock(n: nat, t: LightningTalk): string {
    TitleLine(n, t) + AuthorLine(t) + InstitutionLine(t) + AbstractLine(t) + BlockEnd
  }

  /** A block starts with the talk's number and title line and ends with the separator. */
  lemma TalkBlockShape(n: nat, t: LightningTalk)
    ensures StartsWith(TalkBlock(n, t), TitleLine(n, t))
    ensures EndsWith(TalkBlock(n, t), BlockEnd)
  {
    var body := TitleLine(n, t) + AuthorLine(t) + InstitutionLine(t) + AbstractLine(t);
    assert TalkBlock(n, t) == body + BlockEnd;
    assert (body + BlockEnd)[..|TitleLine(n, t)|] == TitleLine(n, t);
    assert (body + BlockEnd)[|body|..] == BlockEnd;
  }

  /** The blocks of the talks, numbered from 1 in order. */
  function TalkBlocks(talks: seq<LightningTalk>): (r: seq<string>)
    ensures |r| == |talks| && forall k :: 0 <= k < |talks| ==> r[k] == TalkBlock(k + 1, talks[k])
  {
    seq(|talks|, k requires 0 <= k < |talks| => TalkBlock(k + 1, talks[k]))
  }

  function LightningAppendix(talks: seq<LightningTalk>): string {
    if talks == [] then NoLightningTalks else LightningHeading + Concat(TalkBlocks(talks))
  }

  /** `generate_lightning_talks_appendix`. */
  method GenerateLightningTalksAppendix(talks: seq<LightningTalk>) returns (appendix: string)
    ensures appendix == LightningAppendix(talks)
  {
    if talks == [] {
      return NoLightningTalks;
    }
    appendix := LightningHeading;
    ghost var blocks := TalkBlocks(talks);
    var i := 0;
    while i < |talks|
      invariant 0 <= i <= |talks|
      invariant appendix == LightningHeading + Concat(blocks[..i])
    {
      appendix := AppendTalk(appendix, i + 1, talks[i]);
      AppendixSnoc(blocks, i);
      i := i + 1;
    }
    assert blocks[..i] == blocks;
  }

  /** The writes of one talk add exactly that talk's numbered block. */
  method AppendTalk(appendix: string, n: nat, t: LightningTalk) returns (r: string)
    ensures r == appendix + TalkBlock(n, t)
  {
    r := appendix + TitleLine(n, t);
    r := r + AuthorLine(t);
    r := r + InstitutionLine(t);
    r := r + AbstractLine(t);
    r := r + BlockEnd;
    AppendFive(appendix, TitleLine(n, t), AuthorLine(t), InstitutionLine(t), AbstractLine(t), BlockEnd);
  }

  lemma AppendixSnoc(blocks: seq<string>, i: nat)
    requires i < |blocks|
    ensures LightningHeading + Concat(blocks[..i + 1]) == LightningHeading + Concat(blocks[..i]) + blocks[i]
  {
    assert blocks[..i + 1] == blocks[..i] + [blocks[i]];
    ConcatSnoc(blocks[..i], blocks[i]);
    AppendAssoc(LightningHeading, Concat(blocks[..i]), blocks[i]);
  }

  lemma AppendFive(b: string, x1: string, x2: string, x3: string, x4: string, x5: string)
    ensures b + x1 + x2 + x3 + x4 + x5 == b + (x1 + x2 + x3 + x4 + x5)
  {
    AppendAssoc(b, x1, x2);
    AppendAssoc(b, x1 + x2, x3);
    AppendAssoc(b, x1 + x2 + x3, x4);
    AppendAssoc(b, x1 + x2 + x3 + x4, x5);
  }

  /** Each talk's numbered block occurs in the appendix. */
  lemma LightningAppendixHasEveryTalk(talks: seq<LightningTalk>, k: nat)
    requires k < |talks|
    ensures Contains(LightningAppendix(talks), TalkBlock(k + 1, talks[k]))
  {
    ConcatContains(TalkBlocks(talks), k);
    ContainsInRight(LightningHeading, Concat(TalkBlocks(talks)), TalkBlock(k + 1, talks[k]));
  }

  /** A further talk adds one block, numbered after the others, at the end. */
  lemma LightningAppendixSnoc(talks: seq<LightningTalk>, t: LightningTalk)
    requires talks != []
    ensures LightningAppendix(talks + [t]) == LightningAppendix(talks) + TalkBlock(|talks| + 1, t)
  {
    var blocks := TalkBlocks(talks + [t]);
    assert blocks[..|talks|] == TalkBlocks(talks);
    assert blocks == blocks[..|talks|] + [TalkBlock(|talks| + 1, t)];
    ConcatSnoc(blocks[..|talks|], TalkBlock(|talks| + 1, t));
    AppendAssoc(LightningHeading, Concat(TalkBlocks(talks)), TalkBlock(|talks| + 1, t));
  }

  /** A non-empty appendix ends with the block separator. */
  lemma LightningAppendixEnd(talks: seq<LightningTalk>)
    requires talks != []
    ensures EndsWith(LightningAppendix(talks), BlockEnd)
  {
    var blocks := TalkBlocks(talks);
    var n := |blocks| - 1;
    TalkBlockShape(|talks|, talks[n]);
    AppendixSnoc(blocks, n);
    assert blocks[..n + 1] == blocks;
    EndsWithAppend(LightningHeading + Concat(blocks[..n]), blocks[n], BlockEnd);
  }

  lemma EndsWithAppend(front: string, last: string, suffix: string)
    requires EndsWith(last, suffix)
    ensures EndsWith(front + last, suffix)
  {
    var a := front + last;
    assert a[|a| - |suffix|..] == last[|last| - |suffix|..];
  }

  // ---------------------------------------------------------------------------
  // generate_attendees_appendix
  // ---------------------------------------------------------------------------

  datatype Attendee = Attendee(name: string, organization: string)

  /** The attendee of a row with a non-blank first and last name. */
  function RowAttendee(row: Row): (r: Option<Attendee>)
    ensures r.Some? <==> Strip(Cell(row, "First", "")) != "" && Strip(Cell(row, "Last", "")) != ""
    ensures r.Some? ==> r.value.name == Strip(Cell(row, "First", "")) + " " + Strip(Cell(row, "Last", ""))
                        && r.value.organization == Strip(Cell(row, "Organization", ""))
  {
    var first := Strip(Cell(row, "First", ""));
    var last := Strip(Cell(row, "Last", ""));
    if first != "" && last != "" then Some(Attendee(first + " " + last, Strip(Cell(row, "Organization", ""))))
    else None
  }

  function RowAttendees(rows: seq<Row>): (r: seq<Option<Attendee>>)
    ensures |r| == |rows| && forall i :: 0 <= i < |rows| ==> r[i] == RowAttendee(rows[i])
  {
    seq(|rows|, i requires 0 <= i < |rows| => RowAttendee(rows[i]))
  }

  function AttendeesOfRows(rows: seq<Row>): seq<Attendee> {
    Somes(RowAttendees(rows))
  }

  /** The kept attendees are exactly those of the rows with both names. */
  lemma AttendeesOfRowsMembers(rows: seq<Row>)
    ensures forall a :: a in AttendeesOfRows(rows) <==> exists i :: 0 <= i < |rows| && RowAttendee(rows[i]) == Some(a)
  {
    SomesMembers(RowAttendees(rows));
  }

  /** The sort key: the last word of the name (`""` for an empty name). */
  function SortKey(a: Attendee): string {
    if a.name == "" then ""
    else
      var w := Words(a.name);
      if w == [] then "" else w[|w| - 1]
  }

  // `list.sort(key=...)`, generic in the element type and the key function.

  /** `a` sorts no later than `b`. */
  predicate KeyLe<T>(key: T -> string, a: T, b: T) {
    !Less(key(b), key(a))
  }

  predicate SortedBy<T>(xs: seq<T>, key: T -> string) {
    forall i, j :: 0 <= i < j < |xs| ==> KeyLe(key, xs[i], xs[j])
  }

  /** `x` inserted after every element whose key is not greater than its own. */
  function InsertBy<T>(ys: seq<T>, x: T, key: T -> string): (r: seq<T>)
    ensures multiset(r) == multiset(ys) + multiset{x}
  {
    if ys == [] then [x]
    else if Less(key(x), key(ys[0])) then [x] + ys
    else
      assert ys == [ys[0]] + ys[1..];
      [ys[0]] + InsertBy(ys[1..], x, key)
  }

  /** A stable sort by the key, as insertion sort. */
  function SortBy<T>(xs: seq<T>, key: T -> string): (r: seq<T>)
    ensures multiset(r) == multiset(xs)
  {
    if xs == [] then []
    else
      assert xs == xs[..|xs| - 1] + [xs[|xs| - 1]];
      InsertBy(SortBy(xs[..|xs| - 1], key), xs[|xs| - 1], key)
  }

  lemma SortedTail<T>(ys: seq<T>, key: T -> string)
    requires ys != [] && SortedBy(ys, key)
    ensures SortedBy(ys[1..], key)
  {
    var tail := ys[1..];
    forall i, j | 0 <= i < j < |tail| ensures KeyLe(key, tail[i], tail[j]) {
      assert tail[i] == ys[i + 1] && tail[j] == ys[j + 1];
    }
  }

  lemma SortedCons<T>(y: T, rest: seq<T>, key: T -> string)
    requires SortedBy(rest, key)
    requires forall k :: 0 <= k < |rest| ==> KeyLe(key, y, rest[k])
    ensures SortedBy([y] + rest, key)
  {
    var r := [y] + rest;
    forall i, j | 0 <= i < j < |r| ensures KeyLe(key, r[i], r[j]) {
      assert r[j] == rest[j - 1];
      if i > 0 {
        assert r[i] == rest[i - 1];
      }
    }
  }

  lemma {:induction false} InsertKeepsOrder<T>(ys: seq<T>, x: T, key: T -> string)
    requires SortedBy(ys, key)
    ensures SortedBy(InsertBy(ys, x, key), key)
    decreases |ys|
  {
    if ys == [] {
    } else if Less(key(x), key(ys[0])) {
      forall j | 0 <= j < |ys| ensures KeyLe(key, x, ys[j]) {
        if Less(key(ys[j]), key(x)) {
          LessTransitive(key(ys[j]), key(x), key(ys[0]));
          if j == 0 {
            LessIrreflexive(key(ys[0]));
          }
        }
      }
      SortedCons(x, ys, key);
    } else {
      var tail := ys[1..];
      SortedTail(ys, key);
      InsertKeepsOrder(tail, x, key);
      var rest := InsertBy(tail, x, key);
      forall k | 0 <= k < |rest| ensures KeyLe(key, ys[0], rest[k]) {
        assert rest[k] in multiset(rest);
        if rest[k] != x {
          assert rest[k] in multiset(tail);
          var j :| 0 <= j < |tail| && tail[j] == rest[k];
          assert ys[j + 1] == rest[k];
        }
      }
      SortedCons(ys[0], rest, key);
    }
  }

  /** The sorted sequence is in key order. */
  lemma {:induction false} SortBySorted<T>(xs: seq<T>, key: T -> string)
    ensures SortedBy(SortBy(xs, key), key)
    decreases |xs|
  {
    if xs != [] {
      SortBySorted(xs[..|xs| - 1], key);
      InsertKeepsOrder(SortBy(xs[..|xs| - 1], key), xs[|xs| - 1], key);
    }
  }

  /** The elements with key `k`, in order. */
  function WithKey<T>(xs: seq<T>, key: T -> string, k: string): seq<T> {
    if xs == [] then [] else (if key(xs[0]) == k then [xs[0]] else []) + WithKey(xs[1..], key, k)
  }

  lemma {:induction false} WithKeyConcat<T>(a: seq<T>, b: seq<T>, key: T -> string, k: string)
    ensures WithKey(a + b, key, k) == WithKey(a, key, k) + WithKey(b, key, k)
    decreases |a|
  {
    if a == [] {
      assert a + b == b;
    } else {
      var x := a[0];
      var t := a[1..];
      WithKeyConcat(t, b, key, k);
      assert a == [x] + t;
      assert a + b == [x] + (t + b);
      WithKeyCons(x, t + b, key, k);
      WithKeyCons(x, t, key, k);
      AppendAssoc(if key(x) == k then [x] else [], WithKey(t, key, k), WithKey(b, key, k));
    }
  }

  lemma {:induction false} WithKeyNone<T>(xs: seq<T>, key: T -> string, k: string)
    requires forall i :: 0 <= i < |xs| ==> key(xs[i]) != k
    ensures WithKey(xs, key, k) == []
    decreases |xs|
  {
    if xs != [] {
      WithKeyNone(xs[1..], key, k);
    }
  }

  lemma WithKeyCons<T>(y: T, rest: seq<T>, key: T -> string, k: string)
    ensures WithKey([y] + rest, key, k) == (if key(y) == k then [y] else []) + WithKey(rest, key, k)
  {
    assert ([y] + rest)[0] == y && ([y] + rest)[1..] == rest;
  }

  /** Inserting before a larger first key: no element of `ys` shares the key of `x`. */
  lemma InsertFrontWithKey<T>(ys: seq<T>, x: T, key: T -> string, k: string)
    requires SortedBy(ys, key) && ys != [] && Less(key(x), key(ys[0]))
    ensures WithKey([x] + ys, key, k) == WithKey(ys, key, k) + (if key(x) == k then [x] else [])
  {
    WithKeyCons(x, ys, key, k);
    if key(x) == k {
      forall i | 0 <= i < |ys| ensures key(ys[i]) != k {
        if key(ys[i]) == k && i == 0 {
          LessIrreflexive(key(x));
        }
      }
      WithKeyNone(ys, key, k);
    }
  }

  lemma {:induction false} InsertWithKey<T>(ys: seq<T>, x: T, key: T -> string, k: string)
    requires SortedBy(ys, key)
    ensures WithKey(InsertBy(ys, x, key), key, k) == WithKey(ys, key, k) + (if key(x) == k then [x] else [])
    decreases |ys|
  {
    if ys == [] {
    } else if Less(key(x), key(ys[0])) {
      InsertFrontWithKey(ys, x, key, k);
    } else {
      var tail := ys[1..];
      SortedTail(ys, key);
      InsertWithKey(tail, x, key, k);
      WithKeyCons(ys[0], InsertBy(tail, x, key), key, k);
      WithKeyCons(ys[0], tail, key, k);
      assert ys == [ys[0]] + tail;
    }
  }

  /** The sort is stable: the elements sharing a key keep their relative order. */
  lemma {:induction false} SortByStable<T>(xs: seq<T>, key: T -> string, k: string)
    ensures WithKey(SortBy(xs, key), key, k) == WithKey(xs, key, k)
    decreases |xs|
  {
    if xs != [] {
      var init := xs[..|xs| - 1];
      var last := xs[|xs| - 1];
      var sorted := SortBy(init, key);
      var own := if key(last) == k then [last] else [];
      calc {
        WithKey(SortBy(xs, key), key, k);
        WithKey(InsertBy(sorted, last, key), key, k);
        { SortBySorted(init, key); InsertWithKey(sorted, last, key, k); }
        WithKey(sorted, key, k) + own;
        { SortByStable(init, key, k); }
        WithKey(init, key, k) + own;
        { WithKeyCons(last, [], key, k); assert [last] + [] == [last]; }
        WithKey(init, key, k) + WithKey([last], key, k);
        { WithKeyConcat(init, [last], key, k); }
        WithKey(init + [last], key, k);
        { assert xs == init + [last]; }
        WithKey(xs, key, k);
      }
    }
  }

  const AttendeesHeading := "## Appendix A: Attendees\n\n"
  const AttendeesUnavailable := AttendeesHeading + "Attendees list not available.\n\n"
  const AttendeesTableHead := "| Name | Organization |\n|------|--------------|\n"

  /** `value or "N/A"`. */
  function OrNotAvailable(s: string): (r: string)
    ensures r != ""
    ensures s != "" ==> r == s
  {
    if s == "" then "N/A" else s
  }

  function AttendeeLine(a: Attendee): string {
    "| " + OrNotAvailable(a.name) + " | " + OrNotAvailable(a.organization) + " |\n"
  }

  function AttendeeLines(xs: seq<Attendee>): (r: seq<string>)
    ensures |r| == |xs| && forall k :: 0 <= k < |xs| ==> r[k] == AttendeeLine(xs[k])
  {
    seq(|xs|, k requires 0 <= k < |xs| => AttendeeLine(xs[k]))
  }

  /** The attendees appendix of an attendees file (`None` when it does not exist). */
  function AttendeesAppendix(file: Option<seq<Row>>): string {
    if file.None? then AttendeesUnavailable
    else
      var attendees := AttendeesOfRows(file.value);
      if attendees == [] then AttendeesUnavailable
      else AttendeesHeading + AttendeesTableHead + Concat(AttendeeLines(SortBy(attendees, SortKey))) + "\n"
  }

  /** The row loop of `generate_attendees_appendix`. */
  method CollectAttendees(rows: seq<Row>) returns (attendees: seq<Attendee>)
    ensures attendees == AttendeesOfRows(rows)
  {
    attendees := [];
    var i := 0;
    while i < |rows|
      invariant 0 <= i <= |rows|
      invariant attendees == AttendeesOfRows(rows[..i])
    {
      AttendeesOfRowsStep(rows, i);
      var first := Strip(Cell(rows[i], "First", ""));
      var last := Strip(Cell(rows[i], "Last", ""));
      var org := Strip(Cell(rows[i], "Organization", ""));
      if first != "" && last != "" {
        attendees := attendees + [Attendee(first + " " + last, org)];
      }
      i := i + 1;
    }
    assert rows[..i] == rows;
  }

  /** One more row adds its attendee exactly when it has both names. */
  lemma AttendeesOfRowsStep(rows: seq<Row>, i: nat)
    requires i < |rows|
    ensures var r := RowAttendee(rows[i]);
            AttendeesOfRows(rows[..i + 1]) == AttendeesOfRows(rows[..i]) + (if r.Some? then [r.value] else [])
  {
    var xs := RowAttendees(rows[..i + 1]);
    assert xs[..i] == RowAttendees(rows[..i]);
    assert xs[i] == RowAttendee(rows[i]);
  }

  /** The table loop of `generate_attendees_appendix`: one line per attendee, in order. */
  method RenderAttendees(attendees: seq<Attendee>) returns (table: string)
    ensures table == Concat(AttendeeLines(attendees))
  {
    table := "";
    var j := 0;
    while j < |attendees|
      invariant 0 <= j <= |attendees|
      invariant table == Concat(AttendeeLines(attendees)[..j])
    {
      var name := OrNotAvailable(attendees[j].name);
      var org := OrNotAvailable(attendees[j].organization);
      var line := "| " + name + " | " + org + " |\n";
      assert line == AttendeeLine(attendees[j]);
      TableStep(attendees, j);
      table := table + line;
      j := j + 1;
    }
    assert AttendeeLines(attendees)[..j] == AttendeeLines(attendees);
  }

  /** One more attendee appends its line to the table. */
  lemma TableStep(attendees: seq<Attendee>, j: nat)
    requires j < |attendees|
    ensures Concat(AttendeeLines(attendees)[..j + 1]) == Concat(AttendeeLines(attendees)[..j]) + AttendeeLine(attendees[j])
  {
    var lines := AttendeeLines(attendees);
    assert lines[..j + 1] == lines[..j] + [lines[j]];
    ConcatSnoc(lines[..j], lines[j]);
  }

  /** `generate_attendees_appendix`. */
  method GenerateAttendeesAppendix(file: Option<seq<Row>>) returns (appendix: string)
    ensures appendix == AttendeesAppendix(file)
  {
    if file.None? {
      return AttendeesUnavailable;
    }
    var attendees := CollectAttendees(file.value);
    if attendees == [] {
      return AttendeesUnavailable;
    }
    var sorted := SortBy(attendees, SortKey);
    var table := RenderAttendees(sorted);
    appendix := AttendeesHeading + AttendeesTableHead + table + "\n";
  }

  /** Each kept attendee's line is in the table. */
  lemma TableHasAttendee(attendees: seq<Attendee>, a: Attendee)
    requires a in attendees
    ensures Contains(Concat(AttendeeLines(SortBy(attendees, SortKey))), AttendeeLine(a))
  {
    var sorted := SortBy(attendees, SortKey);
    assert a in multiset(sorted);
    var k :| 0 <= k < |sorted| && sorted[k] == a;
    ConcatContains(AttendeeLines(sorted), k);
  }

  /** Every kept attendee has its table line in the appendix. */
  lemma AttendeesAppendixHasEveryAttendee(rows: seq<Row>, a: Attendee)
    requires a in AttendeesOfRows(rows)
    ensures Contains(AttendeesAppendix(Some(rows)), AttendeeLine(a))
  {
    var attendees := AttendeesOfRows(rows);
    var table := Concat(AttendeeLines(SortBy(attendees, SortKey)));
    TableHasAttendee(attendees, a);
    var head := AttendeesHeading + AttendeesTableHead;
    ContainsInRight(head, table, AttendeeLine(a));
    ContainsInLeft(head + table, "\n", AttendeeLine(a));
    assert AttendeesAppendix(Some(rows)) == head + table + "\n";
  }

  /** The table lists the attendees in key order, each key's attendees in row order. */
  lemma AttendeesAppendixOrder(rows: seq<Row>)
    ensures SortedBy(SortBy(AttendeesOfRows(rows), SortKey), SortKey)
    ensures forall k :: WithKey(SortBy(AttendeesOfRows(rows), SortKey), SortKey, k) == WithKey(AttendeesOfRows(rows), SortKey, k)
  {
    SortBySorted(AttendeesOfRows(rows), SortKey);
    forall k ensures WithKey(SortBy(AttendeesOfRows(rows), SortKey), SortKey, k) == WithKey(AttendeesOfRows(rows), SortKey, k) {
      SortByStable(AttendeesOfRows(rows), SortKey, k);
    }
  }
}
