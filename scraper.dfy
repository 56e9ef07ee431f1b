/**
 * The conference-site scraper without the page fetching and the DOM: the
 * speaker-description splitter, the session-type classifier, the loops that turn
 * the extracted speaker boxes and headings into records, and the CSV writers.
 * The elements the scraper finds on a page (a box's title, description and image
 * source, a heading's text and the date line next to it) are inputs.
 */
module Scraper {
  import opened Wrappers
  import opened Text

  datatype Speaker = Speaker(name: string, title: string, institution: string, bio: string, imageUrl: string)

  datatype Session = Session(
    title: string,
    sessionType: string,
    datetime: string,
    description: string,
    speakers: seq<string>,
    track: string)

  // ---------------------------------------------------------------------------
  // _parse_speaker_description
  // ---------------------------------------------------------------------------

  /** The delimiters between a speaker's title and institution, highest priority first. */
  const Delimiters: seq<string> := [" | ", ", ", " - "]

  /** `description.split(delim, 1)` with both parts stripped. */
  function StrippedParts(description: string, delim: string): (string, string)
    requires Contains(description, delim)
  {
    var parts := SplitOnce(description, delim);
    (Strip(parts.0), Strip(parts.1))
  }

  /** The split is at the first occurrence of the delimiter, and the unstripped parts rebuild the description. */
  lemma StrippedPartsSplit(description: string, delim: string)
    requires delim != [] && Contains(description, delim)
    ensures exists left, right :: description == left + delim + right && !Contains(left, delim)
                                  && StrippedParts(description, delim) == (Strip(left), Strip(right))
  {
    var parts := SplitOnce(description, delim);
    assert description == parts.0 + delim + parts.1;
    assert description[..|parts.0|] == parts.0;
    NotInPrefix(description, parts.0, delim);
    assert StrippedParts(description, delim) == (Strip(parts.0), Strip(parts.1));
  }

  /** A prefix that ends before the first occurrence of `p` does not contain `p`. */
  lemma NotInPrefix(s: string, left: string, p: string)
    requires p != [] && |left| <= |s| && s[..|left|] == left
    requires forall j :: 0 <= j < |left| ==> !ContainsAt(s, p, j)
    ensures !Contains(left, p)
  {
    if Contains(left, p) {
      var j := IndexOf(left, p).value;
      assert left[j..j + |p|] == s[j..j + |p|];
      assert ContainsAt(s, p, j);
    }
  }

  /** The delimiters from the `k`-th on, tried in order. */
  function SplitDescription(description: string, k: nat): (r: (string, string))
    requires k <= |Delimiters|
    ensures (forall j :: k <= j < |Delimiters| ==> !Contains(description, Delimiters[j])) ==> r == (description, "")
    decreases |Delimiters| - k
  {
    if k == |Delimiters| then (description, "")
    else if Contains(description, Delimiters[k]) then StrippedParts(description, Delimiters[k])
    else SplitDescription(description, k + 1)
  }

  /**
   * `_parse_speaker_description`: `("", "")` for an empty description; else the split at
   * the first occurrence of the highest-priority delimiter present; else the whole
   * description as the title.
   */
  function ParseSpeakerDescription(description: string): (r: (string, string))
    ensures description == "" ==> r == ("", "")
    ensures description != "" && Contains(description, " | ") ==> r == StrippedParts(description, " | ")
    ensures description != "" && !Contains(description, " | ") && Contains(description, ", ")
            ==> r == StrippedParts(description, ", ")
    ensures description != "" && !Contains(description, " | ") && !Contains(description, ", ")
              && Contains(description, " - ")
            ==> r == StrippedParts(description, " - ")
    ensures !Contains(description, " | ") && !Contains(description, ", ") && !Contains(description, " - ")
            ==> r == (description, "")
  {
    if description == "" then ("", "") else SplitDescription(description, 0)
  }

  // ---------------------------------------------------------------------------
  // _detect_session_type
  // ---------------------------------------------------------------------------

  const SessionTypes: seq<string> := ["plenary", "breakout", "tutorial", "hackathon", "panel", "break", "session"]

  /** `_detect_session_type`: keyword tests on the lower-cased title and section, in priority order. */
  function DetectSessionType(title: string, section: string): (r: string)
    ensures r in SessionTypes
  {
    TypeOfLowered(Lower(title), Lower(section))
  }

  /** The tests of `_detect_session_type` on the lower-cased title `t` and section `s`. */
  function TypeOfLowered(t: string, s: string): (r: string)
    ensures r in SessionTypes
  {
    if Contains(t, "plenary") || Contains(s, "plenary") then "plenary"
    else if Contains(t, "bof") || Contains(s, "breakout") then "breakout"
    else if Contains(t, "tutorial") || Contains(s, "tutorial") then "tutorial"
    else if Contains(t, "hackathon") || Contains(s, "hackathon") then "hackathon"
    else if Contains(t, "panel") then "panel"
    else if Contains(t, "lunch") then "break"
    else "session"
  }

  /** The section words the classifier looks for. */
  predicate HasSectionKeyword(section: string) {
    var s := Lower(section);
    Contains(s, "plenary") || Contains(s, "breakout") || Contains(s, "tutorial") || Contains(s, "hackathon")
  }

  /** A section without any of the four keywords has no influence on the type. */
  lemma SectionWithoutKeyword(title: string, section: string)
    requires !HasSectionKeyword(section)
    ensures DetectSessionType(title, section) == DetectSessionType(title, "")
  {
    assert Lower("") == "";
    EmptySectionHasNoKeyword();
    SameTypeWithoutKeyword(Lower(title), Lower(section), "");
  }

  lemma EmptySectionHasNoKeyword()
    ensures !HasSectionKeyword("")
  {
    assert Lower("") == "";
    assert !Contains("", "plenary") && !Contains("", "breakout");
    assert !Contains("", "tutorial") && !Contains("", "hackathon");
  }

  /** Two sections without keywords classify every title alike. */
  lemma SameTypeWithoutKeyword(t: string, s1: string, s2: string)
    requires !(Contains(s1, "plenary") || Contains(s1, "breakout") || Contains(s1, "tutorial") || Contains(s1, "hackathon"))
    requires !(Contains(s2, "plenary") || Contains(s2, "breakout") || Contains(s2, "tutorial") || Contains(s2, "hackathon"))
    ensures TypeOfLowered(t, s1) == TypeOfLowered(t, s2)
  {
  }

  /** The classifier ignores the letter case of both arguments. */
  lemma DetectSessionTypeIgnoresCase(title: string, section: string)
    ensures DetectSessionType(Upper(title), Upper(section)) == DetectSessionType(title, section)
  {
    LowerOfUpper(title);
    LowerOfUpper(section);
  }

  /** The types the section can decide are only the first four. */
  lemma SectionDecidesOnlyFirstFour(title: string, section: string)
    requires DetectSessionType(title, section) != DetectSessionType(title, "")
    ensures DetectSessionType(title, section) in ["plenary", "breakout", "tutorial", "hackathon"]
  {
    assert Lower("") == "";
    assert !Contains("", "plenary") && !Contains("", "breakout");
    assert !Contains("", "tutorial") && !Contains("", "hackathon");
  }

  // ---------------------------------------------------------------------------
  // parse_speakers_page, over the image boxes found on the page
  // ---------------------------------------------------------------------------

  /**
   * An image box: the stripped text of its title element (`None` when it has none),
   * the stripped text of its description element (`""` when absent) and its image source.
   */
  datatype SpeakerBox = SpeakerBox(title: Option<string>, description: string, imageUrl: string)

  function BoxSpeaker(name: string, box: SpeakerBox): Speaker {
    var (title, institution) := ParseSpeakerDescription(box.description);
    Speaker(name, title, institution, box.description, box.imageUrl)
  }

  /** A box that names a speaker. */
  predicate Named(box: SpeakerBox) {
    box.title.Some? && box.title.value != ""
  }

  /** The names of the boxes picked so far. */
  function PickedNames(picked: seq<(string, SpeakerBox)>): set<string> {
    set i | 0 <= i < |picked| :: picked[i].0
  }

  lemma PickedNamesSnoc(picked: seq<(string, SpeakerBox)>, p: (string, SpeakerBox))
    ensures PickedNames(picked + [p]) == PickedNames(picked) + {p.0}
  {
    var t := picked + [p];
    forall x | x in PickedNames(t) ensures x in PickedNames(picked) + {p.0} {
      var i :| 0 <= i < |t| && t[i].0 == x;
      if i < |picked| {
        assert picked[i].0 == x;
      }
    }
    forall x | x in PickedNames(picked) + {p.0} ensures x in PickedNames(t) {
      if x in PickedNames(picked) {
        var i :| 0 <= i < |picked| && picked[i].0 == x;
        assert t[i].0 == x;
      } else {
        assert t[|picked|].0 == x;
      }
    }
  }

  /**
   * The boxes that give a speaker, each with its name: a box without a name, or
   * with a name picked before, is skipped.
   */
  function FirstBoxes(boxes: seq<SpeakerBox>): seq<(string, SpeakerBox)> {
    if boxes == [] then []
    else
      var init := FirstBoxes(boxes[..|boxes| - 1]);
      var box := boxes[|boxes| - 1];
      if !Named(box) || box.title.value in PickedNames(init) then init
      else init + [(box.title.value, box)]
  }

  function SpeakersOfPicked(picked: seq<(string, SpeakerBox)>): seq<Speaker> {
    seq(|picked|, i requires 0 <= i < |picked| => BoxSpeaker(picked[i].0, picked[i].1))
  }

  /** The speakers of the boxes, in the order of their first boxes. */
  function SpeakersOf(boxes: seq<SpeakerBox>): seq<Speaker> {
    SpeakersOfPicked(FirstBoxes(boxes))
  }

  /** `parse_speakers_page` after the boxes have been found. */
  method ParseSpeakers(boxes: seq<SpeakerBox>) returns (speakers: seq<Speaker>)
    ensures speakers == SpeakersOf(boxes)
  {
    speakers := [];
    var seenNames: set<string> := {};
    ghost var picked: seq<(string, SpeakerBox)> := [];
    var i := 0;
    while i < |boxes|
      invariant 0 <= i <= |boxes|
      invariant picked == FirstBoxes(boxes[..i])
      invariant speakers == SpeakersOfPicked(picked)
      invariant seenNames == PickedNames(picked)
    {
      var box := boxes[i];
      FirstBoxesAt(boxes, i);
      if box.title.Some? && box.title.value != "" && box.title.value !in seenNames {
        var name := box.title.value;
        seenNames := seenNames + {name};
        var (title, institution) := ParseSpeakerDescription(box.description);
        PickedNamesSnoc(picked, (name, box));
        SpeakersOfPickedSnoc(picked, (name, box));
        picked := picked + [(name, box)];
        speakers := speakers + [Speaker(name, title, institution, box.description, box.imageUrl)];
      }
      i := i + 1;
    }
    assert boxes[..i] == boxes;
  }

  /** `FirstBoxesSnoc` at position `i` of `boxes`. */
  lemma FirstBoxesAt(boxes: seq<SpeakerBox>, i: nat)
    requires i < |boxes|
    ensures var init := FirstBoxes(boxes[..i]);
            var box := boxes[i];
            FirstBoxes(boxes[..i + 1]) == if !Named(box) || box.title.value in PickedNames(init) then init
                                          else init + [(box.title.value, box)]
  {
    var pre := boxes[..i + 1];
    assert pre[..|pre| - 1] == boxes[..i];
    assert pre[|pre| - 1] == boxes[i];
    FirstBoxesSnoc(pre);
  }

  lemma SpeakersOfPickedSnoc(picked: seq<(string, SpeakerBox)>, p: (string, SpeakerBox))
    ensures SpeakersOfPicked(picked + [p]) == SpeakersOfPicked(picked) + [BoxSpeaker(p.0, p.1)]
  {
  }

  /** Box `k` is the first one with name `n`. */
  predicate FirstBoxFor(boxes: seq<SpeakerBox>, k: int, n: string) {
    0 <= k < |boxes| && boxes[k].title == Some(n) && forall j :: 0 <= j < k ==> boxes[j].title != Some(n)
  }

  lemma FirstBoxesSnoc(boxes: seq<SpeakerBox>)
    requires boxes != []
    ensures var init := FirstBoxes(boxes[..|boxes| - 1]);
            var box := boxes[|boxes| - 1];
            FirstBoxes(boxes) == if !Named(box) || box.title.value in PickedNames(init) then init
                                 else init + [(box.title.value, box)]
  {
  }

  /** No two picked boxes share a name, and every name picked is that box's non-empty title. */
  predicate WellPicked(picked: seq<(string, SpeakerBox)>) {
    (forall i, j :: 0 <= i < j < |picked| ==> picked[i].0 != picked[j].0)
    && (forall i :: 0 <= i < |picked| ==> picked[i].0 != "" && picked[i].1.title == Some(picked[i].0))
  }

  lemma {:induction false} FirstBoxesDistinct(boxes: seq<SpeakerBox>)
    ensures WellPicked(FirstBoxes(boxes))
    decreases |boxes|
  {
    if boxes != [] {
      var init := FirstBoxes(boxes[..|boxes| - 1]);
      FirstBoxesDistinct(boxes[..|boxes| - 1]);
      FirstBoxesSnoc(boxes);
      var box := boxes[|boxes| - 1];
      if Named(box) && box.title.value !in PickedNames(init) {
        var fb := init + [(box.title.value, box)];
        assert FirstBoxes(boxes) == fb;
        forall i | 0 <= i < |init| ensures init[i].0 != box.title.value {
          assert init[i].0 in PickedNames(init);
        }
        assert forall i :: 0 <= i < |init| ==> fb[i] == init[i];
        assert fb[|init|] == (box.title.value, box);
      }
    }
  }

  /** Every named box has its name picked. */
  lemma {:induction false} FirstBoxesComplete(boxes: seq<SpeakerBox>)
    ensures forall k :: 0 <= k < |boxes| && Named(boxes[k]) ==> boxes[k].title.value in PickedNames(FirstBoxes(boxes))
    decreases |boxes|
  {
    if boxes != [] {
      var pre := boxes[..|boxes| - 1];
      var init := FirstBoxes(pre);
      FirstBoxesComplete(pre);
      FirstBoxesSnoc(boxes);
      var box := boxes[|boxes| - 1];
      if Named(box) && box.title.value !in PickedNames(init) {
        PickedNamesSnoc(init, (box.title.value, box));
      }
      assert PickedNames(init) <= PickedNames(FirstBoxes(boxes));
      assert Named(box) ==> box.title.value in PickedNames(FirstBoxes(boxes));
      forall k | 0 <= k < |boxes| && Named(boxes[k])
        ensures boxes[k].title.value in PickedNames(FirstBoxes(boxes))
      {
        if k < |pre| {
          assert boxes[k] == pre[k];
        }
      }
    }
  }

  /** Every picked box is the first box carrying its name. */
  ghost predicate PickedFirst(boxes: seq<SpeakerBox>, picked: seq<(string, SpeakerBox)>) {
    forall i :: 0 <= i < |picked| ==> exists k :: FirstBoxFor(boxes, k, picked[i].0) && picked[i].1 == boxes[k]
  }

  lemma {:induction false} FirstBoxesFirst(boxes: seq<SpeakerBox>)
    ensures PickedFirst(boxes, FirstBoxes(boxes))
    decreases |boxes|
  {
    if boxes != [] {
      var pre := boxes[..|boxes| - 1];
      var init := FirstBoxes(pre);
      FirstBoxesFirst(pre);
      FirstBoxesSnoc(boxes);
      PickedFirstExtend(pre, boxes, init);
      var box := boxes[|boxes| - 1];
      if Named(box) && box.title.value !in PickedNames(init) {
        var n := box.title.value;
        FirstBoxesComplete(pre);
        forall j | 0 <= j < |pre| ensures boxes[j].title != Some(n) {
          assert boxes[j] == pre[j];
        }
        assert FirstBoxFor(boxes, |boxes| - 1, n);
        PickedFirstSnoc(boxes, init, (n, box), |boxes| - 1);
      }
    }
  }

  /** A box that comes first among `pre` is still first once more boxes follow. */
  lemma PickedFirstExtend(pre: seq<SpeakerBox>, boxes: seq<SpeakerBox>, picked: seq<(string, SpeakerBox)>)
    requires boxes != [] && pre == boxes[..|boxes| - 1]
    requires PickedFirst(pre, picked)
    ensures PickedFirst(boxes, picked)
  {
    forall i | 0 <= i < |picked| ensures exists k :: FirstBoxFor(boxes, k, picked[i].0) && picked[i].1 == boxes[k] {
      var k :| FirstBoxFor(pre, k, picked[i].0) && picked[i].1 == pre[k];
      assert forall j :: 0 <= j <= k ==> boxes[j] == pre[j];
      assert FirstBoxFor(boxes, k, picked[i].0) && picked[i].1 == boxes[k];
    }
    assert forall i :: 0 <= i < |picked| ==> exists k :: FirstBoxFor(boxes, k, picked[i].0) && picked[i].1 == boxes[k];
  }

  lemma PickedFirstSnoc(boxes: seq<SpeakerBox>, picked: seq<(string, SpeakerBox)>, p: (string, SpeakerBox), k: int)
    requires PickedFirst(boxes, picked)
    requires FirstBoxFor(boxes, k, p.0) && p.1 == boxes[k]
    ensures PickedFirst(boxes, picked + [p])
  {
    var fb := picked + [p];
    forall i | 0 <= i < |fb| ensures exists k :: FirstBoxFor(boxes, k, fb[i].0) && fb[i].1 == boxes[k] {
      if i < |picked| {
        assert fb[i] == picked[i];
      } else {
        assert fb[i] == p;
      }
    }
  }

  function Names(speakers: seq<Speaker>): set<string> {
    set i | 0 <= i < |speakers| :: speakers[i].name
  }

  lemma PickedSpeakerNames(picked: seq<(string, SpeakerBox)>)
    ensures var r := SpeakersOfPicked(picked);
            (forall i :: 0 <= i < |r| ==> r[i].name == picked[i].0)
            && Names(r) == PickedNames(picked)
  {
    var r := SpeakersOfPicked(picked);
    forall i | 0 <= i < |r| ensures r[i].name == picked[i].0 {
      assert r[i] == BoxSpeaker(picked[i].0, picked[i].1);
    }
    forall x | x in PickedNames(picked) ensures x in Names(r) {
      var i :| 0 <= i < |picked| && picked[i].0 == x;
      assert r[i].name == x;
    }
  }

  /**
   * The speakers have distinct, non-empty names, and every named box's name is
   * among them.
   */
  lemma SpeakersOfNames(boxes: seq<SpeakerBox>)
    ensures var r := SpeakersOf(boxes);
            (forall i, j :: 0 <= i < j < |r| ==> r[i].name != r[j].name)
            && (forall i :: 0 <= i < |r| ==> r[i].name != "")
            && (forall k :: 0 <= k < |boxes| && Named(boxes[k]) ==> boxes[k].title.value in Names(r))
  {
    var fb := FirstBoxes(boxes);
    var r := SpeakersOf(boxes);
    FirstBoxesDistinct(boxes);
    FirstBoxesComplete(boxes);
    PickedSpeakerNames(fb);
    assert |r| == |fb|;
    forall i, j | 0 <= i < j < |r| ensures r[i].name != r[j].name {
      assert r[i].name == fb[i].0 && r[j].name == fb[j].0;
    }
    forall i | 0 <= i < |r| ensures r[i].name != "" {
      assert r[i].name == fb[i].0;
    }
  }

  /** Each speaker is built from the first box carrying its name. */
  lemma SpeakersOfFirstBoxes(boxes: seq<SpeakerBox>)
    ensures var r := SpeakersOf(boxes);
            forall i :: 0 <= i < |r| ==> exists k :: FirstBoxFor(boxes, k, r[i].name) && r[i] == BoxSpeaker(r[i].name, boxes[k])
  {
    var fb := FirstBoxes(boxes);
    var r := SpeakersOf(boxes);
    FirstBoxesFirst(boxes);
    PickedSpeakerNames(fb);
    forall i | 0 <= i < |r| ensures exists k :: FirstBoxFor(boxes, k, r[i].name) && r[i] == BoxSpeaker(r[i].name, boxes[k]) {
      assert i < |fb|;
      assert exists k :: FirstBoxFor(boxes, k, fb[i].0) && fb[i].1 == boxes[k];
      var k :| FirstBoxFor(boxes, k, fb[i].0) && fb[i].1 == boxes[k];
      assert r[i] == BoxSpeaker(fb[i].0, fb[i].1);
      assert r[i].name == fb[i].0;
    }
  }

  // ---------------------------------------------------------------------------
  // parse_sessions_page, over the headings found on the page
  // ---------------------------------------------------------------------------

  /** The lower-cased titles that mark a section rather than a session. */
  const SectionTitles: seq<string> := [
    "sessions", "plenary sessions", "breakout groups", "workflows",
    "initiatives", "life sciences", "tutorials", "hackathons"]

  /** A heading: its stripped text and the date line found next to it (`""` when none). */
  datatype Heading = Heading(title: string, datetime: string)

  predicate IsSection(title: string) {
    Lower(title) in SectionTitles
  }

  /** The titles that produce a session. */
  predicate Emitted(title: string) {
    title != "" && !IsSection(title) && !Contains(Lower(title), "countdown")
  }

  function HeadingSession(h: Heading, section: string): Session {
    Session(h.title, DetectSessionType(h.title, section), h.datetime, "", [], section)
  }

  /** The sessions of the headings when the current section is `section`. */
  function SessionsFrom(hs: seq<Heading>, section: string): seq<Session>
    decreases |hs|
  {
    if hs == [] then []
    else
      var h := hs[0];
      (if Emitted(h.title) then [HeadingSession(h, section)] else [])
      + SessionsFrom(hs[1..], if IsSection(h.title) then h.title else section)
  }

  lemma SessionsFromStep(hs: seq<Heading>, section: string)
    requires hs != []
    ensures SessionsFrom(hs, section)
            == (if Emitted(hs[0].title) then [HeadingSession(hs[0], section)] else [])
               + SessionsFrom(hs[1..], if IsSection(hs[0].title) then hs[0].title else section)
  {
  }

  /** `SessionsFromStep` at position `i` of `hs`. */
  lemma SessionsFromAt(hs: seq<Heading>, i: nat, section: string)
    requires i < |hs|
    ensures SessionsFrom(hs[i..], section)
            == (if Emitted(hs[i].title) then [HeadingSession(hs[i], section)] else [])
               + SessionsFrom(hs[i + 1..], if IsSection(hs[i].title) then hs[i].title else section)
  {
    SessionsFromStep(hs[i..], section);
    assert hs[i..][0] == hs[i] && hs[i..][1..] == hs[i + 1..];
  }

  /** `parse_sessions_page` after the headings have been found. */
  method ParseSessions(headings: seq<Heading>) returns (sessions: seq<Session>)
    ensures sessions == SessionsFrom(headings, "")
  {
    sessions := [];
    var currentSection := "";
    var i := 0;
    while i < |headings|
      invariant 0 <= i <= |headings|
      invariant SessionsFrom(headings, "") == sessions + SessionsFrom(headings[i..], currentSection)
    {
      var h := headings[i];
      var title := h.title;
      ParseStep(headings, i, currentSection, sessions);
      if title != "" {
        var titleLower := Lower(title);
        if titleLower in SectionTitles {
          currentSection := title;
        } else if !Contains(titleLower, "countdown") {
          var sessionType := DetectSessionType(title, currentSection);
          var session := Session(title, sessionType, h.datetime, "", [], currentSection);
          sessions := sessions + [session];
        }
      }
      i := i + 1;
    }
  }

  /** One turn of the loop of `parse_sessions_page` keeps the sessions still to come in step. */
  lemma ParseStep(headings: seq<Heading>, i: nat, section: string, sessions: seq<Session>)
    requires i < |headings|
    requires SessionsFrom(headings, "") == sessions + SessionsFrom(headings[i..], section)
    ensures var h := headings[i];
            var t := h.title;
            var isSection := t != "" && Lower(t) in SectionTitles;
            var emitted := t != "" && !isSection && !Contains(Lower(t), "countdown");
            SessionsFrom(headings, "")
            == (if emitted then sessions + [Session(t, DetectSessionType(t, section), h.datetime, "", [], section)]
                else sessions)
               + SessionsFrom(headings[i + 1..], if isSection then t else section)
  {
    var h := headings[i];
    var t := h.title;
    SessionsFromAt(headings, i, section);
    ClassifyTitle(t);
    var later := SessionsFrom(headings[i + 1..], if IsSection(t) then t else section);
    if Emitted(t) {
      AppendAssoc(sessions, [HeadingSession(h, section)], later);
    }
  }

  /** How the loop of `parse_sessions_page` classifies a heading's title. */
  lemma ClassifyTitle(title: string)
    ensures title == "" ==> !IsSection(title) && !Emitted(title)
    ensures title != "" && Lower(title) in SectionTitles ==> IsSection(title) && !Emitted(title)
    ensures title != "" && Lower(title) !in SectionTitles ==>
              !IsSection(title) && (Emitted(title) <==> !Contains(Lower(title), "countdown"))
  {
    if title == "" {
      assert Lower(title) == "";
    }
  }

  /** The section in force at heading `k`: the title of the last section heading before it. */
  function SectionBefore(hs: seq<Heading>, k: nat, initial: string): string
    requires k <= |hs|
  {
    if k == 0 then initial
    else if IsSection(hs[k - 1].title) then hs[k - 1].title
    else SectionBefore(hs, k - 1, initial)
  }

  /** The section in force is the initial one or the title of a section heading. */
  lemma {:induction false} SectionBeforeIsSection(hs: seq<Heading>, k: nat, initial: string)
    requires k <= |hs|
    ensures SectionBefore(hs, k, initial) == initial || IsSection(SectionBefore(hs, k, initial))
  {
    if k > 0 && !IsSection(hs[k - 1].title) {
      SectionBeforeIsSection(hs, k - 1, initial);
    }
  }

  /** Heading by heading: the session each heading gives, if any. */
  function HeadingSessions(hs: seq<Heading>, initial: string): (r: seq<Option<Session>>)
    ensures |r| == |hs|
    ensures forall k :: 0 <= k < |hs| ==> r[k] == HeadingEntry(hs[k], SectionBefore(hs, k, initial))
  {
    seq(|hs|, k requires 0 <= k < |hs| => HeadingEntry(hs[k], SectionBefore(hs, k, initial)))
  }

  /** What one heading gives under the current section. */
  function HeadingEntry(h: Heading, section: string): Option<Session> {
    if Emitted(h.title) then Some(HeadingSession(h, section)) else None
  }

  lemma {:induction false} SectionBeforeShift(hs: seq<Heading>, k: nat, initial: string)
    requires hs != [] && k < |hs|
    ensures SectionBefore(hs, k + 1, initial)
            == SectionBefore(hs[1..], k, if IsSection(hs[0].title) then hs[0].title else initial)
  {
    if k > 0 {
      SectionBeforeShift(hs, k - 1, initial);
      assert hs[1..][k - 1] == hs[k];
    }
  }

  /**
   * The loop agrees with a heading-by-heading reading: the sessions are the emitted
   * headings in order, each with the last section title before it as its track.
   */
  lemma {:induction false} SessionsFromReference(hs: seq<Heading>, initial: string)
    ensures SessionsFrom(hs, initial) == Somes(HeadingSessions(hs, initial))
    decreases |hs|
  {
    if hs != [] {
      var next := if IsSection(hs[0].title) then hs[0].title else initial;
      SessionsFromReference(hs[1..], next);
      var all := HeadingSessions(hs, initial);
      var rest := HeadingSessions(hs[1..], next);
      HeadingSessionsCons(hs, initial, next);
      SomesConcat([all[0]], rest);
      SomesOfOne(all[0]);
    }
  }

  /** The first heading's entry, then the entries of the others with the section it leaves. */
  lemma HeadingSessionsCons(hs: seq<Heading>, initial: string, next: string)
    requires hs != []
    requires next == if IsSection(hs[0].title) then hs[0].title else initial
    ensures HeadingSessions(hs, initial) == [HeadingEntry(hs[0], initial)] + HeadingSessions(hs[1..], next)
  {
    var all := HeadingSessions(hs, initial);
    var rest := HeadingSessions(hs[1..], next);
    HeadingSessionsShift(hs, initial, next);
    ConsOfShift(all, rest);
  }

  lemma ConsOfShift<T>(all: seq<T>, rest: seq<T>)
    requires |all| == |rest| + 1
    requires forall k :: 0 <= k < |rest| ==> all[k + 1] == rest[k]
    ensures all == [all[0]] + rest
  {
  }

  lemma HeadingSessionsShift(hs: seq<Heading>, initial: string, next: string)
    requires hs != []
    requires next == if IsSection(hs[0].title) then hs[0].title else initial
    ensures forall k :: 0 <= k < |hs| - 1 ==> HeadingSessions(hs, initial)[k + 1] == HeadingSessions(hs[1..], next)[k]
  {
    forall k | 0 <= k < |hs| - 1 ensures HeadingSessions(hs, initial)[k + 1] == HeadingSessions(hs[1..], next)[k] {
      HeadingEntryShift(hs, initial, next, k);
    }
  }

  lemma HeadingEntryShift(hs: seq<Heading>, initial: string, next: string, k: nat)
    requires k < |hs| - 1
    requires next == if IsSection(hs[0].title) then hs[0].title else initial
    ensures HeadingSessions(hs, initial)[k + 1] == HeadingSessions(hs[1..], next)[k]
  {
    SectionBeforeShift(hs, k, initial);
    assert hs[1..][k] == hs[k + 1];
  }

  lemma SomesOfOne<T>(o: Option<T>)
    ensures Somes([o]) == if o.Some? then [o.value] else []
  {
    assert [o][..0] == [];
  }

  /** Every session has an emitted title, a known type, and a section heading (or nothing) as its track. */
  lemma SessionsProps(hs: seq<Heading>)
    ensures var r := SessionsFrom(hs, "");
            forall i :: 0 <= i < |r| ==>
              Emitted(r[i].title) && r[i].sessionType in SessionTypes
              && (r[i].track == "" || IsSection(r[i].track))
              && r[i].sessionType == DetectSessionType(r[i].title, r[i].track)
              && exists k :: 0 <= k < |hs| && hs[k].title == r[i].title && r[i].track == SectionBefore(hs, k, "")
  {
    var r := SessionsFrom(hs, "");
    var all := HeadingSessions(hs, "");
    SessionsFromReference(hs, "");
    SomesMembers(all);
    forall i | 0 <= i < |r|
      ensures Emitted(r[i].title) && r[i].sessionType in SessionTypes
              && (r[i].track == "" || IsSection(r[i].track))
              && r[i].sessionType == DetectSessionType(r[i].title, r[i].track)
              && exists k :: 0 <= k < |hs| && hs[k].title == r[i].title && r[i].track == SectionBefore(hs, k, "")
    {
      assert r[i] in Somes(all);
      var k :| 0 <= k < |all| && all[k] == Some(r[i]);
      assert r[i] == HeadingSession(hs[k], SectionBefore(hs, k, ""));
      SectionBeforeIsSection(hs, k, "");
    }
  }

  // ---------------------------------------------------------------------------
  // _csv_escape and the CSV writers
  // ---------------------------------------------------------------------------

  predicate NeedsQuoting(value: string) {
    ',' in value || '\n' in value || '"' in value
  }

  /** The value with each `"` doubled. */
  function DoubleQuotes(value: string): (r: string)
    ensures |r| >= |value|
  {
    if value == [] then []
    else (if value[0] == '"' then "\"\"" else [value[0]]) + DoubleQuotes(value[1..])
  }

  /** `_csv_escape`: empty stays empty; a value with a comma, newline or quote is quoted with quotes doubled. */
  function CsvEscape(value: string): (r: string)
    ensures value == "" ==> r == ""
    ensures !NeedsQuoting(value) ==> r == value
    ensures NeedsQuoting(value) ==> |r| >= 2 && r[0] == '"' && r[|r| - 1] == '"'
  {
    if value == "" then ""
    else if NeedsQuoting(value) then "\"" + DoubleQuotes(value) + "\""
    else value
  }

  /** A value with a lone carriage return is written as it is. */
  lemma CarriageReturnUnquoted(value: string)
    requires '\r' in value && !NeedsQuoting(value)
    ensures CsvEscape(value) == value
  {
  }

  function EscapedFields(fields: seq<string>): (r: seq<string>)
    ensures |r| == |fields|
  {
    seq(|fields|, i requires 0 <= i < |fields| => CsvEscape(fields[i]))
  }

  /** One CSV record: the escaped fields joined by commas. */
  function Record(fields: seq<string>): string {
    Join(EscapedFields(fields), ",")
  }

  function Records(rows: seq<seq<string>>): (r: seq<string>)
    ensures |r| == |rows|
  {
    seq(|rows|, i requires 0 <= i < |rows| => Record(rows[i]))
  }

  const SpeakerColumns: seq<string> := ["Name", "Title", "Institution", "Image URL"]
  const SessionColumns: seq<string> := ["Title", "Type", "DateTime", "Track", "Description"]

  function SpeakerFields(s: Speaker): seq<string> {
    [s.name, s.title, s.institution, s.imageUrl]
  }

  function SessionFields(s: Session): seq<string> {
    [s.title, s.sessionType, s.datetime, s.track, s.description]
  }

  function SpeakerRows(speakers: seq<Speaker>): (r: seq<seq<string>>)
    ensures |r| == |speakers|
  {
    seq(|speakers|, i requires 0 <= i < |speakers| => SpeakerFields(speakers[i]))
  }

  function SessionRows(sessions: seq<Session>): (r: seq<seq<string>>)
    ensures |r| == |sessions|
  {
    seq(|sessions|, i requires 0 <= i < |sessions| => SessionFields(sessions[i]))
  }

  /** The CSV text of a table: the header record, then one record per row, joined by `"\n"`. */
  function CsvText(columns: seq<string>, rows: seq<seq<string>>): string {
    Join(Records([columns] + rows), "\n")
  }

  /** A record of several fields is the first escaped field, a comma, and the record of the others. */
  lemma RecordCons(f: string, more: seq<string>)
    requires more != []
    ensures Record([f] + more) == CsvEscape(f) + "," + Record(more)
  {
    assert EscapedFields([f] + more) == [CsvEscape(f)] + EscapedFields(more);
    JoinCons(CsvEscape(f), EscapedFields(more), ",");
  }

  lemma RecordOne(f: string)
    ensures Record([f]) == CsvEscape(f)
  {
    assert EscapedFields([f]) == [CsvEscape(f)];
  }

  /** `speakers_to_csv`. */
  method SpeakersToCsv(speakers: seq<Speaker>) returns (csv: string)
    ensures csv == CsvText(SpeakerColumns, SpeakerRows(speakers))
  {
    var header := "Name,Title,Institution,Image URL";
    SpeakerHeader();
    var lines := [header];
    var i := 0;
    while i < |speakers|
      invariant 0 <= i <= |speakers|
      invariant lines == Records([SpeakerColumns] + SpeakerRows(speakers[..i]))
    {
      var s := speakers[i];
      var name := CsvEscape(s.name);
      var title := CsvEscape(s.title);
      var institution := CsvEscape(s.institution);
      var imageUrl := CsvEscape(s.imageUrl);
      assert EscapedFields(SpeakerFields(s)) == [name, title, institution, imageUrl];
      lines := lines + [Join([name, title, institution, imageUrl], ",")];
      assert SpeakerRows(speakers[..i + 1]) == SpeakerRows(speakers[..i]) + [SpeakerFields(s)];
      assert [SpeakerColumns] + SpeakerRows(speakers[..i + 1])
          == ([SpeakerColumns] + SpeakerRows(speakers[..i])) + [SpeakerFields(s)];
      i := i + 1;
    }
    assert speakers[..i] == speakers;
    csv := Join(lines, "\n");
  }

  /** `sessions_to_csv`. */
  method SessionsToCsv(sessions: seq<Session>) returns (csv: string)
    ensures csv == CsvText(SessionColumns, SessionRows(sessions))
  {
    var header := "Title,Type,DateTime,Track,Description";
    SessionHeader();
    var lines := [header];
    var i := 0;
    while i < |sessions|
      invariant 0 <= i <= |sessions|
      invariant lines == Records([SessionColumns] + SessionRows(sessions[..i]))
    {
      var s := sessions[i];
      var title := CsvEscape(s.title);
      var sessionType := CsvEscape(s.sessionType);
      var datetime := CsvEscape(s.datetime);
      var track := CsvEscape(s.track);
      var description := CsvEscape(s.description);
      assert EscapedFields(SessionFields(s)) == [title, sessionType, datetime, track, description];
      lines := lines + [Join([title, sessionType, datetime, track, description], ",")];
      assert SessionRows(sessions[..i + 1]) == SessionRows(sessions[..i]) + [SessionFields(s)];
      assert [SessionColumns] + SessionRows(sessions[..i + 1])
          == ([SessionColumns] + SessionRows(sessions[..i])) + [SessionFields(s)];
      i := i + 1;
    }
    assert sessions[..i] == sessions;
    csv := Join(lines, "\n");
  }

  /** Fields needing no quotes are written as they are. */
  lemma EscapedPlain(fields: seq<string>)
    requires forall i :: 0 <= i < |fields| ==> !NeedsQuoting(fields[i])
    ensures EscapedFields(fields) == fields
  {
  }

  lemma JoinFour(a: string, b: string, c: string, d: string, sep: string)
    ensures Join([a, b, c, d], sep) == a + sep + b + sep + c + sep + d
  {
    JoinCons(c, [d], sep);
    assert [c] + [d] == [c, d];
    JoinCons(b, [c, d], sep);
    assert [b] + [c, d] == [b, c, d];
    JoinCons(a, [b, c, d], sep);
    assert [a] + [b, c, d] == [a, b, c, d];
  }

  lemma JoinFive(a: string, b: string, c: string, d: string, e: string, sep: string)
    ensures Join([a, b, c, d, e], sep) == a + sep + b + sep + c + sep + d + sep + e
  {
    JoinFour(b, c, d, e, sep);
    JoinCons(a, [b, c, d, e], sep);
    assert [a] + [b, c, d, e] == [a, b, c, d, e];
  }

  lemma SpeakerColumnsPlain()
    ensures EscapedFields(SpeakerColumns) == SpeakerColumns
  {
    var c := SpeakerColumns;
    assert !NeedsQuoting(c[0]) by { assert c[0] == ['N', 'a', 'm', 'e']; }
    assert !NeedsQuoting(c[1]) by { assert c[1] == ['T', 'i', 't', 'l', 'e']; }
    assert !NeedsQuoting(c[2]) by { assert c[2] == ['I', 'n', 's', 't', 'i', 't', 'u', 't', 'i', 'o', 'n']; }
    assert !NeedsQuoting(c[3]) by { assert c[3] == ['I', 'm', 'a', 'g', 'e', ' ', 'U', 'R', 'L']; }
    EscapedPlain(c);
  }

  lemma SessionColumnsPlain()
    ensures EscapedFields(SessionColumns) == SessionColumns
  {
    var c := SessionColumns;
    assert !NeedsQuoting(c[0]) by { assert c[0] == ['T', 'i', 't', 'l', 'e']; }
    assert !NeedsQuoting(c[1]) by { assert c[1] == ['T', 'y', 'p', 'e']; }
    assert !NeedsQuoting(c[2]) by { assert c[2] == ['D', 'a', 't', 'e', 'T', 'i', 'm', 'e']; }
    assert !NeedsQuoting(c[3]) by { assert c[3] == ['T', 'r', 'a', 'c', 'k']; }
    assert !NeedsQuoting(c[4]) by { assert c[4] == ['D', 'e', 's', 'c', 'r', 'i', 'p', 't', 'i', 'o', 'n']; }
    EscapedPlain(c);
  }

  lemma RecordsOne(fields: seq<string>)
    ensures Records([fields]) == [Record(fields)]
  {
  }

  lemma SpeakerHeaderLine()
    ensures Join(SpeakerColumns, ",") == "Name,Title,Institution,Image URL"
  {
    JoinFour("Name", "Title", "Institution", "Image URL", ",");
    assert "Name" + "," + "Title" + "," + "Institution" + "," + "Image URL" == "Name,Title,Institution,Image URL";
  }

  lemma SessionHeaderLine()
    ensures Join(SessionColumns, ",") == "Title,Type,DateTime,Track,Description"
  {
    JoinFive("Title", "Type", "DateTime", "Track", "Description", ",");
    var t := "Title" + "," + "Type" + "," + "DateTime";
    assert t == "Title,Type,DateTime";
    assert t + "," + "Track" + "," + "Description" == "Title,Type,DateTime,Track,Description";
  }

  lemma SpeakerHeader()
    ensures Records([SpeakerColumns]) == ["Name,Title,Institution,Image URL"]
  {
    SpeakerColumnsPlain();
    SpeakerHeaderLine();
    RecordsOne(SpeakerColumns);
  }

  lemma SessionHeader()
    ensures Records([SessionColumns]) == ["Title,Type,DateTime,Track,Description"]
  {
    SessionColumnsPlain();
    SessionHeaderLine();
    RecordsOne(SessionColumns);
  }

  /** With no items, the CSV text is the header alone. */
  lemma EmptyCsv()
    ensures CsvText(SpeakerColumns, SpeakerRows([])) == "Name,Title,Institution,Image URL"
    ensures CsvText(SessionColumns, SessionRows([])) == "Title,Type,DateTime,Track,Description"
  {
    SpeakerHeader();
    SessionHeader();
    assert [SpeakerColumns] + SpeakerRows([]) == [SpeakerColumns];
    assert [SessionColumns] + SessionRows([]) == [SessionColumns];
  }

  // ---------------------------------------------------------------------------
  // Reading the CSV text back with a lenient reader: an unquoted field holds anything
  // but a comma, a line feed or a quote (so a bare carriage return too, which section 2
  // of RFC 4180 does not allow), and a line feed separates records
  // ---------------------------------------------------------------------------

  /** A character an unquoted field can hold. */
  predicate PlainChar(c: char) {
    c != ',' && c != '\n' && c != '"'
  }

  function PlainRun(s: string): (n: nat)
    ensures n <= |s|
    ensures forall i :: 0 <= i < n ==> PlainChar(s[i])
    ensures n == |s| || !PlainChar(s[n])
  {
    if s != [] && PlainChar(s[0]) then 1 + PlainRun(s[1..]) else 0
  }

  /** The inside of a quoted field (rule 7: `""` is a quote) up to its closing quote, and the rest. */
  function QuotedBody(s: string): (r: Option<(string, string)>)
    ensures r.Some? ==> |r.value.1| < |s|
  {
    if s == [] then None
    else if s[0] == '"' then
      if |s| > 1 && s[1] == '"' then
        match QuotedBody(s[2..])
        case None => None
        case Some(p) => Some(("\"" + p.0, p.1))
      else Some(("", s[1..]))
    else
      match QuotedBody(s[1..])
      case None => None
      case Some(p) => Some(([s[0]] + p.0, p.1))
  }

  /** What may follow a field: nothing, the next field or the next record. */
  predicate AtFieldEnd(rest: string) {
    rest == [] || rest[0] == ',' || rest[0] == '\n'
  }

  /** The field at the start of `s` (rules 5 to 7) and what follows it. */
  function FieldAt(s: string): (r: Option<(string, string)>)
    ensures r.Some? ==> |r.value.1| <= |s| && AtFieldEnd(r.value.1)
  {
    if s != [] && s[0] == '"' then
      match QuotedBody(s[1..])
      case None => None
      case Some(p) => if AtFieldEnd(p.1) then Some(p) else None
    else
      var n := PlainRun(s);
      if n < |s| && s[n] == '"' then None else Some((s[..n], s[n..]))
  }

  function Prepend(row: seq<string>, rest: Option<seq<seq<string>>>): Option<seq<seq<string>>> {
    match rest
    case None => None
    case Some(rows) => Some([row] + rows)
  }

  /** The records of `s`, the fields read so far of the current one being `current`. */
  function RowsFrom(s: string, current: seq<string>): Option<seq<seq<string>>>
    decreases |s|
  {
    match FieldAt(s)
    case None => None
    case Some(p) =>
      var row := current + [p.0];
      if p.1 == [] then Some([row])
      else if p.1[0] == ',' then RowsFrom(p.1[1..], row)
      else Prepend(row, RowsFrom(p.1[1..], []))
  }

  function ParseCsv(s: string): Option<seq<seq<string>>> {
    RowsFrom(s, [])
  }

  lemma {:induction false} PlainRunOf(v: string, rest: string)
    requires forall i :: 0 <= i < |v| ==> PlainChar(v[i])
    requires AtFieldEnd(rest)
    ensures PlainRun(v + rest) == |v|
    decreases |v|
  {
    if v != [] {
      assert (v + rest)[1..] == v[1..] + rest;
      PlainRunOf(v[1..], rest);
    } else {
      assert v + rest == rest;
    }
  }

  lemma {:induction false} QuotedBodyOf(v: string, rest: string)
    requires rest == [] || rest[0] != '"'
    ensures QuotedBody(DoubleQuotes(v) + "\"" + rest) == Some((v, rest))
    decreases |v|
  {
    var s := DoubleQuotes(v) + "\"" + rest;
    if v == [] {
      assert s == "\"" + rest;
      assert s[1..] == rest;
    } else {
      var tail := DoubleQuotes(v[1..]) + "\"" + rest;
      QuotedBodyOf(v[1..], rest);
      if v[0] == '"' {
        assert s == "\"\"" + tail;
        assert s[2..] == tail;
        assert "\"" + v[1..] == v;
      } else {
        assert s == [v[0]] + tail;
        assert s[1..] == tail;
        assert [v[0]] + v[1..] == v;
      }
    }
  }

  /** An escaped field is read back as the value, whatever field or record follows. */
  lemma FieldOfEscape(v: string, rest: string)
    requires AtFieldEnd(rest)
    ensures FieldAt(CsvEscape(v) + rest) == Some((v, rest))
  {
    if NeedsQuoting(v) {
      FieldOfQuoted(v, rest);
    } else {
      FieldOfPlain(v, rest);
    }
  }

  lemma FieldOfQuoted(v: string, rest: string)
    requires AtFieldEnd(rest) && NeedsQuoting(v)
    ensures FieldAt(CsvEscape(v) + rest) == Some((v, rest))
  {
    var d := DoubleQuotes(v);
    var body := d + "\"" + rest;
    var s := "\"" + body;
    assert v != "";
    assert CsvEscape(v) == "\"" + d + "\"";
    calc {
      CsvEscape(v) + rest;
      "\"" + d + "\"" + rest;
      { AppendAssoc("\"" + d, "\"", rest); AppendAssoc("\"", d, "\"" + rest); AppendAssoc(d, "\"", rest); }
      s;
    }
    assert s[0] == '"' && s[1..] == body;
    QuotedBodyOf(v, rest);
    assert QuotedBody(s[1..]) == Some((v, rest));
  }

  lemma FieldOfPlain(v: string, rest: string)
    requires AtFieldEnd(rest) && !NeedsQuoting(v)
    ensures FieldAt(CsvEscape(v) + rest) == Some((v, rest))
  {
    var s := v + rest;
    assert CsvEscape(v) == v;
    assert forall i :: 0 <= i < |v| ==> PlainChar(v[i]);
    PlainRunOf(v, rest);
    if v != [] {
      assert s[0] == v[0];
    } else {
      assert s == rest;
    }
    assert s[..|v|] == v && s[|v|..] == rest;
  }

  /** One step of the record reader: the field at the front decides how it goes on. */
  lemma RowsFromStep(s: string, current: seq<string>, f: string, rest: string)
    requires FieldAt(s) == Some((f, rest))
    ensures RowsFrom(s, current)
            == if rest == [] then Some([current + [f]])
               else if rest[0] == ',' then RowsFrom(rest[1..], current + [f])
               else Prepend(current + [f], RowsFrom(rest[1..], []))
  {
  }

  /** How the reader goes on after the last field of a record: the row, then the records after the line feed. */
  function RowsAfter(row: seq<string>, tail: string): Option<seq<seq<string>>> {
    if tail == [] then Some([row]) else Prepend(row, RowsFrom(tail[1..], []))
  }

  /** A record followed by the end or a line feed gives its fields as one row. */
  lemma {:induction false} RowsOfRecord(fields: seq<string>, current: seq<string>, tail: string)
    requires |fields| >= 1
    requires tail == [] || tail[0] == '\n'
    ensures RowsFrom(Record(fields) + tail, current) == RowsAfter(current + fields, tail)
    decreases |fields|
  {
    if |fields| == 1 {
      RowsOfLastField(fields[0], current, tail);
      assert fields == [fields[0]];
    } else {
      RowsOfRecord(fields[1..], current + [fields[0]], tail);
      RowsOfRecordStep(fields, current, tail);
    }
  }

  lemma RowsOfRecordStep(fields: seq<string>, current: seq<string>, tail: string)
    requires |fields| >= 2
    requires RowsFrom(Record(fields[1..]) + tail, current + [fields[0]]) == RowsAfter(current + [fields[0]] + fields[1..], tail)
    ensures RowsFrom(Record(fields) + tail, current) == RowsAfter(current + fields, tail)
  {
    var f := fields[0];
    var more := fields[1..];
    RowsOfNextField(f, more, current, tail);
    assert fields == [f] + more;
    assert current + [f] + more == current + fields;
  }

  lemma RowsOfLastField(f: string, current: seq<string>, tail: string)
    requires tail == [] || tail[0] == '\n'
    ensures RowsFrom(Record([f]) + tail, current) == RowsAfter(current + [f], tail)
  {
    var s := Record([f]) + tail;
    assert FieldAt(s) == Some((f, tail)) by {
      RecordOne(f);
      FieldOfEscape(f, tail);
    }
    RowsFromStep(s, current, f, tail);
  }

  lemma RowsOfNextField(f: string, more: seq<string>, current: seq<string>, tail: string)
    requires more != []
    ensures RowsFrom(Record([f] + more) + tail, current) == RowsFrom(Record(more) + tail, current + [f])
  {
    var t := Record(more) + tail;
    RecordThenRest(f, more, tail);
    FieldOfEscape(f, "," + t);
    RowsAfterComma(CsvEscape(f) + ("," + t), f, t, current);
  }

  lemma RecordThenRest(f: string, more: seq<string>, tail: string)
    requires more != []
    ensures Record([f] + more) + tail == CsvEscape(f) + ("," + (Record(more) + tail))
  {
    RecordCons(f, more);
  }

  lemma RowsAfterComma(s: string, f: string, t: string, current: seq<string>)
    requires FieldAt(s) == Some((f, "," + t))
    ensures RowsFrom(s, current) == RowsFrom(t, current + [f])
  {
    RowsFromStep(s, current, f, "," + t);
    assert ("," + t)[1..] == t;
  }

  /** Every table of non-empty rows is read back from its CSV text. */
  lemma {:induction false} CsvRoundTrip(rows: seq<seq<string>>)
    requires |rows| >= 1
    requires forall i :: 0 <= i < |rows| ==> |rows[i]| >= 1
    ensures ParseCsv(Join(Records(rows), "\n")) == Some(rows)
    decreases |rows|
  {
    if |rows| == 1 {
      CsvOfOneRow(rows);
    } else {
      CsvRoundTrip(rows[1..]);
      CsvOfMoreRows(rows);
    }
  }

  lemma CsvOfOneRow(rows: seq<seq<string>>)
    requires |rows| == 1 && |rows[0]| >= 1
    ensures ParseCsv(Join(Records(rows), "\n")) == Some(rows)
  {
    assert Records(rows) == [Record(rows[0])];
    assert Join(Records(rows), "\n") == Record(rows[0]) + "";
    RowsOfRecord(rows[0], [], "");
    assert [] + rows[0] == rows[0];
    assert [rows[0]] == rows;
  }

  lemma CsvOfMoreRows(rows: seq<seq<string>>)
    requires |rows| >= 2 && |rows[0]| >= 1
    requires ParseCsv(Join(Records(rows[1..]), "\n")) == Some(rows[1..])
    ensures ParseCsv(Join(Records(rows), "\n")) == Some(rows)
  {
    var others := Join(Records(rows[1..]), "\n");
    var tail := "\n" + others;
    var text := Join(Records(rows), "\n");
    assert text == Record(rows[0]) + tail by {
      JoinRecordsCons(rows);
    }
    assert RowsFrom(text, []) == RowsAfter(rows[0], tail) by {
      RowsOfRecord(rows[0], [], tail);
      assert [] + rows[0] == rows[0];
    }
    assert RowsAfter(rows[0], tail) == Prepend(rows[0], RowsFrom(others, [])) by {
      assert tail[1..] == others;
    }
    assert [rows[0]] + rows[1..] == rows;
  }

  lemma JoinRecordsCons(rows: seq<seq<string>>)
    requires |rows| >= 2
    ensures Join(Records(rows), "\n") == Record(rows[0]) + ("\n" + Join(Records(rows[1..]), "\n"))
  {
    assert Records(rows) == [Record(rows[0])] + Records(rows[1..]);
    JoinCons(Record(rows[0]), Records(rows[1..]), "\n");
  }

  /** The speakers' CSV text reads back as the header and one four-field row per speaker. */
  lemma SpeakersCsvRoundTrip(speakers: seq<Speaker>)
    ensures ParseCsv(CsvText(SpeakerColumns, SpeakerRows(speakers))) == Some([SpeakerColumns] + SpeakerRows(speakers))
  {
    var rows := [SpeakerColumns] + SpeakerRows(speakers);
    assert forall i :: 0 <= i < |rows| ==> |rows[i]| == 4;
    CsvRoundTrip([SpeakerColumns] + SpeakerRows(speakers));
  }

  /** The sessions' CSV text reads back as the header and one five-field row per session. */
  lemma SessionsCsvRoundTrip(sessions: seq<Session>)
    ensures ParseCsv(CsvText(SessionColumns, SessionRows(sessions))) == Some([SessionColumns] + SessionRows(sessions))
  {
    var rows := [SessionColumns] + SessionRows(sessions);
    assert forall i :: 0 <= i < |rows| ==> |rows[i]| == 5;
    CsvRoundTrip([SessionColumns] + SessionRows(sessions));
  }
}
