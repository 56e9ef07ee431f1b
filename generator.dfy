/**
 * The bundle-to-prompt formatter of the report generator (`format_track_bundle`):
 * a track bundle becomes the lines of text that the LLM receives, joined by newlines.
 */
module Generator {
  import opened Wrappers
  import opened Text
  import opened Bundle

  // ---------------------------------------------------------------------------
  // Reference definition of the lines, block by block
  // ---------------------------------------------------------------------------

  /** One person as the formatter writes it: `name (affiliation)`. */
  function PersonString(p: Person, defaultName: string): string {
    p.name.Show(defaultName) + " (" + p.affiliation.Show("") + ")"
  }

  /** A leaders or authors list rendered entry by entry. */
  function PeopleStrings(people: People, defaultName: string): (r: seq<string>)
    ensures people.Records? ==> |r| == |people.records|
    ensures people.Names? ==> r == people.names
  {
    match people
    case Records(rs) => seq(|rs|, i requires 0 <= i < |rs| => PersonString(rs[i], defaultName))
    case Names(ns) => ns
  }

  function HeaderLines(t: Track): seq<string> {
    ["# Track: " + t.name.Show("Unknown")]
    + (if t.room.Truthy() then ["Room: " + t.room.s] else [])
    + [""]
  }

  function LeaderLines(s: Session): seq<string> {
    if s.leaders.IsEmpty() then [] else ["Leaders: " + Join(PeopleStrings(s.leaders, "Unknown"), ", ")]
  }

  /** The heading, time and leaders of a session, closed by a blank line. */
  function SessionHead(s: Session): seq<string> {
    ["## Session: " + s.title.Show("Untitled"), "Time: " + s.slot.Show("Not specified")]
    + LeaderLines(s) + [""]
  }

  function TalkLines(t: Talk): seq<string> {
    match t
    case TalkRecord(title, authors, abstractText, _) =>
      ["**" + title.Show("Untitled") + "**"]
      + (if authors.IsEmpty() then [] else ["Authors: " + Join(PeopleStrings(authors, ""), ", ")])
      + (if abstractText.Truthy() then ["Abstract: " + abstractText.s] else [])
      + [""]
    case TalkText(x) => ["- " + x]
  }

  function TalksLines(ts: seq<Talk>): seq<string> {
    if ts == [] then [] else TalksLines(ts[..|ts| - 1]) + TalkLines(ts[|ts| - 1])
  }

  function TalkBlock(ts: seq<Talk>): seq<string> {
    if ts == [] then [] else ["### Lightning Talks"] + TalksLines(ts) + [""]
  }

  function AttendeeLine(a: Attendee): string {
    match a
    case AttendeeRecord(name, org) => "- " + name.Show("Unknown") + " (" + org.Show("") + ")"
    case AttendeeText(x) => "- " + x
  }

  function AttendeesLines(as_: seq<Attendee>): seq<string> {
    if as_ == [] then [] else AttendeesLines(as_[..|as_| - 1]) + [AttendeeLine(as_[|as_| - 1])]
  }

  function AttendeeBlock(as_: seq<Attendee>): seq<string> {
    if as_ == [] then [] else ["### Attendees"] + AttendeesLines(as_) + [""]
  }

  function NotesBlock(notes: Field): seq<string> {
    if notes.Truthy() then ["### Discussion Notes", notes.s, ""] else []
  }

  function SessionLines(s: Session): seq<string> {
    SessionHead(s) + TalkBlock(s.talks) + AttendeeBlock(s.attendees) + NotesBlock(s.notes)
  }

  function SessionsLines(ss: seq<Session>): seq<string> {
    if ss == [] then [] else SessionsLines(ss[..|ss| - 1]) + SessionLines(ss[|ss| - 1])
  }

  function SourceLines(src: seq<string>): seq<string> {
    if src == [] then [] else SourceLines(src[..|src| - 1]) + ["- " + src[|src| - 1]]
  }

  function SourcesBlock(src: seq<string>): seq<string> {
    if src == [] then [] else ["## Data Sources"] + SourceLines(src)
  }

  /** Every line of the formatted bundle, in order. */
  function BundleLines(b: Bundle): seq<string> {
    HeaderLines(b.track) + SessionsLines(b.sessions) + SourcesBlock(b.sources)
  }

  // ---------------------------------------------------------------------------
  // The formatter
  // ---------------------------------------------------------------------------

  /** One lightning talk's lines. */
  method AppendTalk(lines: seq<string>, t: Talk) returns (out: seq<string>)
    ensures out == lines + TalkLines(t)
  {
    match t {
      case TalkRecord(title, authors, abstractText, _) =>
        out := lines + ["**" + title.Show("Untitled") + "**"];
        if !authors.IsEmpty() {
          out := out + ["Authors: " + Join(PeopleStrings(authors, ""), ", ")];
        }
        if abstractText.Truthy() {
          out := out + ["Abstract: " + abstractText.s];
        }
        out := out + [""];
      case TalkText(x) =>
        out := lines + ["- " + x];
    }
  }

  lemma TalksLinesSnoc(ts: seq<Talk>, j: nat)
    requires j < |ts|
    ensures TalksLines(ts[..j + 1]) == TalksLines(ts[..j]) + TalkLines(ts[j])
  {
    assert ts[..j + 1][..j] == ts[..j];
  }

  lemma AttendeesLinesSnoc(as_: seq<Attendee>, j: nat)
    requires j < |as_|
    ensures AttendeesLines(as_[..j + 1]) == AttendeesLines(as_[..j]) + [AttendeeLine(as_[j])]
  {
    assert as_[..j + 1][..j] == as_[..j];
  }

  /** The lightning-talks block of one session, appended talk by talk. */
  method AppendTalkBlock(lines: seq<string>, talks: seq<Talk>) returns (out: seq<string>)
    ensures out == lines + TalkBlock(talks)
  {
    out := lines;
    if talks != [] {
      out := out + ["### Lightning Talks"];
      ghost var head := out;
      assert talks[..0] == [];
      var j := 0;
      while j < |talks|
        invariant 0 <= j <= |talks|
        invariant out == head + TalksLines(talks[..j])
      {
        TalksLinesSnoc(talks, j);
        AppendAssoc(head, TalksLines(talks[..j]), TalkLines(talks[j]));
        out := AppendTalk(out, talks[j]);
        j := j + 1;
      }
      assert talks[..j] == talks;
      out := out + [""];
      AppendAssoc(head, TalksLines(talks), [""]);
      AppendAssoc(lines, ["### Lightning Talks"], TalksLines(talks) + [""]);
      AppendAssoc(["### Lightning Talks"], TalksLines(talks), [""]);
    }
  }

  /** The attendees block of one session, appended attendee by attendee. */
  method AppendAttendeeBlock(lines: seq<string>, attendees: seq<Attendee>) returns (out: seq<string>)
    ensures out == lines + AttendeeBlock(attendees)
  {
    out := lines;
    if attendees != [] {
      out := out + ["### Attendees"];
      ghost var head := out;
      assert attendees[..0] == [];
      var j := 0;
      while j < |attendees|
        invariant 0 <= j <= |attendees|
        invariant out == head + AttendeesLines(attendees[..j])
      {
        var line: string;
        match attendees[j] {
          case AttendeeRecord(name, org) =>
            line := "- " + name.Show("Unknown") + " (" + org.Show("") + ")";
          case AttendeeText(x) =>
            line := "- " + x;
        }
        assert line == AttendeeLine(attendees[j]);
        AttendeesLinesSnoc(attendees, j);
        AppendAssoc(head, AttendeesLines(attendees[..j]), [line]);
        out := out + [line];
        j := j + 1;
      }
      assert attendees[..j] == attendees;
      out := out + [""];
      AppendAssoc(head, AttendeesLines(attendees), [""]);
      AppendAssoc(lines, ["### Attendees"], AttendeesLines(attendees) + [""]);
      AppendAssoc(["### Attendees"], AttendeesLines(attendees), [""]);
    }
  }

  /** The lines of one session: heading, time, leaders, then its three blocks. */
  method AppendSession(lines: seq<string>, s: Session) returns (out: seq<string>)
    ensures out == lines + SessionLines(s)
  {
    out := lines + ["## Session: " + s.title.Show("Untitled")];
    out := out + ["Time: " + s.slot.Show("Not specified")];
    if !s.leaders.IsEmpty() {
      out := out + ["Leaders: " + Join(PeopleStrings(s.leaders, "Unknown"), ", ")];
    }
    out := out + [""];
    assert out == lines + SessionHead(s);
    out := AppendTalkBlock(out, s.talks);
    out := AppendAttendeeBlock(out, s.attendees);
    ghost var blocks := out;
    if s.notes.Truthy() {
      out := out + ["### Discussion Notes"];
      out := out + [s.notes.s];
      out := out + [""];
    }
    assert out == blocks + NotesBlock(s.notes);
    AppendFour(lines, SessionHead(s), TalkBlock(s.talks), AttendeeBlock(s.attendees), NotesBlock(s.notes));
  }

  lemma AppendFour(lines: seq<string>, a: seq<string>, b: seq<string>, c: seq<string>, d: seq<string>)
    ensures lines + a + b + c + d == lines + (a + b + c + d)
  {
    AppendAssoc(lines, a, b);
    AppendAssoc(lines, a + b, c);
    AppendAssoc(lines, a + b + c, d);
  }

  /** The data-sources block, appended source by source. */
  method AppendSources(lines: seq<string>, src: seq<string>) returns (out: seq<string>)
    ensures out == lines + SourcesBlock(src)
  {
    out := lines;
    if src != [] {
      out := out + ["## Data Sources"];
      var k := 0;
      while k < |src|
        invariant 0 <= k <= |src|
        invariant out == lines + ["## Data Sources"] + SourceLines(src[..k])
      {
        SourceLinesSnoc(src, k);
        AppendAssoc(lines + ["## Data Sources"], SourceLines(src[..k]), ["- " + src[k]]);
        out := out + ["- " + src[k]];
        k := k + 1;
      }
      assert src[..k] == src;
      AppendAssoc(lines, ["## Data Sources"], SourceLines(src));
    }
  }

  lemma SourceLinesSnoc(src: seq<string>, k: nat)
    requires k < |src|
    ensures SourceLines(src[..k + 1]) == SourceLines(src[..k]) + ["- " + src[k]]
  {
    assert src[..k + 1][..k] == src[..k];
  }

  lemma SessionsLinesSnoc(ss: seq<Session>, i: nat)
    requires i < |ss|
    ensures SessionsLines(ss[..i + 1]) == SessionsLines(ss[..i]) + SessionLines(ss[i])
  {
    assert ss[..i + 1][..i] == ss[..i];
  }

  /** The sessions' lines, appended session by session. */
  method AppendSessions(lines: seq<string>, ss: seq<Session>) returns (out: seq<string>)
    ensures out == lines + SessionsLines(ss)
  {
    out := lines;
    var i := 0;
    while i < |ss|
      invariant 0 <= i <= |ss|
      invariant out == lines + SessionsLines(ss[..i])
    {
      SessionsLinesSnoc(ss, i);
      out := AppendSession(out, ss[i]);
      AppendAssoc(lines, SessionsLines(ss[..i]), SessionLines(ss[i]));
      i := i + 1;
    }
    assert ss[..i] == ss;
  }

  /** `format_track_bundle`: builds the list of lines and joins it with newlines. */
  method FormatTrackBundle(b: Bundle) returns (text: string)
    ensures text == Join(BundleLines(b), "\n")
  {
    var lines: seq<string> := ["# Track: " + b.track.name.Show("Unknown")];
    if b.track.room.Truthy() {
      lines := lines + ["Room: " + b.track.room.s];
    }
    lines := lines + [""];
    assert lines == HeaderLines(b.track);
    lines := AppendSessions(lines, b.sessions);
    lines := AppendSources(lines, b.sources);
    text := Join(lines, "\n");
  }

  // ---------------------------------------------------------------------------
  // Properties of the formatted lines
  // ---------------------------------------------------------------------------

  const SessionPrefix := "## Session: "

  /** A line the formatter copies from data: it does not start with `#`, so it is no heading. */
  predicate Plain(line: string) {
    line == [] || line[0] != '#'
  }

  /** Discussion notes that, copied as one line, do not themselves read as a session heading. */
  predicate HeadingFreeNotes(s: Session) {
    !s.notes.Truthy() || !StartsWith(s.notes.s, SessionPrefix)
  }

  /** Discussion notes that, copied as one line, are not the sub-heading `h`. */
  predicate NotesOtherThan(s: Session, h: string) {
    !s.notes.Truthy() || s.notes.s != h
  }

  /** What a reader of the prompt sees for a session: its title and the line right after it. */
  function SessionHeading(s: Session): (string, string) {
    (s.title.Show("Untitled"), "Time: " + s.slot.Show("Not specified"))
  }

  /** Every `## Session: ` line of `lines`, as its title paired with the following line. */
  function Headings(lines: seq<string>): seq<(string, string)> {
    if lines == [] then []
    else
      (if StartsWith(lines[0], SessionPrefix)
       then [(lines[0][|SessionPrefix|..], if |lines| > 1 then lines[1] else "")]
       else [])
      + Headings(lines[1..])
  }

  lemma PlainIsNoHeading(line: string)
    requires Plain(line)
    ensures !StartsWith(line, SessionPrefix)
  {
    if |line| >= |SessionPrefix| {
      assert line[..|SessionPrefix|][0] == line[0];
    }
  }

  lemma HeadingOf(x: string)
    ensures StartsWith(SessionPrefix + x, SessionPrefix)
    ensures (SessionPrefix + x)[|SessionPrefix|..] == x
  {
    assert (SessionPrefix + x)[..|SessionPrefix|] == SessionPrefix;
  }

  lemma {:induction false} NoHeadings(lines: seq<string>)
    requires forall i :: 0 <= i < |lines| ==> !StartsWith(lines[i], SessionPrefix)
    ensures Headings(lines) == []
    decreases |lines|
  {
    if lines != [] {
      assert forall i :: 0 <= i < |lines| - 1 ==> lines[1..][i] == lines[i + 1];
      NoHeadings(lines[1..]);
      assert !StartsWith(lines[0], SessionPrefix);
    }
  }

  lemma {:induction false} HeadingsConcat(a: seq<string>, b: seq<string>)
    requires a != [] ==> !StartsWith(a[|a| - 1], SessionPrefix)
    ensures Headings(a + b) == Headings(a) + Headings(b)
    decreases |a|
  {
    if a != [] {
      assert (a + b)[1..] == a[1..] + b;
      assert (a + b)[0] == a[0];
      HeadingsConcat(a[1..], b);
      if |a| > 1 {
        assert (a + b)[1] == a[1];
      } else {
        assert a[0] == a[|a| - 1];
        assert !StartsWith((a + b)[0], SessionPrefix);
      }
    } else {
      assert a + b == b;
    }
  }

  lemma {:induction false} TalksLinesPlain(ts: seq<Talk>)
    ensures forall i :: 0 <= i < |TalksLines(ts)| ==> Plain(TalksLines(ts)[i])
    decreases |ts|
  {
    if ts != [] {
      TalksLinesPlain(ts[..|ts| - 1]);
      var t := ts[|ts| - 1];
      match t
      case TalkRecord(title, authors, abstractText, _) =>
        assert ("**" + title.Show("Untitled") + "**")[0] == '*';
        if !authors.IsEmpty() {
          assert ("Authors: " + Join(PeopleStrings(authors, ""), ", "))[0] == 'A';
        }
        if abstractText.Truthy() {
          assert ("Abstract: " + abstractText.s)[0] == 'A';
        }
      case TalkText(x) =>
        assert ("- " + x)[0] == '-';
    }
  }

  lemma {:induction false} AttendeesLinesPlain(as_: seq<Attendee>)
    ensures forall i :: 0 <= i < |AttendeesLines(as_)| ==> Plain(AttendeesLines(as_)[i])
    decreases |as_|
  {
    if as_ != [] {
      AttendeesLinesPlain(as_[..|as_| - 1]);
      var a := as_[|as_| - 1];
      match a
      case AttendeeRecord(name, org) =>
        assert AttendeeLine(a)[0] == '-';
      case AttendeeText(x) =>
        assert AttendeeLine(a)[0] == '-';
    }
  }

  lemma {:induction false} SourceLinesPlain(src: seq<string>)
    ensures |SourceLines(src)| == |src|
    ensures forall k :: 0 <= k < |src| ==> SourceLines(src)[k] == "- " + src[k]
    ensures forall k :: 0 <= k < |src| ==> Plain(SourceLines(src)[k])
    decreases |src|
  {
    if src != [] {
      SourceLinesPlain(src[..|src| - 1]);
      forall k | 0 <= k < |src|
        ensures SourceLines(src)[k] == "- " + src[k]
      {
        if k < |src| - 1 {
          assert src[..|src| - 1][k] == src[k];
        }
      }
      forall k | 0 <= k < |src|
        ensures Plain(SourceLines(src)[k])
      {
        assert SourceLines(src)[k][0] == '-';
      }
    }
  }

  /** The head of a session: heading, `Time:` right after it, then the leaders line if any. */
  lemma SessionLayout(s: Session)
    ensures |SessionLines(s)| >= 3
    ensures SessionLines(s)[0] == SessionPrefix + s.title.Show("Untitled")
    ensures SessionLines(s)[1] == "Time: " + s.slot.Show("Not specified")
    ensures s.leaders.IsEmpty() ==> SessionLines(s)[2] == ""
    ensures !s.leaders.IsEmpty() ==>
              SessionLines(s)[2] == "Leaders: " + Join(PeopleStrings(s.leaders, "Unknown"), ", ")
              && SessionLines(s)[3] == ""
    ensures SessionLines(s)[|SessionLines(s)| - 1] == ""
  {
  }

  /** No line of `xs` is a session heading. */
  predicate NoHeadingLines(xs: seq<string>) {
    forall i :: 0 <= i < |xs| ==> !StartsWith(xs[i], SessionPrefix)
  }

  lemma NoHeadingLinesConcat(a: seq<string>, b: seq<string>)
    requires NoHeadingLines(a) && NoHeadingLines(b)
    ensures NoHeadingLines(a + b)
  {
    forall i | 0 <= i < |a + b| ensures !StartsWith((a + b)[i], SessionPrefix) {
      if i < |a| {
        assert (a + b)[i] == a[i];
      } else {
        assert (a + b)[i] == b[i - |a|];
      }
    }
  }

  lemma PlainLinesNoHeading(xs: seq<string>)
    requires forall i :: 0 <= i < |xs| ==> Plain(xs[i])
    ensures NoHeadingLines(xs)
  {
    forall i | 0 <= i < |xs| ensures !StartsWith(xs[i], SessionPrefix) {
      PlainIsNoHeading(xs[i]);
    }
  }

  /** A `### ` sub-heading is no session heading. */
  lemma SubHeadingIsNoHeading(line: string)
    requires |line| >= 3 && line[2] == '#'
    ensures !StartsWith(line, SessionPrefix)
  {
    if |line| >= |SessionPrefix| {
      assert line[..|SessionPrefix|][2] == line[2];
    }
  }

  lemma TalkBlockNoHeading(ts: seq<Talk>)
    ensures NoHeadingLines(TalkBlock(ts))
  {
    if ts != [] {
      TalksLinesPlain(ts);
      PlainLinesNoHeading(TalksLines(ts) + [""]);
      SubHeadingIsNoHeading("### Lightning Talks");
      NoHeadingLinesConcat(["### Lightning Talks"], TalksLines(ts) + [""]);
      assert TalkBlock(ts) == ["### Lightning Talks"] + (TalksLines(ts) + [""]);
    }
  }

  lemma AttendeeBlockNoHeading(as_: seq<Attendee>)
    ensures NoHeadingLines(AttendeeBlock(as_))
  {
    if as_ != [] {
      AttendeesLinesPlain(as_);
      PlainLinesNoHeading(AttendeesLines(as_) + [""]);
      SubHeadingIsNoHeading("### Attendees");
      NoHeadingLinesConcat(["### Attendees"], AttendeesLines(as_) + [""]);
      assert AttendeeBlock(as_) == ["### Attendees"] + (AttendeesLines(as_) + [""]);
    }
  }

  lemma NotesBlockNoHeading(s: Session)
    requires HeadingFreeNotes(s)
    ensures NoHeadingLines(NotesBlock(s.notes))
  {
    if s.notes.Truthy() {
      SubHeadingIsNoHeading("### Discussion Notes");
      PlainIsNoHeading("");
    }
  }

  lemma HeadTailNoHeading(s: Session)
    ensures NoHeadingLines(SessionHead(s)[1..])
  {
    var t := SessionHead(s)[1..];
    forall i | 0 <= i < |t| ensures Plain(t[i]) {
      if i == 0 {
        assert t[0] == "Time: " + s.slot.Show("Not specified");
        assert t[0][0] == 'T';
      } else if i == |t| - 1 {
        assert t[i] == "";
      } else {
        assert t[i] == "Leaders: " + Join(PeopleStrings(s.leaders, "Unknown"), ", ");
        assert t[i][0] == 'L';
      }
    }
    PlainLinesNoHeading(t);
  }

  /** The lines after a session's heading hold no other heading. */
  lemma SessionTailNoHeading(s: Session)
    requires HeadingFreeNotes(s)
    ensures NoHeadingLines(SessionLines(s)[1..])
  {
    var head := SessionHead(s);
    HeadTailNoHeading(s);
    TalkBlockNoHeading(s.talks);
    AttendeeBlockNoHeading(s.attendees);
    NotesBlockNoHeading(s);
    var talks := TalkBlock(s.talks);
    var attendees := AttendeeBlock(s.attendees);
    var notes := NotesBlock(s.notes);
    NoHeadingLinesConcat(head[1..], talks);
    NoHeadingLinesConcat(head[1..] + talks, attendees);
    NoHeadingLinesConcat(head[1..] + talks + attendees, notes);
    TailOfConcat(head, talks, attendees, notes);
  }

  lemma TailOfConcat<T>(a: seq<T>, b: seq<T>, c: seq<T>, d: seq<T>)
    requires |a| >= 1
    ensures (a + b + c + d)[1..] == a[1..] + b + c + d
  {
  }

  /** No `###` sub-heading is among the head lines of a session. */
  lemma SubHeadingNotInHead(s: Session, h: string)
    requires |h| >= 3 && h[0] == '#' && h[2] == '#'
    ensures h !in SessionHead(s)
  {
    var head := SessionHead(s);
    forall i | 0 <= i < |head| ensures head[i] != h {
      if i == 0 {
        assert head[0] == "## Session: " + s.title.Show("Untitled");
        assert head[0][2] == ' ';
      } else if i == 1 {
        assert head[1] == "Time: " + s.slot.Show("Not specified");
        assert head[1][0] == 'T';
      } else if i == |head| - 1 {
        assert head[i] == "";
      } else {
        assert head[i] == "Leaders: " + Join(PeopleStrings(s.leaders, "Unknown"), ", ");
        assert head[i][0] == 'L';
      }
    }
  }

  /** The lightning-talks block appears exactly when the session has talks. */
  lemma SessionTalksBlock(s: Session)
    requires NotesOtherThan(s, "### Lightning Talks")
    ensures "### Lightning Talks" in SessionLines(s) <==> s.talks != []
  {
    var lines := SessionLines(s);
    var head := SessionHead(s);
    var talks := TalkBlock(s.talks);
    var rest := AttendeeBlock(s.attendees) + NotesBlock(s.notes);
    AttendeesLinesPlain(s.attendees);
    assert lines == head + talks + rest;
    if s.talks != [] {
      assert talks[0] == "### Lightning Talks";
      assert lines[|head|] == talks[0];
    } else {
      SubHeadingNotInHead(s, "### Lightning Talks");
      assert "### Lightning Talks" !in rest by {
        assert forall i :: 0 <= i < |AttendeesLines(s.attendees)| ==> Plain(AttendeesLines(s.attendees)[i]);
      }
    }
  }

  /** The attendees block appears exactly when the session has attendees. */
  lemma SessionAttendeesBlock(s: Session)
    requires NotesOtherThan(s, "### Attendees")
    ensures "### Attendees" in SessionLines(s) <==> s.attendees != []
  {
    var lines := SessionLines(s);
    var front := SessionHead(s) + TalkBlock(s.talks);
    var attendees := AttendeeBlock(s.attendees);
    var notes := NotesBlock(s.notes);
    TalksLinesPlain(s.talks);
    assert lines == front + attendees + notes;
    if s.attendees != [] {
      assert attendees[0] == "### Attendees";
      assert lines[|front|] == attendees[0];
    } else {
      assert "### Attendees" !in front by {
        SubHeadingNotInHead(s, "### Attendees");
        assert forall i :: 0 <= i < |TalksLines(s.talks)| ==> Plain(TalksLines(s.talks)[i]);
      }
      assert "### Attendees" !in notes;
    }
  }

  /** The notes block appears exactly when the session has notes. */
  lemma SessionNotesBlock(s: Session)
    ensures "### Discussion Notes" in SessionLines(s) <==> s.notes.Truthy()
  {
    var lines := SessionLines(s);
    var front := SessionHead(s) + TalkBlock(s.talks) + AttendeeBlock(s.attendees);
    var notes := NotesBlock(s.notes);
    TalksLinesPlain(s.talks);
    AttendeesLinesPlain(s.attendees);
    assert lines == front + notes;
    if s.notes.Truthy() {
      assert lines[|front|] == notes[0];
    } else {
      SubHeadingNotInHead(s, "### Discussion Notes");
      assert "### Discussion Notes" !in TalkBlock(s.talks) by {
        assert forall i :: 0 <= i < |TalksLines(s.talks)| ==> Plain(TalksLines(s.talks)[i]);
      }
      assert "### Discussion Notes" !in AttendeeBlock(s.attendees) by {
        assert forall i :: 0 <= i < |AttendeesLines(s.attendees)| ==> Plain(AttendeesLines(s.attendees)[i]);
      }
    }
  }

  /** A session contributes exactly its own heading, paired with its `Time:` line. */
  lemma SessionHeadings(s: Session)
    requires HeadingFreeNotes(s)
    ensures Headings(SessionLines(s)) == [SessionHeading(s)]
  {
    var lines := SessionLines(s);
    HeadingOf(s.title.Show("Untitled"));
    SessionTailNoHeading(s);
    NoHeadings(lines[1..]);
  }

  lemma {:induction false} SessionsHeadings(ss: seq<Session>)
    requires forall i :: 0 <= i < |ss| ==> HeadingFreeNotes(ss[i])
    ensures |Headings(SessionsLines(ss))| == |ss|
    ensures forall i :: 0 <= i < |ss| ==> Headings(SessionsLines(ss))[i] == SessionHeading(ss[i])
    ensures SessionsLines(ss) != [] ==> SessionsLines(ss)[|SessionsLines(ss)| - 1] == ""
    decreases |ss|
  {
    if ss != [] {
      var init := ss[..|ss| - 1];
      var last := ss[|ss| - 1];
      forall i | 0 <= i < |init| ensures HeadingFreeNotes(init[i]) {
        assert init[i] == ss[i];
      }
      SessionsHeadings(init);
      var before := SessionsLines(init);
      var mine := SessionLines(last);
      SessionEndsBlank(last);
      SessionHeadings(last);
      assert SessionsLines(ss) == before + mine;
      if before != [] {
        assert before[|before| - 1] == "";
        assert !StartsWith(before[|before| - 1], SessionPrefix);
      }
      HeadingsConcat(before, mine);
      var hs := Headings(before);
      var all := Headings(SessionsLines(ss));
      assert all == hs + [SessionHeading(last)];
      HeadingsSnoc(all, hs, init, ss);
      assert (before + mine)[|before + mine| - 1] == mine[|mine| - 1];
    }
  }

  /** The headings of the sessions before the last one, followed by the last one's heading. */
  lemma HeadingsSnoc(all: seq<(string, string)>, hs: seq<(string, string)>, init: seq<Session>, ss: seq<Session>)
    requires ss != [] && init == ss[..|ss| - 1]
    requires |hs| == |init| && forall i :: 0 <= i < |init| ==> hs[i] == SessionHeading(init[i])
    requires all == hs + [SessionHeading(ss[|ss| - 1])]
    ensures |all| == |ss|
    ensures forall i :: 0 <= i < |ss| ==> all[i] == SessionHeading(ss[i])
  {
    forall i | 0 <= i < |ss| ensures all[i] == SessionHeading(ss[i]) {
      if i < |init| {
        assert all[i] == hs[i];
        assert init[i] == ss[i];
      }
    }
  }

  lemma SessionEndsBlank(s: Session)
    ensures |SessionLines(s)| >= 3
    ensures SessionLines(s)[|SessionLines(s)| - 1] == ""
  {
    SessionLayout(s);
  }

  /** The first line names the track, with `Unknown` for a track without a name. */
  lemma FirstLine(b: Bundle)
    ensures BundleLines(b)[0] == "# Track: " + b.track.name.Show("Unknown")
    ensures b.track.name.Absent? ==> BundleLines(b)[0] == "# Track: Unknown"
  {
  }

  /** The second line is a `Room:` line exactly when the room is truthy, and blank otherwise. */
  lemma RoomLine(b: Bundle)
    ensures b.track.room.Truthy() ==> BundleLines(b)[1] == "Room: " + b.track.room.s
    ensures !b.track.room.Truthy() ==> BundleLines(b)[1] == ""
    ensures b.track.room.Truthy() <==> BundleLines(b)[1] != ""
  {
  }

  /**
   * One `## Session: ` heading per session, in input order, each followed by the
   * session's `Time:` line: nothing else in the prompt looks like a session heading.
   */
  lemma BundleHeadings(b: Bundle)
    requires forall i :: 0 <= i < |b.sessions| ==> HeadingFreeNotes(b.sessions[i])
    ensures |Headings(BundleLines(b))| == |b.sessions|
    ensures forall i :: 0 <= i < |b.sessions| ==> Headings(BundleLines(b))[i] == SessionHeading(b.sessions[i])
  {
    HeaderHasNoHeading(b.track);
    SessionsHeadings(b.sessions);
    SourcesHaveNoHeading(b.sources);
    var header := HeaderLines(b.track);
    var middle := SessionsLines(b.sessions);
    var hs := Headings(middle);
    HeadingsConcat(header, middle);
    var body := header + middle;
    assert Headings(body) == hs;
    assert body[|body| - 1] == "";
    HeadingsConcat(body, SourcesBlock(b.sources));
    assert Headings(body + SourcesBlock(b.sources)) == hs;
    assert BundleLines(b) == body + SourcesBlock(b.sources);
  }

  lemma HeaderHasNoHeading(t: Track)
    ensures Headings(HeaderLines(t)) == []
    ensures HeaderLines(t)[|HeaderLines(t)| - 1] == ""
  {
    var header := HeaderLines(t);
    assert header[0][1] == ' ';
    forall i | 0 <= i < |header|
      ensures !StartsWith(header[i], SessionPrefix)
    {
      if i > 0 {
        PlainIsNoHeading(header[i]);
      }
    }
    NoHeadings(header);
  }

  lemma SourcesHaveNoHeading(src: seq<string>)
    ensures Headings(SourcesBlock(src)) == []
  {
    var sources := SourcesBlock(src);
    SourceLinesPlain(src);
    forall i | 0 <= i < |sources|
      ensures !StartsWith(sources[i], SessionPrefix)
    {
      if i == 0 {
        assert sources[0][3] == 'D';
      } else {
        assert sources[i] == SourceLines(src)[i - 1];
        PlainIsNoHeading(sources[i]);
      }
    }
    NoHeadings(sources);
  }

  /** The data-sources block closes the prompt, one `- ` line per source. */
  lemma SourcesLast(b: Bundle)
    requires b.sources != []
    ensures var lines := BundleLines(b);
            var n := |b.sources|;
            |lines| > n && lines[|lines| - n - 1] == "## Data Sources"
            && forall k :: 0 <= k < n ==> lines[|lines| - n + k] == "- " + b.sources[k]
  {
    SourceLinesPlain(b.sources);
  }

  /** An empty bundle becomes the unknown-track heading followed by a blank line. */
  lemma EmptyBundle()
    ensures Join(BundleLines(Bundle(Track(Absent, Absent, Absent), [], [])), "\n") == "# Track: Unknown\n"
  {
    var b := Bundle(Track(Absent, Absent, Absent), [], []);
    assert b.track.name.Show("Unknown") == "Unknown" && !b.track.room.Truthy();
    assert "# Track: " + "Unknown" == "# Track: Unknown";
    assert HeaderLines(b.track) == ["# Track: Unknown", ""];
    assert SessionsLines(b.sessions) == [] && SourcesBlock(b.sources) == [];
    assert BundleLines(b) == ["# Track: Unknown", ""];
  }
}
