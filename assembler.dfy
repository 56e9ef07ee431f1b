/**
 * The track-bundle assembler: lightning talks and attendees loaded from CSV rows,
 * the per-track bundle with its warnings, the merge of talk speakers into the
 * attendee list, and the discovery and naming of tracks across all talks.
 *
 * Files are modelled by what they hold: CSV files as their already-parsed rows
 * and a track's inputs directory as the files it contains.
 */
module Assembler {
  import opened Wrappers
  import opened Text
  import opened Bundle

  // ---------------------------------------------------------------------------
  // Results and warnings
  // ---------------------------------------------------------------------------

  datatype Severity = Warning | Error

  datatype AssemblyWarning = AssemblyWarning(
    trackId: string,
    sessionId: Option<string>,
    message: string,
    severity: Severity)

  datatype AssemblyResult = AssemblyResult(bundle: Bundle, warnings: seq<AssemblyWarning>) {

    predicate HasWarnings() {
      |warnings| > 0
    }

    predicate HasErrors() {
      exists i :: 0 <= i < |warnings| && warnings[i].severity == Error
    }
  }

  /** An error is a warning too: `has_errors` implies `has_warnings`. */
  lemma ErrorsAreWarnings(r: AssemblyResult)
    ensures r.HasErrors() ==> r.HasWarnings()
  {
  }

  function Messages(ws: seq<AssemblyWarning>): (r: seq<string>)
    ensures |r| == |ws| && forall i :: 0 <= i < |ws| ==> r[i] == ws[i].message
  {
    seq(|ws|, i requires 0 <= i < |ws| => ws[i].message)
  }

  // ---------------------------------------------------------------------------
  // Lightning talks CSV: header row, then one talk per complete row with a title
  // ---------------------------------------------------------------------------

  /** A data row that becomes a talk: at least eight cells and a non-blank title in column F. */
  predicate KeptTalkRow(row: seq<string>) {
    |row| >= 8 && Strip(row[5]) != ""
  }

  /** The talk of a row: title F, speaker C with institution D, abstract G, track H, all stripped. */
  function RowTalk(row: seq<string>): Talk
    requires |row| >= 8
  {
    TalkRecord(
      Text(Strip(row[5])),
      Records([Person(Text(Strip(row[2])), Text(Strip(row[3])))]),
      Text(Strip(row[6])),
      Text(Strip(row[7])))
  }

  /** The talks of the data rows, in row order. */
  function TalksOfRows(rows: seq<seq<string>>): seq<Talk> {
    if rows == [] then []
    else
      var last := rows[|rows| - 1];
      TalksOfRows(rows[..|rows| - 1]) + (if KeptTalkRow(last) then [RowTalk(last)] else [])
  }

  /** The shape of every talk the loader produces: a record with a single author record. */
  predicate LoadedTalk(t: Talk) {
    t.TalkRecord? && t.title.Truthy() && t.authors.Records? && |t.authors.records| == 1
    && t.track.Text? && t.abstractText.Text?
  }

  /** `load_lightning_talks_csv`: a missing file raises; otherwise the header row is skipped. */
  method LoadLightningTalks(path: string, exists_: bool, rows: seq<seq<string>>)
    returns (r: Result<seq<Talk>>)
    ensures !exists_ ==> r == Failure("Lightning talks CSV not found: " + path)
    ensures exists_ ==> r == Success(TalksOfRows(if rows == [] then [] else rows[1..]))
  {
    if !exists_ {
      return Failure("Lightning talks CSV not found: " + path);
    }
    var data := if rows == [] then [] else rows[1..];
    var talks: seq<Talk> := [];
    var i := 0;
    while i < |data|
      invariant 0 <= i <= |data|
      invariant talks == TalksOfRows(data[..i])
    {
      var row := data[i];
      TalksOfRowsSnoc(data, i);
      if |row| >= 8 {
        var title := Strip(row[5]);
        if title != "" {
          talks := talks + [TalkRecord(
            Text(title),
            Records([Person(Text(Strip(row[2])), Text(Strip(row[3])))]),
            Text(Strip(row[6])),
            Text(Strip(row[7])))];
        }
      }
      i := i + 1;
    }
    assert data[..i] == data;
    return Success(talks);
  }

  lemma TalksOfRowsSnoc(rows: seq<seq<string>>, i: nat)
    requires i < |rows|
    ensures TalksOfRows(rows[..i + 1])
            == TalksOfRows(rows[..i]) + (if KeptTalkRow(rows[i]) then [RowTalk(rows[i])] else [])
  {
    assert rows[..i + 1][..i] == rows[..i];
  }

  /** Loading distributes over the rows: survivors keep their relative order. */
  lemma {:induction false} TalksOfRowsConcat(a: seq<seq<string>>, b: seq<seq<string>>)
    ensures TalksOfRows(a + b) == TalksOfRows(a) + TalksOfRows(b)
    decreases |b|
  {
    if b == [] {
      assert a + b == a;
    } else {
      assert (a + b)[..|a + b| - 1] == a + b[..|b| - 1];
      TalksOfRowsConcat(a, b[..|b| - 1]);
    }
  }

  /** Exactly the kept rows become talks, each a well-formed record. */
  lemma TalksOfRowsMembers(rows: seq<seq<string>>)
    ensures forall i :: 0 <= i < |rows| && KeptTalkRow(rows[i]) ==> RowTalk(rows[i]) in TalksOfRows(rows)
    ensures forall t :: t in TalksOfRows(rows) ==>
              LoadedTalk(t) && exists i :: 0 <= i < |rows| && KeptTalkRow(rows[i]) && t == RowTalk(rows[i])
    ensures |TalksOfRows(rows)| <= |rows|
  {
    TalksOfRowsKept(rows);
    TalksOfRowsFrom(rows);
  }

  lemma {:induction false} TalksOfRowsKept(rows: seq<seq<string>>)
    ensures forall i :: 0 <= i < |rows| && KeptTalkRow(rows[i]) ==> RowTalk(rows[i]) in TalksOfRows(rows)
    decreases |rows|
  {
    if rows != [] {
      var init := rows[..|rows| - 1];
      var last := rows[|rows| - 1];
      TalksOfRowsKept(init);
      var pre := TalksOfRows(init);
      var add := if KeptTalkRow(last) then [RowTalk(last)] else [];
      assert TalksOfRows(rows) == pre + add;
      forall i | 0 <= i < |rows| && KeptTalkRow(rows[i]) ensures RowTalk(rows[i]) in pre + add {
        if i < |init| {
          assert rows[i] == init[i];
          assert RowTalk(init[i]) in pre;
        } else {
          assert rows[i] == last;
          assert RowTalk(last) in add;
        }
      }
    }
  }

  lemma {:induction false} TalksOfRowsFrom(rows: seq<seq<string>>)
    ensures forall t :: t in TalksOfRows(rows) ==>
              LoadedTalk(t) && exists i :: 0 <= i < |rows| && KeptTalkRow(rows[i]) && t == RowTalk(rows[i])
    ensures |TalksOfRows(rows)| <= |rows|
    decreases |rows|
  {
    if rows != [] {
      var init := rows[..|rows| - 1];
      var last := rows[|rows| - 1];
      TalksOfRowsFrom(init);
      var pre := TalksOfRows(init);
      var add := if KeptTalkRow(last) then [RowTalk(last)] else [];
      assert TalksOfRows(rows) == pre + add;
      forall t | t in pre + add
        ensures LoadedTalk(t) && exists i :: 0 <= i < |rows| && KeptTalkRow(rows[i]) && t == RowTalk(rows[i])
      {
        if t in pre {
          var i :| 0 <= i < |init| && KeptTalkRow(init[i]) && t == RowTalk(init[i]);
          assert rows[i] == init[i];
        } else {
          assert t == RowTalk(last);
          RowTalkLoaded(last);
          assert rows[|rows| - 1] == last;
        }
      }
    }
  }

  lemma RowTalkLoaded(row: seq<string>)
    requires KeptTalkRow(row)
    ensures LoadedTalk(RowTalk(row))
  {
    StripEmptyIff(row[5]);
    StripIdempotent(row[5]);
  }

  // ---------------------------------------------------------------------------
  // Attendees CSV: header variations, blank names dropped
  // ---------------------------------------------------------------------------

  const NameHeaders: seq<string> := ["Name", "name", "Full Name", "Attendee"]
  const OrganizationHeaders: seq<string> := ["Organization", "organization", "Institution", "Affiliation"]

  /** `row.get(k1) or row.get(k2) or ... or ""`: the first non-empty value among the headers. */
  function FirstNonEmpty(row: map<string, string>, keys: seq<string>): string {
    if keys == [] then ""
    else if keys[0] in row && row[keys[0]] != "" then row[keys[0]]
    else FirstNonEmpty(row, keys[1..])
  }

  /** The value chosen is that of the first header present with a non-empty value, if any. */
  lemma {:induction false} FirstNonEmptyIsFirst(row: map<string, string>, keys: seq<string>)
    ensures var r := FirstNonEmpty(row, keys);
            (r != "" ==> exists i :: (0 <= i < |keys| && keys[i] in row && row[keys[i]] == r
                                      && forall j :: 0 <= j < i ==> keys[j] !in row || row[keys[j]] == ""))
            && (r == "" <==> forall i :: 0 <= i < |keys| ==> keys[i] !in row || row[keys[i]] == "")
    decreases |keys|
  {
    if keys != [] && !(keys[0] in row && row[keys[0]] != "") {
      FirstNonEmptyIsFirst(row, keys[1..]);
      assert forall i :: 1 <= i < |keys| ==> keys[1..][i - 1] == keys[i];
      var r := FirstNonEmpty(row, keys);
      if r != "" {
        var i :| 0 <= i < |keys[1..]| && keys[1..][i] in row && row[keys[1..][i]] == r
                 && forall j :: 0 <= j < i ==> keys[1..][j] !in row || row[keys[1..][j]] == "";
        assert keys[i + 1] in row && row[keys[i + 1]] == r;
      }
    }
  }

  function RowAttendee(row: map<string, string>): Option<Attendee> {
    var name := Strip(FirstNonEmpty(row, NameHeaders));
    if name == "" then None
    else Some(AttendeeRecord(Text(name), Text(Strip(FirstNonEmpty(row, OrganizationHeaders)))))
  }

  function RowAttendees(rows: seq<map<string, string>>): (r: seq<Option<Attendee>>)
    ensures |r| == |rows| && forall i :: 0 <= i < |rows| ==> r[i] == RowAttendee(rows[i])
  {
    seq(|rows|, i requires 0 <= i < |rows| => RowAttendee(rows[i]))
  }

  /** The attendees of the rows with a non-blank name, in row order. */
  function AttendeesOfRows(rows: seq<map<string, string>>): seq<Attendee> {
    Somes(RowAttendees(rows))
  }

  /** The shape of a loaded attendee: stripped, non-empty name and stripped organisation. */
  predicate LoadedAttendee(a: Attendee) {
    a.AttendeeRecord? && a.name.Text? && a.organization.Text?
    && a.name.s != "" && Strip(a.name.s) == a.name.s && Strip(a.organization.s) == a.organization.s
  }

  /** `load_attendees_csv`: a missing file is no error and gives no attendees. */
  method LoadAttendees(exists_: bool, rows: seq<map<string, string>>) returns (r: seq<Attendee>)
    ensures r == (if exists_ then AttendeesOfRows(rows) else [])
  {
    if !exists_ {
      return [];
    }
    r := [];
    var i := 0;
    while i < |rows|
      invariant 0 <= i <= |rows|
      invariant r == AttendeesOfRows(rows[..i])
    {
      AttendeesOfRowsStep(rows, i);
      var row := rows[i];
      var name := FirstNonEmpty(row, NameHeaders);
      var org := FirstNonEmpty(row, OrganizationHeaders);
      if Strip(name) != "" {
        r := r + [AttendeeRecord(Text(Strip(name)), Text(Strip(org)))];
      }
      i := i + 1;
    }
    assert rows[..i] == rows;
  }

  /** One more row adds its attendee, if it has one. */
  lemma AttendeesOfRowsStep(rows: seq<map<string, string>>, i: int)
    requires 0 <= i < |rows|
    ensures AttendeesOfRows(rows[..i + 1])
            == AttendeesOfRows(rows[..i]) + (if RowAttendee(rows[i]).Some? then [RowAttendee(rows[i]).value] else [])
  {
    var xs := RowAttendees(rows[..i + 1]);
    assert xs[..i] == RowAttendees(rows[..i]);
    assert xs[i] == RowAttendee(rows[i]);
  }

  /** Every loaded attendee comes from a row with a non-blank name, and every such row is loaded. */
  lemma RowAttendeeShape(row: map<string, string>)
    ensures RowAttendee(row).Some? ==> LoadedAttendee(RowAttendee(row).value)
  {
    StripIdempotent(FirstNonEmpty(row, NameHeaders));
    StripIdempotent(FirstNonEmpty(row, OrganizationHeaders));
  }

  /** The loaded attendees are exactly the attendees of the rows with a non-blank name. */
  lemma AttendeesOfRowsMembers(rows: seq<map<string, string>>)
    ensures forall a :: a in AttendeesOfRows(rows) <==> exists i :: 0 <= i < |rows| && RowAttendee(rows[i]) == Some(a)
  {
    SomesMembers(RowAttendees(rows));
  }

  /** Each loaded attendee has a stripped, non-empty name and a stripped organisation. */
  lemma AttendeesOfRowsShape(rows: seq<map<string, string>>)
    ensures forall a :: a in AttendeesOfRows(rows) ==> LoadedAttendee(a)
  {
    var xs := RowAttendees(rows);
    SomesMembers(xs);
    forall a | a in AttendeesOfRows(rows) ensures LoadedAttendee(a) {
      var i :| 0 <= i < |xs| && xs[i] == Some(a);
      RowAttendeeShape(rows[i]);
    }
  }

  // ---------------------------------------------------------------------------
  // Merging talk speakers into the attendee list
  // ---------------------------------------------------------------------------

  /** The de-duplication key of an attendee: its lower-cased name. */
  function Key(a: Attendee): string {
    if a.AttendeeRecord? && a.name.Text? then Lower(a.name.s) else ""
  }

  function KeySet(xs: seq<Attendee>): set<string> {
    set i | 0 <= i < |xs| :: Key(xs[i])
  }

  /** The attendee list under construction and the set of lower-cased names already in it. */
  datatype Roster = Roster(attendees: seq<Attendee>, names: set<string>)

  predicate InSync(st: Roster) {
    st.names == KeySet(st.attendees)
  }

  /** `author.get("affiliation", "")`. */
  function AffiliationOf(p: Person): Field {
    if p.affiliation.Absent? then Text("") else p.affiliation
  }

  /** `talk.get("authors", [])` of a dictionary talk. */
  function AuthorsOf(t: Talk): seq<Person> {
    if t.TalkRecord? && t.authors.Records? then t.authors.records else []
  }

  /** One author: added when the name is non-empty and not yet present case-insensitively. */
  function AddAuthor(st: Roster, p: Person): Roster {
    if p.name.Truthy() && Lower(p.name.s) !in st.names
    then Roster(st.attendees + [AttendeeRecord(p.name, AffiliationOf(p))], st.names + {Lower(p.name.s)})
    else st
  }

  function AddAuthors(st: Roster, ps: seq<Person>): Roster
    decreases |ps|
  {
    if ps == [] then st else AddAuthors(AddAuthor(st, ps[0]), ps[1..])
  }

  function AddSpeakers(st: Roster, ts: seq<Talk>): Roster
    decreases |ts|
  {
    if ts == [] then st else AddSpeakers(AddAuthors(st, AuthorsOf(ts[0])), ts[1..])
  }

  /** No attendee at or after `from` repeats, case-insensitively, the name of any attendee before it. */
  predicate NoNewDuplicates(xs: seq<Attendee>, from: nat) {
    forall j, k :: 0 <= j < k < |xs| && from <= k ==> Key(xs[j]) != Key(xs[k])
  }

  /** `later` grew from `earlier` by appending entries that repeat no earlier name. */
  predicate Extends(earlier: Roster, later: Roster) {
    |earlier.attendees| <= |later.attendees|
    && later.attendees[..|earlier.attendees|] == earlier.attendees
    && earlier.names <= later.names
    && NoNewDuplicates(later.attendees, |earlier.attendees|)
  }

  lemma ExtendsTransitive(a: Roster, b: Roster, c: Roster)
    requires Extends(a, b) && Extends(b, c)
    ensures Extends(a, c)
  {
    assert c.attendees[..|a.attendees|] == c.attendees[..|b.attendees|][..|a.attendees|];
    forall j, k | 0 <= j < k < |c.attendees| && |a.attendees| <= k
      ensures Key(c.attendees[j]) != Key(c.attendees[k])
    {
      if k < |b.attendees| {
        assert c.attendees[j] == b.attendees[j] && c.attendees[k] == b.attendees[k];
      }
    }
  }

  lemma AddAuthorStep(st: Roster, p: Person)
    requires InSync(st)
    ensures InSync(AddAuthor(st, p)) && Extends(st, AddAuthor(st, p))
    ensures p.name.Truthy() ==> Lower(p.name.s) in AddAuthor(st, p).names
  {
    var r := AddAuthor(st, p);
    if r != st {
      var a := AttendeeRecord(p.name, AffiliationOf(p));
      assert r.attendees == st.attendees + [a];
      assert Key(a) == Lower(p.name.s);
      assert KeySet(r.attendees) == KeySet(st.attendees) + {Key(a)} by {
        forall x | x in KeySet(r.attendees) ensures x in KeySet(st.attendees) + {Key(a)} {
          var i :| 0 <= i < |r.attendees| && Key(r.attendees[i]) == x;
          if i < |st.attendees| {
            assert r.attendees[i] == st.attendees[i];
          }
        }
        forall x | x in KeySet(st.attendees) ensures x in KeySet(r.attendees) {
          var i :| 0 <= i < |st.attendees| && Key(st.attendees[i]) == x;
          assert r.attendees[i] == st.attendees[i];
        }
        assert Key(r.attendees[|st.attendees|]) == Key(a);
      }
      assert r.attendees[..|st.attendees|] == st.attendees;
      forall j, k | 0 <= j < k < |r.attendees| && |st.attendees| <= k
        ensures Key(r.attendees[j]) != Key(r.attendees[k])
      {
        assert k == |st.attendees| && r.attendees[j] == st.attendees[j];
        assert Key(st.attendees[j]) in KeySet(st.attendees);
      }
    }
  }

  lemma {:induction false} AddAuthorsProps(st: Roster, ps: seq<Person>)
    requires InSync(st)
    ensures InSync(AddAuthors(st, ps)) && Extends(st, AddAuthors(st, ps))
    ensures forall i :: 0 <= i < |ps| && ps[i].name.Truthy() ==> Lower(ps[i].name.s) in AddAuthors(st, ps).names
    decreases |ps|
  {
    if ps != [] {
      var mid := AddAuthor(st, ps[0]);
      AddAuthorStep(st, ps[0]);
      AddAuthorsProps(mid, ps[1..]);
      ExtendsTransitive(st, mid, AddAuthors(st, ps));
      assert forall i :: 1 <= i < |ps| ==> ps[1..][i - 1] == ps[i];
    }
  }

  /** Every non-empty author name of the talks is present in the merged roster. */
  predicate CoversSpeakers(st: Roster, ts: seq<Talk>) {
    forall i, j :: 0 <= i < |ts| && 0 <= j < |AuthorsOf(ts[i])| && AuthorsOf(ts[i])[j].name.Truthy() ==>
      Lower(AuthorsOf(ts[i])[j].name.s) in st.names
  }

  /**
   * The speaker merge keeps the original attendees as an unchanged prefix, appends
   * no name twice (case-insensitively), and ends with every speaker present.
   */
  lemma {:induction false} AddSpeakersProps(st: Roster, ts: seq<Talk>)
    requires InSync(st)
    ensures InSync(AddSpeakers(st, ts)) && Extends(st, AddSpeakers(st, ts))
    ensures CoversSpeakers(AddSpeakers(st, ts), ts)
    decreases |ts|
  {
    if ts != [] {
      var mid := AddAuthors(st, AuthorsOf(ts[0]));
      AddAuthorsProps(st, AuthorsOf(ts[0]));
      AddSpeakersProps(mid, ts[1..]);
      var r := AddSpeakers(st, ts);
      ExtendsTransitive(st, mid, r);
      forall i, j | 0 <= i < |ts| && 0 <= j < |AuthorsOf(ts[i])| && AuthorsOf(ts[i])[j].name.Truthy()
        ensures Lower(AuthorsOf(ts[i])[j].name.s) in r.names
      {
        if i > 0 {
          assert ts[1..][i - 1] == ts[i];
        }
      }
    }
  }

  lemma KeySetPrefix(xs: seq<Attendee>)
    ensures InSync(Roster(xs, KeySet(xs)))
  {
  }

  // ---------------------------------------------------------------------------
  // Track inputs directory
  // ---------------------------------------------------------------------------

  /**
   * A track's inputs directory: its path as given, and the files in it by name —
   * attendee CSV files as parsed rows and notes files as their text.
   */
  datatype InputsDir = InputsDir(
    path: string,
    csvFiles: map<string, seq<map<string, string>>>,
    textFiles: map<string, string>)

  /** `if track_inputs_dir:` — a directory is given and its path is non-empty. */
  predicate Given(inputs: Option<InputsDir>) {
    inputs.Some? && inputs.value.path != ""
  }

  function AttendeeCandidates(trackId: string): seq<string> {
    ["attendees.csv", "Attendees.csv", trackId + "_attendees.csv"]
  }

  function NotesCandidates(trackId: string): seq<string> {
    [trackId + "-notes.txt", trackId + "_notes.txt", "notes.txt", trackId + "-notes.md", "notes.md"]
  }

  /** The first candidate name that exists among `files`. */
  function FirstPresent<V>(names: seq<string>, files: map<string, V>): (r: Option<nat>)
    ensures r.Some? ==> r.value < |names| && names[r.value] in files
                        && forall j :: 0 <= j < r.value ==> names[j] !in files
    ensures r.None? ==> forall j :: 0 <= j < |names| ==> names[j] !in files
    decreases |names|
  {
    if names == [] then None
    else if names[0] in files then Some(0)
    else
      var r := FirstPresent(names[1..], files);
      assert forall j :: 1 <= j < |names| ==> names[1..][j - 1] == names[j];
      if r.Some? then Some(r.value + 1) else None
  }

  /** The attendees read from the first attendees file found, or none. */
  function DirAttendees(trackId: string, inputs: Option<InputsDir>): seq<Attendee> {
    if !Given(inputs) then []
    else
      var cands := AttendeeCandidates(trackId);
      match FirstPresent(cands, inputs.value.csvFiles)
      case None => []
      case Some(k) => AttendeesOfRows(inputs.value.csvFiles[cands[k]])
  }

  /** The text of the first notes file found (`None` when there is none). */
  function DirNotes(trackId: string, inputs: Option<InputsDir>): Option<string> {
    if !Given(inputs) then None
    else
      var cands := NotesCandidates(trackId);
      match FirstPresent(cands, inputs.value.textFiles)
      case None => None
      case Some(k) => Some(inputs.value.textFiles[cands[k]])
  }

  // ---------------------------------------------------------------------------
  // assemble_track_bundle
  // ---------------------------------------------------------------------------

  /** The talks the assembler accepts: dictionaries, and dictionary authors for the track's talks. */
  predicate AcceptedTalk(t: Talk, trackId: string) {
    t.TalkRecord? && (t.track == Text(trackId) ==> t.authors.Records? || t.authors.names == [])
  }

  /** `[t for t in lightning_talks if t.get("track") == track_id]`. */
  function TrackTalks(talks: seq<Talk>, trackId: string): (r: seq<Talk>)
    ensures |r| <= |talks|
  {
    if talks == [] then []
    else
      var last := talks[|talks| - 1];
      TrackTalks(talks[..|talks| - 1], trackId)
      + (if last.TalkRecord? && last.track == Text(trackId) then [last] else [])
  }

  /** The attendees of the default session: the file's attendees, then the new speakers. */
  function SessionAttendees(trackId: string, talks: seq<Talk>, inputs: Option<InputsDir>): seq<Attendee> {
    var loaded := DirAttendees(trackId, inputs);
    AddSpeakers(Roster(loaded, KeySet(loaded)), TrackTalks(talks, trackId)).attendees
  }

  function NotesField(notes: Option<string>): Field {
    if notes.Some? then Text(notes.value) else Null
  }

  function RoomField(room: Option<string>): Field {
    if room.Some? then Text(room.value) else Null
  }

  function DefaultSession(trackId: string, trackName: string, talks: seq<Talk>,
                          attendees: seq<Attendee>, notes: Field): Session {
    Session(Text(trackId + "-session-1"), Text(trackName + " Session"), Null, Records([]),
            talks, attendees, notes)
  }

  function NoTalksWarning(trackId: string): AssemblyWarning {
    AssemblyWarning(trackId, None, "No lightning talks found for track " + trackId, Warning)
  }

  function NoAttendeesWarning(trackId: string, dir: string): AssemblyWarning {
    AssemblyWarning(trackId, None, "No attendees file found in " + dir, Warning)
  }

  function NoNotesWarning(trackId: string, dir: string): AssemblyWarning {
    AssemblyWarning(trackId, None, "No notes file found in " + dir, Warning)
  }

  /**
   * The warnings raised, in order, given the directory (if one is given) and whether
   * the track has no talks, no attendee was loaded, and the notes are missing or empty.
   */
  function WarningsOf(trackId: string, dir: Option<string>, noTalks: bool, noAttendees: bool, noNotes: bool)
    : seq<AssemblyWarning>
  {
    (if noTalks then [NoTalksWarning(trackId)] else []) + InputsWarnings(trackId, dir, noAttendees, noNotes)
  }

  /** The warnings about the inputs directory, when one is given. */
  function InputsWarnings(trackId: string, dir: Option<string>, noAttendees: bool, noNotes: bool)
    : seq<AssemblyWarning>
  {
    match dir
    case None => []
    case Some(d) =>
      (if noAttendees then [NoAttendeesWarning(trackId, d)] else [])
      + (if noNotes then [NoNotesWarning(trackId, d)] else [])
  }

  /** The warnings of one assembly. */
  function ExpectedWarnings(trackId: string, talks: seq<Talk>, inputs: Option<InputsDir>): seq<AssemblyWarning> {
    WarningsOf(trackId,
               if Given(inputs) then Some(inputs.value.path) else None,
               TrackTalks(talks, trackId) == [],
               DirAttendees(trackId, inputs) == [],
               DirNotes(trackId, inputs) == None || DirNotes(trackId, inputs) == Some(""))
  }

  /** `assemble_track_bundle`; `sessions == []` stands for both `None` and an empty list. */
  method AssembleTrackBundle(
    trackId: string,
    trackName: string,
    talks: seq<Talk>,
    inputs: Option<InputsDir>,
    room: Option<string>,
    sessions: seq<Session>)
    returns (r: AssemblyResult)
    requires forall i :: 0 <= i < |talks| ==> AcceptedTalk(talks[i], trackId)
    ensures r.bundle.track == Track(Text(trackId), Text(trackName), RoomField(room))
    ensures sessions != [] ==> r.bundle.sessions == sessions
    ensures sessions == [] ==>
              r.bundle.sessions == [DefaultSession(trackId, trackName, TrackTalks(talks, trackId),
                                                   SessionAttendees(trackId, talks, inputs),
                                                   NotesField(DirNotes(trackId, inputs)))]
    ensures r.bundle.sources == if Given(inputs) then ["Track inputs: " + inputs.value.path] else []
    ensures r.warnings == ExpectedWarnings(trackId, talks, inputs)
  {
    var warnings: seq<AssemblyWarning> := [];
    var trackTalks := TrackTalks(talks, trackId);
    if trackTalks == [] {
      warnings := warnings + [AssemblyWarning(trackId, None, "No lightning talks found for track " + trackId, Warning)];
    }
    assert warnings == if trackTalks == [] then [NoTalksWarning(trackId)] else [];

    var attendees, notes, inputsWarnings := ReadTrackInputs(trackId, inputs);
    ghost var attendees0 := attendees;
    warnings := warnings + inputsWarnings;
    attendees := MergeSpeakers(attendees, trackTalks);
    assert attendees == SessionAttendees(trackId, talks, inputs);

    var assembled: seq<Session>;
    if sessions != [] {
      assembled := sessions;
    } else {
      assembled := [Session(Text(trackId + "-session-1"), Text(trackName + " Session"), Null, Records([]),
                            trackTalks, attendees, if notes.Some? then Text(notes.value) else Null)];
      assert assembled == [DefaultSession(trackId, trackName, trackTalks, attendees, NotesField(notes))];
    }

    var sources: seq<string> := [];
    if inputs.Some? && inputs.value.path != "" {
      sources := ["Track inputs: " + inputs.value.path];
    }
    var track := Track(Text(trackId), Text(trackName), if room.Some? then Text(room.value) else Null);
    r := AssemblyResult(Bundle(track, assembled, sources), warnings);
    assert r.warnings == WarningsOf(trackId, if Given(inputs) then Some(inputs.value.path) else None,
                                    trackTalks == [], attendees0 == [], notes == None || notes == Some(""));
  }

  /** The part of `assemble_track_bundle` that reads the inputs directory, when one is given. */
  method ReadTrackInputs(trackId: string, inputs: Option<InputsDir>)
    returns (attendees: seq<Attendee>, notes: Option<string>, warnings: seq<AssemblyWarning>)
    ensures attendees == DirAttendees(trackId, inputs)
    ensures notes == DirNotes(trackId, inputs)
    ensures warnings == InputsWarnings(trackId, if Given(inputs) then Some(inputs.value.path) else None,
                                       attendees == [], notes == None || notes == Some(""))
  {
    warnings := [];
    attendees := [];
    notes := None;
    if inputs.Some? && inputs.value.path != "" {
      var dir := inputs.value;
      attendees := FindAttendees(trackId, dir);
      if attendees == [] {
        warnings := warnings + [AssemblyWarning(trackId, None, "No attendees file found in " + dir.path, Warning)];
      }
      ghost var w := warnings;
      notes := FindNotes(trackId, dir);
      if notes == None || notes == Some("") {
        warnings := warnings + [AssemblyWarning(trackId, None, "No notes file found in " + dir.path, Warning)];
      }
      assert warnings == w + warnings[|w|..];
    }
  }

  /** The loop over the attendee-file candidates: the first existing one is loaded. */
  method FindAttendees(trackId: string, dir: InputsDir) returns (attendees: seq<Attendee>)
    requires dir.path != ""
    ensures attendees == DirAttendees(trackId, Some(dir))
  {
    var candidates := AttendeeCandidates(trackId);
    attendees := [];
    var i := 0;
    while i < |candidates|
      invariant 0 <= i <= |candidates|
      invariant forall j :: 0 <= j < i ==> candidates[j] !in dir.csvFiles
      invariant attendees == []
    {
      if candidates[i] in dir.csvFiles {
        attendees := LoadAttendees(true, dir.csvFiles[candidates[i]]);
        assert FirstPresent(candidates, dir.csvFiles) == Some(i);
        return;
      }
      i := i + 1;
    }
  }

  /** The loop over the notes-file candidates: the first existing one is read. */
  method FindNotes(trackId: string, dir: InputsDir) returns (notes: Option<string>)
    requires dir.path != ""
    ensures notes == DirNotes(trackId, Some(dir))
  {
    var candidates := NotesCandidates(trackId);
    notes := None;
    var i := 0;
    while i < |candidates|
      invariant 0 <= i <= |candidates|
      invariant forall j :: 0 <= j < i ==> candidates[j] !in dir.textFiles
      invariant notes == None
    {
      if candidates[i] in dir.textFiles {
        notes := Some(dir.textFiles[candidates[i]]);
        assert FirstPresent(candidates, dir.textFiles) == Some(i);
        return;
      }
      i := i + 1;
    }
  }

  /** The nested merge loop over the track's talks and their authors, with the set of seen names. */
  method MergeSpeakers(attendees: seq<Attendee>, talks: seq<Talk>) returns (merged: seq<Attendee>)
    ensures merged == AddSpeakers(Roster(attendees, KeySet(attendees)), talks).attendees
  {
    var seen := set a | a in attendees :: Key(a);
    assert seen == KeySet(attendees) by {
      forall x | x in KeySet(attendees) ensures x in seen {
        var i :| 0 <= i < |attendees| && Key(attendees[i]) == x;
        assert attendees[i] in attendees;
      }
    }
    merged := attendees;
    ghost var goal := AddSpeakers(Roster(attendees, seen), talks);
    var i := 0;
    while i < |talks|
      invariant 0 <= i <= |talks|
      invariant AddSpeakers(Roster(merged, seen), talks[i..]) == goal
    {
      var authors := AuthorsOf(talks[i]);
      assert talks[i..][1..] == talks[i + 1..];
      var j := 0;
      while j < |authors|
        invariant 0 <= j <= |authors|
        invariant AddSpeakers(AddAuthors(Roster(merged, seen), authors[j..]), talks[i + 1..]) == goal
      {
        var author := authors[j];
        assert authors[j..][1..] == authors[j + 1..];
        if author.name.Truthy() && Lower(author.name.s) !in seen {
          merged := merged + [AttendeeRecord(author.name, if author.affiliation.Absent? then Text("") else author.affiliation)];
          seen := seen + {Lower(author.name.s)};
        }
        j := j + 1;
      }
      i := i + 1;
    }
  }

  /** The bundle's talks are exactly the input talks of the track, in input order. */
  lemma {:induction false} TrackTalksMembers(talks: seq<Talk>, trackId: string)
    ensures forall t :: t in TrackTalks(talks, trackId) <==> t in talks && t.TalkRecord? && t.track == Text(trackId)
    decreases |talks|
  {
    if talks != [] {
      TrackTalksMembers(talks[..|talks| - 1], trackId);
      assert talks == talks[..|talks| - 1] + [talks[|talks| - 1]];
    }
  }

  lemma {:induction false} TrackTalksConcat(a: seq<Talk>, b: seq<Talk>, trackId: string)
    ensures TrackTalks(a + b, trackId) == TrackTalks(a, trackId) + TrackTalks(b, trackId)
    decreases |b|
  {
    if b == [] {
      assert a + b == a;
    } else {
      assert (a + b)[..|a + b| - 1] == a + b[..|b| - 1];
      TrackTalksConcat(a, b[..|b| - 1], trackId);
    }
  }

  /**
   * The three warnings: the talks warning exactly when the track has no talks; the
   * attendees and notes warnings only with an inputs directory, and then exactly when
   * no attendee was loaded, or no notes file was found or it is empty. None is an error.
   */
  lemma WarningsOfIff(trackId: string, dir: Option<string>, noTalks: bool, noAttendees: bool, noNotes: bool)
    ensures var ms := Messages(WarningsOf(trackId, dir, noTalks, noAttendees, noNotes));
            ("No lightning talks found for track " + trackId in ms <==> noTalks)
            && (dir.Some? ==>
                  ("No attendees file found in " + dir.value in ms <==> noAttendees)
                  && ("No notes file found in " + dir.value in ms <==> noNotes))
            && (dir.None? ==> |ms| <= 1)
    ensures forall w :: w in WarningsOf(trackId, dir, noTalks, noAttendees, noNotes) ==> w.severity == Warning
  {
    var w1 := if noTalks then [NoTalksWarning(trackId)] else [];
    if dir.Some? {
      DirWarningsIff(trackId, dir.value, noTalks, noAttendees, noNotes);
    } else {
      assert WarningsOf(trackId, dir, noTalks, noAttendees, noNotes) == w1;
      assert Messages(w1) == if noTalks then [NoTalksWarning(trackId).message] else [];
    }
  }

  /** The case of `WarningsOfIff` with an inputs directory `d`. */
  lemma DirWarningsIff(trackId: string, d: string, noTalks: bool, noAttendees: bool, noNotes: bool)
    ensures var ms := Messages(WarningsOf(trackId, Some(d), noTalks, noAttendees, noNotes));
            ("No lightning talks found for track " + trackId in ms <==> noTalks)
            && ("No attendees file found in " + d in ms <==> noAttendees)
            && ("No notes file found in " + d in ms <==> noNotes)
  {
    var t := "No lightning talks found for track " + trackId;
    var a := "No attendees file found in " + d;
    var n := "No notes file found in " + d;
    WarningTextsDiffer(trackId, d);
    var w1 := if noTalks then [NoTalksWarning(trackId)] else [];
    var w2 := if noAttendees then [NoAttendeesWarning(trackId, d)] else [];
    var w3 := if noNotes then [NoNotesWarning(trackId, d)] else [];
    assert InputsWarnings(trackId, Some(d), noAttendees, noNotes) == w2 + w3;
    AppendAssoc(w1, w2, w3);
    MessagesConcat(w1 + w2, w3);
    MessagesConcat(w1, w2);
    assert Messages(w1) == if noTalks then [t] else [];
    assert Messages(w2) == if noAttendees then [a] else [];
    assert Messages(w3) == if noNotes then [n] else [];
  }

  /** The three warning texts are pairwise distinct. */
  lemma WarningTextsDiffer(trackId: string, d: string)
    ensures "No attendees file found in " + d != "No lightning talks found for track " + trackId
    ensures "No notes file found in " + d != "No lightning talks found for track " + trackId
    ensures "No attendees file found in " + d != "No notes file found in " + d
  {
    var t := "No lightning talks found for track " + trackId;
    var a := "No attendees file found in " + d;
    var n := "No notes file found in " + d;
    assert a[3] == 'a' && t[3] == 'l' && n[3] == 'n';
  }

  /**
   * The three warnings: the talks warning exactly when the track has no talks; the
   * attendees and notes warnings only with an inputs directory, and then exactly when
   * no attendee was loaded, or no notes file was found or it is empty. None is an error.
   */
  lemma WarningsIff(trackId: string, talks: seq<Talk>, inputs: Option<InputsDir>)
    ensures var ms := Messages(ExpectedWarnings(trackId, talks, inputs));
            ("No lightning talks found for track " + trackId in ms <==> TrackTalks(talks, trackId) == [])
            && (Given(inputs) ==>
                  ("No attendees file found in " + inputs.value.path in ms <==> DirAttendees(trackId, inputs) == [])
                  && ("No notes file found in " + inputs.value.path in ms
                      <==> DirNotes(trackId, inputs).None? || DirNotes(trackId, inputs) == Some("")))
            && (!Given(inputs) ==> |ms| <= 1)
    ensures !AssemblyResult(Bundle(Track(Absent, Absent, Absent), [], []), ExpectedWarnings(trackId, talks, inputs)).HasErrors()
  {
    var dir := if Given(inputs) then Some(inputs.value.path) else None;
    var noTalks := TrackTalks(talks, trackId) == [];
    var noAttendees := DirAttendees(trackId, inputs) == [];
    var noNotes := DirNotes(trackId, inputs) == None || DirNotes(trackId, inputs) == Some("");
    var ws := WarningsOf(trackId, dir, noTalks, noAttendees, noNotes);
    assert ExpectedWarnings(trackId, talks, inputs) == ws;
    WarningsOfIff(trackId, dir, noTalks, noAttendees, noNotes);
    OnlyWarningsNoErrors(Bundle(Track(Absent, Absent, Absent), [], []), ws);
  }

  /** A result whose every entry is a warning has no errors. */
  lemma OnlyWarningsNoErrors(b: Bundle, ws: seq<AssemblyWarning>)
    requires forall w :: w in ws ==> w.severity == Warning
    ensures !AssemblyResult(b, ws).HasErrors()
  {
    forall i | 0 <= i < |ws| ensures ws[i].severity == Warning {
      assert ws[i] in ws;
    }
  }

  lemma MessagesConcat(a: seq<AssemblyWarning>, b: seq<AssemblyWarning>)
    ensures Messages(a + b) == Messages(a) + Messages(b)
  {
  }

  /** Without an inputs directory the attendees are the track's speakers and nothing else. */
  lemma NoDirectorySpeakersOnly(trackId: string, talks: seq<Talk>, inputs: Option<InputsDir>)
    requires !Given(inputs)
    ensures SessionAttendees(trackId, talks, inputs) == AddSpeakers(Roster([], {}), TrackTalks(talks, trackId)).attendees
    ensures DirNotes(trackId, inputs) == None
  {
    assert KeySet([]) == {};
  }

  /**
   * The merged attendee list starts with the loaded attendees unchanged, repeats no
   * name case-insensitively after them, and contains every speaker of the track.
   */
  lemma SessionAttendeesProps(trackId: string, talks: seq<Talk>, inputs: Option<InputsDir>)
    ensures var loaded := DirAttendees(trackId, inputs);
            var merged := SessionAttendees(trackId, talks, inputs);
            var ts := TrackTalks(talks, trackId);
            |loaded| <= |merged| && merged[..|loaded|] == loaded
            && NoNewDuplicates(merged, |loaded|)
            && forall i, j :: 0 <= i < |ts| && 0 <= j < |AuthorsOf(ts[i])| && AuthorsOf(ts[i])[j].name.Truthy() ==>
                 exists k :: 0 <= k < |merged| && Key(merged[k]) == Lower(AuthorsOf(ts[i])[j].name.s)
  {
    var loaded := DirAttendees(trackId, inputs);
    var st := Roster(loaded, KeySet(loaded));
    var ts := TrackTalks(talks, trackId);
    AddSpeakersProps(st, ts);
  }

  // ---------------------------------------------------------------------------
  // assemble_all_tracks
  // ---------------------------------------------------------------------------

  /** The truthy `track` values of the talks, in talk order (with repetitions). */
  function TrackValues(talks: seq<Talk>): (r: seq<string>)
    ensures forall x :: x in r <==> exists i :: 0 <= i < |talks| && talks[i].TalkRecord?
                                                && talks[i].track.Truthy() && talks[i].track.s == x
  {
    if talks == [] then []
    else
      var last := talks[|talks| - 1];
      var init := TrackValues(talks[..|talks| - 1]);
      assert forall i :: 0 <= i < |talks| - 1 ==> talks[..|talks| - 1][i] == talks[i];
      init + (if last.TalkRecord? && last.track.Truthy() then [last.track.s] else [])
  }

  /** The track ids in the order they are processed: `sorted(tracks)`. */
  function TrackIds(talks: seq<Talk>): seq<string> {
    SortedSet(TrackValues(talks))
  }

  /** `track_mapping.get(track_id, track_id)`, with the default mapping when none is given. */
  function TrackName(mapping: Option<map<string, string>>, trackId: string): string {
    match mapping
    case None => Title(ReplaceChar(trackId, '-', ' '))
    case Some(m) => if trackId in m then m[trackId] else trackId
  }

  /**
   * What the assembly of track `id` yields: the track's id and name without a room, one
   * default session holding the track's talks, attendees and notes, the inputs directory as the only source
   * when there is one, and the warnings of that assembly.
   */
  predicate TrackBundleOf(talks: seq<Talk>, dirs: map<string, InputsDir>, mapping: Option<map<string, string>>,
                          id: string, r: AssemblyResult)
  {
    var inputs := if id in dirs then Some(dirs[id]) else None;
    r.bundle.track == Track(Text(id), Text(TrackName(mapping, id)), Null)
    && r.bundle.sources == (if Given(inputs) then ["Track inputs: " + dirs[id].path] else [])
    && r.warnings == ExpectedWarnings(id, talks, inputs)
    && r.bundle.sessions == [DefaultSession(id, TrackName(mapping, id), TrackTalks(talks, id),
                                            SessionAttendees(id, talks, inputs),
                                            NotesField(DirNotes(id, inputs)))]
  }

  /**
   * `assemble_all_tracks` over already-loaded talks. `dirs` holds the inputs directory
   * of each track that has one; writing the bundle files is not modelled.
   */
  method AssembleAllTracks(
    talks: seq<Talk>,
    dirs: map<string, InputsDir>,
    mapping: Option<map<string, string>>)
    returns (results: seq<(string, AssemblyResult)>)
    requires forall i :: 0 <= i < |talks| ==> talks[i].TalkRecord? && talks[i].authors.Records?
    ensures |results| == |TrackIds(talks)|
    ensures forall i :: 0 <= i < |results| ==> results[i].0 == TrackIds(talks)[i]
    ensures forall i :: 0 <= i < |results| ==> TrackBundleOf(talks, dirs, mapping, results[i].0, results[i].1)
  {
    var ids := TrackIds(talks);
    results := [];
    var i := 0;
    while i < |ids|
      invariant 0 <= i <= |ids|
      invariant |results| == i
      invariant forall k :: 0 <= k < i ==> results[k].0 == ids[k]
      invariant forall k :: 0 <= k < i ==> TrackBundleOf(talks, dirs, mapping, results[k].0, results[k].1)
    {
      var id := ids[i];
      var name := if mapping.Some? then (if id in mapping.value then mapping.value[id] else id)
                  else Title(ReplaceChar(id, '-', ' '));
      assert name == TrackName(mapping, id);
      var inputs := if id in dirs then Some(dirs[id]) else None;
      assert forall k :: 0 <= k < |talks| ==> AcceptedTalk(talks[k], id);
      var result := AssembleTrackBundle(id, name, talks, inputs, None, []);
      assert TrackBundleOf(talks, dirs, mapping, id, result);
      ghost var prev := results;
      results := results + [(id, result)];
      forall k | 0 <= k <= i ensures results[k].0 == ids[k] && TrackBundleOf(talks, dirs, mapping, results[k].0, results[k].1) {
        if k < i {
          assert results[k] == prev[k];
        }
      }
      i := i + 1;
    }
  }

  /**
   * Every track of `assemble_all_tracks` is processed once, in increasing order, and
   * has at least one talk, so it never raises the "No lightning talks" warning.
   */
  lemma AllTracksProps(talks: seq<Talk>)
    ensures StrictlySorted(TrackIds(talks))
    ensures forall x :: x in TrackIds(talks) <==>
              exists i :: 0 <= i < |talks| && talks[i].TalkRecord? && talks[i].track.Truthy() && talks[i].track.s == x
    ensures forall x :: x in TrackIds(talks) ==> TrackTalks(talks, x) != []
  {
    forall x | x in TrackIds(talks) ensures TrackTalks(talks, x) != [] {
      var i :| 0 <= i < |talks| && talks[i].TalkRecord? && talks[i].track.Truthy() && talks[i].track.s == x;
      TrackTalksMembers(talks, x);
      assert talks[i] in TrackTalks(talks, x);
    }
  }

  lemma TitleOfTrackOne()
    ensures Title("Track 1") == "Track 1"
  {
    var s := "Track 1";
    TitleChars(s);
    forall i | 0 <= i < |s| ensures Title(s)[i] == s[i] {
      assert i == 0 || i == 1 || i == 2 || i == 3 || i == 4 || i == 5 || i == 6;
    }
  }

  /** The default mapping turns "Track-1" into "Track 1"; a given mapping without the id falls back to it. */
  lemma TrackOneName()
    ensures TrackName(None, "Track-1") == "Track 1"
    ensures TrackName(Some(map["Track-2" := "Agents"]), "Track-1") == "Track-1"
  {
    assert ReplaceChar("Track-1", '-', ' ') == "Track 1";
    TitleOfTrackOne();
  }

  /**
   * The default mapping turns every `-` into a space and title-cases the id: the name
   * is as long as the id, holds no `-`, and differs from the spaced id only in the case
   * of letters, a letter being upper-cased exactly when it does not follow a letter.
   * A given mapping names the ids it holds and falls back to the id itself otherwise.
   */
  lemma DefaultTrackName(id: string, m: map<string, string>)
    ensures |TrackName(None, id)| == |id|
    ensures '-' !in TrackName(None, id)
    ensures Lower(TrackName(None, id)) == Lower(ReplaceChar(id, '-', ' '))
    ensures forall i :: 0 <= i < |id| ==>
              TrackName(None, id)[i] == TitleChar(if id[i] == '-' then ' ' else id[i], 0 < i && IsLetter(id[i - 1]))
    ensures id in m ==> TrackName(Some(m), id) == m[id]
    ensures id !in m ==> TrackName(Some(m), id) == id
  {
    var spaced := ReplaceChar(id, '-', ' ');
    TitleChars(spaced);
    forall i | 0 <= i < |id| ensures TrackName(None, id)[i] != '-' {
      assert !IsLetter('-');
    }
  }
}
