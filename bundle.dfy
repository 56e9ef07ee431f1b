/**
 * The track bundle: the JSON document that the assembler builds and the
 * generator turns into prompt text (`{"track": ..., "sessions": [...], "sources": [...]}`).
 */
module Bundle {

  /**
   * A dictionary entry as `d.get(key, default)` sees it: the key is missing,
   * it holds `None`, or it holds a string.
   */
  datatype Field = Absent | Null | Text(s: string) {

    /** The entry as an f-string shows `d.get(key, default)`. */
    function Show(default: string): (r: string)
      ensures Absent? ==> r == default
      ensures Null? ==> r == "None"
      ensures Text? ==> r == s
    {
      match this
      case Absent => default
      case Null => "None"
      case Text(s) => s
    }

    /** Python truthiness of the entry: a non-empty string. */
    predicate Truthy() {
      Text? && s != ""
    }
  }

  /** A person record (`{"name": ..., "affiliation": ...}`) in a leaders or authors list. */
  datatype Person = Person(name: Field, affiliation: Field)

  /**
   * A leaders or authors list. The formatter looks at the first element: a list
   * whose first element is a dict is rendered as records, any other as strings.
   */
  datatype People = Records(records: seq<Person>) | Names(names: seq<string>) {
    predicate IsEmpty() {
      if Records? then records == [] else names == []
    }
  }

  /** A lightning talk: a dict with title, authors, abstract and track, or a bare string. */
  datatype Talk =
    | TalkRecord(title: Field, authors: People, abstractText: Field, track: Field)
    | TalkText(text: string)

  /** An attendee: a dict with name and organization, or a bare string. */
  datatype Attendee =
    | AttendeeRecord(name: Field, organization: Field)
    | AttendeeText(text: string)

  datatype Session = Session(
    id: Field,
    title: Field,
    slot: Field,
    leaders: People,
    talks: seq<Talk>,
    attendees: seq<Attendee>,
    notes: Field)

  /** The `track` entry; a bundle without one behaves as a track whose fields are all absent. */
  datatype Track = Track(id: Field, name: Field, room: Field)

  datatype Bundle = Bundle(track: Track, sessions: seq<Session>, sources: seq<string>)
}
