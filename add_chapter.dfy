/** The "add chapter" form for an existing story: `storyId` and `next` come
    from the query string, and `handleAdd` inserts the chapter and then its
    options. */
module AddChapter {
  import opened Common
  import Store

  datatype AddOutcome =
    | FieldsMissing            // the "fill in everything" alert; nothing written
    | ChapterFailed            // the error alert; nothing written
    | Added(chapterId: Id)     // the success alert and the move to the dashboard

  class AddChapterForm {
    /** The `storyId` query parameter, absent when the URL has none. */
    const storyId: Option<Id>
    /** `Number(next)` for the `next` query parameter. */
    const nextNumber: int
    var title: string
    var content: string
    var question: string
    var options: seq<string>
    var hours: int
    var loading: bool

    constructor (story: Option<Id>, next: int)
      ensures storyId == story && nextNumber == next
      ensures title == "" && content == "" && question == ""
      ensures options == ["", "", ""] && hours == 24 && !loading
    {
      storyId, nextNumber := story, next;
      title, content, question := "", "", "";
      options, hours, loading := ["", "", ""], 24, false;
    }

    /** Typing into option input `i` replaces that entry and no other. */
    method EditOption(i: nat, text: string)
      requires i < |options|
      modifies this`options
      ensures |options| == |old(options)| && options[i] == text
      ensures forall j :: 0 <= j < |options| && j != i ==> options[j] == old(options)[j]
    {
      options := options[i := text];
    }

    /** The duration input: `setHours(Number(value))`. The 1..168 range is
        only an attribute of the input element; any number is kept. */
    method SetHours(h: int)
      modifies this`hours
      ensures hours == h
    {
      hours := h;
    }

    /** `handleAdd` with the clock reading `now`. Past the field check, the
        chapter is inserted with the number from the query (not compared with
        the story's chapters) and an expiry `hours` hours ahead; if that
        fails nothing else happens. Otherwise the zero-vote option rows are
        inserted, and success is reported whether or not that insert
        succeeded. `loading` stays set on success. */
    method HandleAdd(db: Store.Db, now: Time, chapterFails: bool, optionsFail: bool) returns (o: AddOutcome)
      requires db.Valid()
      modifies this`loading, db
      ensures db.Valid()
      ensures !FieldsComplete(title, content, question, options) ==>
                o == FieldsMissing && unchanged(db) && loading == old(loading)
      ensures FieldsComplete(title, content, question, options) ==>
                db.acceptedTerms == old(db.acceptedTerms) && db.stories == old(db.stories) &&
                db.votes == old(db.votes) && db.favorites == old(db.favorites)
      ensures FieldsComplete(title, content, question, options) && chapterFails ==>
                o == ChapterFailed && !loading && db.chapters == old(db.chapters) && db.options == old(db.options)
      ensures FieldsComplete(title, content, question, options) && !chapterFails ==>
                o == Added(old(db.nextId)) && loading &&
                db.chapters == old(db.chapters) +
                               [Store.ChapterRow(old(db.nextId), storyId, nextNumber, title, content, question,
                                                 ExpiryAfter(now, hours))] &&
                db.options == if optionsFail then old(db.options)
                              else old(db.options) + Store.OptionRowsFor(old(db.nextId), options, old(db.nextId) + 1)
    {
      if !FieldsComplete(title, content, question, options) {
        return FieldsMissing;
      }
      loading := true;

      var expiresAt := ExpiryAfter(now, hours);
      var chapter := db.InsertChapter(storyId, nextNumber, title, content, question, expiresAt, chapterFails);
      if chapter.None? {
        loading := false;
        return ChapterFailed;
      }

      var _ := db.InsertOptions(chapter.value, options, optionsFail);
      o := Added(chapter.value);
    }
  }
}
