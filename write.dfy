/** The "new story" form: the story fields, its first chapter and poll,
    the terms gate for authors who have not yet accepted the terms, and
    `handlePublish`, which writes profile, story, chapter and options in
    that order and stops at the first failed insert; the outcome of the
    profile update is not looked at. */
module Write {
  import opened Common
  import Store

  /** Which insert failed. */
  datatype Step = StoryStep | ChapterStep | OptionsStep

  datatype PublishOutcome =
    | FieldsMissing             // the "fill in every field" alert; nothing written
    | TermsRequired             // the "accept the terms" alert; nothing written
    | StepFailed(step: Step)    // the error alert; earlier inserts stay
    | Published(storyId: Id, chapterId: Id)

  /** Which store requests fail, one flag per write. */
  datatype Faults = Faults(terms: bool, story: bool, chapter: bool, options: bool)

  class WriteForm {
    const author: UserId
    var hasAcceptedAlready: bool
    var checkboxChecked: bool
    var title: string
    var description: string
    var ageRating: string
    var chapterTitle: string
    var content: string
    var question: string
    var timerHours: int
    var options: seq<string>
    var loading: bool

    /** The form as `checkUser` leaves it for a signed-in author, with the
        profile's `accepted_terms` flag. (A visitor never sees the form.) */
    constructor (user: UserId, acceptedTerms: bool)
      ensures author == user && hasAcceptedAlready == acceptedTerms && !checkboxChecked
      ensures title == "" && description == "" && ageRating == "16+"
      ensures chapterTitle == "Глава 1" && content == "" && question == ""
      ensures timerHours == 24 && options == ["", "", ""] && !loading
    {
      author := user;
      hasAcceptedAlready, checkboxChecked := acceptedTerms, false;
      title, description, ageRating := "", "", "16+";
      chapterTitle, content, question := "Глава 1", "", "";
      timerHours, options, loading := 24, ["", "", ""], false;
    }

    /** Typing into option input `i` replaces that entry and no other. */
    method EditOption(i: nat, text: string)
      requires i < |options|
      modifies this`options
      ensures |options| == |old(options)| && options[i] == text
      ensures forall j :: 0 <= j < |options| && j != i ==> options[j] == old(options)[j]
    {
      options := options[i := text];
    }

    /** The two checks `handlePublish` makes before writing anything, in
        order: every field filled in, then the terms accepted now or before. */
    function Gate(): (r: Option<PublishOutcome>)
      reads this
      ensures r == None <==> FieldsComplete(title, content, question, options) &&
                             (hasAcceptedAlready || checkboxChecked)
      ensures !FieldsComplete(title, content, question, options) ==> r == Some(FieldsMissing)
      ensures FieldsComplete(title, content, question, options) && !hasAcceptedAlready && !checkboxChecked ==>
                r == Some(TermsRequired)
    {
      if !FieldsComplete(title, content, question, options) then Some(FieldsMissing)
      else if !hasAcceptedAlready && !checkboxChecked then Some(TermsRequired)
      else None
    }

    /** `handlePublish` with the clock reading `now`. A failed gate writes
        nothing. Past it, the terms are recorded when not accepted before
        (the outcome of that update is not checked), then the story, the
        first chapter (number 1, expiring `timerHours` hours later) and one
        zero-vote option row per input are inserted in that order, stopping
        at the first failed insert and undoing nothing. */
    method HandlePublish(db: Store.Db, now: Time, faults: Faults) returns (o: PublishOutcome)
      requires db.Valid()
      modifies this`loading, db
      ensures db.Valid()
      ensures old(Gate()).Some? ==> o == old(Gate()).value && unchanged(db) && loading == old(loading)
      ensures old(Gate()).None? ==> !loading && db.votes == old(db.votes) && db.favorites == old(db.favorites)
      ensures old(Gate()).None? ==>
                db.acceptedTerms == if !hasAcceptedAlready && !faults.terms then old(db.acceptedTerms) + {author}
                                    else old(db.acceptedTerms)
      // the story insert
      ensures old(Gate()).None? && faults.story ==>
                o == StepFailed(StoryStep) &&
                db.stories == old(db.stories) && db.chapters == old(db.chapters) && db.options == old(db.options)
      ensures old(Gate()).None? && !faults.story ==>
                db.stories == old(db.stories) + [Store.StoryRow(old(db.nextId), title, description, ageRating, author)]
      // the chapter insert
      ensures old(Gate()).None? && !faults.story && faults.chapter ==>
                o == StepFailed(ChapterStep) && db.chapters == old(db.chapters) && db.options == old(db.options)
      ensures old(Gate()).None? && !faults.story && !faults.chapter ==>
                db.chapters == old(db.chapters) +
                               [Store.ChapterRow(old(db.nextId) + 1, Some(old(db.nextId)), 1, chapterTitle,
                                                 content, question, ExpiryAfter(now, timerHours))]
      // the options insert
      ensures old(Gate()).None? && !faults.story && !faults.chapter && faults.options ==>
                o == StepFailed(OptionsStep) && db.options == old(db.options)
      ensures old(Gate()).None? && !faults.story && !faults.chapter && !faults.options ==>
                o == Published(old(db.nextId), old(db.nextId) + 1) &&
                db.options == old(db.options) + Store.OptionRowsFor(old(db.nextId) + 1, options, old(db.nextId) + 2)
    {
      var gate := Gate();
      if gate.Some? {
        return gate.value;
      }
      loading := true;

      if !hasAcceptedAlready {
        db.AcceptTerms(author, faults.terms);
      }

      var story := db.InsertStory(title, description, ageRating, author, faults.story);
      if story.None? {
        loading := false;
        return StepFailed(StoryStep);
      }

      var expiresAt := ExpiryAfter(now, timerHours);
      var chapter := db.InsertChapter(Some(story.value), 1, chapterTitle, content, question, expiresAt, faults.chapter);
      if chapter.None? {
        loading := false;
        return StepFailed(ChapterStep);
      }

      var ok := db.InsertOptions(chapter.value, options, faults.options);
      loading := false;
      if !ok {
        return StepFailed(OptionsStep);
      }
      o := Published(story.value, chapter.value);
    }
  }
}
