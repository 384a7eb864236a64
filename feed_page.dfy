/** The reader feed's mutable state: the chapters on screen, the cursor,
    the signed-in reader, their favourites and voted chapters, and the
    double-tap detector. Each handler is a method over that state; the
    store is the abstract `Store.Db`. */
module FeedPage {
  import opened Common
  import opened Feed
  import Store

  /** Two taps closer together than this many milliseconds are a double tap. */
  const DoubleTapDelay: int := 300

  /** A touch that moved this many pixels or more is a swipe, not a tap. */
  const TapSlop: int := 10

  function Abs(x: int): int
  {
    if x < 0 then -x else x
  }

  /** A recorded tap (zero means none) less than `DoubleTapDelay` ago. */
  predicate IsDoubleTap(lastTap: Time, now: Time)
  {
    lastTap != 0 && now - lastTap < DoubleTapDelay
  }

  /** A touch that ended less than `TapSlop` pixels from where it started. */
  predicate IsTap(startX: int, endX: int)
  {
    Abs(endX - startX) < TapSlop
  }

  /** The cursor after a request to move on: one step, unless already on
      the last chapter. */
  function Advanced(index: nat, count: nat): (r: nat)
    ensures index < count ==> r < count
    ensures r == index || r == index + 1
    ensures r == index + 1 <==> index + 1 < count
  {
    if index < count - 1 then index + 1 else index
  }

  function SetOf(rows: Option<seq<Id>>): set<Id>
  {
    if rows.Some? then set i | 0 <= i < |rows.value| :: rows.value[i] else {}
  }

  /** What a handler did: sent the visitor to sign in, showed a failure
      alert, or went through. */
  datatype Outcome = RedirectToAuth | FailureAlert | Updated

  class FeedState {
    var chapters: seq<Chapter>
    var currentIndex: nat
    var loading: bool
    var user: Option<UserId>
    var favorites: set<Id>
    var votedChapters: set<Id>
    var touchStart: int
    var lastTap: Time
    var tapTimerArmed: bool

    /** The cursor points at a chapter whenever there is one. */
    ghost predicate Valid()
      reads this
    {
      (loading ==> chapters == [] && currentIndex == 0) &&
      (currentIndex == 0 || currentIndex < |chapters|)
    }

    constructor ()
      ensures Valid() && loading
      ensures chapters == [] && currentIndex == 0 && user == None
      ensures favorites == {} && votedChapters == {}
      ensures touchStart == 0 && lastTap == 0 && !tapTimerArmed
    {
      chapters, currentIndex, loading, user := [], 0, true, None;
      favorites, votedChapters := {}, {};
      touchStart, lastTap, tapTimerArmed := 0, 0, false;
    }

    /** The end of `loadFeed`: the reader, the chapters (kept empty when the
        query returned nothing), and for a signed-in reader the ids of their
        favourite stories and voted chapters (empty when a query failed). */
    method FinishLoad(u: Option<UserId>, data: Option<seq<Chapter>>,
                      favoriteRows: Option<seq<Id>>, voteRows: Option<seq<Id>>)
      requires Valid() && loading
      modifies this
      ensures Valid() && !loading
      ensures user == u && currentIndex == 0
      ensures chapters == if data.Some? then data.value else []
      ensures favorites == if u.Some? then SetOf(favoriteRows) else old(favorites)
      ensures votedChapters == if u.Some? then SetOf(voteRows) else old(votedChapters)
      ensures touchStart == old(touchStart) && lastTap == old(lastTap) && tapTimerArmed == old(tapTimerArmed)
    {
      user := u;
      if data.Some? {
        chapters := data.value;
      }
      if u.Some? {
        favorites := SetOf(favoriteRows);
        votedChapters := SetOf(voteRows);
      }
      loading := false;
    }

    /** `handleDoubleTap`: move to the next chapter if there is one. */
    method HandleDoubleTap()
      requires Valid()
      modifies this`currentIndex
      ensures Valid()
      ensures currentIndex == Advanced(old(currentIndex), |chapters|)
    {
      if currentIndex < |chapters| - 1 {
        currentIndex := currentIndex + 1;
      }
    }

    /** The "next chapter" button, which is only rendered while a next
        chapter exists. */
    method NextChapter()
      requires Valid()
      requires currentIndex < |chapters| - 1
      modifies this`currentIndex
      ensures Valid()
      ensures currentIndex == old(currentIndex) + 1 && currentIndex < |chapters|
    {
      currentIndex := currentIndex + 1;
    }

    /** `handleTap` at clock reading `now`; `onControl` says the touch hit a
        link or a button, which the detector ignores. A second tap within
        the delay advances and forgets the first; any other tap is recorded
        and (re)arms the timer that forgets it. */
    method HandleTap(now: Time, onControl: bool)
      requires Valid()
      modifies this`currentIndex, this`lastTap, this`tapTimerArmed
      ensures Valid()
      ensures onControl ==>
                currentIndex == old(currentIndex) && lastTap == old(lastTap) && tapTimerArmed == old(tapTimerArmed)
      ensures !onControl && IsDoubleTap(old(lastTap), now) ==>
                currentIndex == Advanced(old(currentIndex), |chapters|) && lastTap == 0 &&
                tapTimerArmed == old(tapTimerArmed)
      ensures !onControl && !IsDoubleTap(old(lastTap), now) ==>
                currentIndex == old(currentIndex) && lastTap == now && tapTimerArmed
    {
      if onControl {
        return;
      }
      if lastTap != 0 && now - lastTap < DoubleTapDelay {
        HandleDoubleTap();
        lastTap := 0;
      } else {
        lastTap := now;
        tapTimerArmed := true;
      }
    }

    /** The armed timer fires `DoubleTapDelay` after the last recorded tap
        and forgets it. When it fires is up to the caller: the model keeps
        no clock, so it does not tie this event to the delay. */
    method TapTimerFires()
      requires Valid() && tapTimerArmed
      modifies this`lastTap, this`tapTimerArmed
      ensures Valid()
      ensures lastTap == 0 && !tapTimerArmed
    {
      lastTap, tapTimerArmed := 0, false;
    }

    /** `handleTouchStart`: remember where the finger went down. */
    method HandleTouchStart(x: int)
      modifies this`touchStart
      ensures touchStart == x
    {
      touchStart := x;
    }

    /** `handleTouchEnd`: a short movement is handed to the tap detector;
        a swipe is ignored. Either way the start position is reset. */
    method HandleTouchEnd(x: int, now: Time, onControl: bool)
      requires Valid()
      modifies this`currentIndex, this`lastTap, this`tapTimerArmed, this`touchStart
      ensures Valid()
      ensures touchStart == 0
      ensures !IsTap(old(touchStart), x) ==>
                currentIndex == old(currentIndex) && lastTap == old(lastTap) && tapTimerArmed == old(tapTimerArmed)
      ensures IsTap(old(touchStart), x) && !onControl && IsDoubleTap(old(lastTap), now) ==>
                currentIndex == Advanced(old(currentIndex), |chapters|) && lastTap == 0 &&
                tapTimerArmed == old(tapTimerArmed)
      ensures IsTap(old(touchStart), x) && !onControl && !IsDoubleTap(old(lastTap), now) ==>
                currentIndex == old(currentIndex) && lastTap == now && tapTimerArmed
      ensures IsTap(old(touchStart), x) && onControl ==>
                currentIndex == old(currentIndex) && lastTap == old(lastTap) && tapTimerArmed == old(tapTimerArmed)
    {
      if Abs(x - touchStart) < TapSlop {
        HandleTap(now, onControl);
      }
      touchStart := 0;
    }

    /** `toggleFavorite`: a visitor is sent to sign in; otherwise the local
        set flips membership of `storyId` and the matching insert or delete
        goes to the store, whose answer is not looked at. */
    method ToggleFavorite(storyId: Id, db: Store.Db, fails: bool) returns (o: Outcome)
      requires Valid() && db.Valid()
      modifies this`favorites, db
      ensures Valid() && db.Valid()
      ensures user.None? ==> o == RedirectToAuth && favorites == old(favorites) && db.favorites == old(db.favorites)
      ensures user.Some? ==>
                o == Updated && favorites == Toggled(old(favorites), storyId) &&
                db.favorites == if fails then old(db.favorites)
                                else if storyId in old(favorites) then old(db.favorites) - {(user.value, storyId)}
                                else old(db.favorites) + {(user.value, storyId)}
      ensures db.acceptedTerms == old(db.acceptedTerms) && db.stories == old(db.stories)
      ensures db.chapters == old(db.chapters) && db.options == old(db.options)
      ensures db.votes == old(db.votes) && db.nextId == old(db.nextId)
    {
      if user.None? {
        return RedirectToAuth;
      }
      var isFavorite := storyId in favorites;
      favorites := Toggled(favorites, storyId);
      db.WriteFavorite(user.value, storyId, !isFavorite, fails);
      o := Updated;
    }

    /** `handleVote(optionId, chapterId, currentVotes)`. A visitor is sent to
        sign in. Otherwise the vote row is inserted, then the option's count
        is overwritten with the snapshot `currentVotes + 1`, and only when
        both succeed is the local state patched. A failed count update
        leaves the inserted vote row in place. Neither the poll window nor
        earlier votes are re-checked here: the button is only offered while
        `canVote` holds. */
    method HandleVote(optionId: Id, chapterId: Id, currentVotes: int, db: Store.Db,
                      voteFails: bool, updateFails: bool) returns (o: Outcome)
      requires Valid() && db.Valid()
      modifies this`votedChapters, this`chapters, db
      ensures Valid() && db.Valid()
      ensures user.None? ==>
                o == RedirectToAuth && db.votes == old(db.votes) && db.options == old(db.options)
      ensures user.Some? && voteFails ==>
                o == FailureAlert && db.votes == old(db.votes) && db.options == old(db.options)
      ensures user.Some? && !voteFails ==>
                db.votes == old(db.votes) + [Store.VoteRow(user.value, chapterId)]
      ensures user.Some? && !voteFails && updateFails ==>
                o == FailureAlert && db.options == old(db.options)
      ensures user.Some? && !voteFails && !updateFails ==>
                o == Updated && db.options == Store.SetVotes(old(db.options), optionId, currentVotes + 1)
      ensures o == Updated ==>
                votedChapters == old(votedChapters) + {chapterId} &&
                chapters == PatchChapters(old(chapters), chapterId, optionId)
      ensures o != Updated ==> votedChapters == old(votedChapters) && chapters == old(chapters)
      ensures db.acceptedTerms == old(db.acceptedTerms) && db.stories == old(db.stories)
      ensures db.chapters == old(db.chapters) && db.favorites == old(db.favorites) && db.nextId == old(db.nextId)
    {
      if user.None? {
        return RedirectToAuth;
      }
      var inserted := db.InsertVote(user.value, chapterId, voteFails);
      if !inserted {
        return FailureAlert;
      }
      var updated := db.UpdateOptionVotes(optionId, currentVotes + 1, updateFails);
      if !updated {
        return FailureAlert;
      }
      votedChapters := votedChapters + {chapterId};
      chapters := PatchChapters(chapters, chapterId, optionId);
      o := Updated;
    }
  }
}
