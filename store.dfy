/** The relational store the pages talk to, as abstract tables. Every write
    takes a `fails` flag: whether the store answers that request with an
    error. The store hands out fresh ids from a counter. */
module Store {
  import opened Common

  datatype StoryRow = StoryRow(id: Id, title: string, description: string, ageRating: string, authorId: UserId)

  /** `storyId` is `None` when the add-chapter page was opened without a
      `storyId` query parameter. */
  datatype ChapterRow = ChapterRow(id: Id, storyId: Option<Id>, number: int, title: string,
                                   content: string, question: string, expiresAt: Time)

  datatype OptionRow = OptionRow(id: Id, chapterId: Id, text: string, votes: int)

  datatype VoteRow = VoteRow(userId: UserId, chapterId: Id)

  /** The option rows one batch insert creates for `texts`, with ids from
      `firstId` on: one row per text, in order, each with zero votes. */
  function OptionRowsFor(chapterId: Id, texts: seq<string>, firstId: Id): (rows: seq<OptionRow>)
    ensures |rows| == |texts|
    ensures forall i :: 0 <= i < |rows| ==>
              rows[i] == OptionRow(firstId + i, chapterId, texts[i], 0)
    decreases |texts|
  {
    if texts == [] then []
    else [OptionRow(firstId, chapterId, texts[0], 0)] + OptionRowsFor(chapterId, texts[1..], firstId + 1)
  }

  /** `update({ votes: v }).eq('id', optionId)`: every row with that id gets `v`. */
  function SetVotes(rows: seq<OptionRow>, optionId: Id, v: int): (r: seq<OptionRow>)
    ensures |r| == |rows|
    ensures forall i :: 0 <= i < |rows| ==>
              r[i] == if rows[i].id == optionId then rows[i].(votes := v) else rows[i]
    decreases |rows|
  {
    if rows == [] then []
    else [if rows[0].id == optionId then rows[0].(votes := v) else rows[0]] + SetVotes(rows[1..], optionId, v)
  }

  /** The stored count after the feed writes the client snapshot plus one:
      it is one more than what was stored exactly when the snapshot was current. */
  lemma {:induction false} SnapshotIncrement(rows: seq<OptionRow>, k: nat, snapshot: int)
    requires k < |rows|
    ensures SetVotes(rows, rows[k].id, snapshot + 1)[k].votes == snapshot + 1
    ensures SetVotes(rows, rows[k].id, snapshot + 1)[k].votes == rows[k].votes + 1 <==> snapshot == rows[k].votes
  {
  }

  class Db {
    var acceptedTerms: set<UserId>
    var stories: seq<StoryRow>
    var chapters: seq<ChapterRow>
    var options: seq<OptionRow>
    var votes: seq<VoteRow>
    var favorites: set<(UserId, Id)>
    var nextId: nat

    /** Every id in use is below the counter, so new rows get fresh ids. */
    ghost predicate Valid()
      reads this
    {
      (forall i :: 0 <= i < |stories| ==> stories[i].id < nextId) &&
      (forall i :: 0 <= i < |chapters| ==> chapters[i].id < nextId) &&
      (forall i :: 0 <= i < |options| ==> options[i].id < nextId)
    }

    constructor ()
      ensures Valid()
      ensures acceptedTerms == {} && stories == [] && chapters == [] && options == []
      ensures votes == [] && favorites == {} && nextId == 0
    {
      acceptedTerms, stories, chapters, options := {}, [], [], [];
      votes, favorites, nextId := [], {}, 0;
    }

    /** `profiles.update({ accepted_terms: true }).eq('id', user)`. */
    method AcceptTerms(user: UserId, fails: bool)
      requires Valid()
      modifies this
      ensures Valid()
      ensures acceptedTerms == if fails then old(acceptedTerms) else old(acceptedTerms) + {user}
      ensures stories == old(stories) && chapters == old(chapters) && options == old(options)
      ensures votes == old(votes) && favorites == old(favorites) && nextId == old(nextId)
    {
      if !fails {
        acceptedTerms := acceptedTerms + {user};
      }
    }

    /** `stories.insert(...).select().single()`: the new row's id, or `None` on error. */
    method InsertStory(title: string, description: string, ageRating: string, author: UserId, fails: bool)
      returns (id: Option<Id>)
      requires Valid()
      modifies this
      ensures Valid()
      ensures fails ==> id == None && stories == old(stories) && nextId == old(nextId)
      ensures !fails ==> id == Some(old(nextId)) && nextId == old(nextId) + 1 &&
                         stories == old(stories) + [StoryRow(old(nextId), title, description, ageRating, author)]
      ensures acceptedTerms == old(acceptedTerms) && chapters == old(chapters) && options == old(options)
      ensures votes == old(votes) && favorites == old(favorites)
    {
      if fails {
        id := None;
      } else {
        id := Some(nextId);
        stories := stories + [StoryRow(nextId, title, description, ageRating, author)];
        nextId := nextId + 1;
      }
    }

    /** `chapters.insert(...).select().single()`: the new row's id, or `None` on error. */
    method InsertChapter(storyId: Option<Id>, number: int, title: string, content: string,
                         question: string, expiresAt: Time, fails: bool)
      returns (id: Option<Id>)
      requires Valid()
      modifies this
      ensures Valid()
      ensures fails ==> id == None && chapters == old(chapters) && nextId == old(nextId)
      ensures !fails ==> id == Some(old(nextId)) && nextId == old(nextId) + 1 &&
                         chapters == old(chapters) +
                                     [ChapterRow(old(nextId), storyId, number, title, content, question, expiresAt)]
      ensures acceptedTerms == old(acceptedTerms) && stories == old(stories) && options == old(options)
      ensures votes == old(votes) && favorites == old(favorites)
    {
      if fails {
        id := None;
      } else {
        id := Some(nextId);
        chapters := chapters + [ChapterRow(nextId, storyId, number, title, content, question, expiresAt)];
        nextId := nextId + 1;
      }
    }

    /** `options.insert(rows)` for one batch: all rows or, on error, none. */
    method InsertOptions(chapterId: Id, texts: seq<string>, fails: bool) returns (ok: bool)
      requires Valid()
      modifies this
      ensures Valid()
      ensures ok == !fails
      ensures fails ==> options == old(options) && nextId == old(nextId)
      ensures !fails ==> options == old(options) + OptionRowsFor(chapterId, texts, old(nextId)) &&
                         nextId == old(nextId) + |texts|
      ensures acceptedTerms == old(acceptedTerms) && stories == old(stories) && chapters == old(chapters)
      ensures votes == old(votes) && favorites == old(favorites)
    {
      ok := !fails;
      if ok {
        var rows := OptionRowsFor(chapterId, texts, nextId);
        options := options + rows;
        nextId := nextId + |texts|;
      }
    }

    /** `votes.insert({ user_id, chapter_id })`. Whether the store refuses a
        second row for the same pair is up to its schema, so that refusal is
        one of the ways `fails` can be true. */
    method InsertVote(user: UserId, chapterId: Id, fails: bool) returns (ok: bool)
      requires Valid()
      modifies this
      ensures Valid()
      ensures ok == !fails
      ensures votes == if fails then old(votes) else old(votes) + [VoteRow(user, chapterId)]
      ensures acceptedTerms == old(acceptedTerms) && stories == old(stories) && chapters == old(chapters)
      ensures options == old(options) && favorites == old(favorites) && nextId == old(nextId)
    {
      ok := !fails;
      if ok {
        votes := votes + [VoteRow(user, chapterId)];
      }
    }

    /** `options.update({ votes: v }).eq('id', optionId)`. */
    method UpdateOptionVotes(optionId: Id, v: int, fails: bool) returns (ok: bool)
      requires Valid()
      modifies this
      ensures Valid()
      ensures ok == !fails
      ensures options == if fails then old(options) else SetVotes(old(options), optionId, v)
      ensures acceptedTerms == old(acceptedTerms) && stories == old(stories) && chapters == old(chapters)
      ensures votes == old(votes) && favorites == old(favorites) && nextId == old(nextId)
    {
      ok := !fails;
      if ok {
        options := SetVotes(options, optionId, v);
      }
    }

    /** `favorites.insert(...)` or `favorites.delete().match(...)`; the pages
        never look at the answer. */
    method WriteFavorite(user: UserId, storyId: Id, insert: bool, fails: bool)
      requires Valid()
      modifies this
      ensures Valid()
      ensures favorites == if fails then old(favorites)
                           else if insert then old(favorites) + {(user, storyId)}
                           else old(favorites) - {(user, storyId)}
      ensures acceptedTerms == old(acceptedTerms) && stories == old(stories) && chapters == old(chapters)
      ensures options == old(options) && votes == old(votes) && nextId == old(nextId)
    {
      if !fails {
        if insert {
          favorites := favorites + {(user, storyId)};
        } else {
          favorites := favorites - {(user, storyId)};
        }
      }
    }
  }
}
