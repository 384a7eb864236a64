/** The author dashboard: for each of the author's stories, its latest
    chapter, whether that chapter's poll is still running, and what the
    story's card offers. */
module Dashboard {
  import opened Common

  /** The two chapter columns the dashboard loads. */
  datatype ChapterSummary = ChapterSummary(number: int, expiresAt: Time)

  datatype StorySummary = StorySummary(id: Id, title: string, authorId: UserId, chapters: seq<ChapterSummary>)

  /** `(prev, curr) => prev.chapter_number > curr.chapter_number ? prev : curr`,
      folded over `rest` from `prev`. */
  function Fold(prev: ChapterSummary, rest: seq<ChapterSummary>): ChapterSummary
    decreases |rest|
  {
    if rest == [] then prev
    else Fold(if prev.number > rest[0].number then prev else rest[0], rest[1..])
  }

  /** `chapters.reduce(..., chapters[0] || null)`. */
  function LastChapter(chs: seq<ChapterSummary>): Option<ChapterSummary>
  {
    if chs == [] then None else Some(Fold(chs[0], chs))
  }

  /** The fold returns either its start, when nothing in `rest` beats it, or
      an element of `rest` that no later element reaches; and nothing it
      passed over has a larger number. */
  lemma {:induction false} FoldIsLastMaximum(prev: ChapterSummary, rest: seq<ChapterSummary>)
    ensures var r := Fold(prev, rest);
            prev.number <= r.number &&
            (forall j :: 0 <= j < |rest| ==> rest[j].number <= r.number) &&
            ((r == prev && forall j :: 0 <= j < |rest| ==> rest[j].number < prev.number) ||
             (exists k :: 0 <= k < |rest| && rest[k] == r &&
                          forall j :: k < j < |rest| ==> rest[j].number < r.number))
    decreases |rest|
  {
    if rest != [] {
      var next := if prev.number > rest[0].number then prev else rest[0];
      FoldIsLastMaximum(next, rest[1..]);
      var r := Fold(prev, rest);
      assert r == Fold(next, rest[1..]);
      forall j | 0 <= j < |rest|
        ensures rest[j].number <= r.number
      {
        if j > 0 {
          assert rest[j] == rest[1..][j - 1];
        }
      }
      if r == next && forall j :: 0 <= j < |rest[1..]| ==> rest[1..][j].number < next.number {
        if prev.number > rest[0].number {
          forall j | 0 <= j < |rest|
            ensures rest[j].number < prev.number
          {
            if j > 0 {
              assert rest[j] == rest[1..][j - 1];
            }
          }
        } else {
          forall j | 0 < j < |rest|
            ensures rest[j].number < r.number
          {
            assert rest[j] == rest[1..][j - 1];
          }
          assert rest[0] == r;
        }
      } else {
        var k :| 0 <= k < |rest[1..]| && rest[1..][k] == r &&
                 forall j :: k < j < |rest[1..]| ==> rest[1..][j].number < r.number;
        forall j | k + 1 < j < |rest|
          ensures rest[j].number < r.number
        {
          assert rest[j] == rest[1..][j - 1];
        }
        assert rest[k + 1] == r;
      }
    }
  }

  /** `lastChapter` is absent exactly for a story without chapters; otherwise
      it is one of them, has the largest number, and among chapters sharing
      that number it is the one listed last. */
  lemma LastChapterIsMaximum(chs: seq<ChapterSummary>)
    ensures LastChapter(chs).None? <==> chs == []
    ensures LastChapter(chs).Some? ==>
              var r := LastChapter(chs).value;
              (forall j :: 0 <= j < |chs| ==> chs[j].number <= r.number) &&
              exists k :: 0 <= k < |chs| && chs[k] == r &&
                          forall j :: k < j < |chs| ==> chs[j].number < r.number
  {
    if chs != [] {
      FoldIsLastMaximum(chs[0], chs);
    }
  }

  /** `isVotingActive`: there is a latest chapter and its poll has not expired. */
  predicate IsVotingActive(last: Option<ChapterSummary>, now: Time)
  {
    last.Some? && last.value.expiresAt > now
  }

  /** `(lastChapter?.chapter_number || 0) + 1`. */
  function NextChapterNumber(last: Option<ChapterSummary>): int
  {
    if last.None? then 1 else last.value.number + 1
  }

  /** What a story card offers: a disabled "voting is running" notice, or a
      link to write the chapter with the given number. */
  datatype CardAction = VotingRunning | WriteChapter(number: int)

  datatype Card = Card(chapterCount: nat, action: CardAction)

  function StoryCard(s: StorySummary, now: Time): Card
  {
    var last := LastChapter(s.chapters);
    Card(|s.chapters|,
         if IsVotingActive(last, now) then VotingRunning else WriteChapter(NextChapterNumber(last)))
  }

  /** The card shows the number of chapters, offers the next chapter exactly
      when the latest poll has closed (or there is no chapter), and that next
      number is one past the largest chapter number, or 1 for a story with
      none. */
  lemma StoryCardOffersNextChapter(s: StorySummary, now: Time)
    ensures StoryCard(s, now).chapterCount == |s.chapters|
    ensures StoryCard(s, now).action.WriteChapter? <==>
              s.chapters == [] || LastChapter(s.chapters).value.expiresAt <= now
    ensures s.chapters == [] ==> StoryCard(s, now).action == WriteChapter(1)
    ensures StoryCard(s, now).action.WriteChapter? && s.chapters != [] ==>
              (forall j :: 0 <= j < |s.chapters| ==> s.chapters[j].number < StoryCard(s, now).action.number) &&
              exists k :: 0 <= k < |s.chapters| && s.chapters[k].number + 1 == StoryCard(s, now).action.number
  {
    LastChapterIsMaximum(s.chapters);
  }

  /** The author's stories, in the order the store returns them. */
  function StoriesBy(author: UserId, stories: seq<StorySummary>): (r: seq<StorySummary>)
    ensures forall i :: 0 <= i < |r| ==> r[i].authorId == author
    ensures forall i :: 0 <= i < |r| ==> r[i] in stories
    ensures forall i :: 0 <= i < |stories| && stories[i].authorId == author ==> stories[i] in r
    decreases |stories|
  {
    if stories == [] then []
    else if stories[0].authorId == author then [stories[0]] + StoriesBy(author, stories[1..])
    else StoriesBy(author, stories[1..])
  }

  datatype DashboardView = SignInRedirect | Listing(cards: seq<Card>)

  /** `loadMyStories` followed by the render: a visitor is redirected and
      nothing is loaded; an author sees one card per story of theirs. */
  function Dashboard(user: Option<UserId>, stories: seq<StorySummary>, now: Time): (v: DashboardView)
    ensures user.None? <==> v == SignInRedirect
    ensures user.Some? ==>
              var mine := StoriesBy(user.value, stories);
              |v.cards| == |mine| &&
              forall i :: 0 <= i < |mine| ==> v.cards[i] == StoryCard(mine[i], now)
  {
    if user.None? then SignInRedirect
    else
      var mine := StoriesBy(user.value, stories);
      Listing(seq(|mine|, i requires 0 <= i < |mine| => StoryCard(mine[i], now)))
  }
}
