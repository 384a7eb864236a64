/** The pure rules of the reader feed: when a chapter's poll accepts a vote,
    how results are totalled and rounded, what the poll panel reveals, and
    the local patches the feed applies to its own state after a vote or a
    favourite toggle. */
module Feed {
  import opened Common

  datatype PollOption = PollOption(id: Id, text: string, votes: int)

  /** A chapter as the feed holds it, joined with its options. A chapter
      whose options did not load is held with an empty list. */
  datatype Chapter = Chapter(id: Id, storyId: Id, number: int, title: string, content: string,
                             question: string, expiresAt: Time, options: seq<PollOption>)

  // ---------------------------------------------------------------- poll window

  /** A poll is open strictly before its expiry instant. */
  predicate IsOpen(ch: Chapter, now: Time)
  {
    now < ch.expiresAt
  }

  /** `canVote`: a signed-in reader, an open poll, and no vote on this chapter yet. */
  predicate CanVote(user: Option<UserId>, ch: Chapter, voted: set<Id>, now: Time)
  {
    user.Some? && IsOpen(ch, now) && ch.id !in voted
  }

  /** Voting is refused at the expiry instant itself and allowed one
      millisecond earlier to any signed-in reader who has not voted. */
  lemma PollClosesAtExpiry(user: Option<UserId>, ch: Chapter, voted: set<Id>)
    ensures !CanVote(user, ch, voted, ch.expiresAt)
    ensures CanVote(user, ch, voted, ch.expiresAt - 1) <==> user.Some? && ch.id !in voted
  {
  }

  // ---------------------------------------------------------------- totals

  /** `options.reduce((sum, o) => sum + o.votes, 0)`. */
  function TotalVotes(opts: seq<PollOption>): int
    decreases |opts|
  {
    if opts == [] then 0 else opts[0].votes + TotalVotes(opts[1..])
  }

  predicate NonNegativeVotes(opts: seq<PollOption>)
  {
    forall i :: 0 <= i < |opts| ==> opts[i].votes >= 0
  }

  /** With no negative counts, every option's count lies between 0 and the total. */
  lemma {:induction false} VotesWithinTotal(opts: seq<PollOption>, k: nat)
    requires NonNegativeVotes(opts)
    requires k < |opts|
    ensures 0 <= opts[k].votes <= TotalVotes(opts)
    ensures TotalVotes(opts) >= 0
    decreases |opts|
  {
    if k == 0 {
      if |opts| > 1 {
        VotesWithinTotal(opts[1..], 0);
      }
    } else {
      VotesWithinTotal(opts[1..], k - 1);
    }
  }

  // ---------------------------------------------------------------- percentages

  /** `total > 0 ? Math.round(v / total * 100) : 0`, in exact arithmetic:
      the floor of 100v/total + 1/2. */
  function Percentage(v: int, total: int): int
  {
    if total > 0 then (200 * v + total) / (2 * total) else 0
  }

  /** The percentage is 100v/total rounded to the nearest integer, halves up. */
  lemma PercentageRounds(v: int, total: int)
    requires total > 0
    ensures (2 * Percentage(v, total) - 1) * total <= 200 * v < (2 * Percentage(v, total) + 1) * total
  {
    var n, d := 200 * v + total, 2 * total;
    var p := n / d;
    assert d * p <= n < d * p + d by {
      assert n == d * p + n % d;
    }
    assert (2 * p - 1) * total == d * p - total;
    assert (2 * p + 1) * total == d * p + total;
  }

  /** That characterisation picks exactly one integer. */
  lemma PercentageIsNearest(v: int, total: int, q: int)
    requires total > 0
    requires (2 * q - 1) * total <= 200 * v < (2 * q + 1) * total
    ensures q == Percentage(v, total)
  {
    var p := Percentage(v, total);
    PercentageRounds(v, total);
    if q < p {
      MulMonotone(2 * q + 1, 2 * p - 1, total);
    } else if q > p {
      MulMonotone(2 * p + 1, 2 * q - 1, total);
    }
  }

  /** No total means a percentage of zero; a count within the total gives 0..100. */
  lemma PercentageBounds(v: int, total: int)
    ensures total <= 0 ==> Percentage(v, total) == 0
    ensures 0 <= v <= total ==> 0 <= Percentage(v, total) <= 100
  {
    if 0 <= v <= total && total > 0 {
      var p := Percentage(v, total);
      PercentageRounds(v, total);
      if p < 0 {
        MulMonotone(2 * p + 1, -1, total);
      }
      if p > 100 {
        MulMonotone(201, 2 * p - 1, total);
      }
    }
  }

  lemma MulMonotone(a: int, b: int, t: int)
    requires a <= b && t > 0
    ensures a * t <= b * t
  {
    assert b * t - a * t == (b - a) * t;
  }

  // ---------------------------------------------------------------- reveal rules

  /** What one option's card shows. */
  datatype OptionCard = OptionCard(percentShown: bool, percent: int, barShown: bool, voteButton: bool)

  /** The poll panel under a chapter: one card per option, the note shown
      after voting, and the prompt inviting a visitor to sign in. */
  datatype PollPanel = PollPanel(cards: seq<OptionCard>, votedNote: bool, loginPrompt: bool)

  function Card(opt: PollOption, total: int, hasVoted: bool, voteActive: bool, signedIn: bool): OptionCard
  {
    OptionCard((hasVoted || !voteActive) && total > 0,
               Percentage(opt.votes, total),
               (hasVoted || !voteActive) && opt.votes > 0,
               voteActive && !hasVoted && signedIn)
  }

  /** The panel for `ch`, given the page's `isVoteActive` flag; absent when
      the chapter asks no question. */
  function Panel(user: Option<UserId>, ch: Chapter, voted: set<Id>, voteActive: bool): Option<PollPanel>
  {
    if ch.question == "" then None
    else
      var hasVoted := ch.id in voted;
      var total := TotalVotes(ch.options);
      Some(PollPanel(seq(|ch.options|, i requires 0 <= i < |ch.options| =>
                           Card(ch.options[i], total, hasVoted, voteActive, user.Some?)),
                     hasVoted,
                     user.None? && voteActive))
  }

  /** The panel as the feed computes it: `isVoteActive = canVote(chapter)`. */
  function PanelAsWritten(user: Option<UserId>, ch: Chapter, voted: set<Id>, now: Time): Option<PollPanel>
  {
    Panel(user, ch, voted, CanVote(user, ch, voted, now))
  }

  /** The panel with `isVoteActive` read as "the poll is open". */
  function PollPanelFor(user: Option<UserId>, ch: Chapter, voted: set<Id>, now: Time): Option<PollPanel>
  {
    Panel(user, ch, voted, IsOpen(ch, now))
  }

  /** As written, the sign-in prompt can never be shown: without a user
      `canVote` is false, and the prompt needs both. */
  lemma LoginPromptUnreachableAsWritten(user: Option<UserId>, ch: Chapter, voted: set<Id>, now: Time)
    ensures PanelAsWritten(user, ch, voted, now).None? || !PanelAsWritten(user, ch, voted, now).value.loginPrompt
  {
  }

  /** As written, a visitor who is not signed in sees the percentages of a
      poll that is still open. */
  lemma VisitorSeesOpenResultsAsWritten()
    ensures var ch := Chapter(1, 1, 1, "t", "c", "q", 10, [PollOption(1, "a", 1)]);
            IsOpen(ch, 0) &&
            PanelAsWritten(None, ch, {}, 0) == Some(PollPanel([OptionCard(true, 100, true, false)], false, false))
  {
    var ch := Chapter(1, 1, 1, "t", "c", "q", 10, [PollOption(1, "a", 1)]);
    assert TotalVotes(ch.options) == 1;
    assert Percentage(1, 1) == 100;
    assert !CanVote(None, ch, {}, 0);
    var p := PanelAsWritten(None, ch, {}, 0).value;
    assert p.cards[0] == OptionCard(true, 100, true, false);
    assert p.cards == [OptionCard(true, 100, true, false)];
  }

  /** The reveal rules with `isVoteActive` read as poll-open. There is a
      panel exactly when the chapter asks a question, with one card per
      option (none at all when its options did not load). On each card the
      percentages show only after voting or closing and with votes cast,
      the bar only for an option with votes, and the vote button exactly
      when `canVote` holds. The panel has the voted note exactly after
      voting, and the sign-in prompt exactly for a visitor on an open poll. */
  lemma RevealRules(user: Option<UserId>, ch: Chapter, voted: set<Id>, now: Time)
    ensures PollPanelFor(user, ch, voted, now).None? <==> ch.question == ""
    ensures PollPanelFor(user, ch, voted, now).Some? ==>
              var p := PollPanelFor(user, ch, voted, now).value;
              |p.cards| == |ch.options| &&
              (p.votedNote <==> ch.id in voted) &&
              (p.loginPrompt <==> user.None? && IsOpen(ch, now))
    ensures PollPanelFor(user, ch, voted, now).Some? ==>
              var p := PollPanelFor(user, ch, voted, now).value;
              forall k :: 0 <= k < |ch.options| ==>
                k < |p.cards| &&
                (p.cards[k].percentShown <==> (ch.id in voted || !IsOpen(ch, now)) && TotalVotes(ch.options) > 0) &&
                (p.cards[k].barShown <==> (ch.id in voted || !IsOpen(ch, now)) && ch.options[k].votes > 0) &&
                (p.cards[k].voteButton <==> CanVote(user, ch, voted, now)) &&
                p.cards[k].percent == Percentage(ch.options[k].votes, TotalVotes(ch.options))
  {
  }

  /** For a signed-in reader the two readings of `isVoteActive` render the
      same panel; they differ only for visitors. */
  lemma SignedInPanelsAgree(user: Option<UserId>, ch: Chapter, voted: set<Id>, now: Time)
    requires user.Some?
    ensures PanelAsWritten(user, ch, voted, now) == PollPanelFor(user, ch, voted, now)
  {
    if ch.question != "" {
      var total := TotalVotes(ch.options);
      var hasVoted := ch.id in voted;
      var a := PanelAsWritten(user, ch, voted, now).value;
      var b := PollPanelFor(user, ch, voted, now).value;
      assert |a.cards| == |b.cards|;
      forall i | 0 <= i < |a.cards|
        ensures a.cards[i] == b.cards[i]
      {
        assert a.cards[i] == Card(ch.options[i], total, hasVoted, CanVote(user, ch, voted, now), true);
        assert b.cards[i] == Card(ch.options[i], total, hasVoted, IsOpen(ch, now), true);
      }
      assert a.cards == b.cards;
      assert a.loginPrompt == b.loginPrompt && a.votedNote == b.votedNote;
    }
  }

  // ---------------------------------------------------------------- favourites

  /** The favourites set after `toggleFavorite(storyId)`. */
  function Toggled(favs: set<Id>, storyId: Id): (r: set<Id>)
    ensures storyId in r <==> storyId !in favs
    ensures forall s :: s != storyId ==> (s in r <==> s in favs)
  {
    if storyId in favs then favs - {storyId} else favs + {storyId}
  }

  lemma ToggleTwice(favs: set<Id>, storyId: Id)
    ensures Toggled(Toggled(favs, storyId), storyId) == favs
  {
  }

  // ---------------------------------------------------------------- local vote patch

  /** `options.map(opt => opt.id === optionId ? { ...opt, votes: opt.votes + 1 } : opt)`. */
  function WithVote(opts: seq<PollOption>, optionId: Id): (r: seq<PollOption>)
    ensures |r| == |opts|
    ensures forall i :: 0 <= i < |opts| ==>
              r[i] == if opts[i].id == optionId then opts[i].(votes := opts[i].votes + 1) else opts[i]
    decreases |opts|
  {
    if opts == [] then []
    else [if opts[0].id == optionId then opts[0].(votes := opts[0].votes + 1) else opts[0]]
         + WithVote(opts[1..], optionId)
  }

  /** `chapters.map(ch => ch.id === chapterId ? { ...ch, options: ... } : ch)`. */
  function PatchChapters(chs: seq<Chapter>, chapterId: Id, optionId: Id): (r: seq<Chapter>)
    ensures |r| == |chs|
    ensures forall i :: 0 <= i < |chs| ==>
              r[i] == if chs[i].id == chapterId then chs[i].(options := WithVote(chs[i].options, optionId)) else chs[i]
    decreases |chs|
  {
    if chs == [] then []
    else [if chs[0].id == chapterId then chs[0].(options := WithVote(chs[0].options, optionId)) else chs[0]]
         + PatchChapters(chs[1..], chapterId, optionId)
  }

  /** How many options carry the id. */
  function CountId(opts: seq<PollOption>, optionId: Id): nat
    decreases |opts|
  {
    if opts == [] then 0 else (if opts[0].id == optionId then 1 else 0) + CountId(opts[1..], optionId)
  }

  predicate UniqueOptionIds(opts: seq<PollOption>)
  {
    forall i, j :: 0 <= i < j < |opts| ==> opts[i].id != opts[j].id
  }

  /** The patch raises the total by the number of options with that id. */
  lemma {:induction false} WithVoteTotal(opts: seq<PollOption>, optionId: Id)
    ensures TotalVotes(WithVote(opts, optionId)) == TotalVotes(opts) + CountId(opts, optionId)
    decreases |opts|
  {
    if opts != [] {
      var r := WithVote(opts, optionId);
      assert r[1..] == WithVote(opts[1..], optionId);
      WithVoteTotal(opts[1..], optionId);
    }
  }

  /** With distinct ids, the id of option k occurs exactly once. */
  lemma {:induction false} CountUnique(opts: seq<PollOption>, k: nat)
    requires UniqueOptionIds(opts)
    requires k < |opts|
    ensures CountId(opts, opts[k].id) == 1
    decreases |opts|
  {
    if k == 0 {
      NotCounted(opts[1..], opts[0].id);
    } else {
      assert opts[1..][k - 1] == opts[k];
      CountUnique(opts[1..], k - 1);
    }
  }

  lemma {:induction false} NotCounted(opts: seq<PollOption>, optionId: Id)
    requires forall i :: 0 <= i < |opts| ==> opts[i].id != optionId
    ensures CountId(opts, optionId) == 0
    decreases |opts|
  {
    if opts != [] {
      NotCounted(opts[1..], optionId);
    }
  }

  /** After a successful vote for option k of chapter c, with distinct
      option ids: the feed holds the same chapters in the same order, every
      chapter with an id other than c's is untouched, c keeps its question, its options and
      their order, option k has one more vote, every other option is
      unchanged, and c's total grows by exactly one. */
  lemma VotePatchEffect(chs: seq<Chapter>, c: nat, k: nat)
    requires c < |chs|
    requires k < |chs[c].options|
    requires UniqueOptionIds(chs[c].options)
    ensures var r := PatchChapters(chs, chs[c].id, chs[c].options[k].id);
            |r| == |chs| &&
            (forall j :: 0 <= j < |chs| && chs[j].id != chs[c].id ==> r[j] == chs[j]) &&
            r[c].(options := chs[c].options) == chs[c] &&
            |r[c].options| == |chs[c].options| &&
            r[c].options[k] == chs[c].options[k].(votes := chs[c].options[k].votes + 1) &&
            (forall i :: 0 <= i < |chs[c].options| && i != k ==> r[c].options[i] == chs[c].options[i]) &&
            TotalVotes(r[c].options) == TotalVotes(chs[c].options) + 1
  {
    var opts := chs[c].options;
    WithVoteTotal(opts, opts[k].id);
    CountUnique(opts, k);
  }
}
