# storyvoter — a verified model of the reader, author and payment flows

storyvoter is a web application for interactive serial fiction. Authors
publish a story chapter by chapter, and every chapter ends with a question
and a poll. Readers vote in the poll while its timer runs. When it closes,
the author writes the next chapter. Readers can also buy "lightning" paid
votes through a payment provider.

This Dafny project models the core of that application:

- **The reader feed** (`app/feed/page.tsx`). This covers:
  - which chapters accept a vote;
  - how the poll total and the rounded percentages are computed;
  - what the poll panel reveals to whom;
  - the double-tap and swipe detector that moves through the chapters;
  - the favourite toggle;
  - the vote handler, with its two store writes and its local patch.

  Module `Feed` holds the pure rules. Module `FeedPage` holds a class, `FeedState`, with the page's mutable state and one method per handler.
- **The author dashboard** (`app/dashboard/page.tsx`, module `Dashboard`). It covers:
  - the latest chapter of each story, found by a fold over the chapters;
  - whether that chapter's poll is still running;
  - the number of the chapter the card offers to write next.
- **The new-story form** (`app/write/page.tsx`, module `Write`). It covers the field and terms gate, then the terms update on the profile, whose outcome is ignored, and the chain of inserts: story, first chapter, options. The chain stops at the first failed insert.
- **The add-chapter form** (`app/dashboard/add-chapter/page.tsx`, module `AddChapter`). It covers:
  - the chapter insert, carrying the number from the query string;
  - the options insert, which is not checked.
- **The top-up page** (`app/buy/page.tsx`, module `Buy`). It covers:
  - the packages and their prices;
  - the amount posted to the payment route;
  - the page's reaction to the answer.
- **The payment route** (`app/api/pay/route.ts`, module `Pay`). It covers:
  - the user and amount guards;
  - the return URL;
  - how the provider's reply is classified into a redirect URL, a 400 or a 500.

The relational store is the class `Store.Db`. It holds abstract tables as sequences and sets. Each write takes a `fails` flag that says whether the store answers with an error. The store hands out fresh row ids from a counter.

The pages' environment becomes method parameters:
- the clock, as `now`, in milliseconds;
- whether a touch hit a link or a button;
- the store's and the provider's answers.

Module `Common` holds:
- `Option`;
- identifiers;
- JavaScript truthiness of optional strings;
- the field check shared by the two publishing forms;
- the expiry computation.

## Model

| member | source | states |
|---|---|---|
| `Common.ExpiryAfterIsLater` | app/write/page.tsx:88-89 | The expiry lies exactly `hours` hours after the creation instant. It is later than that instant iff the duration is positive; nothing else bounds the duration. |
| `Store.OptionRowsFor` | app/write/page.tsx:108-112 | One option row per text, in order, with consecutive fresh ids, the chapter's id and zero votes. |
| `Store.SetVotes` | app/feed/page.tsx:182-185 | Every row with the option id gets the new count. Every other row is unchanged and the length is kept. |
| `Store.SnapshotIncrement` | app/feed/page.tsx:184 | Writing `currentVotes + 1` stores the snapshot plus one. That is one more than the stored count iff the snapshot was current. |
| `Store.Db.AcceptTerms` | app/write/page.tsx:66-71 | The author joins the set of authors who accepted the terms unless the update fails. No other table changes. |
| `Store.Db.InsertStory` | app/write/page.tsx:74-85 | On success the story row is appended with a fresh id, and that id is returned. On failure nothing changes and `None` is returned. |
| `Store.Db.InsertChapter` | app/write/page.tsx:92-105 | On success the chapter row is appended with a fresh id, and that id is returned. On failure nothing changes and `None` is returned. |
| `Store.Db.InsertOptions` | app/write/page.tsx:114-115 | All rows of the batch are appended, or none are. Success is reported iff the insert did not fail. |
| `Store.Db.InsertVote` | app/feed/page.tsx:175-179 | A vote row for the user and chapter is appended unless the insert fails. |
| `Store.Db.UpdateOptionVotes` | app/feed/page.tsx:182-187 | The counts become `SetVotes(old, id, v)` unless the update fails. No other table changes. |
| `Store.Db.WriteFavorite` | app/feed/page.tsx:147-156 | The (user, story) pair is added or removed unless the write fails. |
| `Feed.PollClosesAtExpiry` | app/feed/page.tsx:160-165 | No vote is possible at the expiry instant. One millisecond earlier, a vote is possible iff the reader is signed in and has not voted on the chapter. |
| `Feed.VotesWithinTotal` | app/feed/page.tsx:250 | With no negative counts, the total is non-negative and each option's count lies between 0 and the total. |
| `Feed.PercentageRounds` | app/feed/page.tsx:377 | The shown percentage is 100·votes/total rounded to the nearest integer, halves up. |
| `Feed.PercentageIsNearest` | app/feed/page.tsx:377 | The rounding characterisation determines the percentage uniquely. |
| `Feed.PercentageBounds` | app/feed/page.tsx:377 | With no votes cast the percentage is 0. A count within the total gives a percentage from 0 to 100. |
| `Feed.LoginPromptUnreachableAsWritten` | app/feed/page.tsx:479-485 | With `isVoteActive = canVote(chapter)` the sign-in prompt is never shown, for any reader or chapter. |
| `Feed.VisitorSeesOpenResultsAsWritten` | app/feed/page.tsx:412-423 | As written, a visitor sees the percentage and bar of a poll that is still open. A concrete chapter shows this. |
| `Feed.RevealRules` | app/feed/page.tsx:366-485 | With `isVoteActive` read as "poll open", for every chapter, including one whose options did not load, each of the following holds iff its condition does. There is a panel iff the chapter asks a question, and it has one card per option. A percentage appears iff the reader voted or the poll closed, and votes were cast. A bar appears iff the reader voted or the poll closed, and the option has votes. The vote button appears iff `canVote` holds. The voted note appears iff the reader voted. The sign-in prompt appears iff a visitor views an open poll. |
| `Feed.SignedInPanelsAgree` | app/feed/page.tsx:248 | For a signed-in reader, both readings of `isVoteActive` render the same panel. |
| `Feed.Toggled` | app/feed/page.tsx:135-145 | Membership of the toggled story flips. Every other story keeps its membership. |
| `Feed.ToggleTwice` | app/feed/page.tsx:135-145 | Toggling the same story twice restores the favourites set. |
| `Feed.WithVote` | app/feed/page.tsx:197-201 | Each option with the voted id gains one vote. Every other option is unchanged and the order is kept. |
| `Feed.PatchChapters` | app/feed/page.tsx:192-206 | The voted chapter's options are patched by `WithVote`. Every other chapter is unchanged and the order is kept. |
| `Feed.WithVoteTotal` | app/feed/page.tsx:197-201 | The patch raises the total by the number of options carrying the id. |
| `Feed.VotePatchEffect` | app/feed/page.tsx:190-206 | With distinct option ids, a local vote changes exactly one option of the voted chapter, by one vote, and the chapter's total rises by exactly one. Every chapter with another id is untouched. |
| `FeedPage.Advanced` | app/feed/page.tsx:70-72 | The cursor moves one step iff a next chapter exists, and otherwise stays. It stays within the chapter list. |
| `FeedPage.FeedState.constructor` | app/feed/page.tsx:10-22 | Initial state: loading, no chapters, cursor 0, no reader, empty sets, no tap recorded. |
| `FeedPage.FeedState.FinishLoad` | app/feed/page.tsx:25-63 | The reader and the chapters are stored, or no chapters when the query returned nothing. The reader's favourites and voted chapters are loaded for a signed-in reader. Loading ends and the cursor stays valid. |
| `FeedPage.FeedState.HandleDoubleTap` | app/feed/page.tsx:70-79 | The cursor becomes `Advanced(old cursor, count)`. |
| `FeedPage.FeedState.NextChapter` | app/feed/page.tsx:491-494 | The button, shown only while a next chapter exists, moves the cursor one step. |
| `FeedPage.FeedState.HandleTap` | app/feed/page.tsx:81-106 | A touch on a control changes nothing. A second tap within 300 ms advances and forgets the tap. Otherwise the tap is recorded and the timer armed. |
| `FeedPage.FeedState.TapTimerFires` | app/feed/page.tsx:101-104 | The timer forgets the recorded tap and disarms. |
| `FeedPage.FeedState.HandleTouchStart` | app/feed/page.tsx:108-110 | Records the start position. |
| `FeedPage.FeedState.HandleTouchEnd` | app/feed/page.tsx:112-124 | A movement under 10 px goes to the tap detector, with its three outcomes. A swipe changes nothing. The start position is reset either way. |
| `FeedPage.FeedState.ToggleFavorite` | app/feed/page.tsx:126-157 | A visitor is redirected and nothing changes. Otherwise the local set is `Toggled`, and the matching insert or delete reaches the store unless it fails. |
| `FeedPage.FeedState.HandleVote` | app/feed/page.tsx:167-211 | The outcomes by case: see below the table. |
| `Dashboard.FoldIsLastMaximum` | app/dashboard/page.tsx:65-66 | The reduce returns an element no other element exceeds. It is the last of the maximal elements, or the start value when nothing reaches it. |
| `Dashboard.LastChapterIsMaximum` | app/dashboard/page.tsx:65-66 | The last chapter is absent iff the story has no chapters. Otherwise it has the largest number, and it is the last chapter listed with that number. |
| `Dashboard.StoryCardOffersNextChapter` | app/dashboard/page.tsx:68-96 | The card shows the chapter count. It offers the next chapter iff there is no chapter or the latest poll has expired. The offered number is one more than the largest chapter number, or 1 for a story with no chapters. |
| `Dashboard.StoriesBy` | app/dashboard/page.tsx:19-22 | Keeps exactly the author's stories. |
| `Dashboard.Dashboard` | app/dashboard/page.tsx:12-24 | A visitor is redirected iff there is no user. An author gets one card per story of theirs, and only for their stories. |
| `Write.WriteForm.constructor` | app/write/page.tsx:13-26 | The form's defaults: rating "16+", chapter title "Глава 1", 24 hours, three empty options. |
| `Write.WriteForm.EditOption` | app/write/page.tsx:187-190 | Replaces one option text and no other. |
| `Write.WriteForm.Gate` | app/write/page.tsx:53-60 | Publishing proceeds iff every field is filled and the terms were accepted earlier or now. A missing field is reported before missing terms. |
| `Write.WriteForm.HandlePublish` | app/write/page.tsx:51-124 | The inserts in order: see below the table. |
| `AddChapter.AddChapterForm.constructor` | app/dashboard/add-chapter/page.tsx:10-18 | The story id and number from the query string; empty fields, three empty options, 24 hours. |
| `AddChapter.AddChapterForm.EditOption` | app/dashboard/add-chapter/page.tsx:98-101 | Replaces one option text and no other. |
| `AddChapter.AddChapterForm.SetHours` | app/dashboard/add-chapter/page.tsx:116-118 | Keeps any number. The 1–168 range is not enforced. |
| `AddChapter.AddChapterForm.HandleAdd` | app/dashboard/add-chapter/page.tsx:20-49 | The insert and its outcomes: see below the table. |
| `Pay.ReturnUrlShape` | app/api/pay/route.ts:17-18 | The return URL is `https://` followed by the host header (or the default host when the header is missing or empty) and `/payment-success`. |
| `Pay.UserCheckedFirst` | app/api/pay/route.ts:8-10 | Without a user id the answer is 401, whatever the amount, and the provider is not called. |
| `Pay.AmountCheckedSecond` | app/api/pay/route.ts:12-14 | With a user and a falsy amount the answer is 400, and the provider is not called. |
| `Pay.CreatedIffConfirmationUrl` | app/api/pay/route.ts:58-62 | A payment is created iff the provider was called and returned a non-empty confirmation URL. The response carries that URL and the payment id. |
| `Pay.ProviderRefusalIs400` | app/api/pay/route.ts:63-67 | A reply without a confirmation URL gives 400, with the provider's description or the default message. |
| `Pay.ThrownIs500` | app/api/pay/route.ts:70-75 | An unparsable body, a string amount or a failed provider call gives 500. |
| `Pay.ResponsesAreTruthy` | app/api/pay/route.ts:8-75 | Every error has status 400, 401 or 500 and a non-empty message. Every success has a non-empty URL. |
| `Buy.PackageListing` | app/buy/page.tsx:73-86 | Exactly three packages: 1, 3 and 7 ⚡ for 150, 450 and 1050 roubles, shown as 3, 9 and 21 ordinary votes. |
| `Buy.AmountIsDisplayedPrice` | app/buy/page.tsx:40-42 | The amount posted for a button is the price that button shows. |
| `Buy.RouteAnswerSettlesPage` | app/buy/page.tsx:46-58 | For a package bought by a signed-in user, every answer of the route makes the page act. It redirects iff the provider returned a confirmation URL, and then to that URL. Otherwise it shows the route's error. |
| `Buy.BuyPage.constructor` | app/buy/page.tsx:9-11 | Not loading, no redirect, no alerts. |
| `Buy.BuyPage.HandlePayment` | app/buy/page.tsx:28-59 | The reactions by case: see below the table. |

The rows that point below the table, in detail:

- `FeedPage.FeedState.HandleVote`:
  - A visitor is redirected and nothing changes.
  - If the vote insert fails, the page alerts and the store is untouched.
  - If the insert succeeds but the count update fails, the page alerts, the vote row stays and the counts are unchanged.
  - If both succeed, the count becomes `currentVotes + 1` and the chapter is marked voted. The local chapters become `PatchChapters`.
  - No other table changes.
- `Write.WriteForm.HandlePublish`:
  - A failed gate writes nothing.
  - Past the gate, the terms are recorded unless they were accepted earlier or the update fails; a failed update does not stop the chain. Then come the story row (fresh id), the chapter row (the next id, number 1, expiring after `timerHours` hours) and the zero-vote option rows.
  - The chain stops at the first failed insert (story, chapter, options), and nothing is undone.
  - Loading is cleared on every path past the gate.
- `AddChapter.AddChapterForm.HandleAdd`:
  - Missing fields write nothing.
  - The chapter row is inserted with the query's story id and number, expiring after `hours` hours. If that insert fails, loading is cleared.
  - Otherwise the option rows are inserted unless that insert fails. Success is reported either way, and loading stays set.
- `Buy.BuyPage.HandlePayment`:
  - Without a user nothing happens.
  - Otherwise the page posts `{amount: qty·150, userId}`.
  - A confirmation URL redirects and keeps loading set.
  - An error, or a thrown request, alerts and clears loading.
  - An answer with neither field leaves loading set.

## Findings

| source | as written | input that shows it | evidently intended | confidence | as-written member | corrected member |
|---|---|---|---|---|---|---|
| app/feed/page.tsx:248 | `isVoteActive = canVote(currentChapter)`, and `canVote` is false without a user. The sign-in prompt at line 479 needs `!user && isVoteActive`, so it is dead. Percentages and bars are also shown to visitors while the poll is still open. | A visitor on a chapter with question "q", one option with 1 vote, expiring at 10, viewed at time 0. It shows 100 % and a bar, and no sign-in prompt. | `isVoteActive` means "the poll is open". Visitors get the sign-in prompt and no results until the poll closes. Signed-in readers see the same panel as before. | not executed | `Feed.LoginPromptUnreachableAsWritten` | `Feed.RevealRules` |

## Left out

- Rendering is not modelled: markup, styles, avatars, and the splitting of chapter text into paragraphs. The poll panel is modelled as the set of flags that decide what is shown.
- The emptiness message on the feed and the "back" buttons are not modelled. They are navigation only.
- The first-use tooltip and its `localStorage` flag are browser storage with no effect on state the model keeps.
- The feed's query for chapters created in the last 24 hours, and its ordering, run in the store. The loaded chapter list is an input of `FinishLoad`.
- The dashboard's profile pseudonym is display only.
- The identity provider (`getUser`) is an input: the user is a parameter or a field.
- Concurrency is not modelled. Each handler runs to completion, and overlapping handlers are not interleaved.
- The lost update caused by overwriting the count with the client's snapshot is stated, not simulated. `Store.SnapshotIncrement` shows the count is right only if the snapshot was current.
- Floating point is replaced by exact arithmetic. `Math.round(v / total * 100)` is computed on rationals. Binary rounding of `v / total` can, in principle, move a value that is exactly on a half.
- Local time and DST rules in `setHours` are not modelled: the expiry is creation time plus `hours` × 3 600 000 ms.
- `Number(...)` parsing of the form's hours and of the `next` query parameter is not modelled, and neither are `NaN` and fractional values. Those values are integers. A missing `storyId` is `None`.
- The HTTP call to the payment provider is not modelled: its headers, credentials, idempotence key, currency, description and metadata. Its reply is an input. The `coins` field of the body is only forwarded to the provider, so it is dropped. `toFixed(2)` enters only as the exception it raises for a string amount.
- A JSON amount other than an integer (a fraction, a boolean, an object) is not modelled. Amounts are absent, an integer, or a string.
- A JSON `userId` other than a string (a number, a boolean, an object) is not modelled. The user id is absent or a string, and the route's truthiness check on it is the `Truthy` test on strings.
- Logging (`console.log`, `console.error`) is left out: it has no effect on the results.
- Plain form setters (title, description, rating, content, question, the terms checkbox, the timer) are direct field assignments, with no method. The option editor, which replaces one entry of the list, and the add-chapter hours input, a plain assignment kept as `SetHours` to state that no range is enforced, are methods.
- The `touchEnd` state on the feed is written but never read, so it is not kept.
- The `e.target.closest('a, button')` test is the boolean `onControl`.
- Touch coordinates (`clientX`) are modelled as integers. Browsers report them as floating-point numbers, fractional on high-density screens.
- The double-tap timer is not tied to the clock: `TapTimerFires` may be called at any moment while the timer is armed, not only `DoubleTapDelay` after the recorded tap.
- The redirect and alert calls of the publishing forms, and the navigation after success, are the outcome values `FieldsMissing`, `TermsRequired`, `StepFailed`, `Published`, `ChapterFailed` and `Added`. The error message text is not kept.
- The payment webhook, the sign-in, profile, story, home and purchase-terms pages, and the `coins` balance are not part of this model.
- The following rules are described for the product but are not in the code, so they are not modelled:
  - spending a paid vote that weighs 3;
  - any check that the added chapter number follows the existing chapters;
  - rolling back the earlier inserts when a later publish step fails;
  - a server-side bound of 1–168 hours. That bound appears only as input attributes.
- Whether the store refuses a second vote by the same reader on the same chapter depends on its schema, which is not part of this model. Such a refusal is one of the ways `InsertVote` can fail.
