# Block News in Dafny

Block News is a small social network on an EVM chain. Its core is the
`SocialNetwork` contract. The contract keeps these records:

- users: name, score, follow lists, history of publication IDs and the IDs
  of the reward tokens they hold;
- publications: poster, content, parent, score and comments;
- each voter's up/down vote on each publication;
- per-month scores and the "has been rewarded" marks;
- a ten-slot board of top users, where the zero address means an empty slot;
- the counters `nextUnusedPublicationID` (starts at 1) and `month` (YYYYMM,
  starts at 202312).

Once a month the owner calls `rewardTopUsers`. It mints one `TopUsersSFT`
token, whose ID is the month, to every board user not yet rewarded for
that month. It then moves the month forward: +89 from a December, +1
otherwise. Around the contract, a React interface composes posts and
comments, labels publications, and decides which publication IDs each feed
asks for and in what order.

This project models:

- The ledger:
  - `SocialLedger.SocialNetwork` is a class whose fields are the contract's
    storage. The board is an `array<Address>` of 10 slots. The token is a
    `RewardToken.TopUsersSFT` object that the ledger owns.
  - Every call is a method. Its result is the contract's check. On success
    its new state is a pure step function of `LedgerSteps`.
  - `LedgerProperties` proves that every step keeps the ledger invariant:
    - the board has no duplicates and holds only users with a positive score;
    - the publication table is well formed;
    - histories and comment lists point at the right publications;
    - the follow graph is consistent, so followings and followers mirror
      each other;
    - the month is a valid YYYYMM value;
    - the zero address is never rewarded.
  - `LedgerProperties` also proves what each step does.
  - The vote table lives in `Votes`, the board update in `TopUsersBoard`,
    the follow lists in `FollowGraph`, and the month arithmetic and token
    IDs in `Periods`.
- The interface:
  - `PostView`: the relative-time label and the category label.
  - `Compose`: the publish and comment forms. This covers their guards, the
    length counter, the `post` arguments they send, and the reset after a
    click.
  - `Feeds`: the explore, home and category feeds.
  - `ProfilePage`: the profile's history walk and the follow-limit toast.
  - `IdOrdering`: the in-place sort, dedupe and zero-skipping they share.
  - `Decimal`: decimal strings of IDs.

The contract's Solidity text is not part of this model. Its behaviour is
taken from the contract's test suite, `backend/test/SocialNetwork.test.js`.
Field shapes and capacities come from the ABI in `frontend/constants/index.js`.
Where the two disagree, the tests are followed:

- `post(content, parentID)` takes two arguments in the tests and four in
  the ABI. The ledger models the two-argument call. The interface's forms
  build the four-argument tuple.
- The tests read a growing `postsIDs` list. The ABI has a 25-slot
  `lastPostsIDs`.
- The tests read `followersList` as `{followList, number}`. The ABI has
  `numberOfFollowers`.

## Model

| member | source | states |
|---|---|---|
| Votes.Code | backend/test/SocialNetwork.test.js:154-163 | `upvoteOrDownvote` reports 0 exactly for no vote, 1 exactly for a downvote and 2 exactly for an upvote |
| Votes.TransitionTable | backend/test/SocialNetwork.test.js:116-461 | the six transitions: none+up gives up (+1), none+down gives down (-1), up+up gives none (-1), down+down gives none (+1), up+down gives down (-2), down+up gives up (+2) |
| Votes.DeltaIsTallyChange | backend/test/SocialNetwork.test.js:116-461 | every score change equals the change of the voter's contribution (+1 up, -1 down, 0 none) |
| Votes.RepeatRestores | backend/test/SocialNetwork.test.js:121-163 | casting the same ballot twice restores the vote state exactly when the first ballot does not switch to the opposite vote, and then the two deltas cancel |
| Votes.EventsOfSwitch | backend/test/SocialNetwork.test.js:264-281 | a vote logs two events exactly on a switch, the removal first and then the new vote, and otherwise logs one |
| Votes.SumDeltasTelescopes | backend/test/SocialNetwork.test.js:116-461 | over any series of ballots by one voter, the score moves by the change of that voter's contribution, so never by more than 1 from no vote |
| Periods.NextMonthIsSuccessor | backend/test/SocialNetwork.test.js:665-686 | the next period (+89 from December, else +1) is a valid YYYYMM and exactly one calendar month later |
| Periods.PeriodOfRoundTrip | backend/test/SocialNetwork.test.js:665-686 | a month count turned into YYYYMM reads back as itself |
| Periods.OrdinalRoundTrip | backend/test/SocialNetwork.test.js:665-686 | a YYYYMM turned into a month count turns back into itself |
| Periods.OrdinalMonotone | backend/test/SocialNetwork.test.js:665-686 | YYYYMM order is calendar order |
| Periods.PeriodAfterOrdinal | backend/test/SocialNetwork.test.js:665-686 | after k reward cycles from 202312, the month is k calendar months later |
| Periods.RewardablePeriods | backend/test/SocialNetwork.test.js:714-719 | the month after k cycles is a mintable token ID exactly when k <= 36 (up to December 2026) |
| Periods.SFTIDExamples | backend/test/SocialNetwork.test.js:714-719 | an illustration only, covered for all inputs by `ValidSFTID` and `RewardablePeriods`: 202311, 202313, 202400 and 202701 are refused; 202312 and 202401 are accepted; 202312 is followed by 202401 |
| Slots.IndexOf | backend/test/SocialNetwork.test.js:576-601 | the first slot holding an address, or the length when no slot holds it |
| Slots.CountClear | backend/test/SocialNetwork.test.js:564-575 | zeroing an occupied slot lowers the count of occupied slots by one |
| Slots.CountAppend | backend/test/SocialNetwork.test.js:508-518 | appending a non-zero address raises the count by one |
| Slots.ClearMembership | backend/test/SocialNetwork.test.js:576-601 | after zeroing slot i, exactly the other non-zero addresses are still present |
| Slots.ClearNoDup | backend/test/SocialNetwork.test.js:576-601 | zeroing a slot keeps the slots free of duplicates |
| Slots.AppendNoDup | backend/test/SocialNetwork.test.js:519-543 | appending an absent address keeps the slots free of duplicates |
| TopUsersBoard.BoardAfterSpec | backend/test/SocialNetwork.test.js:464-489 | the board update in four cases. A positive poster who is absent takes an empty slot, with event `NewTopUser(poster, 0)`. A positive poster already present stays, with no event. A non-positive poster who is absent stays out, with no event. A present poster whose score drops to 0 or below is replaced by 0, with event `NewTopUser(0, poster)`. No one else enters or leaves, and there are still no duplicates |
| TopUsersBoard.FindSlot | backend/test/SocialNetwork.test.js:471-489 | the board scan returns the first slot holding the address, or 10 |
| RewardToken.MintCheckSpec | backend/test/SocialNetwork.test.js:706-719 | `mintOne` succeeds exactly for the owner, a non-zero holder and a valid ID. It reverts with `OwnableUnauthorizedAccount` first, then "Invalid address", then "Invalid ID" |
| RewardToken.TopUsersSFT.constructor | backend/test/SocialNetwork.test.js:692-698 | a new token has its deployer as owner, no balances and no events |
| RewardToken.TopUsersSFT.MintOne | backend/test/SocialNetwork.test.js:721-734 | a successful mint raises exactly `balanceOf(holder, id)` by one and logs `Minted(holder, id)`; a revert changes nothing |
| FollowGraph.AddedSpec | backend/test/SocialNetwork.test.js:519-543 | following appends the address to the list and raises the count by one |
| FollowGraph.RemovedSpec | backend/test/SocialNetwork.test.js:576-601 | unfollowing zeroes the address's slot in place, keeps every other slot, and lowers the count by one |
| FollowGraph.AfterFollowShape | backend/test/SocialNetwork.test.js:508-543 | `follow` changes only the caller's followings and the target's followers |
| FollowGraph.FollowEditPair | backend/test/SocialNetwork.test.js:508-518 | after such an edit, the follow relation gains exactly (caller, target), on both sides |
| FollowGraph.FollowEditKeepsGraph | backend/test/SocialNetwork.test.js:508-543 | such an edit keeps followings and followers mirrored and changes no other pair |
| FollowGraph.FollowKeepsGraph | backend/test/SocialNetwork.test.js:508-543 | after `follow`, `doesFollow(caller, target)` holds and no other pair changes. Both lists grow by one entry and both counts by one. Names, scores and histories are untouched |
| FollowGraph.AfterUnfollowShape | backend/test/SocialNetwork.test.js:564-601 | `unfollow` changes only the caller's followings and the target's followers |
| FollowGraph.UnfollowEditPair | backend/test/SocialNetwork.test.js:564-575 | after such an edit, the follow relation loses exactly (caller, target), on both sides |
| FollowGraph.UnfollowEditKeepsGraph | backend/test/SocialNetwork.test.js:564-601 | such an edit keeps the graph mirrored, removes the pair and changes no other |
| FollowGraph.UnfollowKeepsGraph | backend/test/SocialNetwork.test.js:564-601 | after `unfollow`, the pair is gone and no other pair changes. Each list has the other's entry zeroed in place, and both counts drop by one |
| FollowGraph.ListsUnchangedKeepGraph | backend/test/SocialNetwork.test.js:19-36 | a call that leaves the follow lists alone keeps the graph and every follow pair |
| LedgerSteps.DeployedInvariant | backend/test/SocialNetwork.test.js:6-11 | the deployed ledger (no users or publications, next ID 1, month 202312, empty board) satisfies the invariant |
| LedgerProperties.PostCheckSpec | backend/test/SocialNetwork.test.js:46-56 | `post` is accepted exactly for 1..300 characters and a parent that is 0 or exists |
| LedgerProperties.HistoriesKept | backend/test/SocialNetwork.test.js:78-88 | histories stay indexed while posters and history lists are kept |
| LedgerProperties.NameKeepsInvariant | backend/test/SocialNetwork.test.js:23-32 | `changeName` sets the caller's name, leaves every other user alone, and keeps the invariant |
| LedgerProperties.PublishedShape | backend/test/SocialNetwork.test.js:58-100 | publishing adds exactly the new ID and appends it to the parent's comments, leaving every other publication alone |
| LedgerProperties.PublishedSpec | backend/test/SocialNetwork.test.js:58-100 | publishing keeps the publication table well formed and the comment lists indexed |
| LedgerProperties.HistoriesAfterPost | backend/test/SocialNetwork.test.js:78-88 | appending the new ID to the poster's history keeps every history indexed |
| LedgerProperties.PostKeepsInvariant | backend/test/SocialNetwork.test.js:58-103 | an accepted `post` keeps the invariant |
| LedgerProperties.PostRoundTrip | backend/test/SocialNetwork.test.js:58-103 | the post gets the next unused ID, which was free and is then read back as (exists, id, caller, content, parent, score 0, no comments). The next ID goes up by one, the poster's history and the parent's comments each gain the ID, and no other publication changes, and the log gains `NewPost(id, caller)` |
| LedgerProperties.RescoreKeepsPublications | backend/test/SocialNetwork.test.js:143-153 | changing one publication's score keeps the table well formed |
| LedgerProperties.RecordVoteKeepsRecords | backend/test/SocialNetwork.test.js:116-461 | the vote bookkeeping keeps everything but the board part of the invariant; only the poster may now sit on the board with a score of 0 or below |
| LedgerProperties.TopUsersStepRestores | backend/test/SocialNetwork.test.js:464-489 | the board update for the poster restores the full invariant |
| LedgerProperties.VoteKeepsInvariant | backend/test/SocialNetwork.test.js:116-489 | an accepted vote keeps the invariant |
| LedgerProperties.VoteStepSpec | backend/test/SocialNetwork.test.js:116-489 | the vote record becomes the table's next state. The publication score, the poster's score and the poster's score for the current month all move by the same delta. No other user, vote, monthly score or publication changes. The board is the poster's board update, and the log gains the vote's events followed by the board event, if any |
| LedgerProperties.VoteRepeatRestores | backend/test/SocialNetwork.test.js:121-163 | voting the same way twice on a publication restores the vote record exactly when the first vote did not switch an opposite vote. In that case the publications, every user's record (score included) and every monthly score are as before |
| LedgerProperties.ListsEditKeepsInvariant | backend/test/SocialNetwork.test.js:508-601 | an edit of follow lists alone that keeps the graph consistent keeps the invariant |
| LedgerProperties.FollowKeepsInvariant | backend/test/SocialNetwork.test.js:508-547 | an accepted `follow` keeps the invariant |
| LedgerProperties.FollowStepSpec | backend/test/SocialNetwork.test.js:508-543 | after `follow`, the caller follows the target, no other pair changes, and both counts rise by one |
| LedgerProperties.UnfollowKeepsInvariant | backend/test/SocialNetwork.test.js:564-608 | an accepted `unfollow` keeps the invariant |
| LedgerProperties.UnfollowStepSpec | backend/test/SocialNetwork.test.js:564-601 | after `unfollow`, the pair is gone, no other pair changes, and both counts drop by one |
| LedgerProperties.PendingLast | backend/test/SocialNetwork.test.js:628-653 | the users awaiting a reward on a board are those of all slots but the last, plus the last one if it is new |
| LedgerProperties.RewardOverFrame | backend/test/SocialNetwork.test.js:628-663 | the reward loop changes only users, marks, balances and the token log |
| LedgerProperties.RewardOverMarks | backend/test/SocialNetwork.test.js:628-653 | the reward loop marks exactly the non-zero board users for the current month |
| LedgerProperties.RewardOverBalances | backend/test/SocialNetwork.test.js:628-645 | the reward loop raises by one the balance, for the current month, of exactly the board users not rewarded before |
| LedgerProperties.RewardOverUsers | backend/test/SocialNetwork.test.js:654-663 | the reward loop appends the month to the token IDs of exactly the board users not rewarded before |
| LedgerProperties.RewardOverLog | backend/test/SocialNetwork.test.js:628-637 | the reward loop keeps the token log and appends one `Minted` entry per newly rewarded board user, each for that user and the current month |
| LedgerProperties.RewardKeepsInvariant | backend/test/SocialNetwork.test.js:611-686 | `rewardTopUsers` keeps the invariant |
| LedgerProperties.RewardStepSpec | backend/test/SocialNetwork.test.js:628-686 | after `rewardTopUsers`, exactly the non-zero board users are rewarded for the month, and neither the zero address nor anyone off the board is. New winners get one token and one token ID. The board is empty and the month is the next calendar month |
| SocialLedger.SocialNetwork.constructor | backend/test/SocialNetwork.test.js:6-11 | a deployed ledger is the initial state, with a fresh board and token |
| SocialLedger.SocialNetwork.ChangeName | backend/test/SocialNetwork.test.js:19-36 | reverts for names over 24 characters and changes nothing then; otherwise sets the name and logs `ChangedName(user, old, new)` |
| SocialLedger.SocialNetwork.Post | backend/test/SocialNetwork.test.js:46-103 | reverts with the three messages, changing nothing; otherwise commits the post step, keeping the invariant |
| SocialLedger.SocialNetwork.Upvote | backend/test/SocialNetwork.test.js:285-461 | reverts for a missing publication; otherwise commits the upvote step |
| SocialLedger.SocialNetwork.Downvote | backend/test/SocialNetwork.test.js:106-282 | reverts for a missing publication; otherwise commits the downvote step |
| SocialLedger.SocialNetwork.Vote | backend/test/SocialNetwork.test.js:106-489 | the shared vote path: the check, then the record update, then the board update |
| SocialLedger.SocialNetwork.RecordVote | backend/test/SocialNetwork.test.js:116-461 | updates the vote, the three scores and the log in place, exactly as the vote step says, and returns the poster |
| SocialLedger.SocialNetwork.SetNewTopUsers | backend/test/SocialNetwork.test.js:464-489 | updates the board array in place, exactly as the board step says |
| SocialLedger.SocialNetwork.Follow | backend/test/SocialNetwork.test.js:498-547 | reverts on self-follow and on a repeat follow, then (assumed rule, only the message is known) when the caller already follows 40 or more; otherwise commits the follow step |
| SocialLedger.SocialNetwork.Unfollow | backend/test/SocialNetwork.test.js:556-608 | reverts on self-unfollow and when not following; otherwise commits the unfollow step |
| SocialLedger.SocialNetwork.RewardTopUsers | backend/test/SocialNetwork.test.js:624-686 | reverts for a non-owner, and with "Invalid ID" when a board user awaits a token for a month past December 2026; otherwise commits the reward step |
| SocialLedger.SocialNetwork.RewardBoard | backend/test/SocialNetwork.test.js:628-663 | the loop over the board slots equals the reward fold over the old board and leaves every slot 0 |
| SocialLedger.SocialNetwork.RewardSlot | backend/test/SocialNetwork.test.js:628-663 | one slot: mints to a new winner through the token, marks the winner and appends the token ID, then zeroes the slot |
| Decimal.ToDecimal | frontend/components/CategoryFeed.jsx:71-73 | the string form of an ID is non-empty, all digits, with no leading zero |
| Decimal.DecimalRoundTrip | frontend/components/CategoryFeed.jsx:74-76 | reading a decimal string back as a number gives the ID |
| Decimal.DecimalInjective | frontend/components/CategoryFeed.jsx:79 | two IDs have the same string exactly when they are equal, so deduplicating strings is deduplicating IDs |
| Decimal.ZeroString | frontend/components/CategoryFeed.jsx:82 | the string "0" names exactly the ID 0 |
| PostView.DisplayTimeIsClassified | frontend/components/Post.jsx:35-95 | the label chain equals the reading "largest fitting unit, whole count, singular for 0 and 1, calendar date from one day" |
| PostView.ClassifyBuckets | frontend/components/Post.jsx:36-51 | every age falls in exactly one branch. Seconds are under 60, minutes 1..59 for 60..3599, hours 1..23 for 3600..86399; the count is the floor of age over the unit. From 86400 on, the label is the calendar date, with the year exactly when age > 28000000 |
| PostView.DisplayTimeEmpty | frontend/components/Post.jsx:37-95 | the label is empty exactly for a future date, or for a calendar date with a month index outside 0..11 that is too recent for a year |
| PostView.MonthTextRoundTrip | frontend/components/Post.jsx:54-91 | the twelve abbreviations read back as their month; only "May" has no dot |
| PostView.CategoryLabelRoundTrip | frontend/components/Post.jsx:98-116 | categories 1..4 give Technology, Politics, Sports and "Misc.", which read back as themselves; 0 and every other number give "" |
| Compose.ToLower | frontend/components/Publish.jsx:71 | lower-casing keeps the length and lowers each character on its own |
| Compose.LowerCharInverse | frontend/components/Publish.jsx:71 | a character lowers to a lower-case character c exactly when it is c or its capital |
| Compose.SecureLinkCharwise | frontend/components/Publish.jsx:71 | the link test holds exactly when the link is longer than 10 and each of its first eight characters is that of "https://" or its capital |
| Compose.CounterColourMonotone | frontend/components/Publish.jsx:63 | red exactly from 300 characters, orange exactly for 250..299, and more text never gives a milder colour |
| Compose.CounterTextShowsLength | frontend/components/Publish.jsx:63 | the counter reads "<n>/300", where the digits read back as the number of characters, 0 when empty |
| Compose.OptionValue | frontend/components/Publish.jsx:64-70 | the category selector only sends 0..4 |
| Compose.PublishClickSpec | frontend/components/Publish.jsx:71-75 | a click sends exactly when the content is non-empty and the link passes the test. It sends (content, link, category, 0) and empties content and link |
| Compose.PublishSessionRequests | frontend/components/Publish.jsx:26-75 | over any sequence of typing, choosing and clicking, every request is a top-level post with content, a secure link and a category in 0..4 |
| Compose.PublishedPassesPostCheck | frontend/components/Publish.jsx:60-73 | a request whose content fits the 300-character text area passes the ledger's `post` checks, for ASCII content (see the Lengths line under "## Left out") |
| Compose.CommentGuardSpec | frontend/components/Comment.jsx:63 | with no link, the comment button needs only content; with a link, it is exactly the publish test; publishable implies commentable |
| Compose.CommentClickSpec | frontend/components/Comment.jsx:31-67 | a click sends exactly when the guard holds. It sends (content, link, 0, page ID) and empties the form |
| Compose.CommentPassesPostCheck | frontend/components/Comment.jsx:59-65 | a comment whose content fits the 300-character text area, on an existing publication's page, passes the ledger's `post` checks, for ASCII content (see the Lengths line under "## Left out") |
| IdOrdering.SortInPlace | frontend/components/HomeFeed.jsx:121-123 | the in-place sort leaves the array ordered (descending or ascending) and a permutation of what it held |
| IdOrdering.InsertDown | frontend/components/HomeFeed.jsx:121-123 | one insertion step extends the ordered prefix by one element and permutes the array |
| IdOrdering.Distinct | frontend/components/HomeFeed.jsx:124 | the deduplicated list has the same IDs, none twice |
| IdOrdering.DistinctOfOrdered | frontend/components/HomeFeed.jsx:121-124 | deduplicating a sorted list gives a strictly sorted one |
| IdOrdering.FirstIsExtreme | frontend/components/HomeFeed.jsx:121-123 | the head of a sorted list comes before every ID in it |
| IdOrdering.StrictlyOrderedUnique | frontend/components/HomeFeed.jsx:121-124 | two strictly sorted lists with the same IDs are equal |
| IdOrdering.NonZero | frontend/components/HomeFeed.jsx:127 | skipping "0" keeps exactly the non-zero IDs |
| IdOrdering.NonZeroKeepsOrder | frontend/components/CategoryFeed.jsx:81-85 | skipping zeros keeps the order and the strict order |
| IdOrdering.NonZeroMultiset | frontend/components/ProfilePageContent.jsx:215-219 | skipping zeros removes every 0 and keeps every other ID as often as it was there |
| Feeds.ExplorePage | frontend/components/ExploreFeed.jsx:68-81 | the page loop asks for exactly the window's IDs. It sets `allPostsDisplayed` exactly when the newest ID is non-zero and below 40(k+1), so a window ending exactly at ID 1 does not set it; nothing happens when the newest ID is 0 |
| Feeds.ExploreIDsShape | frontend/components/ExploreFeed.jsx:72-78 | page k asks for at most 40 IDs, strictly decreasing and positive. They are exactly the positive IDs in (last-40(k+1), last-40k] |
| Feeds.ExplorePagesDisjoint | frontend/components/ExploreFeed.jsx:72 | two different pages never ask for the same ID |
| Feeds.ExplorePagesCover | frontend/components/ExploreFeed.jsx:72-89 | pages 0..k together ask for exactly the 40(k+1) newest positive IDs |
| Feeds.ExploreReachesEveryPublication | frontend/components/ExploreFeed.jsx:46-78 | starting from `nextUnusedPublicationID - 1`, some page asks for every publication of the ledger |
| Feeds.HomePage | frontend/components/HomeFeed.jsx:126-133 | page k asks for the non-zero entries at indices 40k..40k+39 that exist. It sets the flag exactly when 40k <= len-1 < 40(k+1) |
| Feeds.HomePageMembership | frontend/components/HomeFeed.jsx:124-133 | on a list without repeats, an ID is asked for on page k exactly when it is non-zero and its index divided by 40 is k |
| Feeds.HomeFeedPage | frontend/components/HomeFeed.jsx:119-136 | sort descending in place, dedupe, page. Requests are strictly descending, non-zero and taken from the merged histories |
| Feeds.WindowKeepsOrder | frontend/components/HomeFeed.jsx:126 | a page window of a strictly descending list is strictly descending |
| Feeds.HomeListIndependentOfArrival | frontend/components/HomeFeed.jsx:104-124 | once every history fetch has returned, two arrival orders of the same merged history IDs, once sorted, deduplicate to the same list |
| Feeds.RequestNonZero | frontend/components/CategoryFeed.jsx:81-85 | the loop asks for every non-zero entry in list order |
| Feeds.CategoryFeedRequests | frontend/components/CategoryFeed.jsx:69-88 | nothing happens for an empty index. Otherwise every non-zero ID of the index is asked for exactly once, strictly descending |
| Feeds.Displayed | frontend/components/ExploreFeed.jsx:36 | a feed shows exactly the fetched publications that are not comments, nor reposts where it hides those |
| Feeds.DisplayedOfLedger | frontend/components/HomeFeed.jsx:80 | no comment is ever shown, and every fetched top-level publication is |
| ProfilePage.ProfileRequests | frontend/components/ProfilePageContent.jsx:199-221 | for any non-empty history (the ABI's has 25 slots; the page reads slot 0 unguarded): "no posts" exactly when slot 0 held 0. The history is sorted ascending in place, then walked from the end: requests are descending and hold every non-zero entry as often as the history does |
| ProfilePage.WalkFromEnd | frontend/components/ProfilePageContent.jsx:215-219 | the reverse walk asks for the non-zero slots from last to first |
| ProfilePage.ProfileRequestsSpec | frontend/components/ProfilePageContent.jsx:208-219 | walking an ascending history from its end gives the non-zero IDs in descending order, as a multiset the history minus its zeros |
| ProfilePage.ReverseMultiset | frontend/components/ProfilePageContent.jsx:215 | walking from the end visits the same entries |
| ProfilePage.FollowLimitToast | frontend/components/ProfilePageContent.jsx:61-79 | under the assumed cap rule (following count 40 or more, checked after the self and duplicate checks; only the message text is known), the ledger refuses a follow with the 40-user message exactly at the cap. Any error text carrying that message gives the limit toast, and the other two refusals give the generic toast |

## Left out

- `changeDescription`, `changePicture` and `repost` are not modelled. No
  test exercises them. Reposts therefore never exist in the ledger
  (`Feeds.FetchedOf` sets `isRepostOf` to 0).
- The ABI's 25-slot history ring buffer and 40-slot category index, and
  their wrap-around, are not modelled. The ledger keeps growing lists, as
  the tests read them. The 40-comment cap is not modelled either.
- The follow cap is assumed: `follow` is refused when the caller's
  following count is 40 or more, checked after the self and duplicate
  checks. No test exercises it; only the refusal text is known, from the
  profile page's error handling. `LedgerSteps.FollowCheck` rests on
  this assumed rule, and so does the third clause of
  `ProfilePage.FollowLimitToast`.
- Feeds.HomeListIndependentOfArrival: holds only once every history fetch
  has returned. The home feed sets its "all fetched" flag when the user's
  own `getUser` returns (`frontend/components/HomeFeed.jsx:62-64`), and the
  paging effect runs once on whatever the merged list holds then. A
  followed user whose history arrives later is never paged, so the page
  can depend on arrival order. The model does not capture that race.
  `Feeds.HomeFeedPage` pages a list given in full.
- FollowGraph.Added: a follow always appends the target to both lists,
  also after an unfollow left a zeroed slot, where the contract may reuse
  that slot. The tests only follow from empty lists. Under this model a
  list can therefore hold more than 40 entries after unfollows, while the
  count stays capped. `FollowGraph.FollowKeepsGraph` states the appending
  behaviour.
- Board overflow is not modelled. When all ten slots are full, a new
  positive poster does not enter and no event is logged; no test pins this
  case.
- After a reward cycle the board is emptied. The tests do not read the
  board after `rewardTopUsers`, so this reset is a modelling choice.
- A mint that would revert inside `rewardTopUsers` reverts the whole call.
  This is modelled as a check before any change ("Invalid ID" from January
  2027 on when the board has a new winner).
- OpenZeppelin `Ownable` is a stored owner and a check. Ownership transfer
  and the ERC-1155 internals of the token, beyond a per-(holder, id)
  balance and a `Minted` log, are not modelled.
- `msg.sender` is a parameter `caller`. It is never the zero address,
  which no transaction can be sent from. `follow` and `unfollow` of the
  zero address are excluded by precondition.
- Integer widths: addresses, IDs and balances are unbounded naturals, and
  scores are unbounded integers. 256-bit overflow is out of reach of the
  call sequences of the contract's test suite.
- Lengths: contract string lengths are Dafny character counts. The
  contract's own length measure is not known. It is assumed to be
  Solidity's usual `bytes(s).length`, which counts UTF-8 bytes.
  JavaScript's `.length` counts UTF-16 units. All three agree on ASCII
  text.
- Compose.ToLower: lowers ASCII letters only, where JavaScript's
  `toLowerCase` is Unicode-aware. For the test against "https://" the two
  agree. Only the Kelvin sign lowers to an ASCII letter (k), and the dotted
  capital I lowers to text starting with i; neither letter occurs in the
  scheme.
- The feeds keep IDs as numbers, where the interface turns them into
  decimal strings. `Decimal` proves the strings name the IDs one to one, so
  the sort, the `Set` and the "0" test give the same results.
- Block timestamps, the host clock and time zone are inputs: the age in
  seconds, and the month index, day and year of the publication date.
- React rendering, hooks, `setTimeout`/`setInterval` re-entry guards, toasts
  other than the choice of the follow-limit toast, wallet connection, SFT
  metadata fetches and the order in which asynchronous reads complete are
  not modelled. A feed's result is the list of IDs it asks for.
- The superseded `frontend/my-app` prototype is not part of this model.
  Neither are deploy scripts, the Hardhat configuration and page layouts.
