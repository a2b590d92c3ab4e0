# SkillSwap in Dafny

This project models SkillSwap, a skill-exchange matching app with three parts:

- a React web front end;
- a React Native mobile front end;
- a Spring back end.

It covers the small deterministic rules that decide what the user sees and what gets stored:

- **Notification badges.** The badge counters of both notification providers. The mobile provider counts new matches by delta and shows messages as a level. The web provider counts both by delta, but only from a non-zero baseline, and shows toasts.
- **Discover.** The candidate list: who is excluded, how each card is enriched, and the year and nearby filters. Also the year toggle and the swipe step.
- **Messages and Matches.** Conversations and match cards. The "other party" rule with its `userId || id` fallback, the send guard and the draft's fate after a send.
- **Profile and ViewProfile.** Photo ordering, the owner filters, the form update, the upload flag, the location label, and the create-or-update choice on save.
- **Accounts.** Sign-up and sign-in on both front ends. Accounts are found by exact email; no password is ever checked.
- **Back-end controllers.** Three of the Spring controllers:
  - messages: ordered validation, trimming, mark-as-read, and ordered listing;
  - users: partial update that copies only non-null fields;
  - profiles: update that copies a fixed list of fields.
- **Legacy API helper.** The current-user fallback, the request configuration and the error message of the legacy static front end.

Every fetch, the clock (`Date.now()`, `LocalDateTime.now()`) and the database's id generator are inputs to the model.

**JavaScript values**
- An id read from JSON is `JsId`: `Undefined`, `Null` or `Num(n)`. Dafny equality on it is JavaScript's `===`.
- Truthiness and `||` are written out in module `Js`.
- A nullable string is `Option<string>`. It is truthy when present and non-empty.
- A coordinate is `Option<real>`. It is truthy when present and non-zero.

**Fetches and external functions**
- A fetch that can throw is `Fetch<T>`: `Fetched(value)` or `FetchFailed(message)`.
- Per-match fetches are functions from the match id.
- `toAbsoluteUrl`, the great-circle distance and `JSON.stringify` are function parameters.

**Whitespace**
- JavaScript's `trim` uses the ECMAScript white-space and line-terminator set.
- Java's `String.trim` strips every character up to U+0020.
- They are different predicates, and `Text.TrimClassesDiffer` shows an input on which they disagree.

**Sorting**
- The photo ordering and the message listing by `sentAt` share one insertion sort.
- It sorts by a two-part ascending rank.
- Its contract is sortedness plus being a permutation of the input.

**The mobile match baseline follows the count down**
- After a poll whose count fell, the baseline is the lower count (frontend-mobile/src/contexts/NotificationContext.js, line 47), so a later climb counts in full.
- Over the counts 2, 2, 5, 5, 3, 6 the badge rises by 3 and then by 3 again, ending at 6 (`MobileNotifications.RisesExample`).

## Model

| member | source | states |
|---|---|---|
| Participants.UserMatches | frontend-web/src/pages/Messages.js:44-48 | A match is kept iff either party's `userId \|\| id` equals the user; every kept match keeps its multiplicity |
| Participants.UserMatchesInOrder | frontend-web/src/pages/Matches.js:33-37 | The user's matches keep the fetched order: filtering distributes over concatenation |
| Participants.OtherPartyIsNotSelf | frontend-web/src/pages/Messages.js:50-53 | For a match the user is in, with distinct parties, the other party is the party that is not the user |
| Participants.ZeroIdFallsThrough | frontend-web/src/pages/Matches.js:34-35 | A party id is 0 only when `userId` is falsy and `id` is 0; a stub with `userId` 0 is read through `id` |
| MobileNotifications.OnSession | frontend-mobile/src/contexts/NotificationContext.js:101-146 | With no user, both badges and baselines are 0. Otherwise the baselines become the match count and the awaiting-conversation count, and neither badge changes. A failed fetch changes nothing |
| MobileNotifications.SessionThenSamePollSilent | frontend-mobile/src/contexts/NotificationContext.js:112-140 | Right after the session starts, a poll that sees the same matches raises no badge |
| MobileNotifications.CheckMatches | frontend-mobile/src/contexts/NotificationContext.js:24-51 | The badge grows by exactly the rise over the baseline, or not at all. The baseline becomes the current count even when it fell. A failed fetch or no user changes nothing |
| MobileNotifications.CheckMessages | frontend-mobile/src/contexts/NotificationContext.js:53-99 | Badge and baseline are set to the number of the user's matches whose latest message exists, is from someone else and is unread |
| MobileNotifications.AwaitingCountAdditive | frontend-mobile/src/contexts/NotificationContext.js:72-86 | The awaiting count sums per match; a match whose latest message is missing or whose fetch threw adds 0 |
| MobileNotifications.ClearMatches | frontend-mobile/src/contexts/NotificationContext.js:162-179 | Badge 0, baseline the current count, message counters untouched |
| MobileNotifications.ClearMessagesIsRecount | frontend-mobile/src/contexts/NotificationContext.js:181-215 | Clearing the message badge is the same transition as a message poll: it recounts rather than zeroing |
| MobileNotifications.ClearThenPoll | frontend-mobile/src/contexts/NotificationContext.js:174-175 | After a clear, a poll shows only the rise since the clear; with an unchanged count the badge stays 0 |
| MobileNotifications.MessageBadgeIsLevel | frontend-mobile/src/contexts/NotificationContext.js:88-95 | After two polls the message badge shows the second poll's level, never a sum |
| MobileNotifications.TickOrderIrrelevant | frontend-mobile/src/contexts/NotificationContext.js:149-152 | The two checks of one tick touch disjoint counters, so either completion order gives the same state |
| MobileNotifications.MatchBadgeSumsRises | frontend-mobile/src/contexts/NotificationContext.js:36-47 | Over any run of polls the badge grows by the sum of positive deltas between consecutive counts, and the baseline ends at the last count |
| MobileNotifications.RisesExample | frontend-mobile/src/contexts/NotificationContext.js:40-47 | From baseline 2, counts 2, 5, 5, 3, 6 raise the badge by 6 |
| WebNotifications.Show | frontend-web/src/contexts/NotificationContext.js:24-32 | The new toast is first and the earlier toasts follow unchanged |
| WebNotifications.Dismiss | frontend-web/src/contexts/NotificationContext.js:35-37 | Exactly the toasts with another id remain |
| WebNotifications.DismissKeepsOrder | frontend-web/src/contexts/NotificationContext.js:35-37 | The toasts that survive a dismissal keep the order they were shown in |
| WebNotifications.ShowThenDismiss | frontend-web/src/contexts/NotificationContext.js:32-36 | Dismissing right after showing restores the list, unless another toast shares the id; toasts that share an id vanish together |
| WebNotifications.PluralIffMany | frontend-web/src/contexts/NotificationContext.js:55 | The toast text ends in "es!" (matches) or "s!" (messages) iff more than one arrived |
| WebNotifications.CheckMatches | frontend-web/src/contexts/NotificationContext.js:40-62 | The badge grows by the rise only when count > baseline > 0. A toast is emitted iff the badge grows. The baseline follows the count |
| WebNotifications.TotalUnreadAdditive | frontend-web/src/contexts/NotificationContext.js:76-88 | The unread total sums per conversation; conversations whose fetch threw add 0 |
| WebNotifications.CheckMessages | frontend-web/src/contexts/NotificationContext.js:64-99 | The same armed-delta rule on the unread total, with a message toast iff the badge grows |
| WebNotifications.ClearMatches | frontend-web/src/contexts/NotificationContext.js:122-125 | Match badge and baseline 0, everything else untouched |
| WebNotifications.ClearMessages | frontend-web/src/contexts/NotificationContext.js:127-130 | Message badge and baseline 0, everything else untouched |
| WebNotifications.UnarmedPollIsSilent | frontend-web/src/contexts/NotificationContext.js:53-58 | From a baseline of 0 a poll raises no badge and no toast and only moves the baseline |
| WebNotifications.MatchAfterClearIsLost | frontend-web/src/contexts/NotificationContext.js:122-125 | A match arriving between a clear and the next poll is never counted |
| WebNotifications.MatchBadgeSumsArmedRises | frontend-web/src/contexts/NotificationContext.js:52-58 | Over any run of polls the badge grows by the rises whose starting baseline was above 0 |
| WebNotifications.FirstMatchNeverCounted | frontend-web/src/contexts/NotificationContext.js:101-107 | From a fresh start, counts 1 then 2 announce one match, not two |
| Discover.CardPhoto | frontend-web/src/pages/Discover.js:81 | The first primary photo, else the first photo, else none |
| Discover.CardPhotoUrl | frontend-web/src/pages/Discover.js:76-86 | A URL is shown iff the profile has a truthy id, its photo fetch succeeded and the chosen photo has a truthy URL; it is then that URL resolved |
| Discover.CardShowsFirstPrimary | frontend-web/src/pages/Discover.js:81-82 | When the fetched photos contain a primary photo with a URL, the card shows the first primary photo, whatever comes before it |
| Discover.Enrich | frontend-web/src/pages/Discover.js:75-96 | Location, latitude, longitude and major take the profile's value when truthy, else the user's (or ''); the profile is the first with that owner |
| Discover.SwipedIds | frontend-web/src/pages/Discover.js:69 | Exactly the swipee ids of the history, likes and passes alike |
| Discover.WithDistance | frontend-web/src/pages/Discover.js:105-111 | A distance is set iff both the user's and the candidate's coordinates are truthy |
| Discover.Candidates | frontend-web/src/pages/Discover.js:62-124 | No candidate is the user or anyone swiped; each comes from the user list and passes the active year and nearby filters |
| Discover.LoadUsers | frontend-web/src/pages/Discover.js:59-133 | A successful load replaces the cards and puts the first card on top (index 0); a failed load leaves cards and index as they were |
| Discover.CandidatesComplete | frontend-web/src/pages/Discover.js:71-124 | Every unswiped other user whose card passes the active filters is offered |
| Discover.CandidatesInListOrder | frontend-web/src/pages/Discover.js:71-126 | Candidates keep the order of the user list: selection distributes over concatenation |
| Discover.NoFiltersKeepEveryone | frontend-web/src/pages/Discover.js:113-124 | With no year selected and nearby off, the candidates are exactly the unseen users of the list, one card each, in list order |
| Discover.NoHomeNoNearby | frontend-web/src/pages/Discover.js:102-124 | Without the user's own coordinates no distance is set and the nearby filter drops everyone |
| Discover.ToggleYear | frontend-web/src/pages/Discover.js:170-177 | The year is selected afterwards iff it was not before; other years are unaffected |
| Discover.ToggleTwiceSameSet | frontend-web/src/pages/Discover.js:173-175 | Toggling a year twice restores the selection as a set |
| Discover.ToggleTwiceRestores | frontend-web/src/pages/Discover.js:173-175 | Selecting a new year and deselecting it restores the list itself |
| Discover.HandleSwipe | frontend-web/src/pages/Discover.js:147-168 | Past the last card nothing is sent. Otherwise the top card is swiped by the user, as a like iff the direction is `'right'`, and the next card comes up only if the swipe was stored |
| Discover.SwipeRunStoresQueueInOrder | frontend-web/src/pages/Discover.js:147-168 | Over any run of swipes the stored swipes are the queue's cards from the starting index, each once and in order. Each stored swipe is a like iff its gesture was a right swipe. A swipe that failed to store leaves the same card on top. The index never passes the end, and until then it has moved once per stored swipe |
| Discover.SwipesAfterLoadStartAtFirstCard | frontend-web/src/pages/Discover.js:126-127 | After a successful load the stored swipes are the new queue's cards from the front |
| MessagesPage.Conversations | frontend-web/src/pages/Messages.js:38-62 | One conversation per match of the user, in fetched order, each with the first account of the other party |
| MessagesPage.ConversationsExact | frontend-web/src/pages/Messages.js:44-60 | A match appears as a conversation iff it is fetched and the user is a party |
| MessagesPage.AutoSelect | frontend-web/src/pages/Messages.js:63-65 | The first conversation is opened only when there is one and none is open |
| MessagesPage.AutoSelectSettles | frontend-web/src/pages/Messages.js:63-65 | A second pass opens nothing new; with nothing open, a conversation is opened iff there is one, and it is one of the list |
| MessagesPage.LoadMatches | frontend-web/src/pages/Messages.js:38-71 | A successful load replaces the conversations and opens the first one iff the handler's closure saw nothing open and there is one; otherwise the panel's selection stays. A failed load changes nothing |
| MessagesPage.MountLoadOpensFirst | frontend-web/src/pages/Messages.js:21-65 | The one load, run on mount with the initial empty selection in its closure, opens the first conversation iff there is one, as `AutoSelect` does from nothing open; through that closure any non-empty load opens the first conversation |
| MessagesPage.Outgoing | frontend-web/src/pages/Messages.js:91-100 | Nothing is sent iff the draft is all whitespace or nothing is open; otherwise the trimmed, non-empty draft goes to the open match from the user |
| MessagesPage.LoadMessages | frontend-web/src/pages/Messages.js:82-89 | The fetched list replaces the shown one; a failed fetch keeps it |
| MessagesPage.PollsSettle | frontend-web/src/pages/Messages.js:82-89 | Repeating a poll changes nothing, the latest successful answer is what is shown, and a failed poll in between leaves no trace |
| MessagesPage.Send | frontend-web/src/pages/Messages.js:91-107 | The draft is cleared and the list reloaded only after a successful send; on failure the draft stays and an alert is raised |
| MessagesPage.SentDraftIsConsumed | frontend-web/src/pages/Messages.js:93-105 | After a successful send nothing is left to send; after a failed one the same message would be posted again |
| MessagesPage.OwnMessagesNeverAwait | frontend-web/src/pages/Messages.js:209 | An own message never counts as awaiting the user in either provider; an unread message on the other side always does |
| MatchesPage.MatchCards | frontend-web/src/pages/Matches.js:24-59 | One card per match of the user, in order, with the first account and first profile of the other party |
| MatchesPage.LoadMatches | frontend-web/src/pages/Matches.js:24-59 | A successful load shows the new cards; a failed load leaves the shown cards |
| MatchesPage.CardsKeepMatches | frontend-web/src/pages/Matches.js:39-51 | Stripping the cards gives back the filtered matches; card lists concatenate like match lists |
| MatchesPage.HeadingSingularIffOne | frontend-web/src/pages/Matches.js:88 | The heading ends in "matches" iff the count is not 1 |
| ProfilePage.NormalizePhotos | frontend-web/src/pages/Profile.js:74-87 | A permutation of the URL-resolved photos, sorted primary first and then newest first |
| ProfilePage.NormalizedOrder | frontend-web/src/pages/Profile.js:81-86 | Every primary photo precedes every other photo; photos of the same kind run newest to oldest, a missing date counting as 0 |
| ProfilePage.MainPhotoNeedNotBePrimary | frontend-web/src/pages/Profile.js:139-140 | The stored list is unsorted, so the main photo `photos[0]` need not be the primary photo that normalisation would put first |
| Entities.OwnedByExact | frontend-web/src/pages/Profile.js:146-149 | The owner filter `e.user?.userId === userId` keeps exactly that user's entries, each as often as it occurs, and filtering a concatenation is the concatenation of the filtered parts, so order is kept |
| ProfilePage.LoadOwnLists | frontend-web/src/pages/Profile.js:146-149 | Each of the four lists holds exactly the user's own entries |
| ProfilePage.HandleChange | frontend-web/src/pages/Profile.js:157-163 | Only the named field changes: to `checked` for a checkbox, to `value` otherwise |
| ProfilePage.HandleChangeIdempotent | frontend-web/src/pages/Profile.js:157-163 | Repeating a change event changes nothing more |
| ProfilePage.PhotoUpload | frontend-web/src/pages/Profile.js:312-320 | Nothing is sent without a file or profile id; the upload is primary iff there are no photos yet |
| ProfilePage.LocationLabel | frontend-web/src/pages/Profile.js:236-243 | "city, state" when both are known, whichever is known otherwise, else the coordinates |
| ProfilePage.LocationLabelShape | frontend-web/src/pages/Profile.js:236-243 | The label is never blank when coordinates are known, begins with a known city and ends with a known state |
| ProfilePage.SaveAction | frontend-web/src/pages/Profile.js:295-299 | Update iff a profile with a truthy id exists, else create |
| ProfilePage.UploadNeedsSavedProfile | frontend-web/src/pages/Profile.js:312-320 | An upload is sent exactly when a save would update, for the same profile id; an upload to a profile that has photos is never primary |
| ViewProfile.Load | frontend-web/src/pages/ViewProfile.js:22-57 | A failed fetch of the lists changes nothing. Otherwise user, profile and the four lists become the route id's first user, first profile and own entries (none for an unparsable id). Photos change only when a profile was found and its photos arrived |
| ViewProfile.FirstVisitNotFound | frontend-web/src/pages/ViewProfile.js:24-79 | On a first visit "Profile not found" shows iff the lists could not be fetched, the id is not a number, or no user has it |
| ViewProfile.ShownListsBelongToUser | frontend-web/src/pages/ViewProfile.js:33-51 | After a successful load the shown user carries the route id, and each of the four lists is exactly that user's entries |
| ViewProfile.PhotosOfPreviousUserLinger | frontend-web/src/pages/ViewProfile.js:39-46 | Moving to a user without a profile keeps showing the previous photos |
| Accounts.AccountFor | frontend-web/src/pages/Login.js:21 | The first account with exactly this email, none iff no account has it |
| WebRegister.Submit | frontend-web/src/pages/Register.js:26-51 | A taken email is rejected. Registration happens iff the email is free and the create succeeds, posting the form with `passwordHash` equal to the password. A thrown user-list fetch, or a thrown create after the email was found free, shows that error's message or the default text |
| MobileRegister.HandleRegister | frontend-mobile/app/register.js:34-77 | An empty field is rejected before any lookup and a taken email before creation. Success posts `passwordHash` equal to the password. Failures are classified |
| MobileRegister.Classify | frontend-mobile/app/register.js:56-66 | Connection failure iff network error or no response. Otherwise the server's message, else the status text, else "Server error: N". The final branch can never be taken |
| MobileRegister.ServerFailureNonEmpty | frontend-mobile/app/register.js:62-63 | A server reply always gives a non-empty alert |
| WebLogin.Submit | frontend-web/src/pages/Login.js:14-36 | Sign-in succeeds iff some account has exactly this email, and signs in the first one. Otherwise "Invalid email or password", or the error text on a failed fetch |
| WebLogin.PasswordIgnored | frontend-web/src/pages/Login.js:19-30 | The outcome does not depend on the password |
| MobileLogin.HandleLogin | frontend-mobile/app/login.js:25-49 | Empty fields are refused before any lookup. Otherwise the first account with this email is signed in, "Invalid email or password" when none has it, and the error text on a failed fetch |
| MobileLogin.PasswordIgnored | frontend-mobile/app/login.js:33-43 | Any two non-empty passwords give the same outcome |
| FlowsAgree.RegisterFlowsAgree | frontend-mobile/app/register.js:34-77 | On a filled form with both requests answered, web and mobile sign-up register the same request and account, or both refuse the taken email with the same text |
| FlowsAgree.LoginFlowsAgree | frontend-mobile/app/login.js:25-49 | With both fields filled, web and mobile sign-in sign in the same account and refuse an unknown email with the same text |
| MessageController.GetMessagesByMatch | src/main/java/com/example/skillswap/controller/MessageController.java:33-39 | 404 iff the match is unknown; otherwise exactly that match's messages, as a permutation, in ascending `sentAt` |
| MessageController.GetMessagesByMatchLegacy | src/main/java/com/example/skillswap/controller/MessageController.java:42-45 | The legacy route answers exactly as the clearer one |
| MessageController.SendMessage | src/main/java/com/example/skillswap/controller/MessageController.java:48-86 | The first failing check in order decides the error: match id missing (400), sender id missing (400), content missing or blank (400), content over 1000 characters untrimmed (400), match unknown (404), sender unknown (404). With none failing, one unread message with trimmed non-empty content, the stored match and sender is appended |
| MessageController.SendMessageListed | src/main/java/com/example/skillswap/controller/MessageController.java:78-85 | A sent message keeps message ids unique and is listed under its match |
| MessageController.MarkAsRead | src/main/java/com/example/skillswap/controller/MessageController.java:89-95 | 404 iff no message has the id. Otherwise that message becomes read and every other row and table is unchanged |
| MessageController.MarkAsReadMarksTheRow | src/main/java/com/example/skillswap/controller/MessageController.java:91-94 | With unique ids, every row with that id is read afterwards and ids stay unique |
| MessageController.MarkAsReadIdempotent | src/main/java/com/example/skillswap/controller/MessageController.java:89-95 | Marking the same message read again changes nothing |
| UserController.UpdateUser | src/main/java/com/example/skillswap/controller/UserController.java:28-48 | Unknown id is an error naming the id. Each of first name, last name, university and email is overwritten iff the incoming value is non-null, and no other field or row changes |
| UserController.UpdateUserIdempotent | src/main/java/com/example/skillswap/controller/UserController.java:28-48 | Sending the same update twice equals sending it once |
| UserController.UpdateUserKeepsKeys | src/main/java/com/example/skillswap/controller/UserController.java:46-47 | Every row stays under its own id |
| UserController.AddUser | src/main/java/com/example/skillswap/controller/UserController.java:23-26 | The saved user is stored under its id, a generated one when it had none, and rows stay keyed by id |
| ProfileController.GetProfile | src/main/java/com/example/skillswap/controller/ProfileController.java:48-52 | The stored profile, or "Profile not found" iff the id is unknown |
| ProfileController.UpdateThenGet | src/main/java/com/example/skillswap/controller/ProfileController.java:28-52 | Reading back an updated profile gives the saved one, listed fields as sent and the rest as stored; other ids read as before |
| ProfileController.UpdateProfile | src/main/java/com/example/skillswap/controller/ProfileController.java:28-46 | Unknown id is an error. The thirteen listed fields take the incoming values, nulls included. Id, owner, `showLocation` and coordinates keep their stored values |
| ProfileController.UpdateProfileIdempotent | src/main/java/com/example/skillswap/controller/ProfileController.java:28-46 | Applying the same update twice equals applying it once |
| ProfileController.ShowLocationNotSaved | src/main/java/com/example/skillswap/controller/ProfileController.java:32-44 | A changed `showLocation` in the request is not saved |
| LegacyApi.CurrentUserId | src/main/resources/static/js/api.js:5-12 | The stored `userId` if truthy, else the stored `id` if truthy, else 1, also with nothing stored; a stored JSON `null` throws; any id answered is truthy |
| LegacyApi.AnonymousIsUserOne | src/main/resources/static/js/api.js:9-11 | A visitor who never logged in, or whose stored value has no usable id, acts exactly as user 1 |
| LegacyApi.Config | src/main/resources/static/js/api.js:17-27 | Caller options override defaults key by key; caller headers replace the default headers whole; an object or array body becomes JSON text, any other body is left as is |
| LegacyApi.BodySerializedIffStructured | src/main/resources/static/js/api.js:25-27 | The body is rewritten iff it is an object or an array (`null` is not) |
| LegacyApi.HeadersReplacedWhole | src/main/resources/static/js/api.js:17-23 | A caller sending only an Authorization header sends no Content-Type |
| LegacyApi.ErrorOf | src/main/resources/static/js/api.js:32-35 | "Unknown error" for a non-JSON body. A `TypeError` for a `null` body. Otherwise the server's truthy message, as is when it is a string and converted to text when not, else "HTTP error! status: N" |
| LegacyApi.StatusRecoverable | src/main/resources/static/js/api.js:34 | The fallback message carries the response status in decimal |
| LegacyApi.ApiCall | src/main/resources/static/js/api.js:15-42 | A network failure is rethrown, a non-ok response rejects with `ErrorOf`, and an ok response resolves to its JSON body; the URL is the endpoint itself |
| LegacyApi.ServerMessageReachesCaller | src/main/resources/static/js/api.js:30-35 | A refusal whose JSON carries a message rejects with that message; one without a message rejects with text from which the status reads back |
| Text.TrimClassesDiffer | src/main/java/com/example/skillswap/controller/MessageController.java:61 | Java's trim strips control characters that JavaScript keeps and keeps the no-break space that JavaScript strips |

## Left out

- The great-circle distance is a parameter of the Discover model. Its trigonometry and the metre/kilometre labels are floating point.
- `toAbsoluteUrl` and `JSON.stringify` are parameters. They depend on the URL and JSON libraries.
- Timers are not modelled: the 20-second and 5-second polling intervals, the 2-second message refresh, the toast and status timeouts, and the location debounce. Each tick is modelled as one transition, and interleavings other than the two orders of one tick are not explored.
- REST calls, axios, `FormData`, geolocation and reverse geocoding are I/O. Their results are inputs: `Fetch` values, the `Address` of a geocoding answer, and the formatted coordinate text.
- Rendering, animation, gestures, styling and configuration files are not modelled.
- `loadStats` and `toggleLocationFilter` on Discover are not modelled: they only count or flip a switch.
- The Java `getUser`, `getAllUsers`, `getAllProfiles` and `addProfile` endpoints are not modelled: they are plain repository reads and saves.
- The JPA repositories are not modelled. Their `findByMatchMatchIdOrderBySentAtAsc` ordering is modelled by the sort.
- `auth.js`, `UserLanguage` and its controller, and the test configuration are not part of this model.
- MessageController.GetMessagesByMatch: the order of messages with equal `sentAt` is whatever the sort yields; the database leaves it unspecified.
- ProfilePage.NormalizePhotos: stability is not stated in the contract. The ensures do not say that photos of equal rank keep their input order.
- MessageController.SendMessage: lengths are counted in Unicode scalar values, not UTF-16 code units as Java's `length()` counts them.
- UserController.AddUser: the id generator is the `freshId` parameter. A user that arrives with an id is written under that id, which is how a merge with an existing row behaves.
- MobileRegister.Classify: the connection message's text (attempted URL and troubleshooting steps) is reduced to a tag.
- LegacyApi.Config: NaN and `-0` bodies are not modelled; numbers are reals.
- LegacyApi.ErrorOf: a non-string truthy server message is converted by a `toText` parameter standing for `String(...)`.
- LegacyApi.CurrentUserId: a stored text that is not valid JSON (such as the `"undefined"` that storing an undefined user leaves), which makes `JSON.parse` throw, is not modelled.
- Discover.SwipeRunStoresQueueInOrder: gestures are taken one at a time, each finishing before the next starts. The swipe buttons are never disabled, so a second swipe sent before the first is stored reads the same top card. Both swipes then store that card and the index moves past the next one; that overlap is not modelled.
- ViewProfile.Load: the route id arrives already parsed, as a number or none. A partial parse by `parseInt`, such as "12abc" read as 12, is not modelled.
- ProfilePage.NormalizePhotos: `uploadedAt` arrives as integer milliseconds or none. A date string that does not parse, which makes the comparator compare NaN, is not modelled.
- MessagesPage.LoadMatches: React closures are reduced to the `seen` parameter. The source runs `loadMatches` only from the mount effect, where the captured selection is the initial `null`.
- MessagesPage.Send: the reload after a successful send is one `Fetch` input; the 2-second polling of the open conversation is not modelled.
- MobileNotifications.OnSession: the effect's interval set-up and clean-up are not modelled, only the initial counts.
