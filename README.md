# A social feed front end, modelled in Dafny

The system is a React front end for a small social network ("Thazh Social") whose data lives
in a hosted Supabase backend. Users sign in, write text posts or posts with an image or a voice
recording, like and comment on posts, follow each other, search, and edit their settings. An
administrator reviews verification requests. Almost all of the code is rendering. This project
models the logic under it:

- the formatting and validation utilities (`Helpers`): relative times, email and username
  checks, truncation, file extensions and file types, hashtag and mention scanning, link
  markup, the online check, the greeting and the reading time;
- the application store (`Store`): the reducer over `{users, posts, currentUser, loading, error}`,
  and the provider actions, each of which dispatches `SET_LOADING` and then a success action or
  `SET_ERROR`;
- the like toggle over the likes table (`Likes`);
- the page and component handlers, each as a class whose fields are the component's state:
  - the media composer (`NewPostForm`) and the text post page (`CreatePostPage`);
  - the settings page (`SettingsPage`) and the sign-in page (`AccountPage`);
  - the comment thread (`CommentThread`);
  - the two post cards: `FeedCard` for the store's feed and `PostCardView` for the Post
    component;
  - the profile page (`ProfileView`), the search page (`SearchPage`) and the admin dashboard
    (`AdminPage`);
- the router's guards (`Routes`).

Shared modules:

- `Wrappers`: `Option`, a backend reply `Response` (data or an error message) and an action
  result `Outcome`;
- `Records`: the rows;
- `Seqs`: filtering with its lemmas;
- `JsStrings`: the JavaScript string built-ins the code uses. These are `trim` with its `\s`
  set, `toLowerCase`, `includes`, `indexOf`, `lastIndexOf`, `slice` (including the `>>> 0`
  conversion), `split(/\s+/)`, decimal rendering and the UTF-16 `length`.

The backend is never called. What each call answers is a parameter of the handler: a
`Response`, an `Option<string>` error, or a flag for a request that rejects. Each class records
the calls it makes in a `calls` field, so "no request is made" is a provable statement. The
clock (including the `updated_at` stamp of a review), `window.confirm`, file sizes and the locale's date rendering are also parameters.
Handlers on pages that share the store take the store (`Store.Provider`) as a parameter and
modify it.

## Model

| member | source | states |
|---|---|---|
| Helpers.RelativeTime | src/utils/helpers.js:4-31 | The difference falls in exactly one bucket: under a minute (future times included), minutes, hours, days, weeks (under four), or a calendar date. Each count is the floored quotient by its unit. |
| Helpers.RelativeTimeBounds | src/utils/helpers.js:12-30 | Every count shown is at least 1 and below the next threshold: 60 minutes, 24 hours, 7 days, 4 weeks. |
| Helpers.RelativeTimeMonotone | src/utils/helpers.js:4-33 | A later time difference never gives a finer bucket. Within the minutes bucket the count never decreases. |
| Helpers.FormatRelativeTime | src/utils/helpers.js:4-33 | The text for each band: "just now", "Nm ago", "Nh ago", "Nd ago", "Nw ago" with N the floored quotient, and the locale date from four weeks on. |
| Helpers.IsValidEmailIff | src/utils/helpers.js:47-50 | Valid iff the text is L '@' D1 '.' D2, with all three parts non-empty and free of '@' and whitespace. |
| Helpers.ValidEmailOneAt | src/utils/helpers.js:47-50 | A valid email has exactly one '@', not at the start, and no whitespace. |
| Helpers.IsValidUsername | src/utils/helpers.js:53-56 | True iff the length is 3 to 20 and every character is a letter, a digit or '_'. |
| Helpers.TruncateText | src/utils/helpers.js:59-62 | The text is unchanged when it fits. Otherwise the result is its first maxLength characters followed by "...", with length maxLength + 3. |
| Helpers.TruncateKeepsHead | src/utils/helpers.js:59-62 | Truncating twice keeps the same first maxLength characters. |
| Helpers.GetFileExtension | src/utils/helpers.js:117-119 | For names under 2^32 characters, the result is the dot-free tail after the last '.', preceded by at least one character. It is empty iff there is no dot, the only dot is at index 0, or the name ends in '.'. |
| Helpers.ExtensionOfJoined | src/utils/helpers.js:117-119 | base + "." + ext has extension ext, for a non-empty base and a dot-free ext. |
| Helpers.ImageFileIff | src/utils/helpers.js:122-133 | A name is an image (or audio) file iff its lower-cased extension is in the image list (or the audio list). |
| Helpers.ImageAudioExclusive | src/utils/helpers.js:122-133 | No name is both an image and an audio file. |
| Helpers.NoExtensionNoType | src/utils/helpers.js:117-133 | A name with no dot, or whose only dot is first, is neither an image nor audio. |
| Helpers.EmptyExtensionNoType | src/utils/helpers.js:122-133 | An empty extension matches neither type list. |
| Helpers.TagSpansFacts | src/utils/helpers.js:159-168 | Every match the scan finds is the sigil followed by the longest run of [A-Za-z0-9_] after it. Matches come in order and do not overlap. |
| Helpers.TagSpansComplete | src/utils/helpers.js:159-168 | A position starts a match iff the sigil stands there and a word character follows it. No match is missed and none is invented. |
| Helpers.ExtractTagsFacts | src/utils/helpers.js:159-168 | Each extracted tag is the text of its match: at least two characters, the sigil first, word characters after. |
| Helpers.NoTagsNoSpans | src/utils/helpers.js:159-168 | A text with no tag start yields the empty list. |
| Helpers.TagsInsideWords | src/utils/helpers.js:159-167 | The regex has no word boundary: "a#b c" yields ["#b"], and "me@host.com" yields ["@host"]. |
| Helpers.LinkTagsNoTags | src/utils/helpers.js:171-184 | The replacement leaves a text unchanged where no tag can start. |
| Helpers.FormatPlainText | src/utils/helpers.js:171-184 | A text with neither a hashtag nor a mention is returned unchanged. |
| Helpers.LinkTagsIsWrap | src/utils/helpers.js:178 | The replacement equals the reference `Wrap`: every match the scan finds (TagSpansFacts, TagSpansComplete) goes whole inside the markup, and every character outside the matches is copied in order. |
| Helpers.SpanTextsAreTagTexts | src/utils/helpers.js:159-168 | The texts of the indexed scan equal the matches of an index-free left-to-right scan, which composes over concatenation. |
| Helpers.TagTextsAppend | src/utils/helpers.js:159-168 | Two texts meet without a match across the seam when the second does not start with a word character: the matches of the whole are those of the parts, in order. |
| Helpers.LinkTagsKeepsOtherTags | src/utils/helpers.js:177-181 | Wrapping the hashtags keeps the mention matches and the leading word of the text, whenever the markup has no mention sign and starts with no word character. |
| Helpers.FormatWrapsTags | src/utils/helpers.js:171-184 | formatTextWithLinks wraps exactly the hashtags of the text, then exactly the mentions of that result, and the mentions of the intermediate text are the mentions of the original. |
| Helpers.IsUserOnline | src/utils/helpers.js:187-193 | Online iff less than 300000 ms have passed: floored minutes below 5. |
| Helpers.GreetingMonotone | src/utils/helpers.js:196-206 | The greeting is one of the three, and it moves only forward from morning to afternoon to evening as the hour grows. |
| Helpers.SplitCountsWords | src/utils/helpers.js:209-211 | `trim().split(/\s+/).length` is the number of words, and 1 for a blank text. |
| Helpers.ReadingMinutes | src/utils/helpers.js:209-212 | The minutes are ceil(words / 200) and at least 1. |
| Helpers.ReadingTimeText | src/utils/helpers.js:209-215 | The one-minute special case prints what the general case would. The text is "1 min read" iff there are at most 200 words. |
| Store.Reduce | src/context/AppContext.js:14-55 | Each field changes only under the actions that own it. Every action but SET_LOADING, SET_CURRENT_USER and an unknown one ends loading. An unknown action changes nothing. ADD_POST and ADD_USER prepend. DELETE_POST keeps exactly the posts with another id. |
| Store.DeleteUndoesAdd | src/context/AppContext.js:28-40 | Adding a post with a fresh id and then deleting that id restores the posts. |
| Store.DeleteIdempotent | src/context/AppContext.js:35-40 | Deleting an id twice equals deleting it once. |
| Store.DeletesCommute | src/context/AppContext.js:35-40 | Two deletions may run in either order. |
| Store.DeleteKeepsOrder | src/context/AppContext.js:35-40 | DELETE_POST keeps the survivors in order: it splits over any cut of the list. |
| Store.Provider.constructor | src/context/AppContext.js:6-12 | The store starts empty, signed out, idle and without an error. |
| Store.Provider.Dispatch | src/context/AppContext.js:58 | The state becomes the reducer's result and the action is logged. |
| Store.Provider.LoadUsers | src/context/AppContext.js:66-75 | SET_LOADING, then SET_USERS with `data` or [], or SET_ERROR with the message. The posts and the current user are untouched, and loading ends. The whole new state is stated for both replies. |
| Store.Provider.LoadPosts | src/context/AppContext.js:77-86 | The same shape as LoadUsers, for posts: the whole new state is the old one with the posts replaced, or the error set, and loading ended. |
| Store.Provider.CreateUser | src/context/AppContext.js:88-99 | On an error it returns a failure with the message and leaves the users unchanged. On success it prepends the row and returns it. Either way the whole new state is stated: the users or the error change, and loading ends. |
| Store.Provider.CreatePost | src/context/AppContext.js:101-117 | On an error it returns a failure and leaves the posts unchanged. On success it prepends the row with the current user attached as its author, and returns the bare row. On an error the new state is the old one with the error set and loading ended. |
| Store.Provider.DeletePost | src/context/AppContext.js:119-130 | The reducer's DELETE_POST runs only when the backend reports no error. On an error it returns a failure, and the new state is the old one with the error set and loading ended. |
| Store.Provider.SetCurrentUser | src/context/AppContext.js:132-134 | Only currentUser changes. |
| Store.Provider.ClearError | src/context/AppContext.js:136-138 | The error clears and loading ends too. |
| Store.Provider.Mount | src/context/AppContext.js:61-64 | Both loads run. Each collection is replaced, or kept when its load failed. |
| Likes.Toggled | src/lib/supabase.js:86-101 | A successful toggle flips the pair's membership and leaves every other pair alone. |
| Likes.ToggleTwiceRestores | src/lib/supabase.js:77-102 | Two toggles of one pair restore the table. |
| Likes.ToggleTwiceReports | src/lib/supabase.js:77-102 | Two toggles report one 'added' and one 'removed'. |
| Likes.LikeTable.ToggleLike | src/lib/supabase.js:77-102 | If the lookup finds the pair, it is deleted and 'removed' is reported. Otherwise it is inserted and 'added' is reported. A write error leaves the table as it was but still reports the action, which the lookup alone decides. |
| Likes.LikeTable.ToggleTwice | src/lib/supabase.js:77-102 | Two successful toggles restore the table and report both actions, the first according to the lookup. |
| NewPostForm.PublicUrl | src/components/Post/NewPost.jsx:70-78 | The public URL ends with the storage path. |
| NewPostForm.UploadPathParts | src/components/Post/NewPost.jsx:67-75 | The path `<userId>/<timestamp>_<name>` reads back: the owner before the first '/', then the timestamp's digits up to the next '_', then the file name. |
| NewPostForm.DisabledMatchesGuard | src/components/Post/NewPost.jsx:203 | While idle, the submit button is disabled exactly when the submit guard (line 53) would refuse. While loading it is always disabled. |
| NewPostForm.SubmitOutcome | src/components/Post/NewPost.jsx:58-97 | A submit posts iff every upload and the insert succeed, and then leaves no message. A failed image upload is the only call. Only uploads come before the last call. |
| NewPostForm.SubmitPayload | src/components/Post/NewPost.jsx:62-89 | The insert happens iff no upload failed. It carries the user, the trimmed text, and each upload's public URL, or null for a file not picked. |
| NewPostForm.NewPost.constructor | src/components/Post/NewPost.jsx:10-15 | The composer starts empty and idle, with no files and no message. |
| NewPostForm.NewPost.HandleImageChange | src/components/Post/NewPost.jsx:17-29 | An image over 5 MiB sets "Image size must be less than 5MB" and keeps the earlier pick. Exactly 5 MiB is accepted. |
| NewPostForm.NewPost.ImagePreviewLoaded | src/components/Post/NewPost.jsx:26 | The preview becomes the data URL, and nothing else changes. |
| NewPostForm.NewPost.HandleAudioChange | src/components/Post/NewPost.jsx:31-40 | Audio over 10 MiB sets "Audio size must be less than 10MB" and keeps the earlier pick. |
| NewPostForm.NewPost.RemoveImage | src/components/Post/NewPost.jsx:42-45 | Clears the image and its preview. |
| NewPostForm.NewPost.RemoveAudio | src/components/Post/NewPost.jsx:47-49 | Clears only the audio. |
| NewPostForm.NewPost.UploadIfPicked | src/components/Post/NewPost.jsx:66-79 | A picked file is uploaded under its path. A failed upload ends the submit with its message. Otherwise the file's URL is returned. |
| NewPostForm.NewPost.HandleSubmit | src/components/Post/NewPost.jsx:51-98 | Blank text with no files sets "Please add some content, image, or audio" and makes no call. Otherwise the calls, the message and the navigation are exactly those of the upload-then-insert sequence, and loading ends false. |
| CreatePostPage.OptionalLink | src/pages/CreatePost.js:31 | `imageUrl.trim() \|\| null`: null iff the link is blank, otherwise the trimmed link. |
| CreatePostPage.CreatePost.HandleSubmit | src/pages/CreatePost.js:13-42 | No user sets the sign-in message; the user check comes first. Then blank text sets the content message. Neither case calls the store. Otherwise the store receives the trimmed row. Success navigates home, and the store gains the row at the head of its posts. Failure shows the error or the fallback, and the store keeps everything but its error. Loading ends in both cases, and the users and the signed-in user stay. |
| SettingsPage.PasswordProblem | src/pages/Settings.jsx:57-65 | The mismatch message iff the passwords differ. The length message iff they match and are shorter than 6 UTF-16 code units. No message iff both checks pass. |
| JsStrings.Utf16LengthBounds | src/pages/Settings.jsx:62 | JavaScript's `length` is at least the character count and at most twice it, equals it without characters beyond U+FFFF, and exceeds it with one. |
| SettingsPage.Settings.HandleProfileUpdate | src/pages/Settings.jsx:36-53 | Both messages are cleared first. On success the profile is refetched and the success message shown; a failure shows its message. Loading ends false. |
| SettingsPage.Settings.HandlePasswordChange | src/pages/Settings.jsx:55-88 | A failed local check sets only the error: no call, and the success message stays. Success shows the message and empties all three fields. A failed call shows its error and keeps the fields. |
| SettingsPage.Settings.HandleEmailUpdate | src/pages/Settings.jsx:90-107 | Both messages are cleared; then either the error or the verification notice. Loading ends false. |
| AccountPage.Account.HandleSubmit | src/pages/Profile.js:23-58 | A blank username or email sets the fill-in message and changes nothing in the store. Login signs in a user made from the form. Register puts the created row at the head of the store's users and signs it in. On a failure it shows the error or the fallback, and the store keeps everything but its error. Loading ends in both cases, and the posts stay. |
| AccountPage.Account.HandleLogout | src/pages/Profile.js:60-68 | Nobody is signed in, and all four form fields are empty. |
| CommentThread.CommentSection.LoadComments | src/components/CommentSection.js:18-23 | The thread is replaced only by a reply with data and no error. |
| CommentThread.CommentSection.HandleSubmit | src/components/CommentSection.js:25-45 | A blank comment or no user: no call and no change. Otherwise the trimmed row is inserted. A stored row goes last and the input clears; on a failure both stay. Loading ends false. |
| FeedCard.LikedBy | src/components/PostCard.js:25 | True iff someone is signed in and some row has their user id. |
| FeedCard.CreatorCanDelete | src/components/PostCard.js:51 | The signed-in author of a post the store created may delete it. Nobody signed out may. |
| FeedCard.ToggleMovesCount | src/lib/supabase.js:86-101 | A successful toggle moves the post's like total by one, in the reported direction. |
| FeedCard.PostCard.constructor | src/components/PostCard.js:11-14 | No likes, an empty heart and a count of 0. |
| FeedCard.PostCard.LoadLikes | src/components/PostCard.js:20-27 | With rows, the count is their number and the heart is on iff one of them is the user's. Without rows nothing changes. |
| FeedCard.PostCard.HandleLike | src/components/PostCard.js:29-43 | No user: an alert only, with no toggle. Otherwise the toggle runs; 'added' turns the heart on and adds 1, any other action turns it off and subtracts 1. |
| FeedCard.PostCard.LikeKeepsSync | src/components/PostCard.js:35-43 | A like that goes through keeps a card that agreed with the table in agreement. A failed write leaves the table alone but moves the card out of agreement. |
| FeedCard.PostCard.HandleDelete | src/components/PostCard.js:45-49 | The store's deletePost runs only after confirmation. On success it removes every post with this id. On an error reply the store keeps its posts and records the message. |
| PostCardView.WholeDays | src/components/Post/PostCard.jsx:53 | Flooring hours and then dividing by 24 gives the whole days. |
| PostCardView.FormatDate | src/components/Post/PostCard.jsx:47-56 | "Just now" under an hour (future times included), "Nh ago" under 24 hours, "Nd ago" under 168 hours, and the locale date otherwise. |
| PostCardView.CountEmbedReadsOne | src/components/Post/PostCard.jsx:9 | As written, a `likes (count)` embed starts the counter at 1, whatever the count is. |
| PostCardView.LikesTotalIsCount | src/components/Post/PostCard.jsx:9 | The corrected count reads the embedded count. On a list of whole rows it agrees with the length. |
| PostCardView.PostCard.constructor | src/components/Post/PostCard.jsx:8-9 | The heart starts empty and the counter at the post's like total, the corrected count of the finding below. |
| PostCardView.PostCard.HandleLike | src/components/Post/PostCard.jsx:13-34 | When liked, it deletes the like and subtracts 1; otherwise it inserts and adds 1. A rejected request, or a missing user, changes neither the heart nor the counter. |
| PostCardView.PostCard.ClickTwice | src/components/Post/PostCard.jsx:13-34 | Two clicks that go through restore the heart and the counter. |
| ProfileView.OwnProfileIff | src/pages/Profile.jsx:20-21 | Without a route id the page is the viewer's own. With one, it is iff the viewer's id equals it. There is no user to load iff there is neither a route id nor a viewer. |
| ProfileView.MediaTabExact | src/pages/Profile.jsx:118-125 | The media tab holds exactly the posts with an image or audio, in order, and its counter is its length. |
| ProfileView.OtherTabs | src/pages/Profile.jsx:117-130 | The likes tab is empty. The posts tab and any unknown tab show every post, and the posts counter is their number. |
| ProfileView.ProfilePage.constructor | src/pages/Profile.jsx:12-21 | Loading, with no profile and zero counters. |
| ProfileView.ProfilePage.FetchProfileRow | src/pages/Profile.jsx:33-43 | A row sets the profile, and the follower and following counts default to 0. A failed lookup changes nothing. |
| ProfileView.ProfilePage.FetchPostRows | src/pages/Profile.jsx:45-70 | The rows (or []) replace the list unless the query failed. Loading ends either way. |
| ProfileView.ProfilePage.CheckFollowStatus | src/pages/Profile.jsx:72-86 | Following iff the lookup finds a row. With nobody signed in there is no request, and the page is not following. |
| ProfileView.ProfilePage.Mount | src/pages/Profile.jsx:23-43 | No target means no load. Otherwise it loads the profile and the posts, and checks the follow status only on someone else's profile. The profile and both counters become what the profile reply carries, with `\|\| 0`, and stay on an error. Without a target the shown profile, posts and counters stay. |
| ProfileView.ProfilePage.HandleFollow | src/pages/Profile.jsx:88-114 | Following: it unfollows and subtracts 1. Otherwise it follows and adds 1. A rejected request, or no user, changes neither the state nor the counter. |
| SearchPage.MatchingTagsExact | src/pages/Search.jsx:50-52 | The hashtag results are exactly the trending tags containing the query, ignoring case, in their original order. |
| SearchPage.Shown | src/pages/Search.jsx:80-89 | The users tab shows only users, the hashtags tab only hashtags, and any other tab all three. |
| SearchPage.ShownIdempotent | src/pages/Search.jsx:80-89 | Filtering twice equals filtering once. Any other tab shows everything. |
| SearchPage.Search.constructor | src/pages/Search.jsx:8-17 | Empty results, idle. |
| SearchPage.Search.HandleSearch | src/pages/Search.jsx:19-64 | A whitespace-only query empties the results without a call. Otherwise the profile query runs first, and a failure stops there. When both queries succeed the results are replaced, with null read as []. A failure keeps the old results. Loading ends false. |
| SearchPage.Search.RunQueries | src/pages/Search.jsx:25-63 | The two remote searches and the local filter, as HandleSearch states. |
| AdminPage.AdminCredentials | src/pages/AdminDashboard.jsx:32 | The admin address alone, or the admin username alone, makes any profile an admin. The comparison is exact: a differently cased address and username do not, and neither does a missing profile. |
| AdminPage.StatsOf | src/pages/AdminDashboard.jsx:68-73 | Each stat is its count when present and 0 when missing. |
| AdminPage.PendingPanelFacts | src/pages/AdminDashboard.jsx:343 | The panel holds min(pending count, 5) requests, all pending, forming a prefix of the pending ones in order. With five or fewer pending, the panel holds every one. |
| AdminPage.OfferedOnlyPending | src/pages/AdminDashboard.jsx:410-420 | Approve and reject are offered for every pending request and for nothing else. |
| AdminPage.RecentActivity | src/pages/AdminDashboard.jsx:316-328 | The first five posts, each shown as the first 50 characters of its content followed by "...", which is appended even when nothing was cut. |
| AdminPage.Find | src/pages/AdminDashboard.jsx:153 | Some iff a request with the id is in the list, and then it is the first request with that id. |
| AdminPage.SetStatusIdempotent | src/pages/AdminDashboard.jsx:141-147 | A second review of an id overwrites the first: the rows end with the second status and the second `updated_at` stamp. Reviewing twice with the same status at the same time is reviewing once. |
| AdminPage.ReviewSettlesRequest | src/pages/AdminDashboard.jsx:141-153 | After a review, the first request with that id (the one the approval looks up) carries the new status and the review's `updated_at` stamp, and is otherwise unchanged. There is one iff there was one before. |
| AdminPage.ReviewKeepsOwners | src/pages/AdminDashboard.jsx:141-147 | A review keeps every request's id and requester, in order. |
| AdminPage.ReviewedLeavesPanel | src/pages/AdminDashboard.jsx:343 | After an approval or a rejection, no request with that id is in the pending panel. |
| AdminPage.ReviewLowersPendingCount | src/pages/AdminDashboard.jsx:56-59 | Approving or rejecting never raises the pending count, and lowers it when a pending request had that id. |
| AdminPage.ApprovalVerifiesRequester | src/pages/AdminDashboard.jsx:155-158 | The verified ids become the old ones plus the requester, exactly when a profile with that id exists. Nobody loses verification, and the profile ids keep their order. |
| AdminPage.Dashboard.constructor | src/pages/AdminDashboard.jsx:20-29 | Empty lists, zero stats, loading. |
| AdminPage.Dashboard.Mount | src/pages/AdminDashboard.jsx:34-137 | A non-admin's page fetches nothing. An admin's page sends the user count, then the three list loads, then the other three counts, which wait on the first. The stats read missing counts as 0, and a failed list load keeps the list. |
| AdminPage.Dashboard.HandleVerifyRequest | src/pages/AdminDashboard.jsx:139-167 | The status update comes first, and a failure stops there. The update writes the status and the review's time as `updated_at`. Approval then marks the requester verified, but only when the request is in the local list. Rejection changes only the request's status and stamp. The reloads follow. |
| AdminPage.Dashboard.HandleDeletePost | src/pages/AdminDashboard.jsx:169-184 | Only after confirmation. A successful delete starts the posts and stats reloads. |
| AdminPage.Dashboard.HandleDeleteUser | src/pages/AdminDashboard.jsx:186-202 | Only after confirmation. A successful delete removes exactly that profile and reloads. |
| Routes.GuardsComplementary | src/App.jsx:16-32 | For a loaded session exactly one of the two guards shows its page. While loading neither does. |
| Routes.PublicPaths | src/App.jsx:40-50 | The public routes match /signin and /signup in any ASCII case and with trailing slashes ("/SignIn", "/signup/", "/SIGNUP//"), but not "/", "/signin/x", "signin" or "/sign-in". |
| Routes.TrailingSlashKeepsGuard | src/App.jsx:40-64 | A trailing slash never changes which guard a path falls under, or whether its page shows. |
| Routes.GuardsCoverEveryPath | src/App.jsx:40-64 | A page is shown iff the session has loaded and either the path matches /signin or /signup and the user is signed out, or it matches neither and the user is signed in. |
| Routes.RedirectLandsOnPage | src/App.jsx:16-64 | One redirect always lands on a page: to / for a signed-in user, to /signin otherwise. |
| Routes.LoadingHidesEverything | src/App.jsx:17-28 | While loading every path shows the spinner. |

## Left out

- Remote query semantics (`ilike`, `order`, `limit`, `range`, `count`, embedded selects), auth, storage uploads and real networking. Each reply is a parameter.
- An insert that answers with an empty `data` array is not modelled. Each insert reply is the first row, or an error.
- Concurrency:
  - the store's mount starts both loads without awaiting them, and the model runs them in order;
  - the dashboard's reloads after a review or a delete are not awaited, so they are recorded only as calls;
  - the dashboard's mount records its requests in dispatch order, but the replies may come back in any order. The final state does not depend on that order, because each list and the stats are written by one load only;
  - the races between concurrent like or follow clicks are not modelled.
- `toLowerCase` is modelled for ASCII letters only. Other characters are left as they are.
- Strings are sequences of Unicode scalar values, and JavaScript strings are sequences of UTF-16 code units. The two agree on text without characters beyond U+FFFF. The password length check counts code units (`Utf16Length`). The cuts below do not:
  - Helpers.TruncateText: it compares and cuts by characters, where `length` and `substring` count code units. A text with characters beyond U+FFFF can differ from the source, which may also cut a surrogate pair in half.
  - AdminPage.RecentActivity: it cuts the first 50 characters, not the first 50 code units, with the same difference.
- Routes.GuardsCoverEveryPath: the router matches the path after percent-decoding, and the model takes the decoded path. Case-insensitive matching and trailing slashes are modelled (`IsPublicPath`).
- Dates arrive as integer differences in milliseconds, or as an hour. An invalid date (NaN) is not modelled, and the locale's date rendering is a string parameter.
- Numbers at or above 10^21 print in exponent form in JavaScript. The model always prints decimal digits.
- Helpers.GetFileExtension: its facts are stated for names shorter than 2^32 characters, where the `>>> 0` wrap-around stays past the end of the name.
- The like toggle's lookup error (`.single()` finding no row or failing) is one `lookupFails` flag. Duplicate like rows for one pair are not modelled: the table is a set.
- The admin dashboard's profile update after an approval has an unchecked reply, so the model treats it as succeeding. HandleDeletePost records its calls but keeps no posts table.
- ProfileView.ProfilePage.HandleFollow requires a target: the button is shown only once a profile has loaded, which needs one. Without a route id or a signed-in user the page stays on its spinner, because the mount effect loads nothing.
- PostCardView.PostCard.constructor: the counter starts at the corrected count, LikesTotal, and not at `post?.likes?.length || 0` as written. The as-written value is InitialCountAsWritten, and CountEmbedReadsOne shows that it reads 1 for every fetched post (see Findings).
- PostCardView.PostCard.HandleLike: `throws` models a request that rejects. A backend error reply resolves rather than throws, so in the source it also flips the heart; the model covers that case as `throws == false`.
- FeedCard.PostCard.HandleLike follows the reported action even after a failed write, so the card can drift from the table. LikeKeepsSync states this.
- `alert`, `window.confirm`, `navigate`, FileReader previews, audio playback, the 300 ms search timer, every JSX element, and the `hotSearches` state are out of scope. The page never updates `hotSearches`, so the model holds it as a constant.
- From the utilities: formatNumber and formatFileSize use floating-point arithmetic, generateAvatarUrl needs `encodeURIComponent`, and isValidUrl needs the `URL` constructor. debounce uses timers, copyToClipboard and sanitizeHtml the DOM, and generateId randomness.
- The sign-in page's user id is `Date.now()`, rendered as decimal digits. Its `created_at` field is not carried, because the `User` row has no such column.
- Only the files cited in the table above are modelled. Not part of this model: the service layer (beyond the one query the finding cites), the remaining database calls, the layout, navbar, header and modal, and the home, users, feed and verification pages.

## Findings

| source | as written | input that shows it | evidently intended | confidence | as-written member | corrected member |
|---|---|---|---|---|---|---|
| src/components/Post/PostCard.jsx:9 with src/services/supabase.js:55 | The counter starts at `post?.likes?.length \|\| 0`. The feed's query embeds `likes (count)`, which returns a one-element list `[{ count: n }]`, so every fetched post starts at 1. | a post whose embed is `[{ count: 0 }]` or `[{ count: 7 }]` | the counter starts at n, the number of likes | not executed | PostCardView.CountEmbedReadsOne | PostCardView.LikesTotalIsCount |
