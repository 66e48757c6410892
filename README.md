# Age-gated social app core, modelled in Dafny

This project models the deterministic core of a social-network web app.
The app has a Next.js/React front end, a Python content analyzer and
several small API routes. The center of the model is the age-gated
content-rating engine, `HomePageAnalyzer` in `ml/homepage_analysis.py`:

- the ratings a profile may see, derived from (age verified, age);
- the rule-based rating classifier;
- the rating filter over a data frame of records;
- the integer parts of the post, story and recommendation analyses.

Around that engine sit the TypeScript decision functions, stores and
validators that gate, store and display content:

- the home-feed filter and sort, and the per-post like, comment and bookmark updates;
- the posts route's category and age checks, and the Cassandra query builder behind it;
- the routing middleware;
- the in-memory development store, and the login, calls and social routes built on it;
- the client session (login and verification status) and the story viewer's two-level cursor;
- request validation for stories, research articles and settings;
- the SQL SET-clause builders for the settings and emergency-contact updates;
- phone-number formatting and validation, text truncation, relative-time labels and deep merge;
- media classification by extension, upload validation, and the translation cache;
- HSL theme building and parsing;
- the chat list filter and sort, the call screen, and story age labels.

Each source file becomes one module (`homepage_analysis.dfy`,
`main_content.dfy`, ...).

**How the source's constructs are modelled.**

- **Mutating state** becomes a class whose methods state the whole new
  state:
  - `HomePageAnalyzer`;
  - the in-memory `store`;
  - the calls route's two lists;
  - the session, the story viewer, the upload widget, the translation
    cache, the color hook and the call screen.
- **Method contracts.** Each such method's contract ties the new state
  to a function of the old state, and the properties are proved about
  those functions.
- **Loops** in the source are `while` loops with invariants:
  - the `forEach` of `setHue`;
  - the `filter` of `processFiles`;
  - the `reduce` of the social route;
  - the key loop of `deepMerge`;
  - the SET-clause pushes of the profile update.
- **JavaScript `Map`** is an insertion-ordered map (`OrderedMaps`), so
  `Array.from(values())` keeps its order.
- **`Array.prototype.sort`** with a key comparator is a stable insertion
  sort, proved sorted, a permutation and stable.
- **Clocks, random ids, the translation endpoint and database drivers**
  are parameters or abstract inputs.
- **A missing or falsy request field** is the empty string or `None`, as
  each datatype's comment says.

**Where the source surprises.** The model follows the code as written in
these places, each stated by a lemma:

- Ratings and the homepage analyzer:
  - The rating filter never calls the classifier.
  - When no record carries `content_rating`, the filter keeps everything.
  - The recommendation statistics are computed on the unfiltered history
    (see Findings).
- Phone numbers:
  - Phone formatting under '+91' cuts a national number that itself
    starts with 91.
  - A formatted Indian number then fails `validatePhoneNumber`.
- The in-memory store's interaction keys are joined with '-'. So
  ("a-b", "c", like) and ("a", "b-c", like) share one slot.
- Empty inputs:
  - An emergency-contact update without fields builds an empty SET
    clause.
  - An empty `bio` alone still counts as a profile update.
- The chat sidebar's unread switch drops only chats whose count is
  exactly 0.
- Routing and merging:
  - The middleware's redirect away from '/login' and '/register' is
    unreachable, because both paths start with public prefixes.
  - `deepMerge` of two arrays at the top level yields a plain object.
- Colors: `getHSL` reads the decimal default colors as (0, 0, 0).
- Missing definitions, where the model uses the evident intent:
  - `app/api/posts/route.ts` imports `PostCategories` from a module that
    does not define it. The model takes the categories from
    `lib/types.ts`.
  - `app/api/social/route.ts` imports `getUser`, `createInteraction` and
    `getInteractions` from `lib/db/client.ts`, which does not define
    them. The model runs the route over the in-memory store of
    `lib/db/index.ts`, which does.

## Model

| member | source | states |
|---|---|---|
| HomepageAnalysis.AllowedFor | ml/homepage_analysis.py:41-54 | the stored list is a prefix of G, PG, PG-13, R, NC-17 of length 1 to 4; it always holds G, never holds NC-17, and is exactly [G] for an unverified user |
| HomepageAnalysis.AllowedGrowsWithAge | ml/homepage_analysis.py:46-52 | for a verified user, an older age's list extends a younger age's list |
| HomepageAnalysis.AllowedByAge | ml/homepage_analysis.py:41-54 | a rating is allowed iff: G always; PG when verified; PG-13 when verified and age at least 13; R when verified and age at least 18; NC-17 never (so negative ages get G and PG) |
| HomepageAnalysis.ClassifyAttempt | ml/homepage_analysis.py:68-85 | no contract of its own: the try-block, None where Python raises; RatedRIff and RatedGIff state its outcomes |
| HomepageAnalysis.DetermineContentRating | ml/homepage_analysis.py:66-89 | the rating is one of G, PG-13 or R, and any failure in the try-block gives PG-13 |
| HomepageAnalysis.RatedRIff | ml/homepage_analysis.py:76-81 | R exactly when the text is a string, the metadata is a dict, and its `is_adult_content` flag is truthy |
| HomepageAnalysis.RatedGIff | ml/homepage_analysis.py:68-89 | G exactly when classification succeeds, the flag is falsy and no mature keyword occurs in the lower-cased text, so a failure never gives G |
| HomepageAnalysis.GamblingRatesPG13 | ml/homepage_analysis.py:70-83 | "Gambling" with a metadata dict that has no flag rates PG-13, because the keyword test is case-insensitive |
| HomepageAnalysis.NonStringTextFlaggedAdult | ml/homepage_analysis.py:76-89 | the text is lower-cased before the flag is read, so a non-string text rates PG-13 even when flagged adult |
| HomepageAnalysis.ColumnsOf | ml/homepage_analysis.py:58 | the frame's columns are exactly the keys that some record has |
| HomepageAnalysis.ToFrame | ml/homepage_analysis.py:58 | no contract of its own: the frame of a record list, with ColumnsOf as its columns |
| HomepageAnalysis.FilterFrame | ml/homepage_analysis.py:56-64 | no contract of its own: the `isin` filter when a `content_rating` column exists; FilterFrameSpec, FilterFrameSafe and FilterFrameRows state it |
| HomepageAnalysis.FilterFrameSpec | ml/homepage_analysis.py:56-64 | when some record has `content_rating`, the filter keeps exactly the records whose rating is allowed, each as often as in the input and in input order; when none does, every record comes back unchanged; the columns are kept |
| HomepageAnalysis.FilterFrameSafe | ml/homepage_analysis.py:61-62 | every kept record has an allowed rating, unless no input record has any rating |
| HomepageAnalysis.FilterKeeps | ml/homepage_analysis.py:61-62 | filtering a rated input keeps as many records, and as many holding a given cell value, as the reference counts over the kept records |
| HomepageAnalysis.KeepAll | ml/homepage_analysis.py:61-64 | an unrated input keeps every record |
| HomepageAnalysis.FilterFrameRows | ml/homepage_analysis.py:56-64 | the filtered frame has one row per kept record, and its rows are exactly the kept records: all records when none is rated, else those with an allowed rating |
| HomepageAnalysis.FilterFrameHashable | ml/homepage_analysis.py:56-64 | after the filter, some cell of a column is a list or a dict iff some kept record holds one there |
| HomepageAnalysis.FilterFrameValueCounts | ml/homepage_analysis.py:56-64 | `value_counts` of a filtered column has a key for each value other than NaN that some kept record holds, mapped to the number of kept records holding it |
| HomepageAnalysis.Column | ml/homepage_analysis.py:98-99 | a column has one cell per row |
| HomepageAnalysis.ColumnOccurrences | ml/homepage_analysis.py:127 | the occurrences of a value in a column are the records whose cell holds it |
| HomepageAnalysis.AbsentColumnCounts | ml/homepage_analysis.py:58 | a column no record has holds only NaN, so no other value is counted in it |
| HomepageAnalysis.Occurrences | ml/homepage_analysis.py:127 | no contract of its own: how often a value occurs; OccurrencesPositive and ColumnOccurrences state it |
| HomepageAnalysis.OccurrencesPositive | ml/homepage_analysis.py:127 | a value is counted a positive number of times iff it occurs in the column |
| HomepageAnalysis.ValueCounts | ml/homepage_analysis.py:127 | `value_counts` has a key for each value present other than NaN, mapped to its number of occurrences |
| HomepageAnalysis.PostAnalysisOf | ml/homepage_analysis.py:91-117 | no contract of its own: the post analysis of a built frame; AnalyzePostContent states it on the input records |
| HomepageAnalysis.StoriesAnalysisOf | ml/homepage_analysis.py:119-138 | no contract of its own: the stories analysis of a built frame, None when a column is missing, a type is unhashable, the flag sums fail or the `duration` mean fails; AnalyzeStories states it on the input records |
| HomepageAnalysis.RecommendationsOf | ml/homepage_analysis.py:196-216 | no contract of its own: the recommendations of a built frame; EmptyHistoryRecommendations, UnfilteredHistoryLeaks and FilteredRecommendationsSafe state it |
| HomepageAnalysis.EmptyHistoryRecommendations | ml/homepage_analysis.py:191-198 | empty history gives the four empty fields |
| HomepageAnalysis.UnfilteredHistoryLeaks | ml/homepage_analysis.py:189-205 | as written: with only G allowed, an R-rated video is filtered out but still counted in the type distribution, while the distribution computed on the filtered history is empty |
| HomepageAnalysis.FilteredRecommendationsSafe | ml/homepage_analysis.py:189-205 | corrected: the recommendations fail exactly when a kept record has a list or dict type, or timestamps come without an engagement column or peak hours; each counted type is a value other than NaN that some kept record has, and its count is the number of kept records of that type |
| HomepageAnalysis.DefaultedStoriesAnalyzed | ml/homepage_analysis.py:119-135 | unrated stories that carry the four fields the route fills in are analyzed iff the mean of their `duration` column can be taken (the route keeps a truthy text duration such as "15s", on which the mean raises), and then `total_stories` is their number |
| HomepageAnalysis.ParseVerifiedFlag | ml/homepage_analysis.py:251 | the flag is true iff the argument lower-cases to "true", and so has four characters |
| HomepageAnalysis.VerifiedFlagIgnoresCase | ml/homepage_analysis.py:251 | "True" and "TRUE" count as verified, "yes" does not |
| HomepageAnalysis.HomePageAnalyzer.constructor | ml/homepage_analysis.py:38-39 | a new analyzer is unverified and allows only G |
| HomepageAnalysis.HomePageAnalyzer.SetUserPreferences | ml/homepage_analysis.py:41-54 | stores the verified flag and sets the allowed list to the policy's list for the profile |
| HomepageAnalysis.HomePageAnalyzer.FilterContentByPreferences | ml/homepage_analysis.py:56-64 | the rating filter under the stored allowed list; the rows are an order-preserving subsequence of the input |
| HomepageAnalysis.HomePageAnalyzer.AnalyzePostContent | ml/homepage_analysis.py:91-117 | fails exactly when the posts have no `content` column or the vectorizer refuses the kept contents; otherwise `total_posts` is the number of posts the rating filter keeps (all of them when none is rated) |
| HomepageAnalysis.HomePageAnalyzer.AnalyzeStories | ml/homepage_analysis.py:119-138 | fails exactly when the `type`, `isPremium` or `isViewed` column is missing, a kept story has a list or dict type, the flag sums fail, or a `duration` column exists and its mean fails; otherwise `total_stories` is the number of kept stories, `avg_duration` is present iff a `duration` column is, and each type other than NaN maps to the number of kept stories of that type |
| HomepageAnalysis.HomePageAnalyzer.GenerateContentRecommendations | ml/homepage_analysis.py:185-216 | as written: the statistics are computed on the unfiltered history |
| HomepageAnalysis.HomePageAnalyzer.GenerateFilteredRecommendations | ml/homepage_analysis.py:185-216 | corrected: the recommendations of the filtered history; each counted type maps to the number of kept records of that type, and no other type is counted |
| HomepageAnalysis.AnalyzeInput | ml/homepage_analysis.py:247-267 | `main` sets the preferences from the parsed flag and the age, analyzes the posts and stories under that list, and builds the recommendations from the unfiltered posts |
| MainContent.MatchesFilter | app/home/main-content.tsx:176-197 | no contract of its own: the reference predicate of the category stage, one case per option, with unknown options passing every post |
| MainContent.CategoryStage | app/home/main-content.tsx:176-197 | no contract of its own: the chained filter as written; CategoryStageIsFilter equates it with MatchesFilter |
| MainContent.PassesAdultGate | app/home/main-content.tsx:200-205 | no contract of its own: an adult post passes only with adult content enabled; AdultPostsGated states it of the feed |
| MainContent.SortKey | app/home/main-content.tsx:208-225 | no contract of its own: the key each comparator subtracts; TopOrder, TrendingFirst and FollowingFirst state the orders |
| MainContent.FilteredPosts | app/home/main-content.tsx:172-228 | no contract of its own: the category stage, the adult gate, then the sort; FilteredPostsContents, AdultPostsGated, TopOrder, TrendingFirst and FollowingFirst state it |
| MainContent.CategoryStageIsFilter | app/home/main-content.tsx:176-195 | the chained category stage keeps exactly the posts that satisfy the reference predicate for the selected option; 'all' and unknown options keep every post |
| MainContent.FilteredPostsContents | app/home/main-content.tsx:172-228 | the feed is a reordering of the posts that pass both stages, each as often as in the input; no post is added or duplicated |
| MainContent.AdultPostsGated | app/home/main-content.tsx:200-205 | an adult post reaches the feed only when adult content is enabled |
| MainContent.TopOrder | app/home/main-content.tsx:212-214 | 'top' is ordered by engagement score, largest first with a missing score as 0; posts with equal scores keep their order |
| MainContent.TrendingFirst | app/home/main-content.tsx:209-211 | 'trending' gives the trending posts and then the rest, each group in filter order |
| MainContent.FollowingFirst | app/home/main-content.tsx:215-219 | 'following' gives posts by followed authors and then the rest, each group in filter order |
| MainContent.ToggleLike | app/home/main-content.tsx:115 | no contract of its own: one post's like flip; HandleLike and HandleLikeTwice state it |
| MainContent.HandleLike | app/home/main-content.tsx:112-118 | only posts with the id change: `isLiked` flips and `likes` moves by -1 or +1 accordingly, and every other field is kept |
| MainContent.HandleLikeTwice | app/home/main-content.tsx:112-118 | liking twice restores every post |
| MainContent.HandleComment | app/home/main-content.tsx:91-97 | the matching posts gain one comment, the others are unchanged; that post's draft becomes "" and the other drafts are kept |
| MainContent.ToggleBookmark | app/home/main-content.tsx:428-433 | only posts with the id flip `isBookmarked` |
| MainContent.ToggleBookmarkTwice | app/home/main-content.tsx:428-433 | bookmarking twice restores every post |
| PostsRoute.Status | app/api/posts/route.ts:14-36 | the status of each POST response: 400 for an invalid category, 200 for a created post, 500 on failure |
| PostsRoute.CreatePost | app/api/posts/route.ts:8-37 | a body that fails to parse gives 500; a missing or unknown category gives 400; a failed store gives 500; otherwise the created post |
| PostsRoute.CreatedPostShape | app/api/posts/route.ts:8-32 | a created post is age-restricted iff its category is 'adult'; it carries the requested user, content and category, and `mediaUrls` defaults to [] |
| PostsRoute.InvalidCategoryRejected | app/api/posts/route.ts:13-19 | POST answers 400 iff the category is missing or is not a `PostCategories` value, whether or not the store would accept the write |
| PostsRoute.LeadingDigits | app/api/posts/route.ts:46 | the digits `parseInt` reads: the longest run of digits at the start of the text |
| PostsRoute.ParseInt | app/api/posts/route.ts:46 | `parseInt` gives NaN exactly when no digit follows the leading white space and an optional sign |
| PostsRoute.ParseIntOfNatToString | app/api/posts/route.ts:46 | `parseInt` reads back the decimal text of every natural number |
| PostsRoute.UserAge | app/api/posts/route.ts:46 | no contract of its own: `parseInt` of the parameter, with "0" for a missing or empty one; MissingAgeKeepsRestriction states it |
| PostsRoute.GetOptions | app/api/posts/route.ts:44-55 | GET only ever passes `ageRestricted` as false or leaves it out |
| PostsRoute.RestrictionLiftedIff | app/api/posts/route.ts:49-54 | the restriction is left out exactly for the category 'adult' with a parsed age of at least 18 |
| PostsRoute.MissingAgeKeepsRestriction | app/api/posts/route.ts:46-54 | a missing or empty `userAge` parses as 0 and keeps `ageRestricted: false` |
| PostsRoute.RestrictedQueryBindsFalse | app/api/posts/route.ts:52-55 | whenever the restriction is not lifted, the client's statement ends its conditions with `age_restricted = ?` bound to false |
| PostsRoute.DeleteStatus | app/api/posts/route.ts:67-92 | 200 exactly when the body parses and the delete succeeds; otherwise 500 for an unparsable body or a driver failure, 404 for an unknown post, 403 for another owner |
| PostsRoute.DeleteStatusByOwner | app/api/posts/route.ts:67-92 | DELETE answers 404 for an unknown id, 403 for another user's post, and 200 for the owner |
| CassandraClient.Conditions | lib/db/client.ts:92-100 | at most two conditions, each on `category` or `age_restricted` |
| CassandraClient.Clauses | lib/db/client.ts:90-103 | one clause per condition, in push order |
| CassandraClient.WithWhere | lib/db/client.ts:102-106 | no contract of its own: the head, " WHERE " and the clauses joined by " AND " when there are any, then the tail; WithWherePlaceholders counts its placeholders |
| CassandraClient.QueryText | lib/db/client.ts:88-106 | no contract of its own: the reference statement text for a list of conditions; GetPostsQuery is proved against it |
| CassandraClient.Params | lib/db/client.ts:89-100 | one parameter per condition, in push order |
| CassandraClient.GetPostsQuery | lib/db/client.ts:82-106 | the statement built by the pushes equals the reference text for the conditions, and the parameters are those conditions' parameters in the same order |
| CassandraClient.OnePlaceholder | lib/db/client.ts:93-98 | a condition of the form "column = ?" holds exactly one placeholder |
| CassandraClient.WithWherePlaceholders | lib/db/client.ts:102-106 | joining clauses with one placeholder each into the statement gives one '?' per clause |
| CassandraClient.PlaceholdersMatchParams | lib/db/client.ts:88-108 | the statement holds exactly one '?' per bound parameter |
| CassandraClient.NoOptionsNoWhere | lib/db/client.ts:88-106 | with no options the statement has no WHERE clause and no parameters |
| CassandraClient.BothOptionsInOrder | lib/db/client.ts:92-106 | with both options, the category condition comes before the age condition, and the parameters follow that order |
| CassandraClient.AgeConditionIffBoolean | lib/db/client.ts:97-100 | an `age_restricted` condition is present iff `ageRestricted` is a boolean, and then it binds the last parameter |
| CassandraClient.PostTable.constructor | lib/db/client.ts:122-123 | the table starts with the given owners, not yet initialized |
| CassandraClient.PostTable.DeletePost | lib/db/client.ts:122-138 | an id the driver rejects fails; an absent id gives 'Post not found'; another owner gives 'Unauthorized'; only the owner's call removes the post; nothing else changes; the error is `DeleteOutcome` of the old table |
| CassandraClient.DeleteOutcome | lib/db/client.ts:122-138 | a delete succeeds iff the id parses, is present and belongs to the caller |
| CassandraClient.OnlyOwnerDeletes | lib/db/client.ts:128-137 | a successful delete was made by the post's owner |
| Middleware.Decide | middleware.ts:22-87 | no contract of its own: the decision for a request, in the source's order; PublicAlwaysPasses and NonPublicDecision state it whole |
| Middleware.PublicAlwaysPasses | middleware.ts:22-28 | a path starting with a public prefix passes through, whatever the cookie, banned users included |
| Middleware.PrefixMatchIsPublic | middleware.ts:5-28 | the match is by prefix, so '/aboutus' is public |
| Middleware.NonPublicDecision | middleware.ts:30-86 | on a non-public path the whole decision: a missing, unparsable or falsy cookie redirects to '/login'; a banned user goes to '/banned' with the cookie deleted, except on '/banned'; a non-premium user on a premium prefix goes to '/premium-required'; anyone else proceeds with only `lastActive` changed |
| Middleware.AuthPageRedirectUnreachable | middleware.ts:65-68 | the redirect away from '/login' and '/register' never happens, because both are public prefixes |
| Middleware.BanBeforePremium | middleware.ts:48-63 | a banned user on a premium path goes to '/banned', never to '/premium-required' |
| Middleware.OnlyBanDeletesCookie | middleware.ts:49-53 | a redirect deletes the cookie only for a banned user |
| OrderedMaps.Empty | lib/db/index.ts:2-10 | a new `Map` is well-formed and empty |
| OrderedMaps.Put | lib/db/index.ts:45 | `set` keeps the map well-formed and binds the key; a new key goes last in insertion order, and an existing key keeps its place |
| OrderedMaps.Get | lib/db/index.ts:50 | `get` finds a value iff the key is present, and then gives the bound value |
| OrderedMaps.ValuesOf | lib/db/index.ts:67 | the values of a key list, one per key, in key order |
| OrderedMaps.Values | lib/db/index.ts:67 | `Array.from(values())` lists one value per key, in insertion order |
| OrderedMaps.PutGet | lib/db/index.ts:45-50 | after `set`, `get` of that key gives the new value, and every other key reads as before |
| OrderedMaps.ValuesPutNew | lib/db/index.ts:62-67 | setting a new key appends its value to the values |
| OrderedMaps.ValuesPutExisting | lib/db/index.ts:140 | setting a present key replaces its value where it stands |
| OrderedMaps.InValues | lib/db/index.ts:67 | a value is listed iff some key maps to it |
| MemStore.InteractionKeysCanCollide | lib/db/index.ts:152 | the '-'-joined key gives ("a-b", "c", like) and ("a", "b-c", like) the same slot, so one overwrites the other |
| MemStore.UpdatedCall | lib/db/index.ts:132-141 | the call gets the new status; with an end time it also gets `endTime` and duration = floor((end - start)/1000) seconds; without one nothing else changes |
| MemStore.MergeSettings | lib/db/index.ts:172 | the merged settings have the keys of both; the new keys win and the other old keys are kept |
| MemStore.Store.constructor | lib/db/index.ts:2-10 | all seven maps start empty and well-formed |
| MemStore.Store.CreateUser | lib/db/index.ts:44-47 | the user is stored under its phone number, replacing any earlier one; `getUser` then returns it, other phones read as before, and the other maps are unchanged |
| MemStore.Store.GetUser | lib/db/index.ts:49-51 | finds a user iff the phone is stored, and then gives that user; an unknown phone gives null |
| MemStore.Store.CreatePost | lib/db/index.ts:54-64 | the post is stored under the given id with both timestamps set to the given time; nothing else changes |
| MemStore.Store.GetPosts | lib/db/index.ts:66-68 | every stored post, in insertion order |
| MemStore.Store.SendMessage | lib/db/index.ts:71-89 | the message is appended to that chat's list only, with status "sent" and `mediaUrls` defaulting to []; every other chat and map is unchanged |
| MemStore.Store.GetMessages | lib/db/index.ts:91-93 | an unknown chat gives [] |
| MemStore.Store.CreateReel | lib/db/index.ts:96-110 | a new reel is stored with 0 likes and 0 views |
| MemStore.Store.GetReels | lib/db/index.ts:112-115 | a truthy user id keeps exactly that user's reels, otherwise every reel, in insertion order |
| MemStore.Store.CreateCall | lib/db/index.ts:118-130 | a new call is stored with status "initiated" and the start time |
| MemStore.Store.UpdateCallStatus | lib/db/index.ts:132-142 | an unknown id changes nothing; a known call is replaced in place by its updated version |
| MemStore.Store.GetCalls | lib/db/index.ts:144-148 | exactly the calls where the user is caller or receiver, in insertion order |
| MemStore.Store.CreateInteraction | lib/db/index.ts:151-160 | the interaction is set under its '-'-joined key |
| MemStore.Store.GetInteractions | lib/db/index.ts:162-166 | exactly the interactions on that content, in insertion order |
| MemStore.Store.UpdateUserSettings | lib/db/index.ts:169-175 | a no-op for an absent user; otherwise the user's settings become the merge, and nothing else changes |
| MemStore.Store.GetUserSettings | lib/db/index.ts:177-179 | the stored settings, or {} when the user or the settings are absent |
| MemStore.Store.CreateConnection | lib/db/index.ts:182-191 | the connection is set under its '-'-joined key |
| MemStore.Store.GetConnections | lib/db/index.ts:193-197 | exactly the user's connections, in insertion order |
| MemStore.RepeatInteractionOverwrites | lib/db/index.ts:151-160 | a repeated (content, user, type) overwrites the stored interaction in place, and the count does not grow |
| MemStore.RepeatConnectionOverwrites | lib/db/index.ts:182-191 | a repeated (user, connected user) overwrites the stored connection in place |
| LoginRoute.NewUser | app/api/login/route.ts:26-34 | a new user is "unverified", not premium, not DigiLocker-verified, joined and active now, and named by `name` when that is truthy, else by the phone number |
| LoginRoute.Login | app/api/login/route.ts:10-50 | no body gives 500 and no phone gives 400, changing nothing; a known phone returns the stored user unchanged; an unknown one creates, stores and returns `NewUser`; only the users map changes |
| LoginRoute.UpdateStatus | app/api/login/route.ts:52-86 | 400 when a field is missing, 404 for an unknown user, otherwise the stored user gets the new status and `lastActive` and keeps every other field |
| LoginRoute.Lookup | app/api/login/route.ts:88-116 | 400 iff the phone is missing or empty, 404 iff it is given but unknown, otherwise the stored user; GET never answers 500 |
| CallsRoute.FindIndex | app/api/calls/route.ts:95 | the first index whose call has the id, or -1 exactly when no call has it |
| CallsRoute.UserCalls | app/api/calls/route.ts:35-37 | the calls the user placed or received, in list order, and no others |
| CallsRoute.NewCall | app/api/calls/route.ts:59-74 | a new call rings, starts now, joins the two given users, and is a voice call unless a type is given |
| CallsRoute.UpdatedCall | app/api/calls/route.ts:100-108 | the call gets the new status; "ended", "missed" and "rejected" also set the end time and the duration end - start; other statuses keep both |
| CallsRoute.PutOutcome | app/api/calls/route.ts:83-122 | PUT never loses or adds a call across the two lists, and changes neither list when it answers an error |
| CallsRoute.DeleteOutcome | app/api/calls/route.ts:124-139 | 400 exactly when the call id is missing or empty; 404 exactly when an id is given and no archived call has it; otherwise success, with the first call carrying that id cut out and the rest in order; on 400 and 404 the history is unchanged |
| CallsRoute.CallRegistry.constructor | app/api/calls/route.ts:22-23 | both lists start empty |
| CallsRoute.CallRegistry.Get | app/api/calls/route.ts:25-45 | 400 iff no user id; otherwise the user's calls from the active list when `type` is "active", else from the history |
| CallsRoute.CallRegistry.Post | app/api/calls/route.ts:47-81 | 400 without both user ids; otherwise `NewCall` is appended to the active list and returned; the history never changes |
| CallsRoute.CallRegistry.Put | app/api/calls/route.ts:83-122 | the new lists and the response are `PutOutcome` of the old lists |
| CallsRoute.CallRegistry.Delete | app/api/calls/route.ts:124-139 | the active list is unchanged; the history and the response are `DeleteOutcome` of the old history |
| CallsRoute.TerminalPutArchives | app/api/calls/route.ts:103-110 | a terminal status removes the first matching active call, closes the gap, appends the updated call with its end time to the history, and returns it |
| CallsRoute.OtherPutInPlace | app/api/calls/route.ts:111-113 | any other status replaces the matching call where it stands; no other call and not the history changes |
| CallsRoute.ArchivedCallsAreFrozen | app/api/calls/route.ts:95-98 | a call that is not active answers 404 and nothing changes, even when it is in the history |
| AuthProvider.LoginError | app/components/auth-provider.tsx:32-35 | no error iff the number is '+91' and then ten digits starting with 6 to 9; the missing '+91' prefix is the error exactly when the prefix is absent |
| AuthProvider.VerifyOtp | app/components/auth-provider.tsx:121-128 | the check succeeds iff the code has exactly six characters, and then it always answers true |
| AuthProvider.Session.constructor | app/components/auth-provider.tsx:36-37 | a session opens with no user and whatever local storage holds: nothing, a user's JSON or unparsable text |
| AuthProvider.Session.Restore | app/components/auth-provider.tsx:40-50 | a stored user becomes the session user and stays stored; with nothing stored nothing changes; stored text that does not parse is removed and the session user is kept |
| AuthProvider.Session.Login | app/components/auth-provider.tsx:53-74 | a refused number leaves the session and storage alone; an accepted one makes and stores a new user with empty name, status "unverified", not premium, not DigiLocker-verified |
| AuthProvider.Session.StartDigiLockerVerification | app/components/auth-provider.tsx:82-94 | fails without a user; otherwise sets status "pending" and DigiLocker-verified false, keeps every other field, and stores the result |
| AuthProvider.Session.CheckVerificationStatus | app/components/auth-provider.tsx:104-115 | "unverified" without a user, "verified" when DigiLocker-verified, else the stored status |
| AuthProvider.Session.SetUserName | app/components/auth-provider.tsx:135-147 | fails without a user or for a whitespace-only name, changing nothing; otherwise stores the name untrimmed and keeps every other field |
| AuthProvider.Session.UpgradeToPremium | app/components/auth-provider.tsx:154-161 | fails without a user; otherwise sets only the premium flag, and stores the result |
| AuthProvider.Session.Logout | app/components/auth-provider.tsx:168-179 | no user and nothing stored afterwards |
| AuthProvider.LoginAcceptsIndianMobiles | app/components/auth-provider.tsx:32-35 | a '+91' number passes iff the rest is ten digits whose first is 6 to 9 |
| AuthProvider.LandlinePrefixRefused | app/components/auth-provider.tsx:58-61 | a national number starting with 5 is refused as malformed |
| StoryViewer.DisplayMillis | app/components/story-viewer.tsx:40-42 | images stay 5000 ms; videos stay their duration in seconds times 1000, or 10000 ms without a (non-zero) duration |
| StoryViewer.Next | app/components/story-viewer.tsx:82-92 | three cases: the next item of the story with progress 0; at a story's last item, item 0 of the next story with progress 0; at the last item of the last story, position and progress kept and one more call of `onClose` |
| StoryViewer.Previous | app/components/story-viewer.tsx:70-80 | three cases: the previous item with progress 0; at item 0 of a later story, the last item of the story before it (index -1 when that story is empty) with progress 0; at item 0 of story 0, no change at all; `onClose` is never called |
| StoryViewer.Viewer.constructor | app/components/story-viewer.tsx:29-32 | the viewer opens on the chosen story's first item with progress 0 |
| StoryViewer.Viewer.HandleNext | app/components/story-viewer.tsx:82-92 | the new state is `Next` of the old one |
| StoryViewer.Viewer.HandlePrevious | app/components/story-viewer.tsx:70-80 | the new state is `Previous` of the old one |
| StoryViewer.MovesStayInRange | app/components/story-viewer.tsx:70-92 | when no story is empty, both moves keep a valid position valid, and every move that changes the position resets progress to 0 |
| StoryViewer.NextAtEndCloses | app/components/story-viewer.tsx:89-91 | at the last item of the last story, next only calls `onClose` and leaves the indices alone |
| StoryViewer.PreviousUndoesNext | app/components/story-viewer.tsx:70-92 | next then previous returns to the starting position, with progress 0, whenever next did not close |
| StoryViewer.SingleItemStoriesAreOneCursor | app/components/story-viewer.tsx:70-92 | with one item per story, next goes to the following story or closes after the last, and previous goes back one story or stays at the first |
| StoriesCreate.ItemOf | app/api/stories/create/route.ts:38-48 | an item is a video iff its MIME type starts with 'video/'; videos last 10 seconds and images have no duration |
| StoriesCreate.ItemsOf | app/api/stories/create/route.ts:38-48 | one item per file, in file order |
| StoriesCreate.CreateStory | app/api/stories/create/route.ts:12-76 | a missing user id, then no files, then more than 10 files are refused in that order; a story is created iff none applies |
| StoriesCreate.CreatedStoryShape | app/api/stories/create/route.ts:38-59 | a created story has one item per file in order, each a video exactly for 'video/' types, and is downloadable, not adult, category 'general' |
| SocialRoute.Validate | app/api/social/route.ts:11-34 | POST passes iff all three fields are given, the user exists and the type is like, comment, share or save; missing fields are reported first, then the unknown user, then the bad type |
| SocialRoute.Post | app/api/social/route.ts:7-46 | a refused body answers its error status and records nothing; an accepted one records the interaction under its key and answers 200; no other map changes |
| SocialRoute.OfType | app/api/social/route.ts:63-73 | a type's group is no longer than the interaction list |
| SocialRoute.OfTypeMembership | app/api/social/route.ts:63-73 | a group holds an entry iff some interaction of that type reduces to it |
| SocialRoute.OfTypeSnoc | app/api/social/route.ts:68-71 | one more interaction adds its entry to the end of its own type's group and to no other |
| SocialRoute.HasTypeSnoc | app/api/social/route.ts:64-67 | a type is present after one more interaction iff it was before or is that interaction's type |
| SocialRoute.OfTypeAbsent | app/api/social/route.ts:65-67 | a type with no interactions has an empty group |
| SocialRoute.SumLengthsUpdate | app/api/social/route.ts:76-79 | replacing one group changes the total length by the difference of the two lengths |
| SocialRoute.SumLengthsOtherEntries | app/api/social/route.ts:76-79 | a group outside the listed keys does not count |
| SocialRoute.Step | app/api/social/route.ts:64-72 | one reduce step opens the type's group empty if absent, appending the type to the key order, and pushes the interaction's entry |
| SocialRoute.StepKeys | app/api/social/route.ts:63-73 | after a step there is one group per type present |
| SocialRoute.StepGroups | app/api/social/route.ts:63-73 | after a step every group holds exactly its type's entries, in order |
| SocialRoute.StepSum | app/api/social/route.ts:68-71 | a step adds exactly one entry across all groups |
| SocialRoute.StepGrouping | app/api/social/route.ts:63-73 | a step keeps the groups equal to the grouping of the interactions read so far |
| SocialRoute.GroupByType | app/api/social/route.ts:63-73 | the result has one group per type present, each holding exactly that type's entries in their original order |
| SocialRoute.StatsOf | app/api/social/route.ts:76-79 | one `<type>Count` per group, equal to that group's size, in key order |
| SocialRoute.StatsSum | app/api/social/route.ts:76-79 | the counts add up to the total size of the groups |
| SocialRoute.Get | app/api/social/route.ts:48-84 | 400 iff the content id is missing; otherwise the grouping of the item's interactions, one count per group, and the counts sum to the number of interactions |
| ResearchRoute.ByCategory | app/api/research/route.ts:74-78 | keeps, in order, exactly the articles whose category equals the given one ignoring case; an absent category or 'all' keeps every article |
| ResearchRoute.BySearch | app/api/research/route.ts:69-88 | keeps, in order, exactly the articles whose lower-cased title, abstract or author contains the lower-cased query; no query keeps every article |
| ResearchRoute.Get | app/api/research/route.ts:71-90 | an order-preserving subsequence of the articles holding exactly those that pass both filters |
| ResearchRoute.CeilThousandths | app/api/research/route.ts:123 | `Math.ceil(n / 1000)`: the least number of thousands that covers n |
| ResearchRoute.Post | app/api/research/route.ts:100-141 | an unparsable body gives 500; 400 iff title, abstract, author or category is missing or empty; a created article carries the body's title, author, abstract and category, with 0 citations, read time ceil(length/1000) + " min", and the placeholder image when none is given |
| ResearchRoute.ReadTimeAtLeastOneMinute | app/api/research/route.ts:122-123 | a created article reads in at least one minute, and an abstract of at most 1000 characters reads "1 min" |
| SettingsRoute.ErrorStatus | app/api/settings/route.ts:44-50 | a caught error answers 401 iff its message is exactly 'Unauthorized', and 500 otherwise |
| SettingsRoute.ActionName | app/api/settings/route.ts:29-36 | no contract of its own: the `action` text of each handler; DispatchPost uses it |
| SettingsRoute.DispatchPost | app/api/settings/route.ts:10-51 | no token cookie gives 401; a token that fails to verify gives 500 ('Invalid token'); an authenticated request whose body does not parse gives 500; otherwise a handler runs, for the verified user, exactly when the action names one of the four handlers, and any other action gives 400 |
| SettingsRoute.ProfileFields | app/api/settings/route.ts:93-108 | at most the four profile fields, in the order full_name, bio, avatar_url, phone_number, each clause ending in one '?' |
| SettingsRoute.FieldClauses | app/api/settings/route.ts:94-106 | the clauses of the fields, one each, in push order |
| SettingsRoute.FieldValues | app/api/settings/route.ts:95-107 | the values of the fields, one each, in push order |
| SettingsRoute.ProfileUpdate | app/api/settings/route.ts:81-126 | no qualifying field gives 400 and no statement; otherwise the UPDATE joins the clauses with ', ' and binds the field values followed by the user id |
| SettingsRoute.JoinedPlaceholders | app/api/settings/route.ts:121 | clauses ending in one '?' each, joined between a head and separator with none and a tail with one, carry one '?' more than there are clauses |
| SettingsRoute.ProfilePlaceholdersMatchValues | app/api/settings/route.ts:117-123 | the statement's '?' count equals the number of bound values |
| SettingsRoute.EmptyBioIsAnUpdate | app/api/settings/route.ts:97-100 | an empty bio alone still counts as a field to update |
| SettingsRoute.SettingsUpdate | app/api/settings/route.ts:128-146 | 400 iff the settings map is missing or empty; otherwise the map and the user id are bound |
| SettingsRoute.PasswordUpdate | app/api/settings/route.ts:148-196 | missing fields give 400 before any lookup, an unknown user 404, a wrong current password 401; the password is written iff the answer is 200 |
| SettingsRoute.GetActionName | app/api/settings/route.ts:59-64 | no contract of its own: the `action` query text of each GET handler; DispatchGet uses it |
| SettingsRoute.DispatchGet | app/api/settings/route.ts:53-79 | no token 401, a bad token 500; an authenticated request reaches a handler iff its action is "profile", "settings" or "digilocker-status", for the verified user and the handler that action names, and answers 400 iff the action is any other |
| SettingsRoute.DigiLockerStatusOf | app/api/settings/route.ts:254-277 | not connected iff there is no row; a connected token is expired iff its expiry is at or before now, and the authorized documents and last sync are the row's |
| SettingsRoute.StoredSettings | app/api/settings/route.ts:236-252 | an unknown user gives 404; stored settings are returned, and absent ones read as {} |
| EmergencyService.ColumnName | lib/services/emergency-service.ts:38 | the key `phoneNumber` becomes the column `phone_number`; every other key is its own column name |
| EmergencyService.AssignmentsFrom | lib/services/emergency-service.ts:36-40 | one assignment per update, in order, the k-th naming its column and the placeholder number k + 2 |
| EmergencyService.ValuesOf | lib/services/emergency-service.ts:43 | the update values, one per update, in order |
| EmergencyService.Params | lib/services/emergency-service.ts:50 | the contact id first, then the update values in clause order |
| EmergencyService.AssignmentsBindTheirValues | lib/services/emergency-service.ts:36-50 | the placeholder `$n` of the k-th assignment is in range and binds exactly the k-th update's value |
| EmergencyService.SetClause | lib/services/emergency-service.ts:36-41 | no contract of its own: the assignments joined with ", "; SetClauseShape and AssignmentsBindTheirValues state it |
| EmergencyService.UpdateStatement | lib/services/emergency-service.ts:45-50 | no contract of its own: the template text around the SET clause; EmptyUpdatesGiveEmptyClause states it for no update |
| EmergencyService.SetClauseShape | lib/services/emergency-service.ts:36-41 | the clause is the assignments joined with ', ': empty for no update, the single assignment for one |
| EmergencyService.EmptyUpdatesGiveEmptyClause | lib/services/emergency-service.ts:36-51 | with no update the statement has an empty SET clause and only the id is bound |
| EmergencyService.ValidateEmergencyContact | lib/services/emergency-service.ts:70-74 | an accepted number has 2 to 16 characters and ends in a digit |
| EmergencyService.ValidateEmergencyContactIff | lib/services/emergency-service.ts:72-73 | accepted iff an optional '+' is followed by 2 to 15 digits, the first from 1 to 9 |
| EmergencyService.PatternExamples | lib/services/emergency-service.ts:72-73 | a leading 0 and a single digit are refused; '+919876543210' passes |
| CountryCodes.RemoveFirst | lib/country-codes.ts:35-36 | `replace` with a one-character pattern removes only its first occurrence, and nothing when it is absent |
| CountryCodes.FormatPhoneNumber | lib/country-codes.ts:30-40 | the dial code followed only by digits, which end the number's digits; a number whose digits do not start with the dial code's digits keeps them all |
| CountryCodes.FormatWithDialCode | lib/country-codes.ts:35-39 | a number typed with its dial code, with or without '+', becomes the dial code and the national digits |
| CountryCodes.FormatWithoutDialCode | lib/country-codes.ts:35-39 | a national number that does not start with the dial digits gets the dial code prefixed |
| CountryCodes.FormatIdempotent | lib/country-codes.ts:30-40 | formatting an already formatted number changes nothing |
| CountryCodes.NationalNumberStartingWithDialDigitsIsCut | lib/country-codes.ts:35-37 | a national number that itself starts with 91 loses those two digits under '+91' |
| CountryCodes.ValidatePhoneNumber | lib/country-codes.ts:42-56 | counting digits only: '+91' and '+1' need exactly 10, '+44' 10 or 11, any other code 8 to 15 |
| CountryCodes.ValidateIgnoresSeparators | lib/country-codes.ts:43 | non-digit characters before or after the number never change the verdict |
| CountryCodes.NoDigits | lib/country-codes.ts:43 | a string without digits cleans to the empty string |
| CountryCodes.FormattedIndianNumberFailsValidation | lib/country-codes.ts:30-56 | a valid ten-digit Indian number fails validation once formatted, since the dial digits are counted |
| CountryCodes.FindByPrefix | lib/country-codes.ts:59-61 | the first country in list order whose dial code starts the number, or none exactly when no dial code does |
| CountryCodes.GetCountryFromPhone | lib/country-codes.ts:58-62 | a listed country whose dial code starts the number, or undefined iff no listed dial code does |
| CountryCodes.AtMostOneCountryMatches | lib/country-codes.ts:8-28 | no listed dial code is a prefix of another, so at most one country matches any number |
| Utils.SliceTo | lib/utils.ts:79 | `slice(0, end)` with an end inside the text is the prefix of that length |
| Utils.TruncateText | lib/utils.ts:77-80 | text no longer than the limit is unchanged; longer text becomes its first `maxLength` characters followed by '...' |
| Utils.TruncateIdempotent | lib/utils.ts:77-80 | truncating a truncated text to the same limit changes nothing |
| Utils.FormatPhoneNumber | lib/utils.ts:85-92 | fewer than ten digits return the input unchanged; exactly ten give the 14-character '(AAA) BBB-CCCC'; more give '+' and the leading digits first |
| Utils.NoDigitsIn | lib/utils.ts:86 | a string without digits cleans to the empty string |
| Utils.AppendPunctuation | lib/utils.ts:89-91 | punctuation appended adds no digits |
| Utils.AppendDigits | lib/utils.ts:89-91 | digits appended are kept after the string's own |
| Utils.TenDigitLayoutDigits | lib/utils.ts:88-90 | the ten-digit layout holds exactly the ten digits, in order |
| Utils.LongLayoutDigits | lib/utils.ts:91 | the long layout holds exactly the digits, in order |
| Utils.FormatKeepsDigits | lib/utils.ts:85-92 | formatting only adds punctuation: the result's digits are the input's |
| Utils.FormatPhoneNumberIdempotent | lib/utils.ts:85-92 | formatting a formatted number changes nothing |
| Utils.FormatRelativeTime | lib/utils.ts:42-65 | under a minute (a future date included) 'just now'; then whole minutes 'Nm ago', hours 'Nh ago', days under a week 'Nd ago', and the formatted date from a week on |
| Utils.NestedFloors | lib/utils.ts:50-52 | flooring minutes to hours and hours to days equals flooring the milliseconds directly |
| Utils.Fields | lib/utils.ts:128-129 | an object's own entries in order; an array's entries are its items keyed '0', '1', ... |
| Utils.IndexEntries | lib/utils.ts:128 | the items keyed by their decimal index, from the given start |
| Utils.Keys | lib/utils.ts:129 | `Object.keys`: the keys of the entries, in order |
| Utils.Lookup | lib/utils.ts:130-131 | `obj[key]` is undefined iff the key is absent, and otherwise a value stored under it |
| Utils.Assign | lib/utils.ts:134-138 | `obj[key] = v`: a present key keeps its place and the entry count; a new key goes last after the existing entries (integer-like keys are listed under Left out) |
| Utils.AssignLookup | lib/utils.ts:134-138 | after `obj[key] = v` the key reads v and every other key reads as before |
| Utils.DeepMerge | lib/utils.ts:124-143 | the loop over the source's keys computes `Merge` of target and source |
| Utils.NonObjectSourceWins | lib/utils.ts:125-126 | when either side is null or not an object the source is returned as it is |
| Utils.MergeFromKeepsOtherKeys | lib/utils.ts:129-140 | a key no remaining source entry has keeps its current value |
| Utils.MergeFromSetsSourceKeys | lib/utils.ts:129-140 | each source key ends up with its merged value |
| Utils.MergeObjects | lib/utils.ts:124-143 | target-only keys are preserved; two arrays under a key take the source's array whole; two objects merge recursively; a key where either side is not an object takes the source's value |
| Utils.TopLevelArraysBecomeObjects | lib/utils.ts:128 | two arrays merged at the top level give a plain object, not an array |
| MediaGallery.AfterLastDot | app/messages/components/media-gallery.tsx:41 | `split('.').pop()`: the longest dot-free tail of the URL, which is the whole URL when it has no '.' |
| MediaGallery.Extension | app/messages/components/media-gallery.tsx:41 | no contract of its own: the lower-cased text after the last dot; AfterLastDot and LastDotDecides state it |
| MediaGallery.GetMediaType | app/messages/components/media-gallery.tsx:40-47 | no contract of its own: the first of image, video, audio whose list holds the extension, else document; MediaTypeOfExtension states it |
| MediaGallery.MediaTypeOfExtension | app/messages/components/media-gallery.tsx:40-47 | exactly one type per URL: image iff the extension is an image one, else video iff a video one, else audio iff an audio one, else document |
| MediaGallery.OggIsVideo | app/messages/components/media-gallery.tsx:26-27 | 'ogg', listed for both video and audio, classifies as video |
| MediaGallery.LastDotDecides | app/messages/components/media-gallery.tsx:41 | only the text after the last '.' counts as the extension |
| MediaGallery.ItemsOfMessage | app/messages/components/media-gallery.tsx:54-59 | one item per URL of the message, in order |
| MediaGallery.FlatItems | app/messages/components/media-gallery.tsx:51-60 | one item per attachment URL across the messages with attachments; each item carries its message's date and its URL's type |
| MediaGallery.MediaItems | app/messages/components/media-gallery.tsx:51-61 | the same items, a permutation, sorted newest first, with items of equal date in their original order |
| MediaGallery.StatsOf | app/messages/components/media-gallery.tsx:63-68 | no contract of its own: one count per media type; StatsSum and GalleryStatsSum state that they add up |
| MediaGallery.StatsSum | app/messages/components/media-gallery.tsx:63-68 | the four counts add up to the number of items |
| MediaGallery.GalleryStatsSum | app/messages/components/media-gallery.tsx:51-68 | the gallery's counts add up to the number of attachment URLs |
| FileUpload.ValidTypes | components/file-upload.tsx:31-42 | a MIME type is valid iff it belongs to an enabled category |
| FileUpload.ValidateFile | components/file-upload.tsx:37-51 | a file passes iff its type is valid and its size is at most maxSize MB; an invalid type is reported before the size |
| FileUpload.SizeError | components/file-upload.tsx:48 | no contract of its own: the size message with the limit in MB; ValidateFile and LimitIsInclusive state when it is given |
| FileUpload.AcceptedBy | components/file-upload.tsx:81-88 | no contract of its own: the `filter` callback, true iff `validateFile` finds no error; Accepted and AcceptedSnoc state it |
| FileUpload.Accepted | components/file-upload.tsx:81-88 | the accepted files, in order, exactly those that pass |
| FileUpload.AcceptedSnoc | components/file-upload.tsx:81-88 | one more file is appended to the accepted ones exactly when it passes |
| FileUpload.Errors | components/file-upload.tsx:80-86 | every error entry names a file of the batch and the error it fails with |
| FileUpload.BatchIsPartitioned | components/file-upload.tsx:79-90 | every file is accepted or leaves exactly one error entry |
| FileUpload.StartProgress | components/file-upload.tsx:92-97 | every accepted file's name gets progress 0; other entries keep their value; no other key appears |
| FileUpload.WithoutName | components/file-upload.tsx:122 | the files left are, in order, exactly those with another name |
| FileUpload.Partition | components/file-upload.tsx:80-88 | the filter loop returns the accepted files and one error per rejected file |
| FileUpload.Uploader.constructor | components/file-upload.tsx:20-28 | the widget starts with its props, no files, no progress and no errors; without an `allowedTypes` prop all three categories are enabled, and with one only those it sets to true |
| FileUpload.Uploader.ProcessFiles | components/file-upload.tsx:79-104 | the batch's errors replace the old ones, the accepted files are appended, and their progress starts at 0 |
| FileUpload.Uploader.RemoveFile | components/file-upload.tsx:121-128 | every file of that name and its progress entry go; all else is kept |
| FileUpload.LimitIsInclusive | components/file-upload.tsx:47-49 | a file of exactly maxSize·1024·1024 bytes passes; one byte more is rejected for size |
| FileUpload.DefaultPolicyAcceptsAll | components/file-upload.tsx:22-23 | with the default props, a file passes iff its type is one of the ten listed and it is at most 100 MB |
| TranslationService.SourceLanguage | lib/translation-service.ts:65 | the given source language when truthy, else a non-empty default ('en') |
| TranslationService.Cached | lib/translation-service.ts:74 | a cache hit iff all three levels are present and the stored text is non-empty, and then it is the stored text |
| TranslationService.StoreThenRead | lib/translation-service.ts:81-95 | each of the three store branches makes the entry readable, and every other entry reads as before |
| TranslationService.TranslateSpec | lib/translation-service.ts:61-98 | the same language returns the text without asking; a cache hit returns the cached text without asking; an asked result is the endpoint's; with caching off, or a result equal to the text, the cache is unchanged; otherwise the result is stored |
| TranslationService.RepeatIsServedFromCache | lib/translation-service.ts:73-95 | a non-empty translation that differs from the text is served from the cache by the next identical call, without asking again |
| TranslationService.Endpoint | lib/translation-service.ts:35-59 | no contract of its own: the endpoint's answer, or the text when the request fails; FailureReturnsText and TranslateSpec state it |
| TranslationService.UseCache | lib/translation-service.ts:67 | no contract of its own: caching is on unless `cache` is false; TranslateSpec states both cases |
| TranslationService.Store | lib/translation-service.ts:81-95 | no contract of its own: the three store branches; StoreThenRead states that the entry becomes readable and nothing else changes |
| TranslationService.FailureReturnsText | lib/translation-service.ts:55-58 | a failed request returns the original text and stores nothing |
| TranslationService.Translator.constructor | lib/translation-service.ts:15 | the cache starts empty |
| TranslationService.Translator.TranslateText | lib/translation-service.ts:61-98 | the result, whether the endpoint was asked, and the new cache are `TranslateSpec` of the old cache |
| ThemeSettings.Hsl | lib/theme-settings.ts:138-149 | no contract of its own: the `hsl(h s% l%)` text; HslRoundTrip and CustomThemeHues read it back |
| ThemeSettings.AllColorKeys | lib/theme-settings.ts:137-150 | every color key is among the twelve keys a theme defines |
| ThemeSettings.CreateCustomTheme | lib/theme-settings.ts:132-137 | the theme has the given id and name, is custom, and defines all twelve color keys |
| ThemeSettings.CustomThemeColors | lib/theme-settings.ts:138-149 | primary equals ring, border equals input, foreground equals card-foreground; secondary uses hue + 10, muted and accent hue + 5, the rest the base hue, with no wrap at 360 |
| ColorCustomization.SplitDigits | hooks/use-color-customization.ts:37 | `\d+` reads the longest run of digits: the two parts rejoin to the input, and the rest does not start with a digit |
| ColorCustomization.SplitSpaces | hooks/use-color-customization.ts:37 | `\s+` reads the longest run of white space, leaving a rest that does not start with it |
| ColorCustomization.SplitDigitsOf | hooks/use-color-customization.ts:37 | a digit run followed by a non-digit splits exactly there |
| ColorCustomization.SpaceNumberOf | hooks/use-color-customization.ts:37 | a space, then a digit run, reads as that run's value and the rest |
| ColorCustomization.MatchHere | hooks/use-color-customization.ts:37 | no contract of its own: the pattern tried at one position; MatchHereOfParts, MatchHereAfterOpen and NoMatchWithoutH state it |
| ColorCustomization.FirstMatch | hooks/use-color-customization.ts:37 | no contract of its own: the leftmost position where the pattern matches; HslRoundTrip and DecimalsReadAsZero state it |
| ColorCustomization.GetHSL | hooks/use-color-customization.ts:36-45 | the three numbers of the leftmost match of the pattern, or (0, 0, 0) when there is none |
| ColorCustomization.MatchLightnessOf | hooks/use-color-customization.ts:37 | the lightness part of the pattern reads back its digits |
| ColorCustomization.MatchSaturationOf | hooks/use-color-customization.ts:37 | the saturation and lightness parts read back their digits |
| ColorCustomization.MatchHueOf | hooks/use-color-customization.ts:37 | the hue's digit run is read whole before the saturation |
| ColorCustomization.MatchHereAfterOpen | hooks/use-color-customization.ts:37 | after 'hsl(' the pattern continues with the hue |
| ColorCustomization.MatchHereOfParts | hooks/use-color-customization.ts:37 | the pattern reads back the three digit runs of 'hsl(H S% L%)' |
| ColorCustomization.HslRoundTrip | hooks/use-color-customization.ts:36-53 | `getHSL` inverts the string `setHue` writes: non-negative integers (h, s, l) read back as themselves |
| ColorCustomization.NoMatchWithoutH | hooks/use-color-customization.ts:37-38 | a string without 'h' never matches, so it reads as (0, 0, 0) |
| ColorCustomization.DecimalsReadAsZero | hooks/use-color-customization.ts:37-38 | a decimal color such as the default 'hsl(222.2 84% 4.9%)' does not match and reads as (0, 0, 0) |
| ColorCustomization.Rehued | hooks/use-color-customization.ts:50-54 | the new hue on every key, with the same key set |
| ColorCustomization.RehuedReadsBack | hooks/use-color-customization.ts:50-54 | after `setHue` each color reads back with the new hue and its own old saturation and lightness |
| ColorCustomization.RehueTwiceAt | hooks/use-color-customization.ts:47-58 | at one key, setting the hue twice equals setting it once to the second value |
| ColorCustomization.RehueTwice | hooks/use-color-customization.ts:47-58 | setting the hue twice equals setting it once to the second value |
| ColorCustomization.CustomThemeHues | lib/theme-settings.ts:138-149 | every custom theme color reads back with the base hue, or 5 or 10 above it, never wrapped at 360 |
| ColorCustomization.ColorCustomizer.constructor | hooks/use-color-customization.ts:4-5 | the hook starts with the initial theme, or none |
| ColorCustomization.ColorCustomizer.UpdateColor | hooks/use-color-customization.ts:7-24 | without a theme nothing happens; otherwise only the given key changes, to the value, and the new theme is returned |
| ColorCustomization.ColorCustomizer.CreateTheme | hooks/use-color-customization.ts:26-34 | the new custom theme, id 'custom-' and the clock, becomes the current theme |
| ColorCustomization.ColorCustomizer.SetHue | hooks/use-color-customization.ts:47-58 | without a theme nothing happens; otherwise the loop over the keys gives exactly `Rehued` of the old colors, keeping id and name |
| ChatSidebar.NameLeTotal | components/chat-sidebar.tsx:120-121 | any two names compare one way or the other |
| ChatSidebar.NameLeTrans | components/chat-sidebar.tsx:120-121 | the name order is transitive |
| ChatSidebar.Shown | components/chat-sidebar.tsx:108-113 | no contract of its own: the `filter` callback; FilteredChats, DefaultShowsAll and OnlyUnreadDropsZero state it |
| ChatSidebar.InsertByName | components/chat-sidebar.tsx:119-122 | no contract of its own: one insertion step by name; InsertByNameMultiset and InsertByNameSorted state it |
| ChatSidebar.SortByName | components/chat-sidebar.tsx:119-122 | no contract of its own: insertion sort by name; SortByNamePermutes and SortByNameSorted state it |
| ChatSidebar.InsertByNameMultiset | components/chat-sidebar.tsx:119-122 | inserting a chat adds exactly that chat |
| ChatSidebar.InsertByNameSorted | components/chat-sidebar.tsx:119-122 | inserting into a name-sorted list keeps it sorted |
| ChatSidebar.SortByNamePermutes | components/chat-sidebar.tsx:119-122 | sorting by name is a permutation |
| ChatSidebar.SortByNameSorted | components/chat-sidebar.tsx:119-122 | sorting by name gives a name-sorted list |
| ChatSidebar.FilteredChats | components/chat-sidebar.tsx:107-123 | exactly the chats passing every active switch and the search, each once; 'recent' keeps the original order, 'unread' sorts by unread count descending keeping the order of equal counts, 'alphabetical' sorts by name |
| ChatSidebar.MultisetKeepsMembers | components/chat-sidebar.tsx:114-123 | reordering keeps the same chats |
| ChatSidebar.DefaultShowsAll | components/chat-sidebar.tsx:107-113 | with both switches off and an empty search every chat is listed, in order |
| ChatSidebar.OnlyUnreadDropsZero | components/chat-sidebar.tsx:109 | the unread switch keeps a chat iff its count is not 0, so a negative count passes |
| ChatSidebar.GroupsShown | components/chat-sidebar.tsx:249-253 | in order, exactly the groups whose name or last message contains the query, ignoring case |
| ChatSidebar.EmptyQueryShowsAllGroups | components/chat-sidebar.tsx:249-253 | an empty search shows every group, in order |
| CallInterface.LeadingZero | components/call-interface.tsx:29-31 | a leading '0' keeps a digit string's value |
| CallInterface.PaddedValue | components/call-interface.tsx:29-31 | padding a number's text to two places keeps its value |
| CallInterface.AtMostTwoDigits | components/call-interface.tsx:30 | a number below 100 has at most two digits |
| CallInterface.AtLeastThreeDigits | components/call-interface.tsx:29 | a number from 100 on has at least three digits |
| CallInterface.FormatDuration | components/call-interface.tsx:28-32 | digits, ':', then exactly two digits |
| CallInterface.DurationRoundTrip | components/call-interface.tsx:28-32 | the minutes and seconds read back give the duration, with seconds below 60 |
| CallInterface.MinutesUncapped | components/call-interface.tsx:29-31 | from 6000 seconds on the minutes take three or more digits |
| CallInterface.NextVolume | components/call-interface.tsx:74 | the next volume level is below 3 |
| CallInterface.VolumeCycle | components/call-interface.tsx:18-74 | from 2 the button goes to 0, 1, then back to 2; each press changes the level, and three presses return to it |
| CallInterface.Call.constructor | components/call-interface.tsx:16-19 | the screen opens unmuted, camera on, volume 2, at 00:00 |
| CallInterface.Call.Tick | components/call-interface.tsx:21-26 | the timer adds one second and changes nothing else |
| CallInterface.Call.ToggleMute | components/call-interface.tsx:56 | the mute flag flips and nothing else changes |
| CallInterface.Call.ToggleVideo | components/call-interface.tsx:60-65 | the camera flag flips, so the video area appears or disappears; nothing else changes |
| CallInterface.Call.CycleVolume | components/call-interface.tsx:74 | the volume moves to the next level, a different one below 3; nothing else changes |
| CallInterface.TogglesAreInvolutions | components/call-interface.tsx:56-65 | pressing mute twice and the camera twice restores the screen |
| StoryCircle.AgeSeconds | app/stories/components/story-circle.tsx:23-25 | the age in whole seconds rounded down, negative for a future date |
| StoryCircle.UnitSeconds | app/stories/components/story-circle.tsx:28-30 | no contract of its own: the seconds of the unit letters m, h and d; ElapsedReadsBack uses it |
| StoryCircle.GetTimeElapsed | app/stories/components/story-circle.tsx:22-31 | 'Just now' iff the age is under 60 seconds; otherwise a number followed by 'm', 'h' or 'd' |
| StoryCircle.ElapsedReadsBack | app/stories/components/story-circle.tsx:28-30 | the label's number, at least 1, times its unit is the age rounded down to that unit; minutes stay below 60 and hours below 24 |
| StoryCircle.MinuteBoundary | app/stories/components/story-circle.tsx:23-28 | every age under 60000 ms, a future one included, reads 'Just now', and exactly 60000 ms reads '1m' |

## Left out

Dropped entirely:

- **Rendering.** JSX rendering, animation, dialogs and every DOM or CSS
  write are presentation, not behaviour. This includes the CSS variables
  that `updateColor` and `setHue` set.
- **Timers.** The upload-progress simulation (`simulateUpload`, with
  `Math.random`) is not modelled. The story viewer's progress interval
  is not modelled; it makes the same move as `handleNext`. The call
  screen's one-second interval is the explicit `Tick` method.
- **The analyzer's numerics.**
  - The TF-IDF vectorizer, the random-forest classifier and
    `categorize_content` with `np.random` are external numerics and
    randomness.
  - So are the float means and percentages of the analyses and the
    normalisation of the type distribution: the model keeps the counts.
  - `pd.to_datetime` hour extraction is an input `peakHours`.
  - File loading, JSON export and `argparse` in `main` are I/O.
- **Pass-through handlers.** These only forward a query:
  - `handleDisconnectDigiLocker` and `handleGetProfile` in the settings
    route;
  - the emergency-contact create, delete, lookup and location queries.
- **Demo records.** `lib/db/index.ts` seeds its store with these, and they
  are not modelled. The store starts empty.

Replaced by abstract inputs:

- **Tokens and passwords.** JWT verification and bcrypt hashing are
  abstract outcomes: no token, bad token, verified user id, password
  matches.
- **Database results.** Results of the database drivers (Cassandra,
  Postgres) are parameters: the row found or not, the owner of a post.
- **Clocks, UUIDs and `Math.random` ids.** They are parameters. Clock
  readings are millisecond integers, or ISO strings where only stored.
- **Locale date formatting.** `formatDate` in `formatRelativeTime` is a
  function parameter.
- **The translation endpoint.** `fetch` is a function parameter. A failed
  request or a non-OK answer is `None`.

Approximations of JavaScript behaviour:

- **Case and white space.** Lower-casing maps only ASCII letters. White
  space (`\s`, `trimStart`) is the ASCII set: space, tab, line feed,
  carriage return, vertical tab, form feed. Unicode case mapping and
  Unicode spaces are not modelled.
- **`parseInt`.** It is modelled for decimal text with optional leading
  white space and sign, which is all the posts route passes. Hex
  prefixes and the other radix rules are not modelled.
- **Number precision.** JavaScript numbers are unbounded integers here.
  Rounding of large values and floating-point `Date` arithmetic are not
  modelled.
- **Code units.** A Dafny string is a sequence of Unicode scalar values,
  while JavaScript's `.length`, `slice` and string comparison count UTF-16
  code units. `truncateText`, the research read time and the chat name
  order agree with the source only on text without characters outside
  the Basic Multilingual Plane.

Weaker contracts:

- ChatSidebar.FilteredChats: 'alphabetical' uses code-unit lexicographic
  order instead of `localeCompare`, whose collation is locale data. Among
  equal names the order is proved sorted and a permutation, but not
  proved stable.
- Utils.Assign: every new key goes after the existing ones. JavaScript
  lists integer-like keys ("0", "42") first, in ascending order, so
  `deepMerge({a: 1}, [5])` has the keys "0", "a" where the model has "a",
  "0". The order is right for all other keys.
- MainContent.FilteredPosts: 'latest' sorts on exact millisecond
  timestamps. The source keeps `toLocaleString()` of `createdAt` and parses
  that text back in the comparator, so milliseconds are lost and posts
  within the same second keep their filter order. In a locale whose
  format `Date` cannot parse, every key is NaN, the comparator answers 0,
  and the whole feed keeps its filter order.
- Utils.MergeObjects: the case of an array and a non-array object under
  the same key is not stated. `deepMerge` recurses on it, as `Merge` does.
- MediaGallery.MediaItems: it assumes that every message date is a valid
  time. The source's comparator gives NaN for an invalid date.
- HomepageAnalysis.ValueCounts: values count as equal only when they are
  the same value of the model. Python compares `1`, `True` and `1.0` as
  equal, so pandas counts them under one key, where the model counts
  `PyInt(1)` and `PyBool(true)` apart (and a float is an opaque `Other`).
  The counts agree whenever a column holds only text, as the stories and
  posts the route sends normally do.

## Findings

| source | as written | input that shows it | evidently intended | confidence | as-written member | corrected member |
|---|---|---|---|---|---|---|
| ml/homepage_analysis.py:189-205 | `generate_content_recommendations` filters the history, discards the result, and computes the content-type distribution from the unfiltered history | history [{content_rating: 'R', type: 'video'}] with only 'G' allowed: the filter removes the record, yet 'video' is counted once, where the filtered history counts nothing (lemma HomepageAnalysis.UnfilteredHistoryLeaks) | the statistics are computed on the filtered history: each counted type maps to the number of kept records of that type (lemma HomepageAnalysis.FilteredRecommendationsSafe), so in the example the distribution is empty | medium, not executed | HomepageAnalysis.HomePageAnalyzer.GenerateContentRecommendations | HomepageAnalysis.HomePageAnalyzer.GenerateFilteredRecommendations |
