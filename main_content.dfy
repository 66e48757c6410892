/** The home feed: the filter/sort pipeline `getFilteredPosts` and the three
    per-post updates `handleLike`, `handleComment` and the bookmark toggle. */
module MainContent {
  import opened Wrappers
  import opened Seqs

  /** The fields of a feed post the pipeline reads or the updates write.
      `timestamp` is the post's time as milliseconds since the epoch. */
  datatype FeedPost = FeedPost(
    id: string,
    userId: string,
    category: string,
    categories: seq<string>,
    interests: Option<seq<string>>,
    isVerified: bool,
    isPremium: bool,
    engagementScore: Option<int>,
    trending: bool,
    timestamp: int,
    likes: int,
    comments: int,
    isLiked: bool,
    isBookmarked: bool)

  /** The filter options that select by a topic in `post.categories`. */
  const TopicFilters: seq<string> := ["news", "entertainment", "sports", "technology", "politics"]

  /** `PostCategories.ADULT`. */
  const Adult: string := "adult"

  predicate SharesInterest(post: FeedPost, selectedInterests: seq<string>)
  {
    post.interests.Some? && exists i :: i in post.interests.value && i in selectedInterests
  }

  /** Reference definition of the first stage: does `post` pass the
      `filterBy` option? 'all', and any option the switch does not name,
      pass everything. */
  predicate MatchesFilter(post: FeedPost, filterBy: string, followedUsers: seq<string>,
                          selectedInterests: seq<string>)
  {
    if filterBy == "all" then true
    else if filterBy in TopicFilters then filterBy in post.categories
    else if filterBy == "verified" then post.isVerified
    else if filterBy == "premium" then post.isPremium
    else if filterBy == "following" then post.userId in followedUsers
    else if filterBy == "interests" then SharesInterest(post, selectedInterests)
    else true
  }

  /** The category filter as the component chains it. */
  function CategoryStage(posts: seq<FeedPost>, filterBy: string, followedUsers: seq<string>,
                         selectedInterests: seq<string>): seq<FeedPost>
  {
    if filterBy == "all" then posts
    else if filterBy in TopicFilters then Filter(posts, (p: FeedPost) => filterBy in p.categories)
    else if filterBy == "verified" then Filter(posts, (p: FeedPost) => p.isVerified)
    else if filterBy == "premium" then Filter(posts, (p: FeedPost) => p.isPremium)
    else if filterBy == "following" then Filter(posts, (p: FeedPost) => p.userId in followedUsers)
    else if filterBy == "interests" then Filter(posts, (p: FeedPost) => SharesInterest(p, selectedInterests))
    else posts
  }

  /** An adult post passes only when `settings?.isAdultContentEnabled` is truthy. */
  predicate PassesAdultGate(post: FeedPost, adultEnabled: bool)
  {
    post.category == Adult ==> adultEnabled
  }

  /** The comparator key of each sort option; the comparators all have the
      form `key(b) - key(a)`, so the sort is by key, largest first. Any
      option other than the three named ones is 'latest'. */
  function SortKey(sortBy: string, followedUsers: seq<string>): FeedPost -> int
  {
    if sortBy == "trending" then (p: FeedPost) => if p.trending then 1 else 0
    else if sortBy == "top" then (p: FeedPost) => p.engagementScore.GetOr(0)
    else if sortBy == "following" then (p: FeedPost) => if p.userId in followedUsers then 1 else 0
    else (p: FeedPost) => p.timestamp
  }

  /** `getFilteredPosts`. */
  function FilteredPosts(posts: seq<FeedPost>, filterBy: string, sortBy: string, adultEnabled: bool,
                         followedUsers: seq<string>, selectedInterests: seq<string>): seq<FeedPost>
  {
    var filtered := CategoryStage(posts, filterBy, followedUsers, selectedInterests);
    var gated := Filter(filtered, (p: FeedPost) => PassesAdultGate(p, adultEnabled));
    SortDesc(gated, SortKey(sortBy, followedUsers))
  }

  /** The chained category stage is the filter by `MatchesFilter`. */
  lemma CategoryStageIsFilter(posts: seq<FeedPost>, filterBy: string, followedUsers: seq<string>,
                              selectedInterests: seq<string>)
    ensures CategoryStage(posts, filterBy, followedUsers, selectedInterests)
      == Filter(posts, (p: FeedPost) => MatchesFilter(p, filterBy, followedUsers, selectedInterests))
  {
    var m := (p: FeedPost) => MatchesFilter(p, filterBy, followedUsers, selectedInterests);
    if filterBy == "all" {
      FilterAll(posts, m);
    } else if filterBy in TopicFilters {
      FilterSame(posts, (p: FeedPost) => filterBy in p.categories, m);
    } else if filterBy == "verified" {
      FilterSame(posts, (p: FeedPost) => p.isVerified, m);
    } else if filterBy == "premium" {
      FilterSame(posts, (p: FeedPost) => p.isPremium, m);
    } else if filterBy == "following" {
      FilterSame(posts, (p: FeedPost) => p.userId in followedUsers, m);
    } else if filterBy == "interests" {
      FilterSame(posts, (p: FeedPost) => SharesInterest(p, selectedInterests), m);
    } else {
      FilterAll(posts, m);
    }
  }

  /** The feed is a reordering of the posts that pass both stages: each such
      post appears exactly as often as in `posts`, every other post not at
      all, so nothing is added or duplicated. */
  lemma FilteredPostsContents(posts: seq<FeedPost>, filterBy: string, sortBy: string, adultEnabled: bool,
                              followedUsers: seq<string>, selectedInterests: seq<string>, post: FeedPost)
    ensures multiset(FilteredPosts(posts, filterBy, sortBy, adultEnabled, followedUsers, selectedInterests))[post]
      == if MatchesFilter(post, filterBy, followedUsers, selectedInterests) && PassesAdultGate(post, adultEnabled)
         then multiset(posts)[post] else 0
  {
    var m := (p: FeedPost) => MatchesFilter(p, filterBy, followedUsers, selectedInterests);
    var a := (p: FeedPost) => PassesAdultGate(p, adultEnabled);
    CategoryStageIsFilter(posts, filterBy, followedUsers, selectedInterests);
    var filtered := Filter(posts, m);
    var gated := Filter(filtered, a);
    FilterMultiset(posts, m);
    FilterMultiset(filtered, a);
    SortDescPermutes(gated, SortKey(sortBy, followedUsers));
  }

  /** An adult post reaches the feed only when adult content is enabled. */
  lemma AdultPostsGated(posts: seq<FeedPost>, filterBy: string, sortBy: string, adultEnabled: bool,
                        followedUsers: seq<string>, selectedInterests: seq<string>, post: FeedPost)
    requires post in FilteredPosts(posts, filterBy, sortBy, adultEnabled, followedUsers, selectedInterests)
    requires post.category == Adult
    ensures adultEnabled
  {
    FilteredPostsContents(posts, filterBy, sortBy, adultEnabled, followedUsers, selectedInterests, post);
  }

  /** 'top' orders by engagement score, largest first with a missing score
      as 0, and posts with equal scores keep their relative order. */
  lemma TopOrder(posts: seq<FeedPost>, filterBy: string, adultEnabled: bool,
                 followedUsers: seq<string>, selectedInterests: seq<string>, score: int)
    ensures var feed := FilteredPosts(posts, filterBy, "top", adultEnabled, followedUsers, selectedInterests);
      (forall i, j :: 0 <= i < j < |feed| ==> feed[i].engagementScore.GetOr(0) >= feed[j].engagementScore.GetOr(0))
      && Filter(feed, (p: FeedPost) => p.engagementScore.GetOr(0) == score)
         == Filter(Filter(CategoryStage(posts, filterBy, followedUsers, selectedInterests),
                          (p: FeedPost) => PassesAdultGate(p, adultEnabled)),
                   (p: FeedPost) => p.engagementScore.GetOr(0) == score)
  {
    var gated := Filter(CategoryStage(posts, filterBy, followedUsers, selectedInterests),
                        (p: FeedPost) => PassesAdultGate(p, adultEnabled));
    var key := SortKey("top", followedUsers);
    SortDescSorted(gated, key);
    SortDescStable(gated, key, score);
    WithKeyIsFilter(SortDesc(gated, key), key, score, (p: FeedPost) => p.engagementScore.GetOr(0) == score);
    WithKeyIsFilter(gated, key, score, (p: FeedPost) => p.engagementScore.GetOr(0) == score);
  }

  /** 'trending' puts the trending posts first and the others after, each
      group in the order the filters left it. */
  lemma TrendingFirst(posts: seq<FeedPost>, filterBy: string, adultEnabled: bool,
                      followedUsers: seq<string>, selectedInterests: seq<string>)
    ensures var gated := Filter(CategoryStage(posts, filterBy, followedUsers, selectedInterests),
                                (p: FeedPost) => PassesAdultGate(p, adultEnabled));
      FilteredPosts(posts, filterBy, "trending", adultEnabled, followedUsers, selectedInterests)
        == Filter(gated, (p: FeedPost) => p.trending) + Filter(gated, (p: FeedPost) => !p.trending)
  {
    var gated := Filter(CategoryStage(posts, filterBy, followedUsers, selectedInterests),
                        (p: FeedPost) => PassesAdultGate(p, adultEnabled));
    var key := SortKey("trending", followedUsers);
    SortDescTwoKeys(gated, key);
    WithKeyIsFilter(gated, key, 1, (p: FeedPost) => p.trending);
    WithKeyIsFilter(gated, key, 0, (p: FeedPost) => !p.trending);
  }

  /** 'following' puts posts by followed authors first, each group in order. */
  lemma FollowingFirst(posts: seq<FeedPost>, filterBy: string, adultEnabled: bool,
                       followedUsers: seq<string>, selectedInterests: seq<string>)
    ensures var gated := Filter(CategoryStage(posts, filterBy, followedUsers, selectedInterests),
                                (p: FeedPost) => PassesAdultGate(p, adultEnabled));
      FilteredPosts(posts, filterBy, "following", adultEnabled, followedUsers, selectedInterests)
        == Filter(gated, (p: FeedPost) => p.userId in followedUsers)
           + Filter(gated, (p: FeedPost) => p.userId !in followedUsers)
  {
    var gated := Filter(CategoryStage(posts, filterBy, followedUsers, selectedInterests),
                        (p: FeedPost) => PassesAdultGate(p, adultEnabled));
    var key := SortKey("following", followedUsers);
    SortDescTwoKeys(gated, key);
    WithKeyIsFilter(gated, key, 1, (p: FeedPost) => p.userId in followedUsers);
    WithKeyIsFilter(gated, key, 0, (p: FeedPost) => p.userId !in followedUsers);
  }

  // ------------------------------------------------------------ per-post updates

  function ToggleLike(post: FeedPost): FeedPost
  {
    post.(likes := if post.isLiked then post.likes - 1 else post.likes + 1, isLiked := !post.isLiked)
  }

  /** `handleLike`: flips the like on every post with that id. */
  function HandleLike(posts: seq<FeedPost>, postId: string): (r: seq<FeedPost>)
    ensures |r| == |posts|
    ensures forall i :: 0 <= i < |posts| && posts[i].id != postId ==> r[i] == posts[i]
    ensures forall i :: 0 <= i < |posts| && posts[i].id == postId ==>
      r[i].isLiked == !posts[i].isLiked
      && r[i].likes == posts[i].likes + (if posts[i].isLiked then -1 else 1)
      && r[i] == posts[i].(likes := r[i].likes, isLiked := r[i].isLiked)
  {
    Map(posts, (p: FeedPost) => if p.id == postId then ToggleLike(p) else p)
  }

  /** Liking twice restores every post. */
  lemma HandleLikeTwice(posts: seq<FeedPost>, postId: string)
    ensures HandleLike(HandleLike(posts, postId), postId) == posts
  {
  }

  /** `handleComment`: bumps the comment count of the matching post and
      clears that post's draft. */
  function HandleComment(posts: seq<FeedPost>, drafts: map<string, string>, postId: string)
    : (r: (seq<FeedPost>, map<string, string>))
    ensures |r.0| == |posts|
    ensures forall i :: 0 <= i < |posts| ==>
      r.0[i] == if posts[i].id == postId then posts[i].(comments := posts[i].comments + 1) else posts[i]
    ensures r.1.Keys == drafts.Keys + {postId} && r.1[postId] == ""
    ensures forall k :: k in drafts && k != postId ==> r.1[k] == drafts[k]
  {
    (Map(posts, (p: FeedPost) => if p.id == postId then p.(comments := p.comments + 1) else p),
     drafts[postId := ""])
  }

  /** The bookmark button: flips `isBookmarked` on the posts with that id. */
  function ToggleBookmark(posts: seq<FeedPost>, postId: string): (r: seq<FeedPost>)
    ensures |r| == |posts|
    ensures forall i :: 0 <= i < |posts| ==>
      r[i] == if posts[i].id == postId then posts[i].(isBookmarked := !posts[i].isBookmarked) else posts[i]
  {
    Map(posts, (p: FeedPost) => if p.id == postId then p.(isBookmarked := !p.isBookmarked) else p)
  }

  lemma ToggleBookmarkTwice(posts: seq<FeedPost>, postId: string)
    ensures ToggleBookmark(ToggleBookmark(posts, postId), postId) == posts
  {
  }
}
