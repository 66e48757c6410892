/** The research-articles route: GET filters the article list by category
    and by a search text, POST validates a new article and derives its
    reading time. The article list, the UUID and the clock are parameters. */
module ResearchRoute {
  import opened Wrappers
  import opened Strings
  import opened Seqs

  datatype Article = Article(
    id: string,
    title: string,
    author: string,
    abstractText: string,
    category: string,
    publishDate: string,
    readTime: string,
    citations: int,
    imageUrl: string)

  /** The category test: no category or 'all' keeps everything, otherwise
      the categories must agree up to case. */
  predicate CategoryMatches(a: Article, category: Option<string>)
  {
    category.None? || category.value == "" || category.value == "all"
    || Lower(a.category) == Lower(category.value)
  }

  /** The search test on the lower-cased query. */
  predicate SearchMatches(a: Article, search: Option<string>)
  {
    search.None? || search.value == ""
    || Contains(Lower(a.title), Lower(search.value))
    || Contains(Lower(a.abstractText), Lower(search.value))
    || Contains(Lower(a.author), Lower(search.value))
  }

  /** The category stage. */
  function ByCategory(articles: seq<Article>, category: Option<string>): (r: seq<Article>)
    ensures Subseq(r, articles)
    ensures forall a :: a in r <==> a in articles && CategoryMatches(a, category)
  {
    if category.Some? && category.value != "" && category.value != "all" then
      var p := (a: Article) => Lower(a.category) == Lower(category.value);
      FilterSubseq(articles, p);
      forall a ensures a in Filter(articles, p) <==> a in articles && p(a) {
        FilterMembership(articles, p, a);
      }
      Filter(articles, p)
    else
      SubseqRefl(articles);
      articles
  }

  /** The search stage. */
  function BySearch(articles: seq<Article>, search: Option<string>): (r: seq<Article>)
    ensures Subseq(r, articles)
    ensures forall a :: a in r <==> a in articles && SearchMatches(a, search)
  {
    if search.Some? && search.value != "" then
      var q := Lower(search.value);
      var p := (a: Article) => Contains(Lower(a.title), q) || Contains(Lower(a.abstractText), q)
                               || Contains(Lower(a.author), q);
      FilterSubseq(articles, p);
      forall a ensures a in Filter(articles, p) <==> a in articles && p(a) {
        FilterMembership(articles, p, a);
      }
      Filter(articles, p)
    else
      SubseqRefl(articles);
      articles
  }

  /** GET: the articles passing both tests, in their original order. */
  function Get(articles: seq<Article>, category: Option<string>, search: Option<string>): (r: seq<Article>)
    ensures Subseq(r, articles)
    ensures forall a :: a in r <==> a in articles && CategoryMatches(a, category) && SearchMatches(a, search)
  {
    var byCategory := ByCategory(articles, category);
    SubseqTrans(BySearch(byCategory, search), byCategory, articles);
    BySearch(byCategory, search)
  }

  /** `Math.ceil(n / 1000)` for a length n. */
  function CeilThousandths(n: nat): (m: nat)
    ensures m * 1000 >= n && (m == 0 || (m - 1) * 1000 < n)
  {
    (n + 999) / 1000
  }

  /** The fields of a POST body; `""` stands for a missing or falsy field. */
  datatype ArticleBody = ArticleBody(title: string, abstractText: string, author: string, category: string, imageUrl: string)

  datatype PostResponse = MissingFields | Created(article: Article) | Failed

  const PlaceholderImage: string := "/placeholder.svg?height=200&width=300"

  /** POST. `body` is None when the body does not parse. */
  function Post(body: Option<ArticleBody>, id: string, now: string): (r: PostResponse)
    ensures body.None? <==> r == Failed
    ensures r == MissingFields <==>
      body.Some? && (body.value.title == "" || body.value.abstractText == "" || body.value.author == ""
                     || body.value.category == "")
    ensures r.Created? ==>
      r.article.citations == 0
      && r.article.readTime == NatToString(CeilThousandths(|body.value.abstractText|)) + " min"
      && r.article.imageUrl == (if body.value.imageUrl == "" then PlaceholderImage else body.value.imageUrl)
      && r.article.id == id && r.article.publishDate == now
    ensures r.Created? ==>
      r.article.title == body.value.title && r.article.author == body.value.author
      && r.article.abstractText == body.value.abstractText && r.article.category == body.value.category
  {
    if body.None? then Failed
    else
      var d := body.value;
      if d.title == "" || d.abstractText == "" || d.author == "" || d.category == "" then MissingFields
      else Created(Article(id, d.title, d.author, d.abstractText, d.category, now,
                           NatToString(CeilThousandths(|d.abstractText|)) + " min", 0,
                           if d.imageUrl == "" then PlaceholderImage else d.imageUrl))
  }

  /** A created article is read in at least one minute, since its abstract
      is not empty, and each started thousand characters adds one. */
  lemma ReadTimeAtLeastOneMinute(body: ArticleBody, id: string, now: string)
    requires Post(Some(body), id, now).Created?
    ensures CeilThousandths(|body.abstractText|) >= 1
    ensures |body.abstractText| <= 1000 ==> Post(Some(body), id, now).article.readTime == "1 min"
  {
    if |body.abstractText| <= 1000 {
      assert CeilThousandths(|body.abstractText|) == 1;
      assert NatToString(1) == "1";
    }
  }
}
