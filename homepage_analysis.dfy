/** The age-gated content-rating engine of the homepage analyzer: the
    allowed-rating policy derived from (verified, age), the rule-based rating
    classifier, the rating filter over a data frame, and the integer parts of
    the post, story and recommendation analyses. */
module HomepageAnalysis {
  import opened Wrappers
  import opened Strings
  import opened Seqs

  /** A value of a JSON record as Python sees it. `Other` stands for any other
      object (a float, say): its truth value, or None when `bool()` raises. */
  datatype Value =
    | PyNone
    | PyBool(b: bool)
    | PyInt(i: int)
    | PyStr(s: string)
    | PyList(items: seq<Value>)
    | PyDict(entries: map<string, Value>)
    | Other(truth: Option<bool>)

  type Record = map<string, Value>

  /** Python truthiness; None when evaluating it raises. */
  function Truth(v: Value): Option<bool>
  {
    match v
    case PyNone => Some(false)
    case PyBool(b) => Some(b)
    case PyInt(i) => Some(i != 0)
    case PyStr(s) => Some(s != "")
    case PyList(xs) => Some(xs != [])
    case PyDict(m) => Some(m != map[])
    case Other(t) => t
  }

  /** Lists and dicts are unhashable, so `value_counts` raises on them. */
  predicate Hashable(v: Value) { !v.PyList? && !v.PyDict? }

  // ---------------------------------------------------------------- ratings

  datatype Rating = G | PG | PG13 | R | NC17

  function Label(r: Rating): string
  {
    match r
    case G => "G"
    case PG => "PG"
    case PG13 => "PG-13"
    case R => "R"
    case NC17 => "NC-17"
  }

  /** The keys of `content_ratings`, least restrictive first. */
  const RatingOrder: seq<Rating> := [G, PG, PG13, R, NC17]

  const MatureKeywords: seq<string> :=
    ["violence", "explicit", "mature", "adult", "nsfw", "drugs", "alcohol", "gambling"]

  const ContentCategories: seq<string> :=
    ["general", "news", "entertainment", "sports", "technology", "politics"]

  /** The list `set_user_preferences` stores for a profile. */
  function AllowedFor(isAgeVerified: bool, age: int): (r: seq<Rating>)
    ensures 1 <= |r| <= 4 && r == RatingOrder[..|r|]
    ensures G in r && NC17 !in r
    ensures !isAgeVerified ==> r == [G]
  {
    if isAgeVerified then
      if age >= 18 then [G, PG, PG13, R]
      else if age >= 13 then [G, PG, PG13]
      else [G, PG]
    else [G]
  }

  /** A verified user's allowed list only grows with age. */
  lemma AllowedGrowsWithAge(younger: int, older: int)
    requires younger <= older
    ensures |AllowedFor(true, younger)| <= |AllowedFor(true, older)|
    ensures AllowedFor(true, younger) == AllowedFor(true, older)[..|AllowedFor(true, younger)|]
  {
  }

  /** Which ratings a profile may see, by rank: R needs 18, PG-13 needs 13,
      PG needs only verification, and G is always allowed. */
  lemma AllowedByAge(isAgeVerified: bool, age: int, r: Rating)
    ensures r in AllowedFor(isAgeVerified, age) <==>
      match r
      case G => true
      case PG => isAgeVerified
      case PG13 => isAgeVerified && age >= 13
      case R => isAgeVerified && age >= 18
      case NC17 => false
  {
  }

  // ------------------------------------------------------------- classifier

  predicate HasMatureKeyword(text: string)
  {
    exists k :: k in MatureKeywords && Contains(Lower(text), k)
  }

  /** `metadata.get('is_adult_content', False)` on a dict. */
  function AdultFlag(metadata: map<string, Value>): Value
  {
    if "is_adult_content" in metadata then metadata["is_adult_content"] else PyBool(false)
  }

  /** The try-block of `determine_content_rating`; None when it raises:
      `content.lower()` on a non-string, `.get` on a non-dict, or the truth
      test of the flag. */
  function ClassifyAttempt(content: Value, metadata: Value): Option<Rating>
  {
    if !content.PyStr? then None
    else if !metadata.PyDict? then None
    else match Truth(AdultFlag(metadata.entries))
      case None => None
      case Some(adult) =>
        Some(if adult then R else if HasMatureKeyword(content.s) then PG13 else G)
  }

  function DetermineContentRating(content: Value, metadata: Value): (r: Rating)
    ensures r == G || r == PG13 || r == R
    ensures ClassifyAttempt(content, metadata).None? ==> r == PG13
  {
    ClassifyAttempt(content, metadata).GetOr(PG13)
  }

  /** 'R' exactly for string text with a dict whose adult flag is truthy. */
  lemma RatedRIff(content: Value, metadata: Value)
    ensures DetermineContentRating(content, metadata) == R <==>
      content.PyStr? && metadata.PyDict? && Truth(AdultFlag(metadata.entries)) == Some(true)
  {
  }

  /** 'G' only when classification succeeds, the flag is falsy and no mature
      keyword occurs: a failure never yields the least restrictive label. */
  lemma RatedGIff(content: Value, metadata: Value)
    ensures DetermineContentRating(content, metadata) == G <==>
      content.PyStr? && metadata.PyDict? && Truth(AdultFlag(metadata.entries)) == Some(false)
      && !HasMatureKeyword(content.s)
  {
  }

  /** A text mentioning gambling with a flag-free dict rates 'PG-13'. */
  lemma GamblingRatesPG13()
    ensures DetermineContentRating(PyStr("Gambling"), PyDict(map[])) == PG13
  {
    var low := Lower("Gambling");
    assert low[0] == 'g';
    assert low == "gambling";
    assert StartsWith(low, "gambling");
    assert "gambling" in MatureKeywords;
  }

  /** The text is lower-cased before the flag is read, so non-string text
      gives 'PG-13' even when the record is flagged adult. */
  lemma NonStringTextFlaggedAdult(content: Value)
    requires !content.PyStr?
    ensures DetermineContentRating(content, PyDict(map["is_adult_content" := PyBool(true)])) == PG13
  {
  }

  // ----------------------------------------------------------------- frames

  /** A pandas DataFrame built from a list of records: its columns are every
      key any record has, and a missing cell reads as NaN (PyNone here). */
  datatype Frame = Frame(columns: set<string>, rows: seq<Record>)

  function ColumnsOf(data: seq<Record>): (cols: set<string>)
    ensures forall c :: c in cols <==> exists i :: 0 <= i < |data| && c in data[i]
  {
    if data == [] then {}
    else
      var rest := ColumnsOf(data[1..]);
      assert forall c :: c in rest <==> exists i :: 1 <= i < |data| && c in data[i] by {
        forall c | c in rest ensures exists i :: 1 <= i < |data| && c in data[i] {
          var j :| 0 <= j < |data[1..]| && c in data[1..][j];
          assert c in data[j + 1];
        }
        forall c, i | 1 <= i < |data| && c in data[i] ensures c in rest {
          assert data[1..][i - 1] == data[i];
        }
      }
      data[0].Keys + rest
  }

  /** `pd.DataFrame(content_data)`. */
  function ToFrame(data: seq<Record>): Frame
  {
    Frame(ColumnsOf(data), data)
  }

  /** `df[col]` at one record: NaN when the record lacks the key. */
  function Cell(rec: Record, col: string): Value
  {
    if col in rec then rec[col] else PyNone
  }

  /** `df[col]`, with NaN for rows that lack the key. */
  function Column(f: Frame, col: string): (vals: seq<Value>)
    ensures |vals| == |f.rows|
    ensures forall i :: 0 <= i < |vals| ==> vals[i] == Cell(f.rows[i], col)
  {
    Map(f.rows, (rec: Record) => Cell(rec, col))
  }

  /** `isin(allowed)` on a row's `content_rating`: NaN and non-labels never match. */
  predicate RatingAllowed(rec: Record, allowed: seq<Rating>)
  {
    "content_rating" in rec && rec["content_rating"].PyStr?
    && exists a :: a in allowed && Label(a) == rec["content_rating"].s
  }

  /** `filter_content_by_preferences` with the allowed list passed in. */
  function FilterFrame(f: Frame, allowed: seq<Rating>): Frame
  {
    if "content_rating" in f.columns
    then Frame(f.columns, Filter(f.rows, rec => RatingAllowed(rec, allowed)))
    else f
  }

  /** When some record carries a rating, the filter keeps exactly the records
      whose rating is allowed, each as often as in the input, in input order;
      when none does, every record comes back unchanged. The columns survive. */
  lemma {:induction false} FilterFrameSpec(data: seq<Record>, allowed: seq<Rating>)
    ensures FilterFrame(ToFrame(data), allowed).columns == ColumnsOf(data)
    ensures Subseq(FilterFrame(ToFrame(data), allowed).rows, data)
    ensures (exists i :: 0 <= i < |data| && "content_rating" in data[i]) ==>
      forall rec :: multiset(FilterFrame(ToFrame(data), allowed).rows)[rec]
        == if RatingAllowed(rec, allowed) then multiset(data)[rec] else 0
    ensures (forall i :: 0 <= i < |data| ==> "content_rating" !in data[i]) ==>
      FilterFrame(ToFrame(data), allowed).rows == data
  {
    var p := (rec: Record) => RatingAllowed(rec, allowed);
    if "content_rating" in ColumnsOf(data) {
      FilterSubseq(data, p);
      FilterMultiset(data, p);
    } else {
      SubseqRefl(data);
    }
  }

  /** Safety: every record the filter keeps either carries an allowed rating,
      or no record of the input carries any rating at all. */
  lemma FilterFrameSafe(data: seq<Record>, allowed: seq<Rating>, rec: Record)
    requires rec in FilterFrame(ToFrame(data), allowed).rows
    ensures RatingAllowed(rec, allowed)
      || forall i :: 0 <= i < |data| ==> "content_rating" !in data[i]
  {
    if "content_rating" in ColumnsOf(data) {
      FilterMembership(data, (r: Record) => RatingAllowed(r, allowed), rec);
    }
  }

  // ------------------------------------------------------------ value counts

  function Occurrences(vals: seq<Value>, v: Value): nat
  {
    if vals == [] then 0 else (if vals[0] == v then 1 else 0) + Occurrences(vals[1..], v)
  }

  lemma {:induction false} OccurrencesPositive(vals: seq<Value>, v: Value)
    ensures Occurrences(vals, v) > 0 <==> v in vals
    decreases |vals|
  {
    if vals != [] {
      OccurrencesPositive(vals[1..], v);
      assert vals == [vals[0]] + vals[1..];
    }
  }

  /** `value_counts()`: how often each non-missing value occurs. */
  function ValueCounts(vals: seq<Value>): (m: map<Value, nat>)
    ensures forall v :: v in m <==> v in vals && v != PyNone
    ensures forall v :: v in m ==> m[v] == Occurrences(vals, v) && m[v] > 0
    decreases |vals|
  {
    if vals == [] then map[]
    else
      var rest := ValueCounts(vals[1..]);
      assert vals == [vals[0]] + vals[1..];
      if vals[0] == PyNone then rest
      else
        OccurrencesPositive(vals[1..], vals[0]);
        rest[vals[0] := Occurrences(vals, vals[0])]
  }

  // ------------------------------------------------------------ kept records

  /** Whether some record carries a `content_rating`, so that the filter applies. */
  predicate Rated(data: seq<Record>)
  {
    "content_rating" in ColumnsOf(data)
  }

  /** Whether the rating filter keeps a record of an input that is `rated` or not. */
  predicate Kept(rated: bool, rec: Record, allowed: seq<Rating>)
  {
    !rated || RatingAllowed(rec, allowed)
  }

  /** How many input records the filter keeps, read off the records one by one. */
  function KeptCount(data: seq<Record>, rated: bool, allowed: seq<Rating>): nat
  {
    if data == [] then 0
    else (if Kept(rated, data[0], allowed) then 1 else 0) + KeptCount(data[1..], rated, allowed)
  }

  /** How many kept input records hold `v` in column `col`. */
  function KeptWith(data: seq<Record>, rated: bool, allowed: seq<Rating>, col: string, v: Value): nat
  {
    if data == [] then 0
    else
      var here := if Kept(rated, data[0], allowed) && Cell(data[0], col) == v then 1 else 0;
      here + KeptWith(data[1..], rated, allowed, col, v)
  }

  /** No kept record holds a list or a dict in column `col`. */
  predicate KeptCellsHashable(data: seq<Record>, allowed: seq<Rating>, col: string)
  {
    forall i :: 0 <= i < |data| && Kept(Rated(data), data[i], allowed) ==> Hashable(Cell(data[i], col))
  }

  lemma {:induction false} ColumnOccurrences(f: Frame, col: string, allowed: seq<Rating>, v: Value)
    ensures Occurrences(Column(f, col), v) == KeptWith(f.rows, false, allowed, col, v)
    decreases |f.rows|
  {
    if f.rows != [] {
      var tail := Frame(f.columns, f.rows[1..]);
      ColumnOccurrences(tail, col, allowed, v);
      assert Column(f, col)[1..] == Column(tail, col);
    }
  }

  lemma {:induction false} FilterKeeps(data: seq<Record>, allowed: seq<Rating>, col: string, v: Value)
    ensures |Filter(data, (rec: Record) => RatingAllowed(rec, allowed))| == KeptCount(data, true, allowed)
    ensures KeptWith(Filter(data, (rec: Record) => RatingAllowed(rec, allowed)), false, allowed, col, v)
      == KeptWith(data, true, allowed, col, v)
    decreases |data|
  {
    if data != [] {
      var p := (rec: Record) => RatingAllowed(rec, allowed);
      FilterKeeps(data[1..], allowed, col, v);
      var rest := Filter(data[1..], p);
      if p(data[0]) {
        assert Filter(data, p) == [data[0]] + rest;
        assert ([data[0]] + rest)[1..] == rest;
      } else {
        assert Filter(data, p) == rest;
      }
    }
  }

  lemma {:induction false} KeepAll(data: seq<Record>, allowed: seq<Rating>)
    ensures KeptCount(data, false, allowed) == |data|
    decreases |data|
  {
    if data != [] {
      KeepAll(data[1..], allowed);
    }
  }

  /** A column no record has holds nothing but NaN. */
  lemma {:induction false} AbsentColumnCounts(data: seq<Record>, rated: bool, allowed: seq<Rating>, col: string, v: Value)
    requires col !in ColumnsOf(data) && v != PyNone
    ensures KeptWith(data, rated, allowed, col, v) == 0
    decreases |data|
  {
    if data != [] {
      AbsentColumnCounts(data[1..], rated, allowed, col, v);
    }
  }

  /** The rating filter, stated on the input records: the frame has one row
      per kept record, and its rows are exactly the kept records. */
  lemma FilterFrameRows(data: seq<Record>, allowed: seq<Rating>)
    ensures |FilterFrame(ToFrame(data), allowed).rows| == KeptCount(data, Rated(data), allowed)
    ensures forall rec :: rec in FilterFrame(ToFrame(data), allowed).rows <==>
      rec in data && Kept(Rated(data), rec, allowed)
  {
    if Rated(data) {
      var p := (rec: Record) => RatingAllowed(rec, allowed);
      FilterKeeps(data, allowed, "", PyNone);
      forall rec ensures rec in Filter(data, p) <==> rec in data && p(rec) {
        FilterMembership(data, p, rec);
      }
    } else {
      KeepAll(data, allowed);
    }
  }

  /** After the filter, a column holds a list or a dict iff some kept
      record holds one in that column. */
  lemma FilterFrameHashable(data: seq<Record>, allowed: seq<Rating>, col: string)
    ensures (exists i :: 0 <= i < |FilterFrame(ToFrame(data), allowed).rows|
               && !Hashable(Column(FilterFrame(ToFrame(data), allowed), col)[i]))
      <==> !KeptCellsHashable(data, allowed, col)
  {
    var df := FilterFrame(ToFrame(data), allowed);
    var vals := Column(df, col);
    FilterFrameRows(data, allowed);
    if exists i :: 0 <= i < |df.rows| && !Hashable(vals[i]) {
      var i :| 0 <= i < |df.rows| && !Hashable(vals[i]);
      assert df.rows[i] in df.rows;
      var j :| 0 <= j < |data| && data[j] == df.rows[i];
      assert !Hashable(Cell(data[j], col));
    }
    if !KeptCellsHashable(data, allowed, col) {
      var j :| 0 <= j < |data| && Kept(Rated(data), data[j], allowed) && !Hashable(Cell(data[j], col));
      assert data[j] in df.rows;
      var i :| 0 <= i < |df.rows| && df.rows[i] == data[j];
      assert !Hashable(vals[i]);
    }
  }

  /** `value_counts` after the filter counts, for each value other than
      NaN, the kept input records that hold it. */
  lemma FilterFrameValueCounts(data: seq<Record>, allowed: seq<Rating>, col: string)
    ensures forall v :: v in ValueCounts(Column(FilterFrame(ToFrame(data), allowed), col)) <==>
      v != PyNone && KeptWith(data, Rated(data), allowed, col, v) > 0
    ensures forall v :: v in ValueCounts(Column(FilterFrame(ToFrame(data), allowed), col)) ==>
      ValueCounts(Column(FilterFrame(ToFrame(data), allowed), col))[v] == KeptWith(data, Rated(data), allowed, col, v)
  {
    var df := FilterFrame(ToFrame(data), allowed);
    var vals := Column(df, col);
    forall v ensures Occurrences(vals, v) == KeptWith(data, Rated(data), allowed, col, v) {
      ColumnOccurrences(df, col, allowed, v);
      if Rated(data) {
        FilterKeeps(data, allowed, col, v);
      }
    }
    forall v ensures Occurrences(vals, v) > 0 <==> v in vals {
      OccurrencesPositive(vals, v);
    }
  }

  // --------------------------------------------------------------- analyses

  /** The integer part of `analyze_post_content`; the top topics and the mean
      length come from the external TF-IDF vectorizer and are left out. */
  datatype PostAnalysis = PostAnalysis(totalPosts: nat)

  /** The integer parts of `analyze_stories`; the two percentages and the
      mean duration are floats and are left out. */
  datatype StoriesAnalysis = StoriesAnalysis(
    totalStories: nat,
    mediaTypeCounts: map<Value, nat>,
    hasAvgDuration: bool)

  /** The result of `generate_content_recommendations`, with the type
      distribution as counts (the source divides each count by their sum). */
  datatype Recommendations = Recommendations(
    suggestedTopics: seq<string>,
    optimalPostingTimes: seq<int>,
    contentTypeCounts: map<Value, nat>,
    recommendedCategories: seq<string>)

  /** `vectorizes` says whether the external vectorizer accepts the documents
      (scikit-learn's raises on an empty list or on NaN documents). */
  function PostAnalysisOf(df: Frame, vectorizes: seq<Value> -> bool): Option<PostAnalysis>
  {
    if "content" in df.columns && vectorizes(Column(df, "content"))
    then Some(PostAnalysis(|df.rows|))
    else None
  }

  /** `flagSumsOk` says whether `df['isPremium'].sum() / len(df)` and the same
      for `isViewed` complete without raising; `durationMeanOk` says whether
      `df['duration'].mean()` does (it raises on a column of text such as "15s"). */
  function StoriesAnalysisOf(df: Frame, flagSumsOk: bool, durationMeanOk: bool): Option<StoriesAnalysis>
  {
    if "type" !in df.columns then None
    else if exists i :: 0 <= i < |df.rows| && !Hashable(Column(df, "type")[i]) then None
    else if "isPremium" !in df.columns || "isViewed" !in df.columns || !flagSumsOk then None
    else if "duration" in df.columns && !durationMeanOk then None
    else Some(StoriesAnalysis(|df.rows|, ValueCounts(Column(df, "type")), "duration" in df.columns))
  }

  /** The body of `generate_content_recommendations` once the frame `df` is
      built. `peakHours` is the external hour-of-day ranking (None when
      `pd.to_datetime` raises). */
  function RecommendationsOf(historyNonEmpty: bool, df: Frame, peakHours: Option<seq<int>>): Option<Recommendations>
  {
    var empty := Recommendations([], [], map[], []);
    if !historyNonEmpty then Some(empty)
    else if "type" in df.columns && exists i :: 0 <= i < |df.rows| && !Hashable(Column(df, "type")[i]) then None
    else
      var counts := if "type" in df.columns then ValueCounts(Column(df, "type")) else map[];
      if "timestamp" !in df.columns then Some(empty.(contentTypeCounts := counts))
      else if "engagement" !in df.columns || peakHours.None? then None
      else Some(empty.(contentTypeCounts := counts, optimalPostingTimes := peakHours.value))
  }

  /** Empty history yields the four empty fields whatever else is given. */
  lemma EmptyHistoryRecommendations(peakHours: Option<seq<int>>)
    ensures RecommendationsOf(false, ToFrame([]), peakHours) == Some(Recommendations([], [], map[], []))
  {
  }

  /** Finding: the recommendation statistics count records the filter has
      removed. With only 'G' allowed, an 'R'-rated video is filtered out and
      still counted in the type distribution; computed on the filtered
      history, the distribution is empty. */
  lemma UnfilteredHistoryLeaks()
    ensures var h := [map["content_rating" := PyStr("R"), "type" := PyStr("video")]];
      FilterFrame(ToFrame(h), [G]).rows == []
      && RecommendationsOf(true, ToFrame(h), None) == Some(Recommendations([], [], map[PyStr("video") := 1], []))
      && RecommendationsOf(true, FilterFrame(ToFrame(h), [G]), None) == Some(Recommendations([], [], map[], []))
  {
    var h := [map["content_rating" := PyStr("R"), "type" := PyStr("video")]];
    assert !RatingAllowed(h[0], [G]);
    assert "content_rating" in h[0];
    var vals := Column(ToFrame(h), "type");
    assert vals == [PyStr("video")];
    assert ValueCounts(vals) == map[PyStr("video") := 1];
  }

  /** The corrected recommendations, stated on the input history: they fail
      exactly when a kept record's type is a list or a dict, or when the
      history has timestamps but no engagement column or no peak hours; and
      the type distribution counts, for each type other than NaN, the kept
      records of that type, so a record whose rating is not allowed never
      shapes it. */
  lemma FilteredRecommendationsSafe(history: seq<Record>, allowed: seq<Rating>, peakHours: Option<seq<int>>)
    ensures var r := RecommendationsOf(history != [], FilterFrame(ToFrame(history), allowed), peakHours);
      r.None? <==> (history != [] &&
        (("type" in ColumnsOf(history) && !KeptCellsHashable(history, allowed, "type"))
         || ("timestamp" in ColumnsOf(history) && ("engagement" !in ColumnsOf(history) || peakHours.None?))))
    ensures var r := RecommendationsOf(history != [], FilterFrame(ToFrame(history), allowed), peakHours);
      r.Some? ==> forall v :: v in r.value.contentTypeCounts <==>
        v != PyNone && KeptWith(history, Rated(history), allowed, "type", v) > 0
    ensures var r := RecommendationsOf(history != [], FilterFrame(ToFrame(history), allowed), peakHours);
      r.Some? ==> forall v :: v in r.value.contentTypeCounts ==>
        r.value.contentTypeCounts[v] == KeptWith(history, Rated(history), allowed, "type", v)
  {
    FilterFrameSpec(history, allowed);
    FilterFrameHashable(history, allowed, "type");
    if "type" in ColumnsOf(history) {
      FilterFrameValueCounts(history, allowed, "type");
    } else {
      forall v | v != PyNone ensures KeptWith(history, Rated(history), allowed, "type", v) == 0 {
        AbsentColumnCounts(history, Rated(history), allowed, "type", v);
      }
    }
  }

  /** Stories whose four fields were defaulted by the calling route and that
      carry no rating are analyzed exactly when the mean duration can be
      taken (the route keeps a truthy duration as it is, text included), and
      then nothing is filtered out. */
  lemma DefaultedStoriesAnalyzed(stories: seq<Record>, allowed: seq<Rating>, durationMeanOk: bool)
    requires |stories| > 0
    requires forall i :: 0 <= i < |stories| ==>
      "type" in stories[i] && "isPremium" in stories[i] && "isViewed" in stories[i]
      && "duration" in stories[i] && Hashable(stories[i]["type"]) && "content_rating" !in stories[i]
    ensures StoriesAnalysisOf(FilterFrame(ToFrame(stories), allowed), true, durationMeanOk).Some? <==> durationMeanOk
    ensures durationMeanOk ==>
      StoriesAnalysisOf(FilterFrame(ToFrame(stories), allowed), true, durationMeanOk).value.totalStories == |stories|
  {
    assert "duration" in stories[0].Keys;
    assert "type" in stories[0].Keys && "isPremium" in stories[0].Keys && "isViewed" in stories[0].Keys;
    var df := FilterFrame(ToFrame(stories), allowed);
    assert df.rows == stories;
    forall i | 0 <= i < |df.rows| ensures Hashable(Column(df, "type")[i]) {
    }
  }

  /** `args.verified.lower() == 'true'`. */
  function ParseVerifiedFlag(arg: string): (verified: bool)
    ensures verified ==> |arg| == 4
    ensures verified <==> Lower(arg) == "true"
  {
    Lower(arg) == "true"
  }

  lemma VerifiedFlagIgnoresCase()
    ensures ParseVerifiedFlag("True") && ParseVerifiedFlag("TRUE") && !ParseVerifiedFlag("yes")
  {
    assert Lower("True") == "true";
    assert Lower("TRUE") == "true";
  }

  // ---------------------------------------------------------------- analyzer

  class HomePageAnalyzer {
    var ageVerified: bool
    var allowedRatings: seq<Rating>

    constructor ()
      ensures !ageVerified && allowedRatings == [G]
    {
      ageVerified := false;
      allowedRatings := [G];
    }

    method SetUserPreferences(isAgeVerified: bool, age: int)
      modifies this
      ensures ageVerified == isAgeVerified
      ensures allowedRatings == AllowedFor(isAgeVerified, age)
    {
      ageVerified := isAgeVerified;
      if isAgeVerified {
        if age >= 18 {
          allowedRatings := [G, PG, PG13, R];
        } else if age >= 13 {
          allowedRatings := [G, PG, PG13];
        } else {
          allowedRatings := [G, PG];
        }
      } else {
        allowedRatings := [G];
      }
    }

    function FilterContentByPreferences(contentData: seq<Record>): (df: Frame)
      reads this
      ensures df == FilterFrame(ToFrame(contentData), allowedRatings)
      ensures Subseq(df.rows, contentData)
    {
      FilterFrameSpec(contentData, allowedRatings);
      FilterFrame(ToFrame(contentData), allowedRatings)
    }

    /** The posts' analysis: it fails exactly when the frame has no
        `content` column or the vectorizer refuses the kept contents, and
        `total_posts` is the number of posts the rating filter keeps. */
    function AnalyzePostContent(postsData: seq<Record>, vectorizes: seq<Value> -> bool): (r: Option<PostAnalysis>)
      reads this
      ensures r == PostAnalysisOf(FilterContentByPreferences(postsData), vectorizes)
      ensures r.Some? <==> ("content" in ColumnsOf(postsData)
        && vectorizes(Column(FilterContentByPreferences(postsData), "content")))
      ensures r.Some? ==> r.value.totalPosts == KeptCount(postsData, Rated(postsData), allowedRatings)
    {
      FilterFrameRows(postsData, allowedRatings);
      var df := FilterContentByPreferences(postsData);
      if "content" in df.columns && vectorizes(Column(df, "content"))
      then Some(PostAnalysis(|df.rows|))
      else None
    }

    /** The stories' analysis: it fails exactly when a `type`, `isPremium`
        or `isViewed` column is missing, a kept story's type is a list or a
        dict, the flag sums fail, or there is a `duration` column whose mean
        fails; otherwise `total_stories` is the number
        of kept stories and the distribution maps each type other than NaN
        to the number of kept stories of that type. */
    function AnalyzeStories(storiesData: seq<Record>, flagSumsOk: bool, durationMeanOk: bool): (r: Option<StoriesAnalysis>)
      reads this
      ensures r == StoriesAnalysisOf(FilterContentByPreferences(storiesData), flagSumsOk, durationMeanOk)
      ensures r.Some? <==> ("type" in ColumnsOf(storiesData) && KeptCellsHashable(storiesData, allowedRatings, "type")
        && "isPremium" in ColumnsOf(storiesData) && "isViewed" in ColumnsOf(storiesData) && flagSumsOk
        && ("duration" in ColumnsOf(storiesData) ==> durationMeanOk))
      ensures r.Some? ==> r.value.totalStories == KeptCount(storiesData, Rated(storiesData), allowedRatings)
      ensures r.Some? ==> r.value.hasAvgDuration == ("duration" in ColumnsOf(storiesData))
      ensures r.Some? ==> forall v :: v in r.value.mediaTypeCounts <==>
        v != PyNone && KeptWith(storiesData, Rated(storiesData), allowedRatings, "type", v) > 0
      ensures r.Some? ==> forall v :: v in r.value.mediaTypeCounts ==>
        r.value.mediaTypeCounts[v] == KeptWith(storiesData, Rated(storiesData), allowedRatings, "type", v)
    {
      FilterFrameRows(storiesData, allowedRatings);
      FilterFrameHashable(storiesData, allowedRatings, "type");
      FilterFrameValueCounts(storiesData, allowedRatings, "type");
      StoriesAnalysisOf(FilterContentByPreferences(storiesData), flagSumsOk, durationMeanOk)
    }

    /** As written: the filtered history is computed and then unused. */
    function GenerateContentRecommendations(userData: Value, contentHistory: seq<Record>,
                                            peakHours: Option<seq<int>>): (r: Option<Recommendations>)
      reads this
      ensures r == RecommendationsOf(contentHistory != [], ToFrame(contentHistory), peakHours)
    {
      var _ := FilterContentByPreferences(contentHistory);
      RecommendationsOf(contentHistory != [], ToFrame(contentHistory), peakHours)
    }

    /** Corrected: the statistics are computed on the filtered history, so
        each counted type is counted once per kept record that has it. */
    function GenerateFilteredRecommendations(userData: Value, contentHistory: seq<Record>,
                                             peakHours: Option<seq<int>>): (r: Option<Recommendations>)
      reads this
      ensures r == RecommendationsOf(contentHistory != [], FilterContentByPreferences(contentHistory), peakHours)
      ensures r.Some? ==> forall v :: v in r.value.contentTypeCounts <==>
        v != PyNone && KeptWith(contentHistory, Rated(contentHistory), allowedRatings, "type", v) > 0
      ensures r.Some? ==> forall v :: v in r.value.contentTypeCounts ==>
        r.value.contentTypeCounts[v] == KeptWith(contentHistory, Rated(contentHistory), allowedRatings, "type", v)
    {
      FilteredRecommendationsSafe(contentHistory, allowedRatings, peakHours);
      RecommendationsOf(contentHistory != [], FilterContentByPreferences(contentHistory), peakHours)
    }
  }

  /** The script's `main` after loading its input: parse the flag, set the
      preferences on a fresh analyzer, and run the three analyses, the
      recommendations on the posts. */
  method AnalyzeInput(verifiedArg: string, age: int, posts: seq<Record>, stories: seq<Record>,
                      userData: Value, vectorizes: seq<Value> -> bool, flagSumsOk: bool,
                      durationMeanOk: bool, peakHours: Option<seq<int>>)
    returns (postAnalysis: Option<PostAnalysis>, storiesAnalysis: Option<StoriesAnalysis>,
             recommendations: Option<Recommendations>)
    ensures postAnalysis == PostAnalysisOf(
      FilterFrame(ToFrame(posts), AllowedFor(ParseVerifiedFlag(verifiedArg), age)), vectorizes)
    ensures storiesAnalysis == StoriesAnalysisOf(
      FilterFrame(ToFrame(stories), AllowedFor(ParseVerifiedFlag(verifiedArg), age)), flagSumsOk, durationMeanOk)
    ensures recommendations == RecommendationsOf(posts != [], ToFrame(posts), peakHours)
  {
    var analyzer := new HomePageAnalyzer();
    var isVerified := ParseVerifiedFlag(verifiedArg);
    analyzer.SetUserPreferences(isVerified, age);
    postAnalysis := analyzer.AnalyzePostContent(posts, vectorizes);
    storiesAnalysis := analyzer.AnalyzeStories(stories, flagSumsOk, durationMeanOk);
    recommendations := analyzer.GenerateContentRecommendations(userData, posts, peakHours);
  }
}
