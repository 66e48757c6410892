/** The posts API route: POST validates the category and derives
    `ageRestricted`, GET decides whether age-restricted posts may be
    returned, DELETE maps the store's errors to HTTP statuses. */
module PostsRoute {
  import opened Wrappers
  import opened Strings
  import CassandraClient

  /** The values of `PostCategories` (lib/types.ts). */
  const PostCategoryValues: seq<string> := ["general", "news", "entertainment", "sports", "technology", "adult"]

  const AdultCategory: string := "adult"

  // ------------------------------------------------------------------- POST

  /** The fields of a POST body; `category` is None when absent or not a string. */
  datatype CreateRequest = CreateRequest(
    userId: string,
    content: string,
    category: Option<string>,
    mediaUrls: Option<seq<string>>)

  /** The record handed to `createPost`. */
  datatype NewPost = NewPost(
    userId: string,
    content: string,
    category: string,
    ageRestricted: bool,
    mediaUrls: seq<string>)

  datatype CreateResponse = InvalidCategory | Created(post: NewPost) | CreateFailed

  function Status(r: CreateResponse): (status: int)
    ensures status == 200 <==> r.Created?
    ensures status == 400 <==> r == InvalidCategory
    ensures status == 500 <==> r == CreateFailed
  {
    match r
    case InvalidCategory => 400
    case Created(_) => 200
    case CreateFailed => 500
  }

  /** POST. `body` is None when `req.json()` fails; `storeOk` says whether
      `createPost` completes. */
  function CreatePost(body: Option<CreateRequest>, storeOk: bool): (r: CreateResponse)
    ensures body.None? ==> r == CreateFailed
    ensures body.Some? ==> (r == InvalidCategory <==>
      body.value.category.None? || body.value.category.value !in PostCategoryValues)
    ensures r.Created? <==> (body.Some? && body.value.category.Some?
      && body.value.category.value in PostCategoryValues && storeOk)
  {
    if body.None? then CreateFailed
    else
      var req := body.value;
      if req.category.None? || req.category.value !in PostCategoryValues then InvalidCategory
      else if !storeOk then CreateFailed
      else Created(NewPost(req.userId, req.content, req.category.value,
                           req.category.value == AdultCategory, req.mediaUrls.GetOr([])))
  }

  /** A created post is age-restricted exactly when its category is 'adult',
      and it carries the requested fields. */
  lemma CreatedPostShape(req: CreateRequest, storeOk: bool)
    requires CreatePost(Some(req), storeOk).Created?
    ensures var p := CreatePost(Some(req), storeOk).post;
      p.ageRestricted <==> p.category == AdultCategory
    ensures var p := CreatePost(Some(req), storeOk).post;
      req.category == Some(p.category) && p.category in PostCategoryValues
      && p.userId == req.userId && p.content == req.content
      && p.mediaUrls == (if req.mediaUrls.Some? then req.mediaUrls.value else [])
  {
  }

  /** A category outside the list is rejected with 400, whether or not the
      store would have accepted the write. */
  lemma InvalidCategoryRejected(req: CreateRequest, storeOk: bool)
    ensures Status(CreatePost(Some(req), storeOk)) == 400 <==>
      req.category.None? || req.category.value !in PostCategoryValues
  {
  }

  // -------------------------------------------------------------------- GET

  /** The longest prefix of `s` made of digits. */
  function LeadingDigits(s: string): (r: string)
    ensures AllDigits(r) && |r| <= |s| && r == s[..|r|]
    ensures |r| < |s| ==> !IsDigit(s[|r|])
  {
    if s != [] && IsDigit(s[0]) then [s[0]] + LeadingDigits(s[1..]) else ""
  }

  /** `parseInt(s, 10)`; None stands for NaN. */
  function ParseInt(s: string): (r: Option<int>)
    ensures r.None? <==> LeadingDigits(
      var t := TrimStart(s); if t != [] && (t[0] == '+' || t[0] == '-') then t[1..] else t) == ""
  {
    var t := TrimStart(s);
    var negative := t != [] && t[0] == '-';
    var unsigned := if t != [] && (t[0] == '+' || t[0] == '-') then t[1..] else t;
    var digits := LeadingDigits(unsigned);
    if digits == "" then None
    else if negative then Some(-(DigitsToNat(digits) as int))
    else Some(DigitsToNat(digits))
  }

  lemma {:induction false} LeadingDigitsOfDigits(s: string)
    requires AllDigits(s)
    ensures LeadingDigits(s) == s
    decreases |s|
  {
    if s != [] { LeadingDigitsOfDigits(s[1..]); }
  }

  /** `parseInt` reads back the decimal text of every natural number. */
  lemma ParseIntOfNatToString(n: nat)
    ensures ParseInt(NatToString(n)) == Some(n)
  {
    var s := NatToString(n);
    assert IsDigit(s[0]);
    assert TrimStart(s) == s;
    assert !(s[0] == '+' || s[0] == '-');
    LeadingDigitsOfDigits(s);
    DigitsToNatOfNatToString(n);
  }

  /** `parseInt(searchParams.get('userAge') || '0', 10)`. */
  function UserAge(param: Option<string>): Option<int>
  {
    ParseInt(if param.None? || param.value == "" then "0" else param.value)
  }

  /** The options GET passes to `getPosts`: the category when truthy, and
      `ageRestricted: false` unless an adult asks for the adult category. */
  function GetOptions(category: Option<string>, userAgeParam: Option<string>)
    : (opts: (Option<string>, Option<bool>))
    ensures opts.1 == None || opts.1 == Some(false)
  {
    var userAge := UserAge(userAgeParam);
    var isAdultAllowed := userAge.Some? && userAge.value >= 18;
    var showAdultContent := category == Some(AdultCategory) && isAdultAllowed;
    (if category.Some? && category.value != "" then category else None,
     if showAdultContent then None else Some(false))
  }

  /** The restriction is lifted exactly for the adult category and a parsed
      age of at least 18. */
  lemma RestrictionLiftedIff(category: Option<string>, userAgeParam: Option<string>)
    ensures GetOptions(category, userAgeParam).1.None? <==>
      category == Some(AdultCategory) && UserAge(userAgeParam).Some? && UserAge(userAgeParam).value >= 18
  {
  }

  /** A missing or empty age parses as 0 and never lifts the restriction. */
  lemma MissingAgeKeepsRestriction(category: Option<string>, userAgeParam: Option<string>)
    requires userAgeParam.None? || userAgeParam == Some("")
    ensures UserAge(userAgeParam) == Some(0)
    ensures GetOptions(category, userAgeParam).1 == Some(false)
  {
    ParseIntOfNatToString(0);
  }

  /** Whenever the restriction is not lifted, the statement the client runs
      binds `age_restricted = false` as its last condition. */
  lemma RestrictedQueryBindsFalse(category: Option<string>, userAgeParam: Option<string>)
    requires !(category == Some(AdultCategory) && UserAge(userAgeParam).Some? && UserAge(userAgeParam).value >= 18)
    ensures var opts := GetOptions(category, userAgeParam);
      var conds := CassandraClient.Conditions(opts.0, opts.1);
      |conds| > 0 && conds[|conds| - 1] == CassandraClient.Condition(CassandraClient.AgeRestrictedClause,
                                                                    CassandraClient.BoolParam(false))
  {
  }

  // ----------------------------------------------------------------- DELETE

  /** DELETE's status for the outcome of `deletePost`; `bodyParses` is false
      when `req.json()` fails. */
  function DeleteStatus(bodyParses: bool, outcome: Option<CassandraClient.DeleteError>): (status: int)
    ensures status == 200 <==> bodyParses && outcome.None?
    ensures status == 404 <==> bodyParses && outcome == Some(CassandraClient.PostNotFound)
    ensures status == 403 <==> bodyParses && outcome == Some(CassandraClient.Unauthorized)
    ensures status == 500 <==> !bodyParses || outcome == Some(CassandraClient.DriverFailure)
  {
    if !bodyParses then 500
    else if outcome.None? then 200
    else match outcome.value
      case PostNotFound => 404
      case Unauthorized => 403
      case DriverFailure => 500
  }

  /** DELETE against a table of owners: 200 only for the owner, 404 for an
      unknown id, 403 for someone else's post. */
  lemma DeleteStatusByOwner(owners: map<string, string>, id: string, userId: string)
    ensures DeleteStatus(true, CassandraClient.DeleteOutcome(owners, id, userId, true)) ==
      if id !in owners then 404 else if owners[id] != userId then 403 else 200
  {
  }
}
