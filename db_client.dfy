/** The Cassandra-backed post store: the query `getPosts` assembles from its
    options, and the ownership check of `deletePost`. The driver itself is
    not modelled: the posts table is a map from post id to owner. */
module CassandraClient {
  import opened Wrappers
  import opened Strings
  import opened Seqs

  /** A bound query parameter. */
  datatype Param = TextParam(text: string) | BoolParam(flag: bool)

  /** One WHERE condition with the parameter bound to its placeholder. */
  datatype Condition = Condition(clause: string, param: Param)

  const SelectPosts: string := "SELECT * FROM social_network.posts"
  const OrderSuffix: string := " ORDER BY created_at DESC ALLOW FILTERING"
  const CategoryClause: string := "category = ?"
  const AgeRestrictedClause: string := "age_restricted = ?"

  /** The conditions `getPosts` pushes, in push order: the category when it
      is truthy (a non-empty string), then the age restriction when it is a
      boolean. */
  function Conditions(category: Option<string>, ageRestricted: Option<bool>): (conds: seq<Condition>)
    ensures |conds| <= 2
    ensures forall i :: 0 <= i < |conds| ==> KnownClause(conds[i])
  {
    (if category.Some? && category.value != "" then [Condition(CategoryClause, TextParam(category.value))] else [])
    + (if ageRestricted.Some? then [Condition(AgeRestrictedClause, BoolParam(ageRestricted.value))] else [])
  }

  function Clauses(conds: seq<Condition>): (r: seq<string>)
    ensures |r| == |conds| && forall i :: 0 <= i < |conds| ==> r[i] == conds[i].clause
  {
    Map(conds, (c: Condition) => c.clause)
  }

  function Params(conds: seq<Condition>): (r: seq<Param>)
    ensures |r| == |conds| && forall i :: 0 <= i < |conds| ==> r[i] == conds[i].param
  {
    Map(conds, (c: Condition) => c.param)
  }

  /** A statement with an optional WHERE clause between a head and a tail. */
  function WithWhere(head: string, clauses: seq<string>, tail: string): string
  {
    head + (if |clauses| > 0 then " WHERE " + Join(clauses, " AND ") else "") + tail
  }

  /** The statement text for a list of conditions. */
  function QueryText(conds: seq<Condition>): string
  {
    WithWhere(SelectPosts, Clauses(conds), OrderSuffix)
  }

  /** `getPosts` up to the driver call: the statement and its parameters. */
  method GetPostsQuery(category: Option<string>, ageRestricted: Option<bool>)
    returns (query: string, params: seq<Param>)
    ensures query == QueryText(Conditions(category, ageRestricted))
    ensures params == Params(Conditions(category, ageRestricted))
  {
    query := SelectPosts;
    params := [];
    var conditions: seq<string> := [];
    if category.Some? && category.value != "" {
      conditions := conditions + [CategoryClause];
      params := params + [TextParam(category.value)];
    }
    if ageRestricted.Some? {
      conditions := conditions + [AgeRestrictedClause];
      params := params + [BoolParam(ageRestricted.value)];
    }
    assert conditions == Clauses(Conditions(category, ageRestricted));
    if |conditions| > 0 {
      query := query + " WHERE " + Join(conditions, " AND ");
    }
    query := query + OrderSuffix;
  }

  /** `s` holds no '?' placeholder. */
  predicate NoPlaceholder(s: string)
  {
    forall i :: 0 <= i < |s| ==> s[i] != '?'
  }

  /** `s` is a condition "<column> = ?": one placeholder, at its end. */
  predicate EndsInPlaceholder(s: string)
  {
    |s| >= 1 && s[|s| - 1] == '?' && NoPlaceholder(s[..|s| - 1])
  }

  lemma OnePlaceholder(clause: string)
    requires EndsInPlaceholder(clause)
    ensures CountChar(clause, '?') == 1
  {
    var n := |clause| - 1;
    CountCharAppend(clause[..n], clause[n..], '?');
    assert clause[..n] + clause[n..] == clause;
    CountCharAbsent(clause[..n], '?');
    assert clause[n..] == "?";
  }

  lemma {:induction false} WithWherePlaceholders(head: string, clauses: seq<string>, tail: string)
    requires NoPlaceholder(head) && NoPlaceholder(tail)
    requires forall i :: 0 <= i < |clauses| ==> EndsInPlaceholder(clauses[i])
    ensures CountChar(WithWhere(head, clauses, tail), '?') == |clauses|
  {
    CountCharAbsent(head, '?');
    CountCharAbsent(tail, '?');
    CountCharAbsent(" WHERE ", '?');
    CountCharAbsent(" AND ", '?');
    forall i | 0 <= i < |clauses| ensures CountChar(clauses[i], '?') == 1 {
      OnePlaceholder(clauses[i]);
    }
    if |clauses| > 0 {
      var joined := Join(clauses, " AND ");
      JoinCount(clauses, " AND ", '?');
      CountCharAppend(" WHERE ", joined, '?');
      CountCharAppend(head, " WHERE " + joined, '?');
      CountCharAppend(head + (" WHERE " + joined), tail, '?');
    } else {
      assert head + "" == head;
      CountCharAppend(head, tail, '?');
    }
  }

  /** A condition `getPosts` can push. */
  predicate KnownClause(c: Condition)
  {
    c.clause == CategoryClause || c.clause == AgeRestrictedClause
  }

  /** The statement has exactly one '?' per bound parameter, so the driver
      binds every parameter to its own condition. `Conditions` only ever
      yields known clauses. */
  lemma {:induction false} PlaceholdersMatchParams(conds: seq<Condition>)
    requires forall i :: 0 <= i < |conds| ==> KnownClause(conds[i])
    ensures CountChar(QueryText(conds), '?') == |Params(conds)|
  {
    assert EndsInPlaceholder(CategoryClause);
    assert EndsInPlaceholder(AgeRestrictedClause);
    assert NoPlaceholder(SelectPosts);
    assert NoPlaceholder(OrderSuffix);
    WithWherePlaceholders(SelectPosts, Clauses(conds), OrderSuffix);
  }

  /** Without options there is no WHERE clause at all. */
  lemma NoOptionsNoWhere()
    ensures QueryText(Conditions(None, None)) == SelectPosts + OrderSuffix
    ensures Params(Conditions(None, None)) == []
  {
  }

  /** With both options the category condition comes first and the age
      restriction second, each bound to its own parameter. */
  lemma BothOptionsInOrder(category: string, ageRestricted: bool)
    requires category != ""
    ensures QueryText(Conditions(Some(category), Some(ageRestricted)))
      == SelectPosts + " WHERE " + CategoryClause + " AND " + AgeRestrictedClause + OrderSuffix
    ensures Params(Conditions(Some(category), Some(ageRestricted)))
      == [TextParam(category), BoolParam(ageRestricted)]
  {
    var clauses := Clauses(Conditions(Some(category), Some(ageRestricted)));
    assert clauses == [CategoryClause, AgeRestrictedClause];
    assert Join(clauses, " AND ") == CategoryClause + " AND " + Join(clauses[1..], " AND ");
  }

  /** The age restriction is constrained exactly when it was given as a boolean. */
  lemma AgeConditionIffBoolean(category: Option<string>, ageRestricted: Option<bool>)
    ensures (exists i :: 0 <= i < |Conditions(category, ageRestricted)|
               && Conditions(category, ageRestricted)[i].clause == AgeRestrictedClause)
      <==> ageRestricted.Some?
    ensures ageRestricted.Some? ==>
      Params(Conditions(category, ageRestricted))[|Conditions(category, ageRestricted)| - 1]
        == BoolParam(ageRestricted.value)
  {
    var conds := Conditions(category, ageRestricted);
    if ageRestricted.Some? {
      assert conds[|conds| - 1].clause == AgeRestrictedClause;
    } else {
      assert CategoryClause != AgeRestrictedClause by {
        assert CategoryClause[0] != AgeRestrictedClause[0];
      }
    }
  }

  // ---------------------------------------------------------------- delete

  /** Why a delete failed: the messages 'Post not found' and 'Unauthorized',
      or a failure of the driver (such as an id the UUID parser rejects). */
  datatype DeleteError = PostNotFound | Unauthorized | DriverFailure

  /** The posts table, reduced to each post's owner. */
  class PostTable {
    var owners: map<string, string>
    var isInitialized: bool

    constructor (owners0: map<string, string>)
      ensures owners == owners0 && !isInitialized
    {
      owners := owners0;
      isInitialized := false;
    }

    /** `deletePost`: the owner check, then the delete. `idParses` says
        whether the driver accepts `id` as a UUID. */
    method DeletePost(id: string, userId: string, idParses: bool) returns (err: Option<DeleteError>)
      modifies this
      ensures isInitialized
      ensures !idParses ==> err == Some(DriverFailure) && owners == old(owners)
      ensures idParses && id !in old(owners) ==> err == Some(PostNotFound) && owners == old(owners)
      ensures idParses && id in old(owners) && old(owners)[id] != userId ==>
        err == Some(Unauthorized) && owners == old(owners)
      ensures idParses && id in old(owners) && old(owners)[id] == userId ==>
        err == None && owners == old(owners) - {id}
      ensures err == DeleteOutcome(old(owners), id, userId, idParses)
    {
      isInitialized := true;
      if !idParses {
        return Some(DriverFailure);
      }
      if id !in owners {
        return Some(PostNotFound);
      }
      if owners[id] != userId {
        return Some(Unauthorized);
      }
      owners := owners - {id};
      err := None;
    }
  }

  /** The outcome of a delete as a function of the table: the reference the
      method above is checked against, and the input of the route's status
      mapping. */
  function DeleteOutcome(owners: map<string, string>, id: string, userId: string, idParses: bool)
    : (err: Option<DeleteError>)
    ensures err.None? <==> idParses && id in owners && owners[id] == userId
  {
    if !idParses then Some(DriverFailure)
    else if id !in owners then Some(PostNotFound)
    else if owners[id] != userId then Some(Unauthorized)
    else None
  }

  /** A post is only ever deleted by its owner. */
  lemma OnlyOwnerDeletes(owners: map<string, string>, id: string, userId: string, idParses: bool)
    requires DeleteOutcome(owners, id, userId, idParses).None?
    ensures id in owners && owners[id] == userId
  {
  }
}
