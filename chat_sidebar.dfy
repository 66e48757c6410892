/** The chat sidebar: the chat list is filtered by the unread and verified
    switches and the search box, then ordered as the sort menu says; the
    group list is filtered by the search box alone. */
module ChatSidebar {
  import opened Strings
  import opened Seqs

  datatype Chat = Chat(id: string, name: string, lastMessage: string, unread: int, isVerified: bool)

  datatype Group = Group(id: string, name: string, members: nat, lastMessage: string, isVerified: bool)

  datatype SortBy = Recent | Unread | Alphabetical

  datatype FilterOptions = FilterOptions(onlyUnread: bool, onlyVerified: bool, sortBy: SortBy)

  /** The switches as the sidebar first renders them. */
  const DefaultOptions: FilterOptions := FilterOptions(false, false, Recent)

  /** The `filter` callback of `filteredChats`. The unread switch drops only
      chats whose count is exactly 0. */
  predicate Shown(chat: Chat, o: FilterOptions, query: string)
  {
    !(o.onlyUnread && chat.unread == 0)
    && !(o.onlyVerified && !chat.isVerified)
    && (query == "" || Contains(Lower(chat.name), Lower(query)))
  }

  function ShownBy(o: FilterOptions, query: string): Chat -> bool
  {
    c => Shown(c, o, query)
  }

  function UnreadOf(c: Chat): int
  {
    c.unread
  }

  // ---- `localeCompare` on names, as code-unit order ----

  /** `a` sorts no later than `b`: a prefix comes first, otherwise the first
      differing character decides. */
  predicate NameLe(a: string, b: string)
    decreases |a|
  {
    a == [] || (b != [] && (a[0] < b[0] || (a[0] == b[0] && NameLe(a[1..], b[1..]))))
  }

  /** Any two names are ordered one way or the other. */
  lemma {:induction false} NameLeTotal(a: string, b: string)
    ensures NameLe(a, b) || NameLe(b, a)
    decreases |a|
  {
    if a != [] && b != [] && a[0] == b[0] {
      NameLeTotal(a[1..], b[1..]);
    }
  }

  predicate SortedByName(s: seq<Chat>)
  {
    forall i, j :: 0 <= i < j < |s| ==> NameLe(s[i].name, s[j].name)
  }

  /** Puts `x` in front of the first chat whose name does not sort before it. */
  function InsertByName(x: Chat, s: seq<Chat>): seq<Chat>
  {
    if s == [] || NameLe(x.name, s[0].name) then [x] + s else [s[0]] + InsertByName(x, s[1..])
  }

  function SortByName(s: seq<Chat>): seq<Chat>
  {
    if s == [] then [] else InsertByName(s[0], SortByName(s[1..]))
  }

  lemma {:induction false} InsertByNameMultiset(x: Chat, s: seq<Chat>)
    ensures multiset(InsertByName(x, s)) == multiset(s) + multiset{x}
    decreases |s|
  {
    if s != [] && !NameLe(x.name, s[0].name) {
      InsertByNameMultiset(x, s[1..]);
      assert s == [s[0]] + s[1..];
    }
  }

  lemma {:induction false} InsertByNameSorted(x: Chat, s: seq<Chat>)
    requires SortedByName(s)
    ensures SortedByName(InsertByName(x, s))
    decreases |s|
  {
    if s == [] || NameLe(x.name, s[0].name) {
      var r := [x] + s;
      forall j | 0 < j < |r| ensures NameLe(r[0].name, r[j].name) {
        if j > 1 {
          assert NameLe(s[0].name, s[j - 1].name);
          NameLeTrans(x.name, s[0].name, s[j - 1].name);
        }
      }
    } else {
      InsertByNameSorted(x, s[1..]);
      InsertByNameMultiset(x, s[1..]);
      NameLeTotal(x.name, s[0].name);
      var t := InsertByName(x, s[1..]);
      var r := [s[0]] + t;
      assert s == [s[0]] + s[1..];
      forall j | 0 < j < |r| ensures NameLe(r[0].name, r[j].name) {
        assert r[j] == t[j - 1];
        assert t[j - 1] in multiset(t);
        assert r[j] == x || r[j] in multiset(s[1..]);
        if r[j] != x {
          var i :| 0 <= i < |s[1..]| && s[1..][i] == r[j];
          assert s[i + 1] == r[j];
        }
      }
    }
  }

  lemma {:induction false} NameLeTrans(a: string, b: string, c: string)
    requires NameLe(a, b) && NameLe(b, c)
    ensures NameLe(a, c)
    decreases |a|
  {
    if a != [] && a[0] == b[0] && b[0] == c[0] {
      NameLeTrans(a[1..], b[1..], c[1..]);
    }
  }

  lemma {:induction false} SortByNamePermutes(s: seq<Chat>)
    ensures multiset(SortByName(s)) == multiset(s)
    decreases |s|
  {
    if s != [] {
      SortByNamePermutes(s[1..]);
      InsertByNameMultiset(s[0], SortByName(s[1..]));
      assert s == [s[0]] + s[1..];
    }
  }

  lemma {:induction false} SortByNameSorted(s: seq<Chat>)
    ensures SortedByName(SortByName(s))
    decreases |s|
  {
    if s != [] {
      SortByNameSorted(s[1..]);
      InsertByNameSorted(s[0], SortByName(s[1..]));
    }
  }

  /** The `sort` callback: unread count descending, name ascending, or the
      filtered order unchanged (the sort is stable). */
  function Ordered(s: seq<Chat>, order: SortBy): seq<Chat>
  {
    match order
    case Recent => s
    case Unread => SortDesc(s, UnreadOf)
    case Alphabetical => SortByName(s)
  }

  /** `filteredChats`: the shown chats, each once, in the order the menu
      selects. */
  function FilteredChats(chats: seq<Chat>, o: FilterOptions, query: string): (r: seq<Chat>)
    ensures multiset(r) == multiset(Filter(chats, ShownBy(o, query)))
    ensures forall c :: c in r <==> c in chats && Shown(c, o, query)
    ensures o.sortBy == Recent ==> Subseq(r, chats)
    ensures o.sortBy == Unread ==>
      SortedDesc(r, UnreadOf)
      && forall n :: WithKey(r, UnreadOf, n) == WithKey(Filter(chats, ShownBy(o, query)), UnreadOf, n)
    ensures o.sortBy == Alphabetical ==> SortedByName(r)
  {
    var shown := Filter(chats, ShownBy(o, query));
    forall c ensures c in shown <==> c in chats && Shown(c, o, query) {
      FilterMembership(chats, ShownBy(o, query), c);
    }
    FilterSubseq(chats, ShownBy(o, query));
    SortDescPermutes(shown, UnreadOf);
    SortDescSorted(shown, UnreadOf);
    forall n ensures WithKey(SortDesc(shown, UnreadOf), UnreadOf, n) == WithKey(shown, UnreadOf, n) {
      SortDescStable(shown, UnreadOf, n);
    }
    SortByNamePermutes(shown);
    SortByNameSorted(shown);
    MultisetKeepsMembers(Ordered(shown, o.sortBy), shown);
    Ordered(shown, o.sortBy)
  }

  lemma MultisetKeepsMembers(a: seq<Chat>, b: seq<Chat>)
    requires multiset(a) == multiset(b)
    ensures forall c :: c in a <==> c in b
  {
    forall c ensures c in a <==> c in b {
      assert c in a <==> c in multiset(a);
      assert c in b <==> c in multiset(b);
    }
  }

  /** With both switches off and an empty search the list is every chat in
      its original order. */
  lemma {:induction false} DefaultShowsAll(chats: seq<Chat>)
    ensures FilteredChats(chats, DefaultOptions, "") == chats
  {
    forall i | 0 <= i < |chats| ensures ShownBy(DefaultOptions, "")(chats[i]) {
    }
    FilterAll(chats, ShownBy(DefaultOptions, ""));
  }

  /** The unread switch keeps a chat exactly when its count is not 0, so a
      negative count passes. */
  lemma OnlyUnreadDropsZero(c: Chat, query: string)
    ensures Shown(c, FilterOptions(true, false, Recent), query)
      <==> c.unread != 0 && Shown(c, DefaultOptions, query)
  {
  }

  /** The groups tab: the name or the last message contains the query,
      ignoring case. */
  predicate GroupMatches(g: Group, query: string)
  {
    Contains(Lower(g.name), Lower(query)) || Contains(Lower(g.lastMessage), Lower(query))
  }

  function GroupsShown(groups: seq<Group>, query: string): (r: seq<Group>)
    ensures Subseq(r, groups)
    ensures forall g :: g in r <==> g in groups && GroupMatches(g, query)
  {
    var p := (g: Group) => GroupMatches(g, query);
    FilterSubseq(groups, p);
    forall g ensures g in Filter(groups, p) <==> g in groups && p(g) {
      FilterMembership(groups, p, g);
    }
    Filter(groups, p)
  }

  /** An empty search shows every group, in order. */
  lemma EmptyQueryShowsAllGroups(groups: seq<Group>)
    ensures GroupsShown(groups, "") == groups
  {
    var p := (g: Group) => GroupMatches(g, "");
    forall i | 0 <= i < |groups| ensures p(groups[i]) {
      EmptyContained(Lower(groups[i].name));
    }
    FilterAll(groups, p);
  }
}
