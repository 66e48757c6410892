/** The social-interactions route over the in-memory store: POST validates
    and records an interaction, GET groups a content item's interactions
    by type and counts each group. */
module SocialRoute {
  import opened Wrappers
  import opened OrderedMaps
  import opened Seqs
  import MemStore

  const ValidTypes: seq<string> := ["like", "comment", "share", "save"]

  /** A POST body; `""` stands for a missing or falsy field. */
  datatype SocialBody = SocialBody(contentId: string, userId: string, interactionType: string)

  datatype PostError = MissingFields | UserNotFound | InvalidType

  /** The checks POST makes, in order: the three fields, the user, the type. */
  function Validate(body: SocialBody, userExists: bool): (err: Option<PostError>)
    ensures err.None? <==>
      body.contentId != "" && body.userId != "" && body.interactionType != ""
      && userExists && body.interactionType in ValidTypes
    ensures err == Some(MissingFields) <==>
      body.contentId == "" || body.userId == "" || body.interactionType == ""
    ensures err == Some(UserNotFound) ==> !userExists
    ensures err == Some(InvalidType) ==> userExists && body.interactionType !in ValidTypes
  {
    if body.contentId == "" || body.userId == "" || body.interactionType == "" then Some(MissingFields)
    else if !userExists then Some(UserNotFound)
    else if body.interactionType !in ValidTypes then Some(InvalidType)
    else None
  }

  function ErrorStatus(err: PostError): int
  {
    if err == UserNotFound then 404 else 400
  }

  /** POST. `body` is None when the body does not parse (500). */
  method Post(store: MemStore.Store, body: Option<SocialBody>, now: int) returns (status: int)
    requires store.Valid()
    modifies store
    ensures store.Valid()
    ensures body.None? ==> status == 500 && store.interactions == old(store.interactions)
    ensures body.Some? && Validate(body.value, old(store.GetUser(body.value.userId)).Some?).Some? ==>
      status == ErrorStatus(Validate(body.value, old(store.GetUser(body.value.userId)).Some?).value)
      && store.interactions == old(store.interactions)
    ensures body.Some? && Validate(body.value, old(store.GetUser(body.value.userId)).Some?).None? ==>
      status == 200 &&
      store.interactions == Put(old(store.interactions),
        MemStore.InteractionKey(body.value.contentId, body.value.userId, body.value.interactionType),
        MemStore.Interaction(body.value.contentId, body.value.userId, body.value.interactionType, now))
    ensures store.users == old(store.users) && store.posts == old(store.posts)
    ensures store.messages == old(store.messages) && store.reels == old(store.reels)
    ensures store.calls == old(store.calls) && store.connections == old(store.connections)
  {
    if body.None? {
      return 500;
    }
    var user := store.GetUser(body.value.userId);
    var err := Validate(body.value, user.Some?);
    if err.Some? {
      return ErrorStatus(err.value);
    }
    store.CreateInteraction(body.value.contentId, body.value.userId, body.value.interactionType, now);
    status := 200;
  }

  // ------------------------------------------------------------------ GET

  /** What GET keeps of an interaction. */
  datatype Entry = Entry(userId: string, createdAt: int)

  function EntryOf(x: MemStore.Interaction): Entry
  {
    Entry(x.userId, x.createdAt)
  }

  predicate HasType(xs: seq<MemStore.Interaction>, t: string)
  {
    exists j :: 0 <= j < |xs| && xs[j].interactionType == t
  }

  /** The group of type `t`: the entries of the interactions of that type,
      in their original order. */
  function OfType(xs: seq<MemStore.Interaction>, t: string): (r: seq<Entry>)
    ensures |r| <= |xs|
  {
    if xs == [] then []
    else
      var last := xs[|xs| - 1];
      OfType(xs[..|xs| - 1], t) + (if last.interactionType == t then [EntryOf(last)] else [])
  }

  /** A group holds an entry exactly for each interaction of its type. */
  lemma {:induction false} OfTypeMembership(xs: seq<MemStore.Interaction>, t: string, e: Entry)
    ensures e in OfType(xs, t) <==> exists j :: 0 <= j < |xs| && xs[j].interactionType == t && e == EntryOf(xs[j])
  {
    if xs != [] {
      var init := xs[..|xs| - 1];
      var last := xs[|xs| - 1];
      OfTypeMembership(init, t, e);
      if e in OfType(init, t) {
        var j :| 0 <= j < |init| && init[j].interactionType == t && e == EntryOf(init[j]);
        assert xs[j] == init[j];
      }
      if exists j :: 0 <= j < |xs| && xs[j].interactionType == t && e == EntryOf(xs[j]) {
        var j :| 0 <= j < |xs| && xs[j].interactionType == t && e == EntryOf(xs[j]);
        if j < |init| {
          assert init[j] == xs[j];
        }
      }
    }
  }

  lemma OfTypeSnoc(ys: seq<MemStore.Interaction>, x: MemStore.Interaction, t: string)
    ensures OfType(ys + [x], t) == OfType(ys, t) + (if x.interactionType == t then [EntryOf(x)] else [])
  {
    assert (ys + [x])[..|ys|] == ys;
  }

  lemma HasTypeSnoc(ys: seq<MemStore.Interaction>, x: MemStore.Interaction, t: string)
    ensures HasType(ys + [x], t) <==> HasType(ys, t) || x.interactionType == t
  {
    if HasType(ys, t) {
      var j :| 0 <= j < |ys| && ys[j].interactionType == t;
      assert (ys + [x])[j] == ys[j];
    }
    if x.interactionType == t {
      assert (ys + [x])[|ys|] == x;
    }
  }

  lemma {:induction false} OfTypeAbsent(xs: seq<MemStore.Interaction>, t: string)
    requires !HasType(xs, t)
    ensures OfType(xs, t) == []
  {
    if xs != [] {
      var init := xs[..|xs| - 1];
      assert xs == init + [xs[|xs| - 1]];
      HasTypeSnoc(init, xs[|xs| - 1], t);
      OfTypeAbsent(init, t);
    }
  }

  /** The total length of the groups, in key order. */
  function SumLengths(keys: seq<string>, entries: map<string, seq<Entry>>): int
    requires forall k :: 0 <= k < |keys| ==> keys[k] in entries
  {
    if keys == [] then 0
    else SumLengths(keys[..|keys| - 1], entries) + |entries[keys[|keys| - 1]]|
  }

  lemma {:induction false} SumLengthsUpdate(keys: seq<string>, entries: map<string, seq<Entry>>, t: string, v: seq<Entry>)
    requires forall k :: 0 <= k < |keys| ==> keys[k] in entries
    requires forall i, j :: 0 <= i < j < |keys| ==> keys[i] != keys[j]
    requires t in entries
    ensures SumLengths(keys, entries[t := v]) ==
      SumLengths(keys, entries) + (if t in keys then |v| - |entries[t]| else 0)
  {
    if keys != [] {
      var init := keys[..|keys| - 1];
      SumLengthsUpdate(init, entries, t, v);
      assert keys == init + [keys[|keys| - 1]];
      if keys[|keys| - 1] == t {
        assert t !in init;
      }
    }
  }

  lemma {:induction false} SumLengthsOtherEntries(keys: seq<string>, entries: map<string, seq<Entry>>, t: string, v: seq<Entry>)
    requires forall k :: 0 <= k < |keys| ==> keys[k] in entries
    requires t !in keys
    ensures SumLengths(keys, entries[t := v]) == SumLengths(keys, entries)
  {
    if keys != [] {
      SumLengthsOtherEntries(keys[..|keys| - 1], entries, t, v);
    }
  }

  /** The groups after one more interaction: its type's group, opened
      empty if absent, with the interaction's entry pushed on. */
  function Step(groups: OMap<string, seq<Entry>>, x: MemStore.Interaction): (r: OMap<string, seq<Entry>>)
    requires Valid(groups)
    ensures Valid(r)
    ensures var t := x.interactionType;
      r.entries == groups.entries[t := (if t in groups.entries then groups.entries[t] else []) + [EntryOf(x)]]
      && r.keys == if t in groups.entries then groups.keys else groups.keys + [t]
  {
    var t := x.interactionType;
    var withGroup := if t in groups.entries then groups else Put(groups, t, []);
    Put(withGroup, t, withGroup.entries[t] + [EntryOf(x)])
  }

  /** One group per type present. */
  ghost predicate KeysAre(groups: OMap<string, seq<Entry>>, ys: seq<MemStore.Interaction>)
  {
    forall t :: t in groups.entries <==> HasType(ys, t)
  }

  /** Each group holds its type's entries. */
  ghost predicate GroupsAre(groups: OMap<string, seq<Entry>>, ys: seq<MemStore.Interaction>)
  {
    forall t :: t in groups.entries ==> groups.entries[t] == OfType(ys, t)
  }

  /** `groups` is the grouping of `ys`: one group per type present, each
      holding that type's entries, with as many entries in all as `ys` has. */
  ghost predicate GroupingOf(groups: OMap<string, seq<Entry>>, ys: seq<MemStore.Interaction>)
  {
    Valid(groups) && KeysAre(groups, ys) && GroupsAre(groups, ys)
    && SumLengths(groups.keys, groups.entries) == |ys|
  }

  lemma StepKeys(groups: OMap<string, seq<Entry>>, ys: seq<MemStore.Interaction>, x: MemStore.Interaction)
    requires Valid(groups) && KeysAre(groups, ys)
    ensures KeysAre(Step(groups, x), ys + [x])
  {
    forall u ensures u in Step(groups, x).entries <==> HasType(ys + [x], u) {
      HasTypeSnoc(ys, x, u);
    }
  }

  lemma StepGroups(groups: OMap<string, seq<Entry>>, ys: seq<MemStore.Interaction>, x: MemStore.Interaction)
    requires Valid(groups) && KeysAre(groups, ys) && GroupsAre(groups, ys)
    ensures GroupsAre(Step(groups, x), ys + [x])
  {
    var r := Step(groups, x);
    forall u | u in r.entries ensures r.entries[u] == OfType(ys + [x], u) {
      OfTypeSnoc(ys, x, u);
      if u == x.interactionType && u !in groups.entries {
        OfTypeAbsent(ys, u);
      }
    }
  }

  lemma StepSum(groups: OMap<string, seq<Entry>>, x: MemStore.Interaction)
    requires Valid(groups)
    ensures SumLengths(Step(groups, x).keys, Step(groups, x).entries) == SumLengths(groups.keys, groups.entries) + 1
  {
    var t := x.interactionType;
    var r := Step(groups, x);
    if t in groups.entries {
      SumLengthsUpdate(groups.keys, groups.entries, t, r.entries[t]);
    } else {
      SumLengthsOtherEntries(groups.keys, groups.entries, t, r.entries[t]);
      assert r.keys[..|r.keys| - 1] == groups.keys;
    }
  }

  /** One step keeps the grouping in step with the interactions read. */
  lemma StepGrouping(groups: OMap<string, seq<Entry>>, ys: seq<MemStore.Interaction>, x: MemStore.Interaction)
    requires GroupingOf(groups, ys)
    ensures GroupingOf(Step(groups, x), ys + [x])
  {
    StepKeys(groups, ys, x);
    StepGroups(groups, ys, x);
    StepSum(groups, x);
  }

  /** The `reduce` that builds `groupedInteractions`. */
  method GroupByType(xs: seq<MemStore.Interaction>) returns (groups: OMap<string, seq<Entry>>)
    ensures GroupingOf(groups, xs)
  {
    groups := Empty();
    var i := 0;
    while i < |xs|
      invariant 0 <= i <= |xs|
      invariant GroupingOf(groups, xs[..i])
    {
      StepGrouping(groups, xs[..i], xs[i]);
      TakeOneMore(xs, i);
      groups := Step(groups, xs[i]);
      i := i + 1;
    }
    assert xs[..i] == xs;
  }

  /** The counts of `stats`, key by key, from the last key back. */
  function StatsOf(keys: seq<string>, entries: map<string, seq<Entry>>): (r: seq<(string, int)>)
    requires forall k :: 0 <= k < |keys| ==> keys[k] in entries
    ensures |r| == |keys|
    ensures forall k :: 0 <= k < |keys| ==> r[k] == (keys[k] + "Count", |entries[keys[k]]|)
  {
    if keys == [] then []
    else StatsOf(keys[..|keys| - 1], entries) + [(keys[|keys| - 1] + "Count", |entries[keys[|keys| - 1]]|)]
  }

  function SumCounts(stats: seq<(string, int)>): int
  {
    if stats == [] then 0 else SumCounts(stats[..|stats| - 1]) + stats[|stats| - 1].1
  }

  /** The counts add up to the total length of the groups. */
  lemma {:induction false} StatsSum(keys: seq<string>, entries: map<string, seq<Entry>>)
    requires forall k :: 0 <= k < |keys| ==> keys[k] in entries
    ensures SumCounts(StatsOf(keys, entries)) == SumLengths(keys, entries)
  {
    if keys != [] {
      var init := keys[..|keys| - 1];
      StatsSum(init, entries);
      var r := StatsOf(keys, entries);
      assert r[..|r| - 1] == StatsOf(init, entries);
    }
  }

  datatype GetResponse =
    | MissingContentId
    | Grouped(groups: OMap<string, seq<Entry>>, stats: seq<(string, int)>)

  /** GET: every type present among the item's interactions has a group
      holding exactly its interactions, and `stats` has one `<type>Count`
      per group; the counts sum to the number of interactions. */
  method Get(store: MemStore.Store, contentId: Option<string>) returns (resp: GetResponse)
    requires store.Valid()
    ensures contentId.None? || contentId.value == "" <==> resp == MissingContentId
    ensures resp.Grouped? ==>
      var xs := store.GetInteractions(contentId.value);
      GroupingOf(resp.groups, xs)
      && |resp.stats| == |resp.groups.keys|
      && (forall k :: 0 <= k < |resp.stats| ==>
            resp.stats[k] == (resp.groups.keys[k] + "Count", |OfType(xs, resp.groups.keys[k])|))
      && SumCounts(resp.stats) == |xs|
  {
    if contentId.None? || contentId.value == "" {
      return MissingContentId;
    }
    var xs := store.GetInteractions(contentId.value);
    var groups := GroupByType(xs);
    var stats := StatsOf(groups.keys, groups.entries);
    StatsSum(groups.keys, groups.entries);
    resp := Grouped(groups, stats);
  }

}
