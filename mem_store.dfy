/** The in-memory development store: seven insertion-ordered maps and the
    create/get/update functions over them. Random ids and clock readings
    are parameters. */
module MemStore {
  import opened Wrappers
  import opened Seqs
  import opened OrderedMaps

  datatype User = User(
    phoneNumber: string,
    name: string,
    verificationStatus: string,
    isPremium: bool,
    digiLockerVerified: bool,
    joinedDate: string,
    lastActive: string,
    settings: Option<map<string, string>>)

  datatype StoredPost = StoredPost(
    id: string, userId: string, content: string, category: string,
    ageRestricted: bool, mediaUrls: seq<string>, createdAt: int, updatedAt: int)

  datatype Message = Message(
    messageId: string, chatId: string, senderId: string, receiverId: string,
    content: string, mediaUrls: seq<string>, createdAt: int, status: string)

  datatype Reel = Reel(
    reelId: string, userId: string, videoUrl: string, thumbnailUrl: string,
    caption: string, createdAt: int, likes: int, views: int)

  /** Times are milliseconds since the epoch. */
  datatype Call = Call(
    callId: string, callerId: string, receiverId: string, status: string,
    startTime: int, callType: string, endTime: Option<int>, duration: Option<int>)

  datatype Interaction = Interaction(contentId: string, userId: string, interactionType: string, createdAt: int)

  datatype Connection = Connection(userId: string, connectedUserId: string, connectionType: string, createdAt: int)

  /** The key under which an interaction is stored. */
  function InteractionKey(contentId: string, userId: string, interactionType: string): string
  {
    contentId + "-" + userId + "-" + interactionType
  }

  /** The key under which a connection is stored. */
  function ConnectionKey(userId: string, connectedUserId: string): string
  {
    userId + "-" + connectedUserId
  }

  /** The keys are joined with '-', so ids that contain '-' can share a key:
      two different (content, user) pairs overwrite each other. */
  lemma InteractionKeysCanCollide()
    ensures InteractionKey("a-b", "c", "like") == InteractionKey("a", "b-c", "like")
  {
  }

  /** The call after `updateCallStatus`: the new status and, when an end
      time is given, the end time and the whole seconds since the start. */
  function UpdatedCall(call: Call, status: string, endTime: Option<int>): (r: Call)
    ensures r.status == status && r.callId == call.callId
    ensures endTime.Some? ==>
      r.endTime == endTime && r.duration.Some? &&
      r.duration.value * 1000 <= endTime.value - call.startTime < r.duration.value * 1000 + 1000
    ensures endTime.None? ==> r == call.(status := status)
  {
    if endTime.Some? then
      call.(status := status, endTime := endTime, duration := Some((endTime.value - call.startTime) / 1000))
    else call.(status := status)
  }

  /** `{ ...(user.settings || {}), ...settings }`: the new keys win. */
  function MergeSettings(current: Option<map<string, string>>, settings: map<string, string>): (r: map<string, string>)
    ensures r.Keys == (if current.Some? then current.value.Keys else {}) + settings.Keys
    ensures forall k :: k in settings ==> r[k] == settings[k]
    ensures forall k :: current.Some? && k in current.value && k !in settings ==> r[k] == current.value[k]
  {
    (if current.Some? then current.value else map[]) + settings
  }

  class Store {
    var users: OMap<string, User>
    var posts: OMap<string, StoredPost>
    var messages: OMap<string, seq<Message>>
    var reels: OMap<string, Reel>
    var calls: OMap<string, Call>
    var interactions: OMap<string, Interaction>
    var connections: OMap<string, Connection>

    /** Every map is a well-formed ordered map, and each user is stored
        under its own phone number. */
    ghost predicate Valid()
      reads this
    {
      OrderedMaps.Valid(users) && OrderedMaps.Valid(posts) && OrderedMaps.Valid(messages)
      && OrderedMaps.Valid(reels) && OrderedMaps.Valid(calls)
      && OrderedMaps.Valid(interactions) && OrderedMaps.Valid(connections)
      && (forall p :: p in users.entries ==> users.entries[p].phoneNumber == p)
    }

    /** An empty store; the demo records the module seeds are not modelled. */
    constructor ()
      ensures Valid()
      ensures users.entries == map[] && posts.entries == map[] && messages.entries == map[]
      ensures reels.entries == map[] && calls.entries == map[]
      ensures interactions.entries == map[] && connections.entries == map[]
    {
      users := Empty();
      posts := Empty();
      messages := Empty();
      reels := Empty();
      calls := Empty();
      interactions := Empty();
      connections := Empty();
    }

    // ---- users

    method CreateUser(user: User) returns (r: User)
      requires Valid()
      modifies this
      ensures Valid() && r == user
      ensures users == Put(old(users), user.phoneNumber, user)
      ensures GetUser(user.phoneNumber) == Some(user)
      ensures forall p :: p != user.phoneNumber ==> GetUser(p) == old(GetUser(p))
      ensures posts == old(posts) && messages == old(messages) && reels == old(reels)
      ensures calls == old(calls) && interactions == old(interactions) && connections == old(connections)
    {
      users := Put(users, user.phoneNumber, user);
      r := user;
    }

    /** `getUser`, with None for `null`. */
    function GetUser(phoneNumber: string): (r: Option<User>)
      reads this
      ensures r.Some? <==> phoneNumber in users.entries
      ensures r.Some? ==> r.value == users.entries[phoneNumber]
    {
      Get(users, phoneNumber)
    }

    // ---- posts

    method CreatePost(userId: string, content: string, category: string, ageRestricted: bool,
                      mediaUrls: seq<string>, id: string, now: int) returns (newPost: StoredPost)
      requires Valid()
      modifies this
      ensures Valid()
      ensures newPost == StoredPost(id, userId, content, category, ageRestricted, mediaUrls, now, now)
      ensures posts == Put(old(posts), id, newPost)
      ensures users == old(users) && messages == old(messages) && reels == old(reels)
      ensures calls == old(calls) && interactions == old(interactions) && connections == old(connections)
    {
      newPost := StoredPost(id, userId, content, category, ageRestricted, mediaUrls, now, now);
      posts := Put(posts, id, newPost);
    }

    function GetPosts(): (r: seq<StoredPost>)
      requires Valid()
      reads this
      ensures |r| == |posts.keys|
      ensures forall i :: 0 <= i < |r| ==> r[i] == posts.entries[posts.keys[i]]
    {
      Values(posts)
    }

    // ---- messages

    /** `sendMessage`; `mediaUrls` None stands for the omitted argument. */
    method SendMessage(chatId: string, senderId: string, receiverId: string, content: string,
                       mediaUrls: Option<seq<string>>, messageId: string, now: int) returns (id: string)
      requires Valid()
      modifies this
      ensures Valid() && id == messageId
      ensures GetMessages(chatId) == old(GetMessages(chatId))
        + [Message(messageId, chatId, senderId, receiverId, content, mediaUrls.GetOr([]), now, "sent")]
      ensures forall c :: c != chatId ==> GetMessages(c) == old(GetMessages(c))
      ensures users == old(users) && posts == old(posts) && reels == old(reels)
      ensures calls == old(calls) && interactions == old(interactions) && connections == old(connections)
    {
      var message := Message(messageId, chatId, senderId, receiverId, content, mediaUrls.GetOr([]), now, "sent");
      if chatId !in messages.entries {
        messages := Put(messages, chatId, []);
      }
      messages := Put(messages, chatId, messages.entries[chatId] + [message]);
      id := messageId;
    }

    /** `getMessages`: the chat's list, or [] for an unknown chat. */
    function GetMessages(chatId: string): (r: seq<Message>)
      reads this
      ensures chatId !in messages.entries ==> r == []
    {
      if chatId in messages.entries then messages.entries[chatId] else []
    }

    // ---- reels

    method CreateReel(userId: string, videoUrl: string, thumbnailUrl: string, caption: string,
                      reelId: string, now: int) returns (id: string)
      requires Valid()
      modifies this
      ensures Valid() && id == reelId
      ensures reels == Put(old(reels), reelId, Reel(reelId, userId, videoUrl, thumbnailUrl, caption, now, 0, 0))
      ensures users == old(users) && posts == old(posts) && messages == old(messages)
      ensures calls == old(calls) && interactions == old(interactions) && connections == old(connections)
    {
      reels := Put(reels, reelId, Reel(reelId, userId, videoUrl, thumbnailUrl, caption, now, 0, 0));
      id := reelId;
    }

    /** `getReels`: a truthy user id filters by owner, otherwise every reel. */
    function GetReels(userId: Option<string>): (r: seq<Reel>)
      requires Valid()
      reads this
      ensures Subseq(r, Values(reels))
      ensures forall x :: x in r <==> x in Values(reels) && (userId.Some? && userId.value != "" ==> x.userId == userId.value)
    {
      var all := Values(reels);
      if userId.Some? && userId.value != "" then
        var p := (x: Reel) => x.userId == userId.value;
        FilterSubseq(all, p);
        forall x ensures x in Filter(all, p) <==> x in all && p(x) {
          FilterMembership(all, p, x);
        }
        Filter(all, p)
      else
        SubseqRefl(all);
        all
    }

    // ---- calls

    method CreateCall(callerId: string, receiverId: string, callType: string, callId: string, now: int)
      returns (id: string)
      requires Valid()
      modifies this
      ensures Valid() && id == callId
      ensures calls == Put(old(calls), callId, Call(callId, callerId, receiverId, "initiated", now, callType, None, None))
      ensures users == old(users) && posts == old(posts) && messages == old(messages)
      ensures reels == old(reels) && interactions == old(interactions) && connections == old(connections)
    {
      calls := Put(calls, callId, Call(callId, callerId, receiverId, "initiated", now, callType, None, None));
      id := callId;
    }

    /** `updateCallStatus`: an unknown id changes nothing; a known call is
        updated where it stands. */
    method UpdateCallStatus(callId: string, status: string, endTime: Option<int>)
      requires Valid()
      modifies this
      ensures Valid()
      ensures callId !in old(calls.entries) ==> calls == old(calls)
      ensures callId in old(calls.entries) ==>
        calls == Put(old(calls), callId, UpdatedCall(old(calls.entries[callId]), status, endTime))
        && calls.keys == old(calls.keys)
      ensures users == old(users) && posts == old(posts) && messages == old(messages)
      ensures reels == old(reels) && interactions == old(interactions) && connections == old(connections)
    {
      if callId in calls.entries {
        var call := calls.entries[callId];
        call := call.(status := status);
        if endTime.Some? {
          call := call.(endTime := endTime, duration := Some((endTime.value - call.startTime) / 1000));
        }
        calls := Put(calls, callId, call);
      }
    }

    /** `getCalls`: the calls the user placed or received, in creation order. */
    function GetCalls(userId: string): (r: seq<Call>)
      requires Valid()
      reads this
      ensures Subseq(r, Values(calls))
      ensures forall c :: c in r <==> c in Values(calls) && (c.callerId == userId || c.receiverId == userId)
    {
      var all := Values(calls);
      var p := (c: Call) => c.callerId == userId || c.receiverId == userId;
      FilterSubseq(all, p);
      forall c ensures c in Filter(all, p) <==> c in all && p(c) {
        FilterMembership(all, p, c);
      }
      Filter(all, p)
    }

    // ---- interactions

    method CreateInteraction(contentId: string, userId: string, interactionType: string, now: int)
      requires Valid()
      modifies this
      ensures Valid()
      ensures interactions == Put(old(interactions), InteractionKey(contentId, userId, interactionType),
                                  Interaction(contentId, userId, interactionType, now))
      ensures users == old(users) && posts == old(posts) && messages == old(messages)
      ensures reels == old(reels) && calls == old(calls) && connections == old(connections)
    {
      interactions := Put(interactions, InteractionKey(contentId, userId, interactionType),
                          Interaction(contentId, userId, interactionType, now));
    }

    function GetInteractions(contentId: string): (r: seq<Interaction>)
      requires Valid()
      reads this
      ensures Subseq(r, Values(interactions))
      ensures forall x :: x in r <==> x in Values(interactions) && x.contentId == contentId
    {
      var all := Values(interactions);
      var p := (x: Interaction) => x.contentId == contentId;
      FilterSubseq(all, p);
      forall x ensures x in Filter(all, p) <==> x in all && p(x) {
        FilterMembership(all, p, x);
      }
      Filter(all, p)
    }

    // ---- settings

    /** `updateUserSettings`: a no-op for an unknown user. */
    method UpdateUserSettings(userId: string, settings: map<string, string>)
      requires Valid()
      modifies this
      ensures Valid()
      ensures userId !in old(users.entries) ==> users == old(users)
      ensures userId in old(users.entries) ==>
        users == Put(old(users), userId,
                     old(users.entries[userId]).(settings := Some(MergeSettings(old(users.entries[userId]).settings, settings))))
      ensures posts == old(posts) && messages == old(messages) && reels == old(reels)
      ensures calls == old(calls) && interactions == old(interactions) && connections == old(connections)
    {
      if userId in users.entries {
        var user := users.entries[userId];
        user := user.(settings := Some(MergeSettings(user.settings, settings)));
        users := Put(users, userId, user);
      }
    }

    /** `getUserSettings`: the stored settings, or {} when there are none. */
    function GetUserSettings(userId: string): (r: map<string, string>)
      reads this
      ensures userId !in users.entries || users.entries[userId].settings.None? ==> r == map[]
      ensures userId in users.entries && users.entries[userId].settings.Some? ==>
        r == users.entries[userId].settings.value
    {
      if userId in users.entries && users.entries[userId].settings.Some?
      then users.entries[userId].settings.value else map[]
    }

    // ---- connections

    method CreateConnection(userId: string, connectedUserId: string, connectionType: string, now: int)
      requires Valid()
      modifies this
      ensures Valid()
      ensures connections == Put(old(connections), ConnectionKey(userId, connectedUserId),
                                 Connection(userId, connectedUserId, connectionType, now))
      ensures users == old(users) && posts == old(posts) && messages == old(messages)
      ensures reels == old(reels) && calls == old(calls) && interactions == old(interactions)
    {
      connections := Put(connections, ConnectionKey(userId, connectedUserId),
                         Connection(userId, connectedUserId, connectionType, now));
    }

    function GetConnections(userId: string): (r: seq<Connection>)
      requires Valid()
      reads this
      ensures Subseq(r, Values(connections))
      ensures forall x :: x in r <==> x in Values(connections) && x.userId == userId
    {
      var all := Values(connections);
      var p := (x: Connection) => x.userId == userId;
      FilterSubseq(all, p);
      forall x ensures x in Filter(all, p) <==> x in all && p(x) {
        FilterMembership(all, p, x);
      }
      Filter(all, p)
    }
  }

  /** A repeated interaction replaces the stored one in place: the number of
      stored interactions does not grow and the new record is the one kept. */
  lemma RepeatInteractionOverwrites(m: OMap<string, Interaction>, contentId: string, userId: string,
                                    interactionType: string, t1: int, t2: int)
    requires Valid(m)
    ensures var key := InteractionKey(contentId, userId, interactionType);
      var once := Put(m, key, Interaction(contentId, userId, interactionType, t1));
      var twice := Put(once, key, Interaction(contentId, userId, interactionType, t2));
      twice.keys == once.keys && twice.entries[key] == Interaction(contentId, userId, interactionType, t2)
      && |Values(twice)| == |Values(once)|
  {
  }

  /** The same holds for a repeated connection between the same two users. */
  lemma RepeatConnectionOverwrites(m: OMap<string, Connection>, userId: string, connectedUserId: string,
                                   type1: string, type2: string, t1: int, t2: int)
    requires Valid(m)
    ensures var key := ConnectionKey(userId, connectedUserId);
      var once := Put(m, key, Connection(userId, connectedUserId, type1, t1));
      var twice := Put(once, key, Connection(userId, connectedUserId, type2, t2));
      twice.keys == once.keys && twice.entries[key] == Connection(userId, connectedUserId, type2, t2)
  {
  }
}
