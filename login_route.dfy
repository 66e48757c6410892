/** The login API route over the in-memory store: POST finds or creates a
    user, PUT changes a user's verification status, GET looks a user up.
    The clock's ISO text is the parameter `now`. */
module LoginRoute {
  import opened Wrappers
  import opened MemStore

  /** A response: its HTTP status and, on success, the user it carries. */
  datatype Response = BadRequest | NotFound | Ok(user: User) | ServerError

  function StatusOf(r: Response): int
  {
    match r
    case BadRequest => 400
    case NotFound => 404
    case Ok(_) => 200
    case ServerError => 500
  }

  /** A POST body: `name` is None when absent; `""` is a falsy string. */
  datatype LoginBody = LoginBody(phoneNumber: string, name: Option<string>)

  /** The user POST creates for a phone number it has not seen. */
  function NewUser(phoneNumber: string, name: Option<string>, now: string): (u: User)
    ensures u.phoneNumber == phoneNumber
    ensures u.name == (if name.Some? && name.value != "" then name.value else phoneNumber)
    ensures u.verificationStatus == "unverified" && !u.isPremium && !u.digiLockerVerified
    ensures u.joinedDate == now && u.lastActive == now && u.settings.None?
  {
    User(phoneNumber, if name.Some? && name.value != "" then name.value else phoneNumber,
         "unverified", false, false, now, now, None)
  }

  /** POST. `body` is None when the request body does not parse. */
  method Login(store: Store, body: Option<LoginBody>, now: string) returns (resp: Response)
    requires store.Valid()
    modifies store
    ensures store.Valid()
    ensures body.None? || body.value.phoneNumber == "" ==>
      (if body.None? then resp == ServerError else resp == BadRequest) && store.users == old(store.users)
    ensures body.Some? && body.value.phoneNumber != "" && old(store.GetUser(body.value.phoneNumber)).Some? ==>
      resp == Ok(old(store.GetUser(body.value.phoneNumber)).value) && store.users == old(store.users)
    ensures body.Some? && body.value.phoneNumber != "" && old(store.GetUser(body.value.phoneNumber)).None? ==>
      var u := NewUser(body.value.phoneNumber, body.value.name, now);
      resp == Ok(u) && store.users == OrderedMaps.Put(old(store.users), u.phoneNumber, u)
    ensures store.posts == old(store.posts) && store.messages == old(store.messages)
    ensures store.calls == old(store.calls) && store.reels == old(store.reels)
    ensures store.interactions == old(store.interactions) && store.connections == old(store.connections)
  {
    if body.None? {
      return ServerError;
    }
    var phoneNumber := body.value.phoneNumber;
    if phoneNumber == "" {
      return BadRequest;
    }
    var user := store.GetUser(phoneNumber);
    if user.None? {
      var created := store.CreateUser(NewUser(phoneNumber, body.value.name, now));
      return Ok(created);
    }
    resp := Ok(user.value);
  }

  /** A PUT body; `""` stands for a missing or falsy field. */
  datatype StatusBody = StatusBody(phoneNumber: string, verificationStatus: string)

  /** PUT: only `verificationStatus` and `lastActive` of a known user change. */
  method UpdateStatus(store: Store, body: Option<StatusBody>, now: string) returns (resp: Response)
    requires store.Valid()
    modifies store
    ensures store.Valid()
    ensures body.None? ==> resp == ServerError && store.users == old(store.users)
    ensures body.Some? && (body.value.phoneNumber == "" || body.value.verificationStatus == "") ==>
      resp == BadRequest && store.users == old(store.users)
    ensures (body.Some? && body.value.phoneNumber != "" && body.value.verificationStatus != ""
             && old(store.GetUser(body.value.phoneNumber)).None?) ==>
      resp == NotFound && store.users == old(store.users)
    ensures (body.Some? && body.value.phoneNumber != "" && body.value.verificationStatus != ""
             && old(store.GetUser(body.value.phoneNumber)).Some?) ==>
      var u := old(store.GetUser(body.value.phoneNumber)).value
                 .(verificationStatus := body.value.verificationStatus, lastActive := now);
      resp == Ok(u) && store.users == OrderedMaps.Put(old(store.users), body.value.phoneNumber, u)
    ensures store.posts == old(store.posts) && store.messages == old(store.messages)
    ensures store.calls == old(store.calls) && store.reels == old(store.reels)
    ensures store.interactions == old(store.interactions) && store.connections == old(store.connections)
  {
    if body.None? {
      return ServerError;
    }
    if body.value.phoneNumber == "" || body.value.verificationStatus == "" {
      return BadRequest;
    }
    var user := store.GetUser(body.value.phoneNumber);
    if user.None? {
      return NotFound;
    }
    var updated := store.CreateUser(user.value.(verificationStatus := body.value.verificationStatus, lastActive := now));
    resp := Ok(updated);
  }

  /** GET: 400 without a phone number, 404 for an unknown one, else the user. */
  function Lookup(store: Store, phoneNumber: Option<string>): (resp: Response)
    reads store
    ensures StatusOf(resp) == 400 <==> phoneNumber.None? || phoneNumber.value == ""
    ensures StatusOf(resp) == 404 <==>
      phoneNumber.Some? && phoneNumber.value != "" && phoneNumber.value !in store.users.entries
    ensures resp.Ok? ==> resp.user == store.users.entries[phoneNumber.value]
    ensures resp != ServerError
  {
    if phoneNumber.None? || phoneNumber.value == "" then BadRequest
    else match store.GetUser(phoneNumber.value)
      case None => NotFound
      case Some(u) => Ok(u)
  }
}
