/** The settings API route: authentication and action dispatch, the
    profile UPDATE statement it assembles, the guards of the settings and
    password updates, and the DigiLocker status. Token checking, password
    hashing and the database are abstract inputs. */
module SettingsRoute {
  import opened Wrappers
  import opened Strings
  import CassandraClient

  // ------------------------------------------------------------ dispatch

  /** The outcome of `verifyAuth`: no token cookie, a token that does not
      verify, or the user id in a valid token. */
  datatype Auth = NoToken | BadToken | Authenticated(userId: string)

  /** The message `verifyAuth` throws. */
  function AuthErrorMessage(auth: Auth): string
    requires !auth.Authenticated?
  {
    if auth.NoToken? then "Unauthorized" else "Invalid token"
  }

  /** The status of a caught error: 401 only for the exact message 'Unauthorized'. */
  function ErrorStatus(message: string): (status: int)
    ensures status == 401 <==> message == "Unauthorized"
    ensures status == 401 || status == 500
  {
    if message == "Unauthorized" then 401 else 500
  }

  datatype PostAction = UpdateProfile | UpdateSettings | UpdatePassword | DisconnectDigiLocker

  /** The `action` value that selects each handler. */
  function ActionName(a: PostAction): string
  {
    match a
    case UpdateProfile => "update-profile"
    case UpdateSettings => "update-settings"
    case UpdatePassword => "update-password"
    case DisconnectDigiLocker => "disconnect-digilocker"
  }

  datatype Dispatch = Failed(status: int) | Handle(userId: string, action: PostAction)

  /** POST up to the handler: authentication, then the body, then the action
      switch. `bodyParses` says whether `await req.json()` yields an object;
      when it throws, the catch answers 500. */
  function DispatchPost(auth: Auth, bodyParses: bool, action: Option<string>): (d: Dispatch)
    ensures d == Failed(401) <==> auth.NoToken?
    ensures auth.BadToken? ==> d == Failed(500)
    ensures auth.Authenticated? && !bodyParses ==> d == Failed(500)
    ensures d.Handle? <==> auth.Authenticated? && bodyParses && exists a :: action == Some(ActionName(a))
    ensures d.Handle? ==> auth == Authenticated(d.userId) && action == Some(ActionName(d.action))
    ensures d == Failed(400) <==> auth.Authenticated? && bodyParses && forall a :: action != Some(ActionName(a))
  {
    assert ActionName(UpdateProfile) == "update-profile" && ActionName(UpdateSettings) == "update-settings"
      && ActionName(UpdatePassword) == "update-password"
      && ActionName(DisconnectDigiLocker) == "disconnect-digilocker";
    if !auth.Authenticated? then Failed(ErrorStatus(AuthErrorMessage(auth)))
    else if !bodyParses then Failed(500)
    else if action == Some("update-profile") then Handle(auth.userId, UpdateProfile)
    else if action == Some("update-settings") then Handle(auth.userId, UpdateSettings)
    else if action == Some("update-password") then Handle(auth.userId, UpdatePassword)
    else if action == Some("disconnect-digilocker") then Handle(auth.userId, DisconnectDigiLocker)
    else Failed(400)
  }

  // ------------------------------------------------------ profile update

  /** The profile fields of the body; None stands for `undefined`. */
  datatype ProfileData = ProfileData(
    fullName: Option<string>,
    bio: Option<string>,
    avatarUrl: Option<string>,
    phoneNumber: Option<string>)

  predicate Truthy(v: Option<string>)
  {
    v.Some? && v.value != ""
  }

  /** Every clause is "<column> = ?". */
  predicate PlaceholderClauses(fields: seq<(string, string)>)
  {
    forall k :: 0 <= k < |fields| ==> CassandraClient.EndsInPlaceholder(fields[k].0)
  }

  lemma PlaceholderClausesAppend(a: seq<(string, string)>, b: seq<(string, string)>)
    requires PlaceholderClauses(a) && PlaceholderClauses(b)
    ensures PlaceholderClauses(a + b)
  {
    forall k | 0 <= k < |a + b| ensures CassandraClient.EndsInPlaceholder((a + b)[k].0) {
      if k < |a| {
        assert (a + b)[k] == a[k];
      } else {
        assert (a + b)[k] == b[k - |a|];
      }
    }
  }

  /** The (column clause, value) pairs the handler pushes, in push order. */
  function ProfileFields(data: ProfileData): (fields: seq<(string, string)>)
    ensures |fields| <= 4
    ensures PlaceholderClauses(fields)
  {
    var name := if Truthy(data.fullName) then [("full_name = ?", data.fullName.value)] else [];
    var bio := if data.bio.Some? then [("bio = ?", data.bio.value)] else [];
    var avatar := if Truthy(data.avatarUrl) then [("avatar_url = ?", data.avatarUrl.value)] else [];
    var phone := if Truthy(data.phoneNumber) then [("phone_number = ?", data.phoneNumber.value)] else [];
    assert PlaceholderClauses(name) && PlaceholderClauses(bio);
    assert PlaceholderClauses(avatar) && PlaceholderClauses(phone);
    PlaceholderClausesAppend(name, bio);
    PlaceholderClausesAppend(name + bio, avatar);
    PlaceholderClausesAppend(name + bio + avatar, phone);
    name + bio + avatar + phone
  }

  function FieldClauses(fields: seq<(string, string)>): (r: seq<string>)
    ensures |r| == |fields| && forall k :: 0 <= k < |fields| ==> r[k] == fields[k].0
  {
    if fields == [] then [] else [fields[0].0] + FieldClauses(fields[1..])
  }

  function FieldValues(fields: seq<(string, string)>): (r: seq<string>)
    ensures |r| == |fields| && forall k :: 0 <= k < |fields| ==> r[k] == fields[k].1
  {
    if fields == [] then [] else [fields[0].1] + FieldValues(fields[1..])
  }

  const UpdateUsersHead: string := "UPDATE social_network.users SET "
  const WhereIdTail: string := " WHERE id = ?"

  /** The statement for the given column clauses. */
  function UpdateText(clauses: seq<string>): string
  {
    UpdateUsersHead + Join(clauses, ", ") + WhereIdTail
  }

  /** The pairs a field contributes: one when it is pushed, none otherwise. */
  function PushedIf(push: bool, c: string, v: string): seq<(string, string)>
  {
    if push then [(c, v)] else []
  }

  /** Pushes a clause and its value when `push` holds, keeping the two lists
      in step with the pairs pushed so far. */
  method PushField(fields: seq<string>, values: seq<string>, ghost pushed: seq<(string, string)>,
                   push: bool, c: string, v: string)
    returns (fields': seq<string>, values': seq<string>)
    requires fields == FieldClauses(pushed) && values == FieldValues(pushed)
    ensures fields' == FieldClauses(pushed + PushedIf(push, c, v))
    ensures values' == FieldValues(pushed + PushedIf(push, c, v))
  {
    fields', values' := fields, values;
    if push {
      assert pushed + [(c, v)] == pushed + PushedIf(push, c, v);
      PushPairs(pushed, c, v);
      fields' := fields + [c];
      values' := values + [v];
    } else {
      assert pushed + PushedIf(push, c, v) == pushed;
    }
  }

  lemma PushPairs(pushed: seq<(string, string)>, c: string, v: string)
    ensures FieldClauses(pushed) + [c] == FieldClauses(pushed + [(c, v)])
    ensures FieldValues(pushed) + [v] == FieldValues(pushed + [(c, v)])
  {
  }

  datatype Statement = Statement(text: string, values: seq<string>)

  /** `handleUpdateProfile` up to the driver call: None is the 400 for an
      empty update. */
  method ProfileUpdate(userId: string, data: ProfileData) returns (stmt: Option<Statement>)
    ensures stmt.None? <==> ProfileFields(data) == []
    ensures stmt.Some? ==>
      stmt.value.text == UpdateText(FieldClauses(ProfileFields(data)))
      && stmt.value.values == FieldValues(ProfileFields(data)) + [userId]
  {
    var updateFields: seq<string> := [];
    var updateValues: seq<string> := [];
    ghost var name := PushedIf(Truthy(data.fullName), "full_name = ?", data.fullName.GetOr(""));
    ghost var bio := PushedIf(data.bio.Some?, "bio = ?", data.bio.GetOr(""));
    ghost var avatar := PushedIf(Truthy(data.avatarUrl), "avatar_url = ?", data.avatarUrl.GetOr(""));
    ghost var phone := PushedIf(Truthy(data.phoneNumber), "phone_number = ?", data.phoneNumber.GetOr(""));
    updateFields, updateValues := PushField(updateFields, updateValues, [],
      Truthy(data.fullName), "full_name = ?", data.fullName.GetOr(""));
    assert [] + name == name;
    updateFields, updateValues := PushField(updateFields, updateValues, name,
      data.bio.Some?, "bio = ?", data.bio.GetOr(""));
    updateFields, updateValues := PushField(updateFields, updateValues, name + bio,
      Truthy(data.avatarUrl), "avatar_url = ?", data.avatarUrl.GetOr(""));
    updateFields, updateValues := PushField(updateFields, updateValues, name + bio + avatar,
      Truthy(data.phoneNumber), "phone_number = ?", data.phoneNumber.GetOr(""));
    assert name + bio + avatar + phone == ProfileFields(data);
    if |updateFields| == 0 {
      return None;
    }
    updateValues := updateValues + [userId];
    stmt := Some(Statement(UpdateText(updateFields), updateValues));
  }

  /** A list of "<column> = ?" clauses joined between a head without
      placeholders and a tail with one has one '?' per clause plus one. */
  lemma JoinedPlaceholders(head: string, clauses: seq<string>, sep: string, tail: string)
    requires CassandraClient.NoPlaceholder(head) && CassandraClient.NoPlaceholder(sep)
    requires CassandraClient.EndsInPlaceholder(tail)
    requires forall i :: 0 <= i < |clauses| ==> CassandraClient.EndsInPlaceholder(clauses[i])
    ensures CountChar(head + Join(clauses, sep) + tail, '?') == |clauses| + 1
  {
    CountCharAbsent(head, '?');
    CountCharAbsent(sep, '?');
    CassandraClient.OnePlaceholder(tail);
    forall i | 0 <= i < |clauses| ensures CountChar(clauses[i], '?') == 1 {
      CassandraClient.OnePlaceholder(clauses[i]);
    }
    JoinCount(clauses, sep, '?');
    CountCharAppend(head, Join(clauses, sep), '?');
    CountCharAppend(head + Join(clauses, sep), tail, '?');
  }

  /** The statement has one '?' per value: one per field and the user id last. */
  lemma ProfilePlaceholdersMatchValues(userId: string, data: ProfileData)
    ensures var fields := ProfileFields(data);
      CountChar(UpdateText(FieldClauses(fields)), '?') == |FieldValues(fields) + [userId]|
  {
    assert CassandraClient.NoPlaceholder(UpdateUsersHead);
    assert CassandraClient.NoPlaceholder(", ");
    assert CassandraClient.EndsInPlaceholder(WhereIdTail);
    JoinedPlaceholders(UpdateUsersHead, FieldClauses(ProfileFields(data)), ", ", WhereIdTail);
  }

  /** `bio` counts whenever it is given, even empty; a profile update with
      nothing else but an empty bio still issues the statement. */
  lemma EmptyBioIsAnUpdate(userId: string)
    ensures ProfileFields(ProfileData(None, Some(""), None, None)) == [("bio = ?", "")]
  {
  }

  // ----------------------------------------------------- settings update

  /** `handleUpdateSettings`: None stands for the 400 response. */
  function SettingsUpdate(userId: string, settings: Option<map<string, string>>): (r: Option<(map<string, string>, string)>)
    ensures r.None? <==> settings.None? || |settings.value| == 0
    ensures r.Some? ==> r.value == (settings.value, userId)
  {
    if settings.None? || |settings.value| == 0 then None else Some((settings.value, userId))
  }

  // ----------------------------------------------------- password update

  /** The stored row: None when the user is unknown. `passwordMatches` is
      the abstract outcome of comparing the current password with the hash. */
  datatype PasswordOutcome = PasswordOutcome(status: int, writes: bool)

  function PasswordUpdate(currentPassword: string, newPassword: string,
                          userFound: bool, passwordMatches: bool): (r: PasswordOutcome)
    ensures currentPassword == "" || newPassword == "" ==> r == PasswordOutcome(400, false)
    ensures r.writes <==> r.status == 200
    ensures r.writes <==> currentPassword != "" && newPassword != "" && userFound && passwordMatches
    ensures currentPassword != "" && newPassword != "" && !userFound ==> r.status == 404
    ensures currentPassword != "" && newPassword != "" && userFound && !passwordMatches ==> r.status == 401
  {
    if currentPassword == "" || newPassword == "" then PasswordOutcome(400, false)
    else if !userFound then PasswordOutcome(404, false)
    else if !passwordMatches then PasswordOutcome(401, false)
    else PasswordOutcome(200, true)
  }

  // --------------------------------------------------------- GET actions

  datatype GetAction = Profile | Settings | DigiLockerStatus

  datatype GetDispatch = GetFailed(status: int) | GetHandle(userId: string, action: GetAction)

  /** The `action` query value that selects each handler. */
  function GetActionName(a: GetAction): string
  {
    match a
    case Profile => "profile"
    case Settings => "settings"
    case DigiLockerStatus => "digilocker-status"
  }

  /** GET up to the handler: authentication, then the action switch. */
  function DispatchGet(auth: Auth, action: Option<string>): (d: GetDispatch)
    ensures d == GetFailed(401) <==> auth.NoToken?
    ensures auth.BadToken? ==> d == GetFailed(500)
    ensures d.GetHandle? <==> auth.Authenticated? && exists a :: action == Some(GetActionName(a))
    ensures d.GetHandle? ==> auth == Authenticated(d.userId) && action == Some(GetActionName(d.action))
    ensures d == GetFailed(400) <==> auth.Authenticated? && forall a :: action != Some(GetActionName(a))
  {
    assert GetActionName(Profile) == "profile" && GetActionName(Settings) == "settings"
      && GetActionName(DigiLockerStatus) == "digilocker-status";
    if !auth.Authenticated? then GetFailed(ErrorStatus(AuthErrorMessage(auth)))
    else if action == Some("profile") then GetHandle(auth.userId, Profile)
    else if action == Some("settings") then GetHandle(auth.userId, Settings)
    else if action == Some("digilocker-status") then GetHandle(auth.userId, DigiLockerStatus)
    else GetFailed(400)
  }

  /** The DigiLocker row; `tokenExpiry` in milliseconds since the epoch. */
  datatype DigiLockerRow = DigiLockerRow(tokenExpiry: int, authorizedDocuments: seq<string>, lastSync: string)

  datatype DigiLockerReport = NotConnected | Connected(isExpired: bool, authorizedDocuments: seq<string>, lastSync: string)

  /** `handleGetDigiLockerStatus` with the clock reading `now`: the token
      counts as expired once its expiry is not after now. */
  function DigiLockerStatusOf(row: Option<DigiLockerRow>, now: int): (r: DigiLockerReport)
    ensures r.NotConnected? <==> row.None?
    ensures r.Connected? ==> (r.isExpired <==> row.value.tokenExpiry <= now)
    ensures r.Connected? ==> r.authorizedDocuments == row.value.authorizedDocuments && r.lastSync == row.value.lastSync
  {
    if row.None? then NotConnected
    else Connected(row.value.tokenExpiry <= now, row.value.authorizedDocuments, row.value.lastSync)
  }

  /** `result.rows[0].settings || {}`. */
  function StoredSettings(row: Option<Option<map<string, string>>>): (r: Option<map<string, string>>)
    ensures r.None? <==> row.None?
    ensures row.Some? && row.value.None? ==> r == Some(map[])
    ensures row.Some? && row.value.Some? ==> r == row.value
  {
    if row.None? then None else Some(row.value.GetOr(map[]))
  }
}
