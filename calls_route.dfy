/** The calls API route: two module-level lists, the active calls and the
    call history. POST appends a ringing call, PUT updates an active call
    and archives it once it has ended, DELETE removes a call from the
    history. Random ids and the clock are parameters; times are
    milliseconds since the epoch. */
module CallsRoute {
  import opened Wrappers
  import opened Seqs

  datatype Call = Call(
    id: string,
    callerId: string,
    receiverId: string,
    status: string,
    callType: string,
    startTime: int,
    endTime: Option<int>,
    duration: Option<int>)

  /** The statuses that end a call and move it to the history. */
  const TerminalStatuses: seq<string> := ["ended", "missed", "rejected"]

  datatype Response =
    | BadRequest
    | NotFound
    | ServerError
    | CallList(calls: seq<Call>)
    | CallBody(call: Call)
    | Success

  function StatusOf(r: Response): int
  {
    match r
    case BadRequest => 400
    case NotFound => 404
    case ServerError => 500
    case _ => 200
  }

  /** `calls.findIndex(call => call.id === callId)`: the first match, or -1. */
  function FindIndex(calls: seq<Call>, callId: string): (r: int)
    ensures -1 <= r < |calls|
    ensures r == -1 <==> forall i :: 0 <= i < |calls| ==> calls[i].id != callId
    ensures r >= 0 ==> calls[r].id == callId && forall i :: 0 <= i < r ==> calls[i].id != callId
  {
    if calls == [] then -1
    else if calls[0].id == callId then 0
    else
      var k := FindIndex(calls[1..], callId);
      if k == -1 then -1 else k + 1
  }

  predicate Involves(c: Call, userId: string)
  {
    c.callerId == userId || c.receiverId == userId
  }

  /** The calls a user placed or received, in list order. */
  function UserCalls(calls: seq<Call>, userId: string): (r: seq<Call>)
    ensures Subseq(r, calls)
    ensures forall c :: c in r <==> c in calls && Involves(c, userId)
  {
    var p := (c: Call) => Involves(c, userId);
    FilterSubseq(calls, p);
    forall c ensures c in Filter(calls, p) <==> c in calls && p(c) {
      FilterMembership(calls, p, c);
    }
    Filter(calls, p)
  }

  /** A POST body; `""` stands for a missing or falsy field. */
  datatype PostBody = PostBody(callerId: string, receiverId: string, callType: string)

  /** The call POST creates. */
  function NewCall(body: PostBody, id: string, now: int): (c: Call)
    ensures c.id == id && c.status == "ringing" && c.startTime == now
    ensures c.callerId == body.callerId && c.receiverId == body.receiverId
    ensures c.callType == (if body.callType == "" then "voice" else body.callType)
    ensures c.endTime.None? && c.duration.None?
  {
    Call(id, body.callerId, body.receiverId, "ringing",
         if body.callType == "" then "voice" else body.callType, now, None, None)
  }

  /** The call PUT stores: the new status and, for a terminal status, the
      end time and the duration in milliseconds. */
  function UpdatedCall(call: Call, status: string, now: int): (r: Call)
    ensures r.id == call.id && r.status == status
    ensures r.callerId == call.callerId && r.receiverId == call.receiverId && r.startTime == call.startTime
    ensures status in TerminalStatuses ==> r.endTime == Some(now) && r.duration == Some(now - call.startTime)
    ensures status !in TerminalStatuses ==> r.endTime == call.endTime && r.duration == call.duration
  {
    if status in TerminalStatuses then
      call.(status := status, endTime := Some(now), duration := Some(now - call.startTime))
    else call.(status := status)
  }

  /** Both lists together with a response. */
  datatype Outcome = Outcome(active: seq<Call>, history: seq<Call>, response: Response)

  /** A PUT body; `""` stands for a missing or falsy field. */
  datatype PutBody = PutBody(callId: string, status: string)

  /** What PUT does to the two lists. */
  function PutOutcome(active: seq<Call>, history: seq<Call>, body: Option<PutBody>, now: int): (r: Outcome)
    ensures |r.active| + |r.history| == |active| + |history|
    ensures !r.response.CallBody? ==> r.active == active && r.history == history
  {
    if body.None? then Outcome(active, history, ServerError)
    else if body.value.callId == "" || body.value.status == "" then Outcome(active, history, BadRequest)
    else
      var i := FindIndex(active, body.value.callId);
      if i == -1 then Outcome(active, history, NotFound)
      else
        var updated := UpdatedCall(active[i], body.value.status, now);
        if body.value.status in TerminalStatuses then
          Outcome(active[..i] + active[i + 1..], history + [updated], CallBody(updated))
        else
          Outcome(active[i := updated], history, CallBody(updated))
  }

  /** The history together with DELETE's response. */
  datatype Removal = Removal(history: seq<Call>, response: Response)

  /** What DELETE does to the history: 400 without a call id, 404 when no
      archived call has it, otherwise the first call with that id is cut
      out and the rest keep their order. */
  function DeleteOutcome(history: seq<Call>, callId: Option<string>): (r: Removal)
    ensures r.response == BadRequest <==> callId.None? || callId.value == ""
    ensures r.response == NotFound <==>
      callId.Some? && callId.value != "" && forall i :: 0 <= i < |history| ==> history[i].id != callId.value
    ensures r.response in {BadRequest, NotFound, Success}
    ensures r.response != Success ==> r.history == history
    ensures r.response == Success ==>
      exists i :: 0 <= i < |history| && history[i].id == callId.value
        && (forall j :: 0 <= j < i ==> history[j].id != callId.value)
        && r.history == history[..i] + history[i + 1..]
  {
    if callId.None? || callId.value == "" then Removal(history, BadRequest)
    else
      var i := FindIndex(history, callId.value);
      if i == -1 then Removal(history, NotFound)
      else Removal(history[..i] + history[i + 1..], Success)
  }

  class CallRegistry {
    var activeCalls: seq<Call>
    var callHistory: seq<Call>

    constructor ()
      ensures activeCalls == [] && callHistory == []
    {
      activeCalls := [];
      callHistory := [];
    }

    /** GET: the user's calls from the active list when `type` is 'active',
        from the history otherwise. */
    function Get(userId: Option<string>, kind: Option<string>): (r: Response)
      reads this
      ensures r == BadRequest <==> userId.None? || userId.value == ""
      ensures r != BadRequest ==> r.CallList?
      ensures r.CallList? && kind == Some("active") ==>
        forall c :: c in r.calls <==> c in activeCalls && Involves(c, userId.value)
      ensures r.CallList? && kind != Some("active") ==>
        forall c :: c in r.calls <==> c in callHistory && Involves(c, userId.value)
    {
      if userId.None? || userId.value == "" then BadRequest
      else if kind == Some("active") then CallList(UserCalls(activeCalls, userId.value))
      else CallList(UserCalls(callHistory, userId.value))
    }

    /** POST: a new ringing call at the end of the active list. */
    method Post(body: Option<PostBody>, id: string, now: int) returns (r: Response)
      modifies this
      ensures body.None? ==> r == ServerError && activeCalls == old(activeCalls)
      ensures body.Some? && (body.value.callerId == "" || body.value.receiverId == "") ==>
        r == BadRequest && activeCalls == old(activeCalls)
      ensures body.Some? && body.value.callerId != "" && body.value.receiverId != "" ==>
        r == CallBody(NewCall(body.value, id, now)) && activeCalls == old(activeCalls) + [r.call]
      ensures callHistory == old(callHistory)
    {
      if body.None? {
        return ServerError;
      }
      if body.value.callerId == "" || body.value.receiverId == "" {
        return BadRequest;
      }
      var newCall := NewCall(body.value, id, now);
      activeCalls := activeCalls + [newCall];
      r := CallBody(newCall);
    }

    /** PUT. */
    method Put(body: Option<PutBody>, now: int) returns (r: Response)
      modifies this
      ensures Outcome(activeCalls, callHistory, r) == PutOutcome(old(activeCalls), old(callHistory), body, now)
    {
      if body.None? {
        return ServerError;
      }
      var callId, status := body.value.callId, body.value.status;
      if callId == "" || status == "" {
        return BadRequest;
      }
      var callIndex := FindIndex(activeCalls, callId);
      if callIndex == -1 {
        return NotFound;
      }
      var updatedCall := UpdatedCall(activeCalls[callIndex], status, now);
      if status in TerminalStatuses {
        activeCalls := activeCalls[..callIndex] + activeCalls[callIndex + 1..];
        callHistory := callHistory + [updatedCall];
      } else {
        activeCalls := activeCalls[callIndex := updatedCall];
      }
      r := CallBody(updatedCall);
    }

    /** DELETE: only the history changes. */
    method Delete(callId: Option<string>) returns (r: Response)
      modifies this
      ensures activeCalls == old(activeCalls)
      ensures callHistory == DeleteOutcome(old(callHistory), callId).history
      ensures r == DeleteOutcome(old(callHistory), callId).response
    {
      if callId.None? || callId.value == "" {
        return BadRequest;
      }
      var callIndex := FindIndex(callHistory, callId.value);
      if callIndex == -1 {
        return NotFound;
      }
      callHistory := callHistory[..callIndex] + callHistory[callIndex + 1..];
      r := Success;
    }
  }

  /** A terminal status moves the first matching active call, updated, to
      the end of the history and closes the gap it leaves. */
  lemma TerminalPutArchives(active: seq<Call>, history: seq<Call>, callId: string, status: string, now: int)
    requires callId != "" && status in TerminalStatuses
    requires exists i :: 0 <= i < |active| && active[i].id == callId
    ensures var i := FindIndex(active, callId);
      var r := PutOutcome(active, history, Some(PutBody(callId, status)), now);
      0 <= i && r.response == CallBody(UpdatedCall(active[i], status, now))
      && r.history == history + [UpdatedCall(active[i], status, now)]
      && r.active == active[..i] + active[i + 1..]
      && r.response.call.endTime == Some(now)
  {
  }

  /** Any other status replaces the call where it stands. */
  lemma OtherPutInPlace(active: seq<Call>, history: seq<Call>, callId: string, status: string, now: int)
    requires callId != "" && status != "" && status !in TerminalStatuses
    requires exists i :: 0 <= i < |active| && active[i].id == callId
    ensures var i := FindIndex(active, callId);
      var r := PutOutcome(active, history, Some(PutBody(callId, status)), now);
      0 <= i && r.history == history && |r.active| == |active|
      && r.active[i] == UpdatedCall(active[i], status, now)
      && forall j :: 0 <= j < |active| && j != i ==> r.active[j] == active[j]
  {
  }

  /** A call that is only in the history cannot be updated: PUT answers 404
      and changes nothing. */
  lemma ArchivedCallsAreFrozen(active: seq<Call>, history: seq<Call>, callId: string, status: string, now: int)
    requires callId != "" && status != ""
    requires forall i :: 0 <= i < |active| ==> active[i].id != callId
    ensures PutOutcome(active, history, Some(PutBody(callId, status)), now) == Outcome(active, history, NotFound)
  {
  }
}
