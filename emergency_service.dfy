/** The emergency-contact service: the SET clause and parameter list that
    `updateEmergencyContact` builds from the provided updates, and the
    phone-number check of `validateEmergencyContact`. The database is not
    modelled. */
module EmergencyService {
  import opened Strings

  /** A statement parameter: the contact id, or a provided value. */
  datatype Param = IdParam(id: int) | TextParam(text: string)

  /** The provided updates, as (key, value) pairs in the order
      `Object.entries` lists them. */
  type Updates = seq<(string, string)>

  /** The column a key updates: `phoneNumber` is renamed, other keys are
      used as they are. */
  function ColumnName(key: string): (c: string)
    ensures key == "phoneNumber" <==> c == "phone_number" && key != "phone_number"
    ensures key != "phoneNumber" ==> c == key
  {
    if key == "phoneNumber" then "phone_number" else key
  }

  /** The assignment for the update at position `index`; `$1` is the id,
      so the first update is `$2`. */
  function Assignment(key: string, index: nat): string
  {
    ColumnName(key) + " = $" + NatToString(index + 2)
  }

  function AssignmentsFrom(updates: Updates, from: nat): (r: seq<string>)
    ensures |r| == |updates|
    ensures forall k :: 0 <= k < |updates| ==> r[k] == Assignment(updates[k].0, from + k)
    decreases |updates|
  {
    if updates == [] then [] else [Assignment(updates[0].0, from)] + AssignmentsFrom(updates[1..], from + 1)
  }

  /** `setClause`. */
  function SetClause(updates: Updates): string
  {
    Join(AssignmentsFrom(updates, 0), ", ")
  }

  function ValuesOf(updates: Updates): (r: seq<Param>)
    ensures |r| == |updates| && forall k :: 0 <= k < |updates| ==> r[k] == TextParam(updates[k].1)
  {
    if updates == [] then [] else [TextParam(updates[0].1)] + ValuesOf(updates[1..])
  }

  /** `[contactId, ...values]`. */
  function Params(contactId: int, updates: Updates): (r: seq<Param>)
    ensures |r| == |updates| + 1 && r[0] == IdParam(contactId)
    ensures forall k :: 0 <= k < |updates| ==> r[k + 1] == TextParam(updates[k].1)
  {
    [IdParam(contactId)] + ValuesOf(updates)
  }

  /** Every assignment is bound to its own value: the k-th update names
      placeholder `$n` with n = k + 2, and the n-th parameter (counting
      from 1) is that update's value. */
  lemma AssignmentsBindTheirValues(contactId: int, updates: Updates, k: nat)
    requires k < |updates|
    ensures var n := DigitsToNat(NatToString(k + 2));
      AssignmentsFrom(updates, 0)[k] == ColumnName(updates[k].0) + " = $" + NatToString(n)
      && 2 <= n <= |Params(contactId, updates)|
      && Params(contactId, updates)[n - 1] == TextParam(updates[k].1)
  {
    DigitsToNatOfNatToString(k + 2);
    assert AssignmentsFrom(updates, 0)[k] == Assignment(updates[k].0, k);
    assert Params(contactId, updates)[k + 1] == TextParam(updates[k].1);
  }

  /** The statement text around the SET clause, with the line breaks and
      indentation of the template literal. */
  const StatementHead: string := "UPDATE emergency_contacts \n     SET "
  const StatementTail: string := " \n     WHERE id = $1 \n     RETURNING *"

  /** The statement text. */
  function UpdateStatement(updates: Updates): string
  {
    StatementHead + SetClause(updates) + StatementTail
  }

  /** One assignment per update and none more: the clause is the first
      assignment alone, or it and the rest after ", ". */
  lemma {:induction false} SetClauseShape(updates: Updates)
    ensures updates == [] ==> SetClause(updates) == ""
    ensures |updates| == 1 ==> SetClause(updates) == Assignment(updates[0].0, 0)
    ensures |updates| >= 2 ==>
      (SetClause(updates) == Assignment(updates[0].0, 0) + ", " + Join(AssignmentsFrom(updates, 0)[1..], ", "))
  {
  }

  /** No update given: the clause is empty, so "SET " is followed directly
      by " \n WHERE", which the database rejects; the function does not
      guard against it. */
  lemma EmptyUpdatesGiveEmptyClause(contactId: int)
    ensures SetClause([]) == ""
    ensures UpdateStatement([]) == StatementHead + StatementTail
    ensures Params(contactId, []) == [IdParam(contactId)]
  {
    assert StatementHead + "" == StatementHead;
  }

  /** `/^\+?[1-9]\d{1,14}$/`, read as: an optional '+', then a digit from 1
      to 9, then between 1 and 14 further digits. */
  predicate MatchesPhonePattern(s: string)
  {
    var d := if |s| > 0 && s[0] == '+' then s[1..] else s;
    2 <= |d| <= 15 && '1' <= d[0] <= '9' && AllDigits(d)
  }

  /** `validateEmergencyContact`. */
  function ValidateEmergencyContact(phoneNumber: string): (ok: bool)
    ensures ok ==> 2 <= |phoneNumber| <= 16 && IsDigit(phoneNumber[|phoneNumber| - 1])
  {
    MatchesPhonePattern(phoneNumber)
  }

  /** The check accepts exactly an optional '+' followed by 2 to 15 digits
      whose first is not '0'. */
  lemma ValidateEmergencyContactIff(phoneNumber: string, sign: string, digits: string)
    requires sign == "" || sign == "+"
    requires phoneNumber == sign + digits
    requires |digits| > 0 ==> digits[0] != '+'
    ensures ValidateEmergencyContact(phoneNumber) <==>
      2 <= |digits| <= 15 && '1' <= digits[0] <= '9' && AllDigits(digits)
  {
    if sign == "" {
      assert phoneNumber == digits;
    } else {
      assert phoneNumber[1..] == digits;
    }
  }

  /** A leading zero is refused, with or without '+'; a single digit is too short. */
  lemma PatternExamples()
    ensures !ValidateEmergencyContact("+0123")
    ensures !ValidateEmergencyContact("7")
    ensures ValidateEmergencyContact("+919876543210")
  {
    assert !MatchesPhonePattern("+0123") by {
      assert "+0123"[1..][0] == '0';
    }
    var s := "+919876543210";
    assert s[1..] == "919876543210";
    assert AllDigits(s[1..]);
  }
}
