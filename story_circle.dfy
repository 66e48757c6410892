/** The story circle's age label: how long ago a story was posted, in whole
    minutes, hours or days, or "Just now". Times are millisecond clock
    readings; the current time is a parameter. */
module StoryCircle {
  import opened Strings

  /** `Math.floor((now - createdAt) / 1000)`: whole seconds, rounded down,
      so a story dated in the future has a negative age. */
  function AgeSeconds(now: int, createdAt: int): (d: int)
    ensures d * 1000 <= now - createdAt < d * 1000 + 1000
  {
    (now - createdAt) / 1000
  }

  /** The seconds one unit letter of the label stands for. */
  function UnitSeconds(u: char): nat
  {
    if u == 'm' then 60 else if u == 'h' then 3600 else if u == 'd' then 86400 else 1
  }

  /** `getTimeElapsed`. */
  function GetTimeElapsed(now: int, createdAt: int): (r: string)
    ensures r == "Just now" <==> AgeSeconds(now, createdAt) < 60
    ensures AgeSeconds(now, createdAt) >= 60 ==>
      |r| >= 2 && AllDigits(r[..|r| - 1]) && r[|r| - 1] in {'m', 'h', 'd'}
  {
    var diff := AgeSeconds(now, createdAt);
    if diff < 60 then "Just now"
    else
      var text :=
        if diff < 3600 then NatToString(diff / 60) + "m"
        else if diff < 86400 then NatToString(diff / 3600) + "h"
        else NatToString(diff / 86400) + "d";
      assert text[|text| - 1] != "Just now"[7];
      text
  }

  /** The label names the largest unit that fits: the number read back,
      times the unit, is the age rounded down to that unit; minutes stay
      below 60 and hours below 24. */
  lemma ElapsedReadsBack(now: int, createdAt: int)
    requires AgeSeconds(now, createdAt) >= 60
    ensures var d := AgeSeconds(now, createdAt);
      var r := GetTimeElapsed(now, createdAt);
      var n := DigitsToNat(r[..|r| - 1]);
      var u := UnitSeconds(r[|r| - 1]);
      n >= 1 && n * u <= d < (n + 1) * u
      && (u == 60 ==> n < 60) && (u == 3600 ==> n < 24) && (u == 86400 ==> d >= 86400)
  {
    var d := AgeSeconds(now, createdAt);
    var r := GetTimeElapsed(now, createdAt);
    var unit: nat := if d < 3600 then 60 else if d < 86400 then 3600 else 86400;
    assert r == NatToString(d / unit) + [r[|r| - 1]];
    assert r[..|r| - 1] == NatToString(d / unit);
    DigitsToNatOfNatToString(d / unit);
    assert UnitSeconds(r[|r| - 1]) == unit;
  }

  /** Every age under a minute, a story from the future included, reads
      "Just now"; one second later than that reads "1m". */
  lemma MinuteBoundary(now: int, createdAt: int)
    ensures now - createdAt < 60000 ==> GetTimeElapsed(now, createdAt) == "Just now"
    ensures now - createdAt == 60000 ==> GetTimeElapsed(now, createdAt) == "1m"
  {
    if now - createdAt == 60000 {
      assert AgeSeconds(now, createdAt) == 60;
      assert NatToString(1) == "1";
    }
  }
}
