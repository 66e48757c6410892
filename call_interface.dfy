/** The call screen: the elapsed time shown as MM:SS, the microphone and
    camera switches, and the three-step volume button. The one-second
    timer is modelled as a `Tick` the caller makes. */
module CallInterface {
  import opened Strings

  datatype CallType = Audio | Video

  /** A digit string keeps its value with a '0' in front. */
  lemma {:induction false} LeadingZero(x: string)
    requires AllDigits(x)
    ensures AllDigits("0" + x) && DigitsToNat("0" + x) == DigitsToNat(x)
    decreases |x|
  {
    var y := "0" + x;
    if x == [] {
      assert y[..|y| - 1] == [];
    } else {
      assert y[..|y| - 1] == "0" + x[..|x| - 1];
      LeadingZero(x[..|x| - 1]);
    }
  }

  /** Padding a number's text to two places keeps its value. */
  lemma PaddedValue(n: nat)
    ensures AllDigits(PadStart2(NatToString(n)))
    ensures DigitsToNat(PadStart2(NatToString(n))) == n
  {
    DigitsToNatOfNatToString(n);
    if |NatToString(n)| == 1 {
      LeadingZero(NatToString(n));
    }
  }

  /** A number below 100 has at most two digits. */
  lemma AtMostTwoDigits(n: nat)
    requires n < 100
    ensures |NatToString(n)| <= 2
  {
    if n >= 10 {
      assert |NatToString(n / 10)| == 1;
    }
  }

  /** A number from 100 on has at least three digits. */
  lemma AtLeastThreeDigits(n: nat)
    requires n >= 100
    ensures |NatToString(n)| >= 3
  {
    assert |NatToString(n / 10)| >= 2;
  }

  /** `formatDuration`: zero-padded minutes, ':', zero-padded seconds. */
  function FormatDuration(seconds: nat): (r: string)
    ensures |r| >= 5 && r[|r| - 3] == ':'
    ensures AllDigits(r[..|r| - 3]) && AllDigits(r[|r| - 2..])
  {
    var mins := PadStart2(NatToString(seconds / 60));
    var secs := PadStart2(NatToString(seconds % 60));
    AtMostTwoDigits(seconds % 60);
    var r := mins + ":" + secs;
    assert r[..|r| - 3] == mins && r[|r| - 2..] == secs;
    r
  }

  /** The minutes and seconds read back give the duration, and the seconds
      field stays below 60. */
  lemma DurationRoundTrip(seconds: nat)
    ensures var r := FormatDuration(seconds);
      DigitsToNat(r[|r| - 2..]) < 60
      && DigitsToNat(r[..|r| - 3]) * 60 + DigitsToNat(r[|r| - 2..]) == seconds
  {
    var mins := PadStart2(NatToString(seconds / 60));
    var secs := PadStart2(NatToString(seconds % 60));
    AtMostTwoDigits(seconds % 60);
    var r := mins + ":" + secs;
    assert r[..|r| - 3] == mins && r[|r| - 2..] == secs;
    PaddedValue(seconds / 60);
    PaddedValue(seconds % 60);
  }

  /** Minutes are not capped at two digits: from 6000 seconds on the text
      grows past MM:SS. */
  lemma MinutesUncapped(seconds: nat)
    requires seconds >= 6000
    ensures |FormatDuration(seconds)| >= 6
  {
    AtLeastThreeDigits(seconds / 60);
    AtMostTwoDigits(seconds % 60);
  }

  /** The volume button: `(prev + 1) % 3`. */
  function NextVolume(v: nat): (r: nat)
    ensures r < 3
  {
    (v + 1) % 3
  }

  /** From the starting level 2 the button goes to 0 (muted), then 1, then
      back to 2: three presses return to any level. */
  lemma VolumeCycle(v: nat)
    requires v < 3
    ensures NextVolume(2) == 0 && NextVolume(0) == 1 && NextVolume(1) == 2
    ensures NextVolume(NextVolume(NextVolume(v))) == v
    ensures NextVolume(v) != v
  {
  }

  class Call {
    const kind: CallType
    var isMuted: bool
    var isVideoOff: bool
    /** 0: muted, 1: low, 2: high. */
    var volume: nat
    var callDuration: nat

    predicate Valid()
      reads this
    {
      volume < 3
    }

    /** The screen as it opens: sound on at full volume, camera on, 00:00. */
    constructor(kind: CallType)
      ensures Valid()
      ensures this.kind == kind
      ensures !isMuted && !isVideoOff && volume == 2 && callDuration == 0
    {
      this.kind := kind;
      isMuted := false;
      isVideoOff := false;
      volume := 2;
      callDuration := 0;
    }

    /** The text under the contact's name. */
    function Clock(): string
      reads this
    {
      FormatDuration(callDuration)
    }

    /** The video area is shown on a video call with the camera on. */
    predicate ShowsVideo()
      reads this
    {
      kind == Video && !isVideoOff
    }

    /** The timer: one second more. */
    method Tick()
      modifies this
      ensures callDuration == old(callDuration) + 1
      ensures isMuted == old(isMuted) && isVideoOff == old(isVideoOff) && volume == old(volume)
    {
      callDuration := callDuration + 1;
    }

    /** The microphone button. */
    method ToggleMute()
      modifies this
      ensures isMuted == !old(isMuted)
      ensures isVideoOff == old(isVideoOff) && volume == old(volume) && callDuration == old(callDuration)
    {
      isMuted := !isMuted;
    }

    /** The camera button, which only a video call shows. */
    method ToggleVideo()
      requires kind == Video
      modifies this
      ensures isVideoOff == !old(isVideoOff)
      ensures ShowsVideo() == !old(ShowsVideo())
      ensures isMuted == old(isMuted) && volume == old(volume) && callDuration == old(callDuration)
    {
      isVideoOff := !isVideoOff;
    }

    /** The volume button. */
    method CycleVolume()
      requires Valid()
      modifies this
      ensures Valid()
      ensures volume == NextVolume(old(volume)) && volume != old(volume)
      ensures isMuted == old(isMuted) && isVideoOff == old(isVideoOff) && callDuration == old(callDuration)
    {
      volume := (volume + 1) % 3;
    }
  }

  /** Pressing a switch twice restores the screen. */
  method TogglesAreInvolutions(c: Call)
    requires c.kind == Video
    modifies c
    ensures c.isMuted == old(c.isMuted) && c.isVideoOff == old(c.isVideoOff)
    ensures c.volume == old(c.volume) && c.callDuration == old(c.callDuration)
  {
    c.ToggleMute();
    c.ToggleMute();
    c.ToggleVideo();
    c.ToggleVideo();
  }
}
