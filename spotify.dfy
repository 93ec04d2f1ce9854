/** The volume skills of the Spotify integration and the ducking around
    speech: while the assistant listens or speaks the playback volume is
    lowered, and afterwards it is brought back. The Spotify client is a
    volume cell: the volume of the current device, or none when no device
    is active. */
module Spotify {
  import opened Wrappers
  import opened PyRuntime
  import opened Text

  /** What `_original_volume` holds: a percentage, or the digit string
      `set_volume` found in the utterance. */
  datatype Level = Percent(p: int) | Digits(s: string)

  /** The percentage the client sends for a level; a digit string is read
      as the number it spells. */
  function LevelValue(l: Level): int
  {
    match l
    case Percent(p) => p
    case Digits(s) => if IsDigits(s) then DigitsValue(s) else 0
  }

  /** The module globals `_volume_lowered` and `_original_volume`, and the
      volume of the current device. */
  datatype VolumeState = VolumeState(lowered: bool, original: Level, playback: Option<int>)

  /** The client's `set_volume`: without a current device it returns
      without doing anything. */
  function SetPlayback(s: VolumeState, l: Level): (r: VolumeState)
    ensures r.lowered == s.lowered && r.original == s.original
    ensures s.playback.None? ==> r == s
    ensures s.playback.Some? ==> r.playback == Some(LevelValue(l))
  {
    if s.playback.None? then s else s.(playback := Some(LevelValue(l)))
  }

  /** What a skill did: the new state and what it said, or the exception it
      raised, leaving the state as it was. */
  datatype Step = Step(state: VolumeState, outcome: Result<Option<string>, Exception>)

  const AtMaximum: string := "Volume is already at maximum"

  /** The volume the volume skills start from: the one saved before ducking
      while the volume is lowered, else the device's. */
  function Base(s: VolumeState): Level
    requires s.playback.Some?
  {
    if s.lowered then s.original else Percent(s.playback.value)
  }

  /** `volume_up`. */
  function VolumeUp(s: VolumeState, increment: int): (r: Step)
    ensures s.playback.None? ==> r == Step(s, Ok(None))
    ensures r.outcome.Err? <==> s.playback.Some? && Base(s).Digits?
    ensures r.outcome.Err? ==> r.state == s && r.outcome.error.TypeError?
    ensures s.playback.Some? && Base(s) == Percent(100) ==> r == Step(s, Ok(Some(AtMaximum)))
    ensures s.playback.Some? && Base(s).Percent? && Base(s).p != 100 ==>
      var v := if Base(s).p + increment > 100 then 100 else Base(s).p + increment;
      r == Step(VolumeState(s.lowered, Percent(v), Some(v)), Ok(None))
  {
    if s.playback.None? then Step(s, Ok(None))
    else
      match Base(s)
      case Digits(_) => Step(s, Err(TypeError("can only concatenate str (not \"int\") to str")))
      case Percent(volume) =>
        if volume == 100 then Step(s, Ok(Some(AtMaximum)))
        else
          var raised := volume + increment;
          var newVolume := if raised > 100 then 100 else raised;
          Step(SetPlayback(s, Percent(newVolume)).(original := Percent(newVolume)), Ok(None))
  }

  /** `volume_down`. */
  function VolumeDown(s: VolumeState, increment: int): (r: Step)
    ensures s.playback.None? ==> r == Step(s, Ok(None))
    ensures r.outcome.Err? <==> s.playback.Some? && Base(s).Digits?
    ensures r.outcome.Err? ==> r.state == s && r.outcome.error.TypeError?
    ensures r.outcome.Ok? ==> r.outcome.value == None
    ensures s.playback.Some? && Base(s).Percent? ==>
      var v := if Base(s).p - increment < 0 then 0 else Base(s).p - increment;
      r == Step(VolumeState(s.lowered, Percent(v), Some(v)), Ok(None))
  {
    if s.playback.None? then Step(s, Ok(None))
    else
      match Base(s)
      case Digits(_) => Step(s, Err(TypeError("unsupported operand type(s) for -: 'str' and 'int'")))
      case Percent(volume) =>
        var lowered := volume - increment;
        var newVolume := if lowered < 0 then 0 else lowered;
        Step(SetPlayback(s, Percent(newVolume)).(original := Percent(newVolume)), Ok(None))
  }

  // ------------------------------------------------------------ set_volume

  /** The index of the first digit of `s` at or after `from`. */
  function FirstDigit(s: string, from: nat): (r: Option<nat>)
    requires from <= |s|
    ensures r.None? <==> forall i :: from <= i < |s| ==> !IsDigit(s[i])
    ensures r.Some? ==>
      && from <= r.value < |s| && IsDigit(s[r.value])
      && forall i :: from <= i < r.value ==> !IsDigit(s[i])
    decreases |s| - from
  {
    if from == |s| then None
    else if IsDigit(s[from]) then Some(from)
    else FirstDigit(s, from + 1)
  }

  /** The end of the run of digits from `i`. */
  function RunEnd(s: string, i: nat): (e: nat)
    requires i <= |s|
    ensures i <= e <= |s|
    ensures forall k :: i <= k < e ==> IsDigit(s[k])
    ensures e == |s| || !IsDigit(s[e])
    decreases |s| - i
  {
    if i < |s| && IsDigit(s[i]) then RunEnd(s, i + 1) else i
  }

  /** `re.findall(r"\d+", level)[0]`: the first maximal run of digits, if
      the text has a digit. */
  function FirstDigitRun(level: string): (r: Option<string>)
    ensures r.None? <==> forall i :: 0 <= i < |level| ==> !IsDigit(level[i])
    ensures r.Some? ==> IsDigits(r.value)
  {
    match FirstDigit(level, 0)
    case None => None
    case Some(i) => Some(level[i..RunEnd(level, i)])
  }

  /** The run found is maximal and comes first: it starts at a position
      with no digit before it and ends at the end of the text or before a
      non-digit. */
  lemma FirstDigitRunSplits(level: string)
    requires FirstDigitRun(level).Some?
    ensures var d := FirstDigitRun(level).value;
      exists i :: RunAt(level, d, i)
  {
    var i := FirstDigit(level, 0).value;
    assert RunAt(level, FirstDigitRun(level).value, i);
  }

  /** `d` is the first run of digits of `level`, found at `i`. */
  predicate RunAt(level: string, d: string, i: int)
  {
    && 0 <= i && i + |d| <= |level| && level[i..i + |d|] == d
    && (forall k :: 0 <= k < i ==> !IsDigit(level[k]))
    && (i + |d| == |level| || !IsDigit(level[i + |d|]))
  }

  /** Text of non-digits, digits, and text that does not start with a
      digit: the run found is exactly those digits. */
  lemma FirstDigitRunOf(pre: string, d: string, post: string)
    requires forall i :: 0 <= i < |pre| ==> !IsDigit(pre[i])
    requires IsDigits(d)
    requires post == [] || !IsDigit(post[0])
    ensures FirstDigitRun(pre + d + post) == Some(d)
  {
    var level := pre + d + post;
    assert forall i :: 0 <= i < |pre| ==> level[i] == pre[i];
    assert level[|pre|] == d[0];
    FirstDigitAt(level, 0, |pre|);
    RunEndAt(level, |pre|, |pre| + |d|);
    assert level[|pre|..|pre| + |d|] == d;
  }

  lemma {:induction false} FirstDigitAt(s: string, from: nat, i: nat)
    requires from <= i < |s| && IsDigit(s[i])
    requires forall k :: from <= k < i ==> !IsDigit(s[k])
    ensures FirstDigit(s, from) == Some(i)
    decreases i - from
  {
    if from < i {
      FirstDigitAt(s, from + 1, i);
    }
  }

  lemma {:induction false} RunEndAt(s: string, i: nat, e: nat)
    requires i <= e <= |s|
    requires forall k :: i <= k < e ==> IsDigit(s[k])
    requires e == |s| || !IsDigit(s[e])
    ensures RunEnd(s, i) == e
    decreases e - i
  {
    if i < e {
      RunEndAt(s, i + 1, e);
    }
  }

  /** `set_volume`: the first number in `level` (`""` when the entity is
      missing) becomes the device volume, and its digit string is saved as
      the volume to come back to. */
  function SetVolume(s: VolumeState, level: string): (r: Step)
    ensures r.outcome == Ok(None)
    ensures FirstDigitRun(level).None? ==> r.state == s
    ensures FirstDigitRun(level).Some? ==>
      r.state == SetPlayback(s, Digits(FirstDigitRun(level).value)).(original := Digits(FirstDigitRun(level).value))
  {
    match FirstDigitRun(level)
    case None => Step(s, Ok(None))
    case Some(d) => Step(SetPlayback(s, Digits(d)).(original := Digits(d)), Ok(None))
  }

  // ------------------------------------------------------------ ducking

  /** `int(volume * factor)` with the factor as a whole percentage: the
      product truncated toward zero. */
  function Muffled(volume: int, mufflePercent: nat): (m: int)
    ensures volume >= 0 ==> 0 <= m <= volume || mufflePercent > 100
    ensures volume >= 0 && mufflePercent <= 100 ==> m * 100 <= volume * mufflePercent < (m + 1) * 100
  {
    var x := volume * mufflePercent;
    if x >= 0 then x / 100 else -((-x) / 100)
  }

  /** `_lower_volume`. */
  function LowerVolume(s: VolumeState, mufflePercent: nat): VolumeState
  {
    if s.lowered || s.playback.None? then s
    else
      var saved := s.(original := Percent(s.playback.value));
      SetPlayback(saved, Percent(Muffled(s.playback.value, mufflePercent))).(lowered := true)
  }

  /** `_increase_volume_back`. */
  function IncreaseVolumeBack(s: VolumeState): VolumeState
  {
    if s.lowered then SetPlayback(s, s.original).(lowered := false) else s
  }

  /** Ducking then restoring, with no volume skill between, gives the device
      back the volume it had and leaves the saved volume equal to it. */
  lemma LowerThenRestore(s: VolumeState, mufflePercent: nat)
    requires !s.lowered
    ensures IncreaseVolumeBack(LowerVolume(s, mufflePercent)).playback == s.playback
    ensures !IncreaseVolumeBack(LowerVolume(s, mufflePercent)).lowered
    ensures s.playback.Some? ==> IncreaseVolumeBack(LowerVolume(s, mufflePercent)).original == Percent(s.playback.value)
  {
  }

  /** Ducking is idempotent: a second `_lower_volume`, as when speaking
      starts while listening, changes nothing, so the volume saved is the
      one from before the first. */
  lemma LowerTwice(s: VolumeState, mufflePercent: nat)
    ensures LowerVolume(LowerVolume(s, mufflePercent), mufflePercent) == LowerVolume(s, mufflePercent)
  {
  }

  /** Restoring is idempotent too, and does nothing unless ducked. */
  lemma RestoreTwice(s: VolumeState)
    ensures IncreaseVolumeBack(IncreaseVolumeBack(s)) == IncreaseVolumeBack(s)
    ensures !s.lowered ==> IncreaseVolumeBack(s) == s
  {
  }

  /** A volume change while ducked takes effect when the volume comes back:
      the device then plays at the raised or lowered saved volume. */
  lemma ChangeWhileLowered(s: VolumeState, mufflePercent: nat, increment: int, up: bool)
    requires !s.lowered && s.playback.Some? && s.playback.value != 100
    ensures var ducked := LowerVolume(s, mufflePercent);
      var changed := if up then VolumeUp(ducked, increment) else VolumeDown(ducked, increment);
      var v := s.playback.value;
      var expected := if up then (if v + increment > 100 then 100 else v + increment)
                      else (if v - increment < 0 then 0 else v - increment);
      && changed.outcome == Ok(None)
      && IncreaseVolumeBack(changed.state).playback == Some(expected)
  {
  }

  /** Volumes between 0 and 100. */
  predicate InRange(s: VolumeState)
  {
    && (s.playback.Some? ==> 0 <= s.playback.value <= 100)
    && (s.original.Percent? ==> 0 <= s.original.p <= 100)
  }

  /** With a non-negative step and a muffle factor of at most one, the
      volume skills and the ducking keep every volume between 0 and 100. */
  lemma StepsKeepRange(s: VolumeState, increment: nat, mufflePercent: nat)
    requires InRange(s) && mufflePercent <= 100
    ensures InRange(VolumeUp(s, increment).state)
    ensures InRange(VolumeDown(s, increment).state)
    ensures InRange(LowerVolume(s, mufflePercent))
    ensures InRange(IncreaseVolumeBack(s)) || s.original.Digits?
  {
  }

  // ------------------------------------------------------------ findings

  /** As written, `set_volume` saves the digit string, so a volume skill
      that follows while the volume is ducked adds a number to a string. */
  lemma SetThenUpWhileLowered(s: VolumeState, increment: int)
    requires s.lowered && s.playback.Some?
    ensures VolumeUp(SetVolume(s, "50").state, increment).outcome.Err?
    ensures VolumeDown(SetVolume(s, "50").state, increment).outcome.Err?
  {
    FirstDigitRunOf("", "50", "");
    assert "" + "50" + "" == "50";
  }

  /** `set_volume` saving the number the digits spell, as the declared type
      of `_original_volume` says. */
  function SetVolumeFixed(s: VolumeState, level: string): (r: Step)
    ensures r.outcome == Ok(None)
    ensures FirstDigitRun(level).None? ==> r.state == s
    ensures FirstDigitRun(level).Some? ==> r.state.original == Percent(DigitsValue(FirstDigitRun(level).value))
  {
    match FirstDigitRun(level)
    case None => Step(s, Ok(None))
    case Some(d) =>
      var volume := Percent(DigitsValue(d));
      Step(SetPlayback(s, volume).(original := volume), Ok(None))
  }

  /** With the fix, setting the volume to `n` while ducked and then raising
      it brings the device to `min(n + step, 100)` once ducking ends. */
  lemma FixedSetThenUp(s: VolumeState, n: nat, increment: int)
    requires s.lowered && s.playback.Some? && n != 100
    ensures var fixed := SetVolumeFixed(s, NatToString(n)).state;
      var up := VolumeUp(fixed, increment);
      && up.outcome == Ok(None)
      && IncreaseVolumeBack(up.state).playback == Some(if n + increment > 100 then 100 else n + increment)
  {
    var d := NatToString(n);
    FirstDigitRunOf("", d, "");
    assert "" + d + "" == d;
    DigitsValueOfNatToString(n);
  }

  /** The volume globals together with the device volume. */
  class SpotifyVolume {
    var lowered: bool
    var original: Level
    var playback: Option<int>
    /** `_VOLUME_INCREMENT` and `_MUFFLE_FACTOR` (as a percentage), from the
        configuration. */
    const increment: int
    const mufflePercent: nat

    function State(): VolumeState
      reads this
    {
      VolumeState(lowered, original, playback)
    }

    /** The module is loaded with the volume not lowered and 0 saved. */
    constructor(increment: int, mufflePercent: nat, playback: Option<int>)
      ensures State() == VolumeState(false, Percent(0), playback)
      ensures this.increment == increment && this.mufflePercent == mufflePercent
    {
      this.increment := increment;
      this.mufflePercent := mufflePercent;
      lowered := false;
      original := Percent(0);
      this.playback := playback;
    }

    /** The client's `set_volume`. */
    method SetDeviceVolume(l: Level)
      modifies this
      ensures State() == SetPlayback(old(State()), l)
    {
      if playback.Some? {
        playback := Some(LevelValue(l));
      }
    }

    /** `volume_up`: the message it outputs, if any. */
    method VolumeUpSkill() returns (r: Result<Option<string>, Exception>)
      modifies this
      ensures Step(State(), r) == VolumeUp(old(State()), increment)
    {
      var playbackVolume := playback;
      if playbackVolume.None? {
        return Ok(None);
      }
      var volume := if lowered then original else Percent(playbackVolume.value);
      if volume.Digits? {
        return Err(TypeError("can only concatenate str (not \"int\") to str"));
      }
      if volume.p == 100 {
        return Ok(Some(AtMaximum));
      }
      var newVolume := volume.p + increment;
      newVolume := if newVolume > 100 then 100 else newVolume;
      SetDeviceVolume(Percent(newVolume));
      original := Percent(newVolume);
      return Ok(None);
    }

    /** `volume_down`. */
    method VolumeDownSkill() returns (r: Result<Option<string>, Exception>)
      modifies this
      ensures Step(State(), r) == VolumeDown(old(State()), increment)
    {
      var playbackVolume := playback;
      if playbackVolume.None? {
        return Ok(None);
      }
      var volume := if lowered then original else Percent(playbackVolume.value);
      if volume.Digits? {
        return Err(TypeError("unsupported operand type(s) for -: 'str' and 'int'"));
      }
      var newVolume := volume.p - increment;
      newVolume := if newVolume < 0 then 0 else newVolume;
      SetDeviceVolume(Percent(newVolume));
      original := Percent(newVolume);
      return Ok(None);
    }

    /** `set_volume`, given the `level` entity (`""` when missing). */
    method SetVolumeSkill(level: string)
      modifies this
      ensures State() == SetVolume(old(State()), level).state
    {
      var newVolume := FirstDigitRun(level);
      if newVolume.None? {
        return;
      }
      SetDeviceVolume(Digits(newVolume.value));
      original := Digits(newVolume.value);
    }

    /** `_lower_volume`. */
    method Lower()
      modifies this
      ensures State() == LowerVolume(old(State()), mufflePercent)
    {
      if !lowered {
        var playbackVolume := playback;
        if playbackVolume.None? {
          return;
        }
        original := Percent(playbackVolume.value);
        SetDeviceVolume(Percent(Muffled(playbackVolume.value, mufflePercent)));
        lowered := true;
      }
    }

    /** `_increase_volume_back`. */
    method IncreaseBack()
      modifies this
      ensures State() == IncreaseVolumeBack(old(State()))
    {
      if lowered {
        SetDeviceVolume(original);
        lowered := false;
      }
    }
  }
}
