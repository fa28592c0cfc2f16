/** The recorder screen (screens/Recorder/index.tsx): the recording session,
    the playback of the last recording, the sound's name with the Save switch
    it drives, and the two duration formatters. */
module Recorder {
  import opened Effects
  import opened Text

  /** An opaque `Audio.Recording`; `uri` is what `getURI()` returns. */
  datatype Recording = Recording(token: nat, uri: Option<string>)

  /** An opaque `Audio.Sound` used to play the last recording back. */
  datatype SoundHandle = SoundHandle(token: nat)

  /** The recording status updates the screen reads. */
  datatype RecordingStatus = RecordingStatus(isDoneRecording: bool, durationMillis: nat)

  /** The playback status updates the screen reads. */
  datatype PlaybackStatus = PlaybackStatus(isPlaying: bool, positionMillis: nat, playableDurationMillis: nat)

  /** What the playback toggle asked of the audio capability. */
  datatype PlaybackRequest = NoRequest | StopRequested | StartRequested(uri: string)

  /** `lastRecording?.getURI()` is truthy: there is a recording whose URI is
      neither null nor the empty string. */
  predicate HasPlayableUri(r: Option<Recording>) {
    r.Some? && r.value.uri.Some? && r.value.uri.value != ""
  }

  class Screen {
    var name: string
    var saveEnabled: bool
    var playback: Option<SoundHandle>
    var playbackStatus: Option<PlaybackStatus>
    var status: Option<RecordingStatus>
    var recording: Option<Recording>
    var lastStatus: Option<RecordingStatus>
    var lastRecording: Option<Recording>

    /** What every handler preserves: Save is enabled exactly when the name
        has text and a recording has been made; a playback status is kept
        only while playing; the live status is never a final one. */
    ghost predicate Valid()
      reads this
    {
      && saveEnabled == (HasText(name) && lastRecording.Some?)
      && (playbackStatus.Some? ==> playbackStatus.value.isPlaying)
      && (status.Some? ==> !status.value.isDoneRecording)
    }

    constructor ()
      ensures Valid()
      ensures name == "" && !saveEnabled
      ensures playback == None && playbackStatus == None && status == None
      ensures recording == None && lastStatus == None && lastRecording == None
    {
      name, saveEnabled := "", false;
      playback, playbackStatus, status := None, None, None;
      recording, lastStatus, lastRecording := None, None, None;
    }

    /** `handleNameChange` with `updateSaveEnabled`: the name becomes `text`,
        and Save is enabled when the trimmed text is non-empty and a
        recording exists. */
    method NameChange(text: string)
      requires Valid()
      modifies this`name, this`saveEnabled
      ensures Valid()
      ensures name == text
      ensures saveEnabled == (HasText(text) && lastRecording.Some?)
    {
      name := text;
      saveEnabled := HasText(text) && lastRecording.Some?;
    }

    /** `startRecording`: permissions, audio mode, prepare and start are one
        opaque call; when it returns, its recording becomes the current one.
        When it throws the error is caught and nothing changes. */
    method StartRecording(start: Call<Recording>)
      requires Valid()
      modifies this`recording
      ensures Valid()
      ensures recording == (if start.Returned? then Some(start.value) else old(recording))
    {
      if start.Returned? {
        recording := Some(start.value);
      }
    }

    /** `stopRecording`: stops and unloads the current recording; when that
        returns, it becomes the last recording, no recording is current, and
        Save is re-evaluated with the current name. A throwing call, or no
        current recording (the `!` dereference throws), changes nothing. */
    method StopRecording(stopOk: bool)
      requires Valid()
      modifies this`recording, this`lastRecording, this`saveEnabled
      ensures Valid()
      ensures old(recording).Some? && stopOk ==>
        && lastRecording == old(recording)
        && recording == None
        && saveEnabled == HasText(name)
      ensures old(recording).None? || !stopOk ==>
        recording == old(recording) && lastRecording == old(lastRecording) && saveEnabled == old(saveEnabled)
    {
      if recording.Some? && stopOk {
        lastRecording := recording;
        recording := None;
        saveEnabled := HasText(name) && lastRecording.Some?;
      }
    }

    /** `handleToggleRecording`: stops when a recording is current, starts
        otherwise. */
    method ToggleRecording(start: Call<Recording>, stopOk: bool)
      requires Valid()
      modifies this`recording, this`lastRecording, this`saveEnabled
      ensures Valid()
      ensures old(recording).Some? && stopOk ==>
        lastRecording == old(recording) && recording == None && saveEnabled == HasText(name)
      ensures old(recording).Some? && !stopOk ==>
        recording == old(recording) && lastRecording == old(lastRecording) && saveEnabled == old(saveEnabled)
      ensures old(recording).None? ==>
        && recording == (if start.Returned? then Some(start.value) else None)
        && lastRecording == old(lastRecording) && saveEnabled == old(saveEnabled)
    {
      if recording.Some? {
        StopRecording(stopOk);
      } else {
        StartRecording(start);
      }
    }

    /** `handleStatusChange`: a final status becomes the last status and
        clears the live one; any other status replaces the live one. */
    method StatusChange(update: RecordingStatus)
      requires Valid()
      modifies this`status, this`lastStatus
      ensures Valid()
      ensures update.isDoneRecording ==> lastStatus == Some(update) && status == None
      ensures !update.isDoneRecording ==> status == Some(update) && lastStatus == old(lastStatus)
    {
      if update.isDoneRecording {
        lastStatus := Some(update);
        status := None;
      } else {
        status := Some(update);
      }
    }

    /** `startPlayback`: the sound is kept once its load returns, whatever
        `playAsync` then does; a throwing load is caught and changes nothing. */
    method StartPlayback(load: Call<SoundHandle>)
      requires Valid()
      modifies this`playback
      ensures Valid()
      ensures playback == (if load.Returned? then Some(load.value) else old(playback))
    {
      if load.Returned? {
        playback := Some(load.value);
      }
    }

    /** `stopPlayback`: stops then unloads the sound, and forgets it when
        both return. A throwing call, or no sound (the `!` dereference
        throws), is caught and changes nothing. */
    method StopPlayback(stopOk: bool, unloadOk: bool)
      requires Valid()
      modifies this`playback
      ensures Valid()
      ensures playback == (if old(playback).Some? && stopOk && unloadOk then None else old(playback))
    {
      if playback.Some? && stopOk && unloadOk {
        playback := None;
      }
    }

    /** `handleTogglePlayback`: stops when a playback status is held; else
        starts the last recording when it has a URI; else does nothing. */
    method TogglePlayback(load: Call<SoundHandle>, stopOk: bool, unloadOk: bool) returns (request: PlaybackRequest)
      requires Valid()
      modifies this`playback
      ensures Valid()
      ensures request == (if old(playbackStatus).Some? then StopRequested
                          else if HasPlayableUri(lastRecording) then StartRequested(lastRecording.value.uri.value)
                          else NoRequest)
      ensures request == StopRequested ==>
        playback == (if old(playback).Some? && stopOk && unloadOk then None else old(playback))
      ensures request.StartRequested? ==>
        playback == (if load.Returned? then Some(load.value) else old(playback))
      ensures request == NoRequest ==> playback == old(playback)
    {
      if playbackStatus.Some? {
        request := StopRequested;
        StopPlayback(stopOk, unloadOk);
      } else if HasPlayableUri(lastRecording) {
        request := StartRequested(lastRecording.value.uri.value);
        StartPlayback(load);
      } else {
        request := NoRequest;
      }
    }

    /** `handlePlaybackStatusChange`: the status is kept while playing and
        dropped otherwise. */
    method PlaybackStatusChange(update: PlaybackStatus)
      requires Valid()
      modifies this`playbackStatus
      ensures Valid()
      ensures playbackStatus.Some? <==> update.isPlaying
      ensures update.isPlaying ==> playbackStatus == Some(update)
    {
      if update.isPlaying {
        playbackStatus := Some(update);
      } else {
        playbackStatus := None;
      }
    }
  }

  // ---------------------------------------------------------------------
  // Runs of the screen.

  /** Record, stop, then name the sound: Save is enabled, and the
      recording is the last one. */
  method RecordThenName(rec: Recording, text: string) returns (current: Option<Recording>, last: Option<Recording>, save: bool)
    requires HasText(text)
    ensures current == None && last == Some(rec)
    ensures save
  {
    var screen := new Screen();
    screen.ToggleRecording(Returned(rec), true);
    screen.ToggleRecording(Returned(rec), true);
    screen.NameChange(text);
    current, last, save := screen.recording, screen.lastRecording, screen.saveEnabled;
  }

  /** A progress event then the final event: the final one is kept as the
      last status and no live status remains. */
  method StatusEvents(progress: nat, total: nat) returns (lastSeen: Option<RecordingStatus>, live: Option<RecordingStatus>)
    ensures lastSeen == Some(RecordingStatus(true, total)) && live == None
  {
    var screen := new Screen();
    screen.StatusChange(RecordingStatus(false, progress));
    screen.StatusChange(RecordingStatus(true, total));
    lastSeen, live := screen.lastStatus, screen.status;
  }

  /** A name typed before recording does not enable Save; stopping the
      recording does, and a failed stop would not. */
  method NameThenRecord(rec: Recording, text: string) returns (beforeStop: bool, afterFailedStop: bool, afterStop: bool)
    requires HasText(text)
    ensures !beforeStop && !afterFailedStop && afterStop
  {
    var screen := new Screen();
    screen.NameChange(text);
    screen.ToggleRecording(Returned(rec), true);
    beforeStop := screen.saveEnabled;
    screen.ToggleRecording(Returned(rec), false);
    afterFailedStop := screen.saveEnabled;
    screen.ToggleRecording(Returned(rec), true);
    afterStop := screen.saveEnabled;
  }

  /** Without a recording that has a URI the playback toggle does nothing. */
  method ToggleWithoutRecording(h: SoundHandle) returns (request: PlaybackRequest, sound: Option<SoundHandle>)
    ensures request == NoRequest && sound == None
  {
    var screen := new Screen();
    request := screen.TogglePlayback(Returned(h), true, true);
    assert screen.lastRecording == None;
    sound := screen.playback;
  }

  // ---------------------------------------------------------------------
  // The duration formatters.

  /** The minutes and seconds shown for a duration. */
  datatype Clock = Clock(minutes: nat, seconds: nat)

  /** Whole minutes are whole seconds divided by 60. */
  lemma MinutesOfMillis(time: nat)
    ensures (time / 1000) / 60 == time / 60000
  {
  }

  /** Whole hours are whole minutes divided by 60. */
  lemma HoursOfSeconds(t: nat)
    ensures (t / 60) / 60 == t / 3600
  {
  }

  /** The seconds and minutes both formatters compute: whole seconds modulo
      60, and whole minutes modulo 60 (hours are dropped). */
  function ClockOf(time: nat): (c: Clock)
    ensures c.seconds < 60 && c.minutes < 60
    ensures c.seconds == (time / 1000) % 60
    ensures c.minutes == (time / 60000) % 60
    ensures (time / 1000) % 3600 == 60 * c.minutes + c.seconds
  {
    var t := time / 1000;
    var seconds := t % 60;
    var t' := t / 60;
    var minutes := t' % 60;
    MinutesOfMillis(time);
    HoursOfSeconds(t);
    assert t == 3600 * (t / 3600) + 60 * minutes + seconds by {
      assert t == 60 * t' + seconds;
      assert t' == 60 * (t' / 60) + minutes;
    }
    Clock(minutes, seconds)
  }

  /** `formatDuration`: "M minutes, S seconds", or "S seconds" when the
      minutes are 0. */
  function FormatDuration(time: nat): (r: string)
    ensures |r| > 8 && r[|r| - 8..] == " seconds"
    ensures ClockOf(time).minutes == 0 ==> r == ShowNat(ClockOf(time).seconds) + " seconds"
  {
    var c := ClockOf(time);
    if c.minutes > 0 then ShowNat(c.minutes) + " minutes, " + ShowNat(c.seconds) + " seconds"
    else ShowNat(c.seconds) + " seconds"
  }

  /** The number of leading digits of `s`. */
  function LeadingDigits(s: string): (k: nat)
    ensures k <= |s| && AllDigits(s[..k])
    ensures k < |s| ==> !IsDigit(s[k])
  {
    if s == [] || !IsDigit(s[0]) then 0
    else
      var k := LeadingDigits(s[1..]);
      assert s[..k + 1] == [s[0]] + s[1..][..k];
      k + 1
  }

  /** A number read from the start of a text, and the text after it. */
  datatype Reading = Reading(n: nat, rest: string)

  /** Reads the number at the start of `s`, written as `${n}` writes it:
      one or more digits, with no leading zero unless the number is 0. */
  function ReadNumber(s: string): Option<Reading> {
    var k := LeadingDigits(s);
    if k == 0 || (k > 1 && s[0] == '0') then None
    else Some(Reading(ParseDecimal(s[..k]), s[k..]))
  }

  /** Reads back the text `formatDuration` shows; the minutes clause is
      only accepted for minutes above 0, as `formatDuration` omits it
      otherwise. */
  function ParseDuration(s: string): Option<Clock> {
    match ReadNumber(s)
    case None => None
    case Some(Reading(n, rest)) =>
      if rest == " seconds" then Some(Clock(0, n))
      else if n > 0 && |rest| >= 10 && rest[..10] == " minutes, " then
        match ReadNumber(rest[10..])
        case Some(Reading(sec, tail)) => if tail == " seconds" then Some(Clock(n, sec)) else None
        case None => None
      else None
  }

  /** At most one text reads back as a given clock: the one with the
      numbers as `${n}` renders them, with the minutes clause exactly when
      the minutes are above 0. */
  lemma ParseDurationDetermines(s: string, c: Clock)
    requires ParseDuration(s) == Some(c)
    ensures c.minutes > 0 ==> s == ShowNat(c.minutes) + " minutes, " + ShowNat(c.seconds) + " seconds"
    ensures c.minutes == 0 ==> s == ShowNat(c.seconds) + " seconds"
  {
    ParseDurationCases(s, c);
    ReadNumberCanonical(s);
    if c.minutes > 0 {
      MinutesClauseDetermined(ShowNat(c.minutes), ReadNumber(s).value.rest, c.seconds);
    }
  }

  /** The two forms `ParseDuration` accepts, as facts about `ReadNumber`. */
  lemma ParseDurationCases(s: string, c: Clock)
    requires ParseDuration(s) == Some(c)
    ensures c.minutes == 0 ==> ReadNumber(s) == Some(Reading(c.seconds, " seconds"))
    ensures c.minutes > 0 ==>
      && ReadNumber(s).Some? && ReadNumber(s).value.n == c.minutes
      && |ReadNumber(s).value.rest| >= 10 && ReadNumber(s).value.rest[..10] == " minutes, "
      && ReadNumber(ReadNumber(s).value.rest[10..]) == Some(Reading(c.seconds, " seconds"))
  {
  }

  /** The part after the minutes that reads back as `sec` seconds is the
      rendered `sec` between the two fixed words. */
  lemma MinutesClauseDetermined(minutes: string, rest: string, sec: nat)
    requires |rest| >= 10 && rest[..10] == " minutes, "
    requires ReadNumber(rest[10..]) == Some(Reading(sec, " seconds"))
    ensures minutes + rest == minutes + " minutes, " + ShowNat(sec) + " seconds"
  {
    var t := rest[10..];
    assert t == ShowNat(sec) + " seconds" by {
      ReadNumberCanonical(t);
    }
    assert rest == rest[..10] + t;
    ConcatRegroup(minutes, " minutes, ", ShowNat(sec), " seconds");
  }

  lemma ConcatRegroup(a: string, b: string, c: string, d: string)
    ensures a + (b + (c + d)) == a + b + c + d
  {
  }

  /** What `ReadNumber` accepts is exactly a rendered number. */
  lemma ReadNumberCanonical(s: string)
    requires ReadNumber(s).Some?
    ensures s == ShowNat(ReadNumber(s).value.n) + ReadNumber(s).value.rest
  {
    var k := LeadingDigits(s);
    assert s[..k][0] == s[0];
    ShowParseCanonical(s[..k]);
    assert s == s[..k] + s[k..];
  }

  /** A rendered number followed by a space reads back as that number. */
  lemma ReadNumberShown(n: nat, t: string)
    requires t != [] && t[0] == ' '
    ensures ReadNumber(ShowNat(n) + t) == Some(Reading(n, t))
  {
    ParseShowNat(n);
    LeadingDigitsOfShown(n, t);
    assert (ShowNat(n) + t)[0] == ShowNat(n)[0];
  }

  /** The digits of a number followed by text that starts with a space. */
  lemma LeadingDigitsOfShown(n: nat, s: string)
    requires s != [] && s[0] == ' '
    ensures LeadingDigits(ShowNat(n) + s) == |ShowNat(n)|
    ensures (ShowNat(n) + s)[..|ShowNat(n)|] == ShowNat(n) && (ShowNat(n) + s)[|ShowNat(n)|..] == s
  {
    LeadingDigitsPrefix(ShowNat(n), s);
  }

  lemma {:induction false} LeadingDigitsPrefix(d: string, s: string)
    requires AllDigits(d) && s != [] && !IsDigit(s[0])
    ensures LeadingDigits(d + s) == |d|
    decreases |d|
  {
    if d == [] {
      assert d + s == s;
    } else {
      assert (d + s)[0] == d[0] && IsDigit(d[0]);
      assert (d + s)[1..] == d[1..] + s;
      assert AllDigits(d[1..]);
      LeadingDigitsPrefix(d[1..], s);
    }
  }

  /** `formatDuration` loses nothing but the hours: its text reads back as
      the minutes and seconds of the duration. */
  lemma FormatDurationReadsBack(time: nat)
    ensures ParseDuration(FormatDuration(time)) == Some(ClockOf(time))
  {
    var c := ClockOf(time);
    if c.minutes > 0 {
      ParseMinutesText(c.minutes, c.seconds);
    } else {
      ParseSecondsText(c.seconds);
    }
  }

  lemma ParseSecondsText(sec: nat)
    ensures ParseDuration(ShowNat(sec) + " seconds") == Some(Clock(0, sec))
  {
    ReadNumberShown(sec, " seconds");
  }

  lemma ParseMinutesText(m: nat, sec: nat)
    requires m > 0
    ensures ParseDuration(ShowNat(m) + " minutes, " + ShowNat(sec) + " seconds") == Some(Clock(m, sec))
  {
    var tail := ShowNat(sec) + " seconds";
    var rest := " minutes, " + tail;
    assert ShowNat(m) + " minutes, " + ShowNat(sec) + " seconds" == ShowNat(m) + rest;
    ReadNumberShown(m, rest);
    assert rest != " seconds" && rest[..10] == " minutes, " && rest[10..] == tail;
    ReadNumberShown(sec, " seconds");
  }

  /** The zero padding `formatDurationShort` applies to each component as
      written: a leading "0" for values below 9 only. */
  function PadAsWritten(n: nat): (r: string)
    ensures AllDigits(r) && ParseDecimal(r) == n
    ensures |r| == 1 <==> n == 9
    ensures n < 100 ==> |r| == (if n == 9 then 1 else 2)
  {
    ParseShowNat(n);
    if n < 9 then
      assert "0" + ShowNat(n) == Pad2(n);
      "0" + ShowNat(n)
    else
      ShowNat(n)
  }

  /** `formatDurationShort` as written: the minutes, a colon, the seconds,
      each field reading back as its component and one digit wide exactly
      when that component is 9. */
  function FormatDurationShortAsWritten(time: nat): (r: string)
    ensures var c, m := ClockOf(time), (if ClockOf(time).minutes == 9 then 1 else 2);
      && |r| == m + 1 + (if c.seconds == 9 then 1 else 2)
      && r[m] == ':'
      && AllDigits(r[..m]) && ParseDecimal(r[..m]) == c.minutes
      && AllDigits(r[m + 1..]) && ParseDecimal(r[m + 1..]) == c.seconds
  {
    var c := ClockOf(time);
    var mm, ss := PadAsWritten(c.minutes), PadAsWritten(c.seconds);
    var r := mm + ":" + ss;
    assert r[..|mm|] == mm && r[|mm| + 1..] == ss;
    r
  }

  /** Two-digit zero padding, the evident intent of the `< 9` test. */
  function Pad2(n: nat): (r: string)
    requires n < 100
    ensures |r| == 2 && AllDigits(r) && ParseDecimal(r) == n
  {
    ParseShowNat(n);
    if n < 10 then
      assert ("0" + ShowNat(n))[..1] == "0";
      "0" + ShowNat(n)
    else
      assert ShowNat(n) == ShowNat(n / 10) + [DigitChar(n % 10)];
      ShowNat(n)
  }

  /** `formatDurationShort` with the padding corrected: always "MM:SS", and
      the two fields read back as the minutes and the seconds. */
  function FormatDurationShort(time: nat): (r: string)
    ensures |r| == 5 && r[2] == ':'
    ensures AllDigits(r[..2]) && ParseDecimal(r[..2]) == ClockOf(time).minutes
    ensures AllDigits(r[3..]) && ParseDecimal(r[3..]) == ClockOf(time).seconds
  {
    var c := ClockOf(time);
    var r := Pad2(c.minutes) + ":" + Pad2(c.seconds);
    assert r[..2] == Pad2(c.minutes) && r[3..] == Pad2(c.seconds);
    r
  }

  /** The as-written formatter agrees with the corrected one except when a
      component is exactly 9, which it shows as a single digit. */
  lemma ShortFormatsDifferOnlyAtNine(time: nat)
    ensures var c := ClockOf(time);
      FormatDurationShortAsWritten(time) == FormatDurationShort(time) <==> c.minutes != 9 && c.seconds != 9
  {
    var c := ClockOf(time);
    assert forall n: nat :: n < 100 && n != 9 ==> PadAsWritten(n) == Pad2(n);
    if c.minutes == 9 || c.seconds == 9 {
      assert |PadAsWritten(9)| == 1;
      assert |FormatDurationShortAsWritten(time)| != 5;
    }
  }

  /** Nine seconds shows as "00:9" rather than "00:09". */
  lemma NineSecondsUnpadded()
    ensures FormatDurationShortAsWritten(9000) == "00:9"
    ensures FormatDurationShort(9000) == "00:09"
  {
    assert ClockOf(9000) == Clock(0, 9);
  }
}
