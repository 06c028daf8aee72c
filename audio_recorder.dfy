/** The bookkeeping of the recorder component (components/AudioRecorder.tsx):
    the m:ss timer display, the one-second tick, the guarded stop, and the
    collection of recorded chunks into the finished clip. Microphone access,
    the media recorder and the timer are browser services; their callbacks
    arrive here as method calls. */
module AudioRecorder {

  import opened Types
  import Strings
  import Wrappers

  /** A piece of encoded audio delivered by the media recorder. */
  type Chunk = seq<byte>

  /** The MIME type the finished clip is tagged with. */
  const ClipMimeType: string := "audio/webm"

  /** Elapsed seconds as minutes, a colon and the seconds within the minute,
      the latter padded to two digits: the display is at least one digit,
      a colon, then exactly two digits. */
  function FormatTime(seconds: nat): (display: string)
    ensures |display| >= 4 && display[|display| - 3] == ':'
    ensures Strings.AllDigits(display[..|display| - 3])
    ensures Strings.AllDigits(display[|display| - 2..])
  {
    var mins := seconds / 60;
    var secs := seconds % 60;
    Strings.NatToString(mins) + ":" + (if secs < 10 then "0" else "") + Strings.NatToString(secs)
  }

  /** Reads an m:ss display back into seconds; `None` when the text is not
      one. */
  function ReadTime(display: string): Wrappers.Option<nat>
  {
    var fields := Strings.SplitOn(display, ':');
    if |fields| == 2 && |fields[0]| >= 1 && Strings.AllDigits(fields[0])
       && |fields[1]| == 2 && Strings.AllDigits(fields[1])
       && Strings.ParseDigits(fields[1]) < 60
    then Wrappers.Some(Strings.ParseDigits(fields[0]) * 60 + Strings.ParseDigits(fields[1]))
    else Wrappers.None
  }

  /** The seconds field is two digits whatever the value: a leading zero
      below ten, the number itself from ten on. */
  lemma SecondsField(secs: nat)
    requires secs < 60
    ensures var field := (if secs < 10 then "0" else "") + Strings.NatToString(secs);
      && |field| == 2 && Strings.AllDigits(field)
      && Strings.ParseDigits(field) == secs
      && (field[0] == '0' <==> secs < 10)
  {
    var field := (if secs < 10 then "0" else "") + Strings.NatToString(secs);
    if secs < 10 {
      assert field[..1] == "0";
    }
  }

  /** The display has exactly two colon-separated fields: the minutes,
      `seconds / 60` in decimal, and the two-digit seconds, `seconds % 60`. */
  lemma FormatTimeFields(seconds: nat)
    ensures var fields := Strings.SplitOn(FormatTime(seconds), ':');
      && |fields| == 2
      && fields[0] == Strings.NatToString(seconds / 60)
      && Strings.ParseDigits(fields[0]) == seconds / 60
      && |fields[1]| == 2 && Strings.AllDigits(fields[1])
      && Strings.ParseDigits(fields[1]) == seconds % 60
      && (fields[1][0] == '0' <==> seconds % 60 < 10)
  {
    var secs := seconds % 60;
    var mins := Strings.NatToString(seconds / 60);
    var field := (if secs < 10 then "0" else "") + Strings.NatToString(secs);
    SecondsField(secs);
    assert ':' !in mins by {
      assert Strings.AllDigits(mins);
    }
    assert ':' !in field by {
      assert Strings.AllDigits(field);
    }
    assert FormatTime(seconds) == Strings.Join([mins, field], ':');
    Strings.SplitJoin([mins, field], ':');
  }

  /** Reading the display back gives the elapsed seconds. */
  lemma ReadFormatTime(seconds: nat)
    ensures ReadTime(FormatTime(seconds)) == Wrappers.Some(seconds)
  {
    FormatTimeFields(seconds);
  }

  /** Different elapsed times never show the same display. */
  lemma FormatTimeInjective(a: nat, b: nat)
    requires FormatTime(a) == FormatTime(b)
    ensures a == b
  {
    ReadFormatTime(a);
    ReadFormatTime(b);
  }

  /** The chunks worth keeping: the non-empty ones, in arrival order. */
  function NonEmpty(delivered: seq<Chunk>): (kept: seq<Chunk>)
    ensures |kept| <= |delivered|
    ensures forall i :: 0 <= i < |kept| ==> |kept[i]| > 0
    ensures forall i :: 0 <= i < |delivered| && |delivered[i]| > 0 ==> delivered[i] in kept
  {
    if delivered == [] then []
    else
      var init, last := delivered[..|delivered| - 1], delivered[|delivered| - 1];
      NonEmpty(init) + (if |last| > 0 then [last] else [])
  }

  /** A new chunk is kept exactly when it is non-empty, after the others. */
  lemma NonEmptySnoc(delivered: seq<Chunk>, c: Chunk)
    ensures NonEmpty(delivered + [c]) == NonEmpty(delivered) + (if |c| > 0 then [c] else [])
  {
    assert (delivered + [c])[..|delivered|] == delivered;
  }

  /** The bytes of the chunks, one after the other. */
  function Concat(chunks: seq<Chunk>): seq<byte>
  {
    if chunks == [] then []
    else Concat(chunks[..|chunks| - 1]) + chunks[|chunks| - 1]
  }

  lemma ConcatSnoc(chunks: seq<Chunk>, c: Chunk)
    ensures Concat(chunks + [c]) == Concat(chunks) + c
  {
    assert (chunks + [c])[..|chunks|] == chunks;
  }

  /** Dropping the empty chunks loses no byte and keeps the order. */
  lemma {:induction false} ConcatNonEmpty(delivered: seq<Chunk>)
    ensures Concat(NonEmpty(delivered)) == Concat(delivered)
    decreases |delivered|
  {
    if delivered != [] {
      var init, last := delivered[..|delivered| - 1], delivered[|delivered| - 1];
      assert delivered == init + [last];
      ConcatNonEmpty(init);
      NonEmptySnoc(init, last);
      ConcatSnoc(init, last);
      if |last| > 0 {
        ConcatSnoc(NonEmpty(init), last);
      } else {
        assert NonEmpty(delivered) == NonEmpty(init);
        assert Concat(init) + last == Concat(init);
      }
    }
  }

  /** The clip built from the kept chunks. */
  function FinishedClip(chunks: seq<Chunk>): Blob
  {
    Blob(Concat(chunks), ClipMimeType)
  }

  /** Where the media recorder is: none created yet, capturing, asked to
      stop with its stop event still to come, or stopped. */
  datatype RecorderPhase = Absent | Active | StopRequested | Inactive

  /** The recorder component's state. `delivered` is every chunk the media
      recorder has handed over in the current recording, empty or not;
      `clips` are the clips passed to the completion callback, in order. */
  class Recorder {
    var isRecording: bool
    var recordingTime: nat
    var phase: RecorderPhase
    var timerRunning: bool
    var chunks: seq<Chunk>
    ghost var delivered: seq<Chunk>
    var clips: seq<Blob>

    /** The kept chunks are the non-empty ones delivered; the timer runs
        exactly while the flag is set; a capturing recorder always has the
        flag set, and neither a missing recorder nor a requested stop does.
        A recorder that stopped on its own may leave the flag set. */
    ghost predicate Valid()
      reads this
    {
      && chunks == NonEmpty(delivered)
      && timerRunning == isRecording
      && (phase == Active ==> isRecording)
      && (phase == Absent || phase == StopRequested ==> !isRecording)
    }

    constructor ()
      ensures Valid()
      ensures !isRecording && recordingTime == 0 && phase == Absent
      ensures chunks == [] && clips == []
    {
      isRecording := false;
      recordingTime := 0;
      phase := Absent;
      timerRunning := false;
      chunks := [];
      delivered := [];
      clips := [];
    }

    /** Starting: when the microphone is granted, a new recorder captures
        into a fresh chunk list, the counter restarts at 0 and the
        one-second timer runs; when it is refused nothing changes. The start
        button is only on the page while the flag is clear. */
    method StartRecording(granted: bool)
      requires Valid()
      requires !isRecording
      modifies this
      ensures Valid()
      ensures !granted ==> unchanged(this)
      ensures granted ==>
        && isRecording && timerRunning && phase == Active
        && recordingTime == 0 && chunks == [] && delivered == []
        && clips == old(clips)
    {
      if granted {
        phase := Active;
        chunks := [];
        delivered := [];
        isRecording := true;
        recordingTime := 0;
        timerRunning := true;
      }
    }

    /** One timer tick: the counter grows by exactly one while the timer
        runs; a cleared timer never ticks. */
    method Tick()
      requires Valid()
      modifies this`recordingTime
      ensures Valid()
      ensures recordingTime == if timerRunning then old(recordingTime) + 1 else old(recordingTime)
    {
      if timerRunning {
        recordingTime := recordingTime + 1;
      }
    }

    /** A chunk from the media recorder: kept only when non-empty, after
        the chunks already kept. */
    method DataAvailable(chunk: Chunk)
      requires Valid()
      modifies this`chunks, this`delivered
      ensures Valid()
      ensures delivered == old(delivered) + [chunk]
      ensures chunks == old(chunks) + (if |chunk| > 0 then [chunk] else [])
    {
      NonEmptySnoc(delivered, chunk);
      if |chunk| > 0 {
        chunks := chunks + [chunk];
      }
      delivered := delivered + [chunk];
    }

    /** Stopping: only with a recorder while the flag is set; it asks a
        capturing recorder to stop (a recorder that already stopped ignores
        the request), clears the flag and the timer. Afterwards the flag is
        clear, so a second call changes nothing. */
    method StopRecording()
      requires Valid()
      modifies this
      ensures Valid()
      ensures !isRecording && !timerRunning
      ensures old(phase != Absent && isRecording) ==>
        && phase == (if old(phase) == Active then StopRequested else old(phase))
        && recordingTime == old(recordingTime)
        && chunks == old(chunks) && delivered == old(delivered) && clips == old(clips)
      ensures !old(phase != Absent && isRecording) ==> unchanged(this)
    {
      if phase != Absent && isRecording {
        if phase == Active {
          phase := StopRequested;
        }
        isRecording := false;
        timerRunning := false;
      }
    }

    /** The recorder's stop event, raised after a requested stop or by the
        recorder itself while capturing (its track ended or it failed): the
        kept chunks become one clip tagged `audio/webm`, handed to the
        completion callback. The clip holds every delivered byte in arrival
        order. Only a live recorder raises the event; the flag, the timer
        and the counter are not touched, so after a stop the recorder raised
        itself they still show a recording. */
    method RecorderStopped()
      requires Valid()
      requires phase == Active || phase == StopRequested
      modifies this`phase, this`clips
      ensures Valid()
      ensures phase == Inactive
      ensures clips == old(clips) + [FinishedClip(chunks)]
      ensures clips[|clips| - 1] == Blob(Concat(delivered), ClipMimeType)
      ensures old(phase) == Active ==> isRecording && timerRunning
    {
      ConcatNonEmpty(delivered);
      clips := clips + [FinishedClip(chunks)];
      phase := Inactive;
    }
  }
}
