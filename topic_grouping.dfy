/** The topic buffer of `TopicGroupingStrategy`: transcribed text is split
    into sentences and accumulated; voice commands, the gap and lifetime
    timers, and `stop` end the topic by emitting the joined sentences once
    through the completion callback, or by discarding them.

    The value-level functions (`FlushSpec`, `ProcessSpec`, `TickSpec`, ...)
    state what each operation does to the whole strategy state; the class
    `TopicGroupingStrategy` holds the same state in fields and its methods
    are proved to perform exactly those transitions. */
module TopicGrouping {
  import opened Wrappers
  import opened PyStrings
  import opened TopicSentences

  datatype Status = Open | Paused

  /** The metadata dictionary passed to `on_group_complete`: `type`,
      `start_ts`, `end_ts`, `sentence_count`, `voice_cue_flags`, `tags` */
  datatype Metadata = Metadata(
    kind: string,
    startTs: Option<real>,
    endTs: Option<real>,
    sentenceCount: nat,
    voiceCueFlags: seq<string>,
    tags: seq<string>)

  /** One call of the completion callback */
  datatype Emission = Emission(text: string, metadata: Metadata)

  /** The topic buffer: sentences, first and last timestamps, status, flags */
  datatype Buffer = Buffer(
    sentences: seq<string>,
    startTs: Option<real>,
    lastTs: Option<real>,
    status: Status,
    flags: seq<string>)

  /** The buffer after `_reset_buffer` */
  const EmptyBuffer: Buffer := Buffer([], None, None, Open, [])

  /** The whole state: the buffer, the command side buffer and the time of
      the last command check, every callback call made so far, and whether
      the timer has been stopped */
  datatype Topic = Topic(
    buffer: Buffer,
    accumulated: string,
    lastCheck: real,
    emitted: seq<Emission>,
    timerStopped: bool)

  /** What the strategy was built with: whether a completion callback and a
      command-classifier client exist, and the two timeouts (seconds) */
  datatype Config = Config(hasCallback: bool, hasClient: bool, maxGap: real, maxLifetime: real)

  const CommandCheckInterval: real := 5.0
  const PauseThreshold: real := 2.0

  const ManualSplit := "manual_split"
  const ManualFlush := "manual_flush"
  const MaxGapExceeded := "max_gap_exceeded"
  const MaxLifetimeExceeded := "max_lifetime_exceeded"

  /** Every sentence is non-empty and stripped, and a non-empty buffer has
      both timestamps */
  predicate WellFormed(b: Buffer) {
    && (forall i :: 0 <= i < |b.sentences| ==> b.sentences[i] != [] && IsStripped(b.sentences[i]))
    && (b.sentences != [] ==> b.startTs.Some? && b.lastTs.Some?)
  }

  // ---------------------------------------------------------------------
  // Transitions
  // ---------------------------------------------------------------------

  function MetadataOf(b: Buffer): Metadata {
    Metadata("topic", b.startTs, b.lastTs, |b.sentences|, b.flags, [])
  }

  /** The state after `flush(action)` and what it returns */
  datatype Flushed = Flushed(state: Topic, returned: Option<string>)

  /** `flush(action)` */
  function FlushSpec(cfg: Config, s: Topic, action: string): Flushed {
    var b := s.buffer;
    if b.sentences == [] then Flushed(s, None)
    else if action == "store" && cfg.hasCallback then
      var text := Join(b.sentences);
      Flushed(s.(buffer := EmptyBuffer, emitted := s.emitted + [Emission(text, MetadataOf(b))]), Some(text))
    else if action == "discard" then Flushed(s.(buffer := EmptyBuffer), None)
    else Flushed(s, None)
  }

  /** Append `flag` and flush with "store", when the buffer has sentences */
  function FlagAndStore(cfg: Config, s: Topic, flag: string): Topic {
    if s.buffer.sentences == [] then s
    else FlushSpec(cfg, s.(buffer := s.buffer.(flags := s.buffer.flags + [flag])), "store").state
  }

  /** The tail of `process_text`: text arriving while paused is dropped;
      otherwise the first timestamp is set if missing, the last one
      becomes `current`, and the sentences of `text` are appended */
  function AcceptText(b: Buffer, text: string, current: real): Buffer {
    if b.status == Paused then b
    else b.(
      startTs := if b.startTs.None? then Some(current) else b.startTs,
      lastTs := Some(current),
      sentences := b.sentences + SplitIntoSentences(text))
  }

  /** Remove the trigger phrase from the text, when it occurs in it */
  function RemoveTrigger(text: string, phrase: string): string {
    if Contains(text, phrase) then Strip(RemoveAll(text, phrase)) else text
  }

  /** `process_text` asks the command classifier every 5 seconds, or when
      2 seconds have passed since the last accepted text */
  predicate ShouldCheckCommands(s: Topic, current: real) {
    || current - s.lastCheck >= CommandCheckInterval
    || (s.buffer.lastTs.Some? && current - s.buffer.lastTs.value >= PauseThreshold)
  }

  /** The command side buffer after `text` is added to it */
  function WithAccumulated(s: Topic, text: string): Topic {
    s.(accumulated := s.accumulated + " " + Strip(text))
  }

  /** The commands `process_text` acts on: the classifier's reply for the
      accumulated text when a check is due, and none otherwise */
  function DetectedCommands(cfg: Config, s: Topic, text: string, current: real, reply: CommandReply): seq<Command> {
    var s1 := WithAccumulated(s, text);
    if ShouldCheckCommands(s1, current) then CheckForCommands(cfg.hasClient, s1.accumulated, reply) else []
  }

  /** Lines 154-208 of `process_text`: act on the voice cue, if any, then
      accept the (remaining) text */
  function ApplyCue(cfg: Config, s: Topic, cue: Option<Cue>, text: string, current: real): Topic {
    match cue
    case None => s.(buffer := AcceptText(s.buffer, text, current))
    case Some(NewNoteCue) =>
      var s1 := FlagAndStore(cfg, s, ManualSplit);
      var rest := Strip(RemoveAll(Lower(text), "new note"));
      if rest == [] then s1 else s1.(buffer := AcceptText(s1.buffer, rest, current))
    case Some(DiscardCue) => FlushSpec(cfg, s, "discard").state
    case Some(PauseCue) => s.(buffer := s.buffer.(status := Paused))
    case Some(ResumeCue) => s.(buffer := s.buffer.(status := Open))
    case Some(FlushCue) => FlagAndStore(cfg, s, ManualFlush)
  }

  /** The state once `text` has joined the side buffer and, when a check
      is due, the check has cleared it and recorded the time */
  function AfterCheck(s: Topic, text: string, current: real): Topic {
    var s1 := WithAccumulated(s, text);
    if ShouldCheckCommands(s1, current) then s1.(lastCheck := current, accumulated := "") else s1
  }

  /** The text left once the acted-on command's trigger phrase is removed */
  function CueText(cmds: seq<Command>, text: string): string {
    match FirstActionable(cmds)
    case None => text
    case Some(k) => RemoveTrigger(text, cmds[k].triggerPhrase)
  }

  /** `process_text(text, timestamp)`, with `now` standing for
      `datetime.now()` and `reply` for what the command classifier does if
      it is asked */
  function ProcessSpec(cfg: Config, s: Topic, text: string, timestamp: Option<real>, now: real, reply: CommandReply): Topic {
    if IsBlank(text) then s
    else
      var current := timestamp.GetOr(now);
      var cmds := DetectedCommands(cfg, s, text, current, reply);
      ApplyCue(cfg, AfterCheck(s, text, current), ActedCue(cmds), CueText(cmds, text), current)
  }

  /** `_process_detected_commands`: act on the first confident command only;
      a pause or resume found here does nothing */
  function ApplyDetected(cfg: Config, s: Topic, cmds: seq<Command>): Topic {
    match FirstActionable(cmds)
    case None => s
    case Some(k) =>
      match cmds[k].cue
      case NewNoteCue => FlagAndStore(cfg, s, ManualSplit)
      case DiscardCue => FlushSpec(cfg, s, "discard").state
      case FlushCue => FlagAndStore(cfg, s, ManualFlush)
      case PauseCue => s
      case ResumeCue => s
  }

  /** The timeout half of a timer tick: nothing for an empty or paused
      buffer; otherwise a gap longer than `maxGap` flushes first, and a
      lifetime longer than `maxLifetime` flushes next */
  function Timeouts(cfg: Config, s: Topic, now: real): Topic {
    var b := s.buffer;
    if b.sentences == [] || b.status == Paused then s
    else if b.lastTs.Some? && now - b.lastTs.value > cfg.maxGap then
      FlushSpec(cfg, s.(buffer := b.(flags := b.flags + [MaxGapExceeded])), "store").state
    else if b.startTs.Some? && now - b.startTs.value > cfg.maxLifetime then
      FlushSpec(cfg, s.(buffer := b.(flags := b.flags + [MaxLifetimeExceeded])), "store").state
    else s
  }

  /** The timer asks the command classifier when 5 seconds have passed, the
      side buffer holds text and the topic is not paused */
  predicate TickShouldCheck(s: Topic, now: real) {
    now - s.lastCheck >= CommandCheckInterval && !IsBlank(s.accumulated) && s.buffer.status != Paused
  }

  /** One iteration of `_timer_worker` at time `now` (none once stopped) */
  function TickSpec(cfg: Config, s: Topic, now: real, reply: CommandReply): Topic {
    if s.timerStopped then s
    else
      var s1 :=
        if TickShouldCheck(s, now) then
          ApplyDetected(cfg, s.(lastCheck := now, accumulated := ""), CheckForCommands(cfg.hasClient, s.accumulated, reply))
        else s;
      Timeouts(cfg, s1, now)
  }

  /** `stop()`: stop the timer, then store what the buffer holds */
  function StopSpec(cfg: Config, s: Topic): Topic {
    var s1 := s.(timerStopped := true);
    if s1.buffer.sentences != [] then FlushSpec(cfg, s1, "store").state else s1
  }

  /** The loop of `process_text` over the detected commands: the first one
      at least 0.7 confident gives the voice cue, and its trigger phrase is
      removed from the text */
  method FindVoiceCue(detected: seq<Command>, text: string) returns (voiceCue: Option<Cue>, rest: string)
    ensures voiceCue == ActedCue(detected) && rest == CueText(detected, text)
  {
    voiceCue := None;
    rest := text;
    var i := 0;
    while i < |detected|
      invariant 0 <= i <= |detected|
      invariant forall j :: 0 <= j < i ==> detected[j].confidence < CommandThreshold
    {
      if detected[i].confidence >= CommandThreshold {
        voiceCue := Some(detected[i].cue);
        if Contains(rest, detected[i].triggerPhrase) {
          rest := Strip(RemoveAll(rest, detected[i].triggerPhrase));
        }
        return;
      }
      i := i + 1;
    }
  }

  // ---------------------------------------------------------------------
  // Properties of the transitions
  // ---------------------------------------------------------------------

  /** Blank text changes nothing, not even the command side buffer */
  lemma BlankTextIgnored(cfg: Config, s: Topic, text: string, timestamp: Option<real>, now: real, reply: CommandReply)
    requires IsBlank(text)
    ensures ProcessSpec(cfg, s, text, timestamp, now, reply) == s
  {
  }

  /** When no voice cue is acted on and the topic is open, the sentences of
      the text are appended (at least one, since the text is not blank),
      the first timestamp is kept or set, the last one advances, and nothing
      is emitted */
  lemma AcceptedTextAppends(cfg: Config, s: Topic, text: string, timestamp: Option<real>, now: real, reply: CommandReply)
    requires !IsBlank(text) && s.buffer.status == Open
    requires ActedCue(DetectedCommands(cfg, s, text, timestamp.GetOr(now), reply)) == None
    ensures var r := ProcessSpec(cfg, s, text, timestamp, now, reply);
      var current := timestamp.GetOr(now);
      && r.buffer.sentences == s.buffer.sentences + SplitIntoSentences(text)
      && |r.buffer.sentences| > |s.buffer.sentences|
      && r.buffer.startTs == (if s.buffer.startTs.None? then Some(current) else s.buffer.startTs)
      && r.buffer.lastTs == Some(current)
      && r.buffer.flags == s.buffer.flags && r.buffer.status == Open
      && r.emitted == s.emitted
  {
    var current := timestamp.GetOr(now);
    var cmds := DetectedCommands(cfg, s, text, current, reply);
    var s2 := AfterCheck(s, text, current);
    assert ProcessSpec(cfg, s, text, timestamp, now, reply) == s2.(buffer := AcceptText(s.buffer, text, current)) by {
      assert FirstActionable(cmds).None?;
      assert CueText(cmds, text) == text;
      assert s2.buffer == s.buffer;
    }
    SplitIntoSentencesSound(text);
  }

  /** While paused, text that carries no acted-on cue leaves the buffer as
      it was */
  lemma PausedDropsText(cfg: Config, s: Topic, text: string, timestamp: Option<real>, now: real, reply: CommandReply)
    requires s.buffer.status == Paused
    requires ActedCue(DetectedCommands(cfg, s, text, timestamp.GetOr(now), reply)) == None
    ensures var r := ProcessSpec(cfg, s, text, timestamp, now, reply);
      r.buffer == s.buffer && r.emitted == s.emitted
  {
  }

  /** Flushing touches only the buffer and the callback log */
  lemma FlushKeepsSide(cfg: Config, s: Topic, action: string)
    ensures var r := FlushSpec(cfg, s, action).state;
      r.accumulated == s.accumulated && r.lastCheck == s.lastCheck && r.timerStopped == s.timerStopped
  {
  }

  lemma FlagAndStoreKeepsSide(cfg: Config, s: Topic, flag: string)
    ensures var r := FlagAndStore(cfg, s, flag);
      r.accumulated == s.accumulated && r.lastCheck == s.lastCheck && r.timerStopped == s.timerStopped
  {
    if s.buffer.sentences != [] {
      FlushKeepsSide(cfg, s.(buffer := s.buffer.(flags := s.buffer.flags + [flag])), "store");
    }
  }

  /** No voice cue touches the side buffer, the check time or the timer */
  lemma ApplyCueKeepsSide(cfg: Config, s: Topic, cue: Option<Cue>, text: string, current: real)
    ensures var r := ApplyCue(cfg, s, cue, text, current);
      r.accumulated == s.accumulated && r.lastCheck == s.lastCheck && r.timerStopped == s.timerStopped
  {
    match cue
    case None =>
    case Some(NewNoteCue) => FlagAndStoreKeepsSide(cfg, s, ManualSplit);
    case Some(DiscardCue) => FlushKeepsSide(cfg, s, "discard");
    case Some(PauseCue) =>
    case Some(ResumeCue) =>
    case Some(FlushCue) => FlagAndStoreKeepsSide(cfg, s, ManualFlush);
  }

  /** The command side buffer collects the stripped text until a check is
      due; a check clears it and records the time */
  lemma SideBufferClearedByCheck(cfg: Config, s: Topic, text: string, timestamp: Option<real>, now: real, reply: CommandReply)
    requires !IsBlank(text)
    ensures var r := ProcessSpec(cfg, s, text, timestamp, now, reply);
      var current := timestamp.GetOr(now);
      if ShouldCheckCommands(WithAccumulated(s, text), current) then
        r.accumulated == "" && r.lastCheck == current
      else
        r.accumulated == s.accumulated + " " + Strip(text) && r.lastCheck == s.lastCheck
  {
    var current := timestamp.GetOr(now);
    var cmds := DetectedCommands(cfg, s, text, current, reply);
    ApplyCueKeepsSide(cfg, AfterCheck(s, text, current), ActedCue(cmds), CueText(cmds, text), current);
  }

  /** A timer tick that checks for commands clears the side buffer and
      records the time, whatever the classifier replies; a tick that does
      not check leaves both alone */
  lemma TickClearsSideBuffer(cfg: Config, s: Topic, now: real, reply: CommandReply)
    requires !s.timerStopped
    ensures var r := TickSpec(cfg, s, now, reply);
      if TickShouldCheck(s, now) then r.accumulated == "" && r.lastCheck == now
      else r.accumulated == s.accumulated && r.lastCheck == s.lastCheck
  {
    var s0 := if TickShouldCheck(s, now) then s.(lastCheck := now, accumulated := "") else s;
    var s1 := if TickShouldCheck(s, now) then ApplyDetected(cfg, s0, CheckForCommands(cfg.hasClient, s.accumulated, reply)) else s;
    if TickShouldCheck(s, now) {
      ApplyDetectedKeepsSide(cfg, s0, CheckForCommands(cfg.hasClient, s.accumulated, reply));
    }
    TimeoutsKeepSide(cfg, s1, now);
  }

  lemma ApplyDetectedKeepsSide(cfg: Config, s: Topic, cmds: seq<Command>)
    ensures var r := ApplyDetected(cfg, s, cmds);
      r.accumulated == s.accumulated && r.lastCheck == s.lastCheck && r.timerStopped == s.timerStopped
  {
    match FirstActionable(cmds)
    case None =>
    case Some(k) =>
      match cmds[k].cue
      case NewNoteCue => FlagAndStoreKeepsSide(cfg, s, ManualSplit);
      case DiscardCue => FlushKeepsSide(cfg, s, "discard");
      case FlushCue => FlagAndStoreKeepsSide(cfg, s, ManualFlush);
      case PauseCue =>
      case ResumeCue =>
  }

  lemma TimeoutsKeepSide(cfg: Config, s: Topic, now: real)
    ensures var r := Timeouts(cfg, s, now);
      r.accumulated == s.accumulated && r.lastCheck == s.lastCheck && r.timerStopped == s.timerStopped
  {
    var b := s.buffer;
    FlushKeepsSide(cfg, s.(buffer := b.(flags := b.flags + [MaxGapExceeded])), "store");
    FlushKeepsSide(cfg, s.(buffer := b.(flags := b.flags + [MaxLifetimeExceeded])), "store");
  }

  /** Flushing an empty buffer does nothing and returns nothing */
  lemma FlushEmptyIsNoOp(cfg: Config, s: Topic, action: string)
    requires s.buffer.sentences == []
    ensures FlushSpec(cfg, s, action) == Flushed(s, None)
  {
  }

  /** Storing a non-empty topic calls the callback exactly once, with the
      sentences joined by single spaces and the buffer's metadata, returns
      that text and empties the buffer; a well-formed buffer gives a
      non-empty stripped text holding every non-blank character of the
      sentences */
  lemma FlushStoreEmitsOnce(cfg: Config, s: Topic)
    requires cfg.hasCallback && s.buffer.sentences != []
    ensures var f := FlushSpec(cfg, s, "store");
      var b := s.buffer;
      && f.state.emitted == s.emitted + [Emission(Join(b.sentences), f.state.emitted[|s.emitted|].metadata)]
      && f.returned == Some(Join(b.sentences))
      && f.state.buffer == EmptyBuffer
      && f.state.emitted[|s.emitted|].metadata
         == Metadata("topic", b.startTs, b.lastTs, |b.sentences|, b.flags, [])
      && (WellFormed(b) ==>
            Join(b.sentences) != [] && IsStripped(Join(b.sentences))
            && f.state.emitted[|s.emitted|].metadata.startTs.Some?)
  {
    if WellFormed(s.buffer) {
      JoinStripped(s.buffer.sentences);
    }
  }

  /** Without a callback, "store" leaves the buffer untouched and returns
      nothing: the topic is kept rather than lost */
  lemma StoreWithoutCallbackKeeps(cfg: Config, s: Topic)
    requires !cfg.hasCallback
    ensures FlushSpec(cfg, s, "store") == Flushed(s, None)
  {
  }

  /** "discard" empties the buffer without calling the callback */
  lemma DiscardEmitsNothing(cfg: Config, s: Topic)
    ensures var f := FlushSpec(cfg, s, "discard");
      f.state.emitted == s.emitted && f.returned == None
      && f.state.buffer == (if s.buffer.sentences == [] then s.buffer else EmptyBuffer)
  {
  }

  lemma FlushStaysOpen(cfg: Config, s: Topic, action: string)
    requires s.buffer.status == Open
    ensures FlushSpec(cfg, s, action).state.buffer.status == Open
  {
  }

  lemma FlagAndStoreStaysOpen(cfg: Config, s: Topic, flag: string)
    requires s.buffer.status == Open
    ensures FlagAndStore(cfg, s, flag).buffer.status == Open
  {
    if s.buffer.sentences != [] {
      FlushStaysOpen(cfg, s.(buffer := s.buffer.(flags := s.buffer.flags + [flag])), "store");
    }
  }

  /** Only a pause cue takes an open topic out of `Open` */
  lemma ApplyCueStaysOpen(cfg: Config, s: Topic, cue: Option<Cue>, text: string, current: real)
    requires s.buffer.status == Open && cue != Some(PauseCue)
    ensures ApplyCue(cfg, s, cue, text, current).buffer.status == Open
  {
    match cue
    case None =>
    case Some(NewNoteCue) => FlagAndStoreStaysOpen(cfg, s, ManualSplit);
    case Some(DiscardCue) => FlushStaysOpen(cfg, s, "discard");
    case Some(PauseCue) =>
    case Some(ResumeCue) =>
    case Some(FlushCue) => FlagAndStoreStaysOpen(cfg, s, ManualFlush);
  }

  /** Every transition keeps an open topic open: neither the classifier's
      tool map nor the legacy fallback (at 0.6, below the 0.7 threshold)
      can make a pause cue be acted on, so `PAUSED` is never entered */
  lemma ProcessStaysOpen(cfg: Config, s: Topic, text: string, timestamp: Option<real>, now: real, reply: CommandReply)
    requires s.buffer.status == Open
    ensures ProcessSpec(cfg, s, text, timestamp, now, reply).buffer.status == Open
  {
    if !IsBlank(text) {
      var current := timestamp.GetOr(now);
      var cmds := DetectedCommands(cfg, s, text, current, reply);
      PauseResumeNeverActedOn(cfg.hasClient, WithAccumulated(s, text).accumulated, reply);
      assert ActedCue(cmds) != Some(PauseCue);
      ApplyCueStaysOpen(cfg, AfterCheck(s, text, current), ActedCue(cmds), CueText(cmds, text), current);
    }
  }

  lemma ApplyDetectedStaysOpen(cfg: Config, s: Topic, cmds: seq<Command>)
    requires s.buffer.status == Open
    ensures ApplyDetected(cfg, s, cmds).buffer.status == Open
  {
    match FirstActionable(cmds)
    case None =>
    case Some(k) =>
      match cmds[k].cue
      case NewNoteCue =>
      case DiscardCue =>
      case FlushCue =>
      case PauseCue =>
      case ResumeCue =>
  }

  lemma TimeoutsStayOpen(cfg: Config, s: Topic, now: real)
    requires s.buffer.status == Open
    ensures Timeouts(cfg, s, now).buffer.status == Open
  {
  }

  lemma TickStaysOpen(cfg: Config, s: Topic, now: real, reply: CommandReply)
    requires s.buffer.status == Open
    ensures TickSpec(cfg, s, now, reply).buffer.status == Open
  {
    if !s.timerStopped && TickShouldCheck(s, now) {
      var s1 := s.(lastCheck := now, accumulated := "");
      ApplyDetectedStaysOpen(cfg, s1, CheckForCommands(cfg.hasClient, s.accumulated, reply));
      TimeoutsStayOpen(cfg, ApplyDetected(cfg, s1, CheckForCommands(cfg.hasClient, s.accumulated, reply)), now);
    } else {
      TimeoutsStayOpen(cfg, s, now);
    }
  }

  lemma StopStaysOpen(cfg: Config, s: Topic)
    requires s.buffer.status == Open
    ensures StopSpec(cfg, s).buffer.status == Open
  {
  }

  /** A timer tick on a stopped strategy does nothing; on an empty or paused
      buffer it can only run the command check */
  lemma TickIdle(cfg: Config, s: Topic, now: real, reply: CommandReply)
    ensures s.timerStopped ==> TickSpec(cfg, s, now, reply) == s
    ensures (s.buffer.sentences == [] || s.buffer.status == Paused) ==> Timeouts(cfg, s, now) == s
  {
  }

  /** A gap longer than `maxGap` ends the topic with the flag
      "max_gap_exceeded", whatever its lifetime */
  lemma GapTimeoutFirst(cfg: Config, s: Topic, now: real)
    requires cfg.hasCallback && s.buffer.sentences != [] && s.buffer.status == Open
    requires s.buffer.lastTs.Some? && now - s.buffer.lastTs.value > cfg.maxGap
    ensures var r := Timeouts(cfg, s, now);
      && r.buffer == EmptyBuffer
      && |r.emitted| == |s.emitted| + 1
      && r.emitted[|s.emitted|].metadata.voiceCueFlags == s.buffer.flags + [MaxGapExceeded]
      && r.emitted[|s.emitted|].text == Join(s.buffer.sentences)
  {
  }

  /** A topic whose gap is within bounds but whose lifetime exceeds
      `maxLifetime` ends with the flag "max_lifetime_exceeded" */
  lemma LifetimeTimeout(cfg: Config, s: Topic, now: real)
    requires cfg.hasCallback && s.buffer.sentences != [] && s.buffer.status == Open
    requires s.buffer.lastTs.None? || now - s.buffer.lastTs.value <= cfg.maxGap
    requires s.buffer.startTs.Some? && now - s.buffer.startTs.value > cfg.maxLifetime
    ensures var r := Timeouts(cfg, s, now);
      && r.buffer == EmptyBuffer
      && |r.emitted| == |s.emitted| + 1
      && r.emitted[|s.emitted|].metadata.voiceCueFlags == s.buffer.flags + [MaxLifetimeExceeded]
      && r.emitted[|s.emitted|].text == Join(s.buffer.sentences)
  {
  }

  /** Within both bounds, the timeouts leave the state alone */
  lemma NoTimeoutWithinBounds(cfg: Config, s: Topic, now: real)
    requires s.buffer.lastTs.None? || now - s.buffer.lastTs.value <= cfg.maxGap
    requires s.buffer.startTs.None? || now - s.buffer.startTs.value <= cfg.maxLifetime
    ensures Timeouts(cfg, s, now) == s
  {
  }

  /** `stop` leaves no stored topic behind when there is a callback */
  lemma StopEmptiesBuffer(cfg: Config, s: Topic)
    requires cfg.hasCallback
    ensures var r := StopSpec(cfg, s);
      r.timerStopped && r.buffer.sentences == []
      && |r.emitted| == |s.emitted| + (if s.buffer.sentences == [] then 0 else 1)
  {
  }

  // --- the buffer invariant ----------------------------------------------

  lemma FlushPreservesWellFormed(cfg: Config, s: Topic, action: string)
    requires WellFormed(s.buffer)
    ensures WellFormed(FlushSpec(cfg, s, action).state.buffer)
  {
  }

  lemma FlagAndStorePreservesWellFormed(cfg: Config, s: Topic, flag: string)
    requires WellFormed(s.buffer)
    ensures WellFormed(FlagAndStore(cfg, s, flag).buffer)
  {
  }

  lemma AcceptPreservesWellFormed(b: Buffer, text: string, current: real)
    requires WellFormed(b)
    ensures WellFormed(AcceptText(b, text, current))
  {
    SplitIntoSentencesSound(text);
    var r := AcceptText(b, text, current);
    if b.status == Open {
      var ns := SplitIntoSentences(text);
      forall i | 0 <= i < |r.sentences|
        ensures r.sentences[i] != [] && IsStripped(r.sentences[i])
      {
        if i >= |b.sentences| {
          assert r.sentences[i] == ns[i - |b.sentences|];
        }
      }
    }
  }

  lemma ApplyCuePreservesWellFormed(cfg: Config, s: Topic, cue: Option<Cue>, text: string, current: real)
    requires WellFormed(s.buffer)
    ensures WellFormed(ApplyCue(cfg, s, cue, text, current).buffer)
  {
    match cue
    case None => AcceptPreservesWellFormed(s.buffer, text, current);
    case Some(NewNoteCue) =>
      var s1 := FlagAndStore(cfg, s, ManualSplit);
      FlagAndStorePreservesWellFormed(cfg, s, ManualSplit);
      AcceptPreservesWellFormed(s1.buffer, Strip(RemoveAll(Lower(text), "new note")), current);
    case Some(DiscardCue) => FlushPreservesWellFormed(cfg, s, "discard");
    case Some(PauseCue) =>
    case Some(ResumeCue) =>
    case Some(FlushCue) => FlagAndStorePreservesWellFormed(cfg, s, ManualFlush);
  }

  /** `process_text` keeps every buffered sentence non-empty and stripped,
      and keeps both timestamps set while the buffer has sentences */
  lemma ProcessPreservesWellFormed(cfg: Config, s: Topic, text: string, timestamp: Option<real>, now: real, reply: CommandReply)
    requires WellFormed(s.buffer)
    ensures WellFormed(ProcessSpec(cfg, s, text, timestamp, now, reply).buffer)
  {
    if !IsBlank(text) {
      var current := timestamp.GetOr(now);
      var cmds := DetectedCommands(cfg, s, text, current, reply);
      ApplyCuePreservesWellFormed(cfg, AfterCheck(s, text, current), ActedCue(cmds), CueText(cmds, text), current);
    }
  }

  lemma ApplyDetectedPreservesWellFormed(cfg: Config, s: Topic, cmds: seq<Command>)
    requires WellFormed(s.buffer)
    ensures WellFormed(ApplyDetected(cfg, s, cmds).buffer)
  {
    match FirstActionable(cmds)
    case None =>
    case Some(k) =>
      match cmds[k].cue
      case NewNoteCue => FlagAndStorePreservesWellFormed(cfg, s, ManualSplit);
      case DiscardCue => FlushPreservesWellFormed(cfg, s, "discard");
      case FlushCue => FlagAndStorePreservesWellFormed(cfg, s, ManualFlush);
      case PauseCue =>
      case ResumeCue =>
  }

  lemma TimeoutsPreserveWellFormed(cfg: Config, s: Topic, now: real)
    requires WellFormed(s.buffer)
    ensures WellFormed(Timeouts(cfg, s, now).buffer)
  {
    var b := s.buffer;
    if b.sentences != [] && b.status != Paused {
      FlushPreservesWellFormed(cfg, s.(buffer := b.(flags := b.flags + [MaxGapExceeded])), "store");
      FlushPreservesWellFormed(cfg, s.(buffer := b.(flags := b.flags + [MaxLifetimeExceeded])), "store");
    }
  }

  lemma TickPreservesWellFormed(cfg: Config, s: Topic, now: real, reply: CommandReply)
    requires WellFormed(s.buffer)
    ensures WellFormed(TickSpec(cfg, s, now, reply).buffer)
  {
    if !s.timerStopped {
      var s1 := s;
      if TickShouldCheck(s, now) {
        var cmds := CheckForCommands(cfg.hasClient, s.accumulated, reply);
        ApplyDetectedPreservesWellFormed(cfg, s.(lastCheck := now, accumulated := ""), cmds);
        s1 := ApplyDetected(cfg, s.(lastCheck := now, accumulated := ""), cmds);
      }
      TimeoutsPreserveWellFormed(cfg, s1, now);
    }
  }

  lemma StopPreservesWellFormed(cfg: Config, s: Topic)
    requires WellFormed(s.buffer)
    ensures WellFormed(StopSpec(cfg, s).buffer)
  {
  }

  // --- one topic from a run of transcribed texts --------------------------

  /** The sentences of each text, in order */
  function SentencesOf(texts: seq<string>): seq<string> {
    if texts == [] then [] else SplitIntoSentences(texts[0]) + SentencesOf(texts[1..])
  }

  /** The non-blank characters of each text, in order */
  function LettersOf(texts: seq<string>): string {
    if texts == [] then [] else Letters(texts[0]) + LettersOf(texts[1..])
  }

  /** `process_text` applied to each text at its timestamp, in order */
  function ProcessAll(cfg: Config, s: Topic, texts: seq<string>, times: seq<real>, replies: seq<CommandReply>): Topic
    requires |times| == |texts| && |replies| == |texts|
    decreases |texts|
  {
    if texts == [] then s
    else ProcessAll(cfg, ProcessSpec(cfg, s, texts[0], Some(times[0]), times[0], replies[0]), texts[1..], times[1..], replies[1..])
  }

  /** Joining two lists of sentences loses no character and adds only blanks */
  lemma {:induction false} JoinLetters(a: seq<string>, b: seq<string>)
    ensures Letters(Join(a + b)) == Letters(Join(a)) + Letters(Join(b))
  {
    if a == [] {
      assert a + b == b;
    } else if b == [] {
      assert a + b == a;
    } else {
      JoinAppend(a, b);
      LettersAppend(Join(a) + " ", Join(b));
      LettersAppend(Join(a), " ");
      assert Letters(" ") == [];
    }
  }

  lemma {:induction false} SentencesOfLetters(texts: seq<string>)
    ensures Letters(Join(SentencesOf(texts))) == LettersOf(texts)
  {
    if texts != [] {
      SplitIntoSentencesSound(texts[0]);
      SentencesOfLetters(texts[1..]);
      JoinLetters(SplitIntoSentences(texts[0]), SentencesOf(texts[1..]));
    }
  }

  /** Without a command classifier, non-blank texts only ever extend the
      open buffer: sentences in order, first timestamp kept or set, last
      timestamp the newest, nothing emitted */
  lemma {:induction false} ProcessAllExtends(cfg: Config, s: Topic, texts: seq<string>, times: seq<real>, replies: seq<CommandReply>)
    requires |times| == |texts| && |replies| == |texts|
    requires !cfg.hasClient && s.buffer.status == Open
    requires forall i :: 0 <= i < |texts| ==> !IsBlank(texts[i])
    ensures var r := ProcessAll(cfg, s, texts, times, replies);
      && r.buffer.sentences == s.buffer.sentences + SentencesOf(texts)
      && r.buffer.status == Open && r.buffer.flags == s.buffer.flags
      && r.emitted == s.emitted
      && r.buffer.startTs == (if s.buffer.startTs.None? && texts != [] then Some(times[0]) else s.buffer.startTs)
      && r.buffer.lastTs == (if texts == [] then s.buffer.lastTs else Some(Last(times)))
    decreases |texts|
  {
    if texts != [] {
      var old0, new0, rest := s.buffer.sentences, SplitIntoSentences(texts[0]), SentencesOf(texts[1..]);
      assert old0 + (new0 + rest) == (old0 + new0) + rest;
      var s1 := ProcessSpec(cfg, s, texts[0], Some(times[0]), times[0], replies[0]);
      assert DetectedCommands(cfg, s, texts[0], times[0], replies[0]) == [];
      AcceptedTextAppends(cfg, s, texts[0], Some(times[0]), times[0], replies[0]);
      assert ProcessAll(cfg, s, texts, times, replies) == ProcessAll(cfg, s1, texts[1..], times[1..], replies[1..]);
      assert forall i :: 0 <= i < |texts[1..]| ==> !IsBlank(texts[1..][i]) by {
        forall i | 0 <= i < |texts[1..]|
          ensures !IsBlank(texts[1..][i])
        {
          assert texts[1..][i] == texts[i + 1];
        }
      }
      ProcessAllExtends(cfg, s1, texts[1..], times[1..], replies[1..]);
      assert SentencesOf(texts) == SplitIntoSentences(texts[0]) + SentencesOf(texts[1..]);
      if |texts| > 1 {
        assert Last(times[1..]) == Last(times);
      }
    }
  }

  /** A fresh strategy without a classifier, fed non-blank texts and then
      stopped, calls the callback exactly once: with every sentence of every
      text, no non-blank character lost or added, the first and the last
      timestamps, and no flags */
  lemma TopicEmittedExactlyOnce(cfg: Config, s: Topic, texts: seq<string>, times: seq<real>, replies: seq<CommandReply>)
    requires |times| == |texts| && |replies| == |texts| && texts != []
    requires cfg.hasCallback && !cfg.hasClient && s.buffer == EmptyBuffer
    requires forall i :: 0 <= i < |texts| ==> !IsBlank(texts[i])
    ensures var r := StopSpec(cfg, ProcessAll(cfg, s, texts, times, replies));
      && |r.emitted| == |s.emitted| + 1
      && r.emitted[..|s.emitted|] == s.emitted
      && var e := r.emitted[|s.emitted|];
      && Letters(e.text) == LettersOf(texts)
      && e.metadata == Metadata("topic", Some(times[0]), Some(Last(times)), |SentencesOf(texts)|, [], [])
      && r.buffer == EmptyBuffer
  {
    var p := ProcessAll(cfg, s, texts, times, replies);
    var ss := SentencesOf(texts);
    ProcessAllExtends(cfg, s, texts, times, replies);
    assert p.buffer.sentences == ss;
    assert ss != [] by {
      SplitIntoSentencesSound(texts[0]);
      assert ss == SplitIntoSentences(texts[0]) + SentencesOf(texts[1..]);
    }
    var p1 := p.(timerStopped := true);
    assert StopSpec(cfg, p) == FlushSpec(cfg, p1, "store").state;
    FlushStoreEmitsOnce(cfg, p1);
    SentencesOfLetters(texts);
  }

  // ---------------------------------------------------------------------
  // The strategy object
  // ---------------------------------------------------------------------

  class TopicGroupingStrategy {
    const hasCallback: bool
    const hasClient: bool
    const shortGap: real
    const maxGap: real
    const maxLifetime: real

    var sentences: seq<string>
    var startTs: Option<real>
    var lastTs: Option<real>
    var status: Status
    var voiceCueFlags: seq<string>
    var accumulatedText: string
    var lastCommandCheck: real
    /** Every call made to `on_group_complete`, oldest first */
    var emitted: seq<Emission>
    var timerStopped: bool

    function Cfg(): Config {
      Config(hasCallback, hasClient, maxGap, maxLifetime)
    }

    function State(): Topic
      reads this
    {
      Topic(Buffer(sentences, startTs, lastTs, status, voiceCueFlags), accumulatedText, lastCommandCheck, emitted, timerStopped)
    }

    /** `__init__`: `now` is the clock reading taken for the last command check */
    constructor (now: real, hasCallback: bool, hasClient: bool,
                 shortGap: real := 0.5, maxGap: real := 3.0, maxLifetime: real := 300.0)
      ensures Cfg() == Config(hasCallback, hasClient, maxGap, maxLifetime) && this.shortGap == shortGap
      ensures State() == Topic(EmptyBuffer, "", now, [], false)
    {
      this.hasCallback := hasCallback;
      this.hasClient := hasClient;
      this.shortGap := shortGap;
      this.maxGap := maxGap;
      this.maxLifetime := maxLifetime;
      sentences := [];
      startTs := None;
      lastTs := None;
      status := Open;
      voiceCueFlags := [];
      accumulatedText := "";
      lastCommandCheck := now;
      emitted := [];
      timerStopped := false;
    }

    /** `get_status` */
    method GetStatus() returns (st: Status)
      ensures st == status
    {
      st := status;
    }

    /** `_reset_buffer` */
    method ResetBuffer()
      modifies this
      ensures State() == old(State()).(buffer := EmptyBuffer)
    {
      sentences := [];
      startTs := None;
      lastTs := None;
      status := Open;
      voiceCueFlags := [];
    }

    /** `flush(action)` */
    method Flush(action: string) returns (r: Option<string>)
      modifies this
      ensures Flushed(State(), r) == FlushSpec(Cfg(), old(State()), action)
    {
      if sentences == [] {
        return None;
      }
      var fullText := Join(sentences);
      if action == "store" && hasCallback {
        var metadata := Metadata("topic", startTs, lastTs, |sentences|, voiceCueFlags, []);
        emitted := emitted + [Emission(fullText, metadata)];
        ResetBuffer();
        return Some(fullText);
      } else if action == "discard" {
        ResetBuffer();
        return None;
      }
      return None;
    }

    /** Append `flag` and flush with "store", when there are sentences */
    method FlagAndFlush(flag: string)
      modifies this
      ensures State() == FlagAndStore(Cfg(), old(State()), flag)
    {
      if sentences != [] {
        voiceCueFlags := voiceCueFlags + [flag];
        var _ := Flush("store");
      }
    }

    /** `process_text(text, timestamp)`; `now` stands for `datetime.now()`
        and `reply` for the command classifier's behaviour if it is asked */
    method ProcessText(text: string, timestamp: Option<real>, now: real, reply: CommandReply)
      modifies this
      ensures State() == ProcessSpec(Cfg(), old(State()), text, timestamp, now, reply)
    {
      if IsBlank(text) {
        return;
      }
      var currentTime := timestamp.GetOr(now);
      accumulatedText := accumulatedText + " " + Strip(text);
      ghost var s1 := State();

      var shouldCheck := false;
      var sinceCheck := currentTime - lastCommandCheck;
      if sinceCheck >= CommandCheckInterval {
        shouldCheck := true;
      } else if lastTs.Some? {
        var gap := currentTime - lastTs.value;
        if gap >= PauseThreshold {
          shouldCheck := true;
        }
      }
      assert shouldCheck == ShouldCheckCommands(s1, currentTime);

      var detected: seq<Command> := [];
      if shouldCheck {
        detected := CheckForCommands(hasClient, accumulatedText, reply);
        lastCommandCheck := currentTime;
        accumulatedText := "";
      }
      assert detected == DetectedCommands(Cfg(), old(State()), text, currentTime, reply);

      var voiceCue, rest := FindVoiceCue(detected, text);
      HandleCue(voiceCue, rest, currentTime);
    }

    /** Lines 154-208 of `process_text`: act on the voice cue, then accept
        the remaining text unless the topic is paused */
    method HandleCue(voiceCue: Option<Cue>, text: string, currentTime: real)
      modifies this
      ensures State() == ApplyCue(Cfg(), old(State()), voiceCue, text, currentTime)
    {
      var t := text;
      if voiceCue.Some? {
        match voiceCue.value {
          case NewNoteCue =>
            FlagAndFlush(ManualSplit);
            t := Strip(RemoveAll(Lower(t), "new note"));
            if t == [] {
              return;
            }
          case DiscardCue =>
            var _ := Flush("discard");
            return;
          case PauseCue =>
            status := Paused;
            return;
          case ResumeCue =>
            status := Open;
            return;
          case FlushCue =>
            FlagAndFlush(ManualFlush);
            return;
        }
      }

      AcceptSentences(t, currentTime);
    }

    /** Lines 190-205 of `process_text`: drop the text while paused,
        otherwise stamp the buffer and append the sentences of `text` */
    method AcceptSentences(text: string, currentTime: real)
      modifies this
      ensures State() == old(State()).(buffer := AcceptText(old(State()).buffer, text, currentTime))
    {
      if status == Paused {
        return;
      }
      var start := startTs;
      if start.None? {
        start := Some(currentTime);
      }
      var newSentences := SplitIntoSentences(text);
      var extended := sentences + newSentences;
      sentences, startTs, lastTs := extended, start, Some(currentTime);
    }

    /** `_process_detected_commands` */
    method ProcessDetectedCommands(commands: seq<Command>)
      modifies this
      ensures State() == ApplyDetected(Cfg(), old(State()), commands)
    {
      var i := 0;
      while i < |commands|
        invariant 0 <= i <= |commands|
        invariant State() == old(State())
        invariant forall j :: 0 <= j < i ==> commands[j].confidence < CommandThreshold
      {
        if commands[i].confidence >= CommandThreshold {
          assert FirstActionable(commands) == Some(i);
          match commands[i].cue {
            case NewNoteCue => FlagAndFlush(ManualSplit);
            case DiscardCue => var _ := Flush("discard");
            case FlushCue => FlagAndFlush(ManualFlush);
            case PauseCue =>
            case ResumeCue =>
          }
          return;
        }
        i := i + 1;
      }
    }

    /** One iteration of `_timer_worker` at time `now` */
    method Tick(now: real, reply: CommandReply)
      modifies this
      ensures State() == TickSpec(Cfg(), old(State()), now, reply)
    {
      if timerStopped {
        return;
      }
      var shouldCheck := now - lastCommandCheck >= CommandCheckInterval && !IsBlank(accumulatedText) && status != Paused;
      if shouldCheck {
        var commands := CheckForCommands(hasClient, accumulatedText, reply);
        lastCommandCheck := now;
        accumulatedText := "";
        if commands != [] {
          ProcessDetectedCommands(commands);
        }
      }
      CheckTimeouts(now);
    }

    /** The timeout half of `_timer_worker` */
    method CheckTimeouts(now: real)
      modifies this
      ensures State() == Timeouts(Cfg(), old(State()), now)
    {
      if sentences == [] || status == Paused {
        return;
      }
      if lastTs.Some? {
        var gap := now - lastTs.value;
        if gap > maxGap {
          voiceCueFlags := voiceCueFlags + [MaxGapExceeded];
          var _ := Flush("store");
          return;
        }
      }
      if startTs.Some? {
        var lifetime := now - startTs.value;
        if lifetime > maxLifetime {
          voiceCueFlags := voiceCueFlags + [MaxLifetimeExceeded];
          var _ := Flush("store");
          return;
        }
      }
    }

    /** `stop()` */
    method Stop()
      modifies this
      ensures State() == StopSpec(Cfg(), old(State()))
    {
      timerStopped := true;
      if sentences != [] {
        var _ := Flush("store");
      }
    }
  }
}
