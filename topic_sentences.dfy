/** The pure helpers of the topic grouping strategy: sentence splitting, the
    legacy voice-cue matcher, the mapping of the command classifier's tool
    calls to voice cues, and the choice of the command that is acted on. */
module TopicSentences {
  import opened Wrappers
  import opened PyStrings

  // ---------------------------------------------------------------------
  // Sentence splitting: re.split(r'(?<=[.!?])\s+', text.strip()), then
  // every piece stripped and the empty ones dropped.
  // ---------------------------------------------------------------------

  predicate IsTerminal(c: char) {
    c == '.' || c == '!' || c == '?'
  }

  /** The pattern `(?<=[.!?])\s+` can start a match at index `i` of `t` */
  predicate IsBreak(t: string, i: int) {
    0 < i < |t| && IsTerminal(t[i - 1]) && IsSpace(t[i])
  }

  /** The leftmost break of `t` at or after `from` */
  function FirstBreak(t: string, from: nat): (k: Option<nat>)
    ensures k.None? ==> forall i :: from <= i ==> !IsBreak(t, i)
    ensures k.Some? ==> from <= k.value < |t| && IsBreak(t, k.value)
    ensures k.Some? ==> forall i :: from <= i < k.value ==> !IsBreak(t, i)
    decreases |t| - from
  {
    if from >= |t| then None
    else if IsBreak(t, from) then Some(from)
    else FirstBreak(t, from + 1)
  }

  /** End of the whitespace run starting at `i` (the greedy `\s+`) */
  function SpaceRunEnd(t: string, i: nat): (j: nat)
    requires i <= |t|
    ensures i <= j <= |t| && AllSpace(t[i..j])
    ensures j == |t| || !IsSpace(t[j])
    ensures i < |t| && IsSpace(t[i]) ==> i < j
    decreases |t| - i
  {
    if i < |t| && IsSpace(t[i]) then
      var j := SpaceRunEnd(t, i + 1);
      assert t[i..j] == [t[i]] + t[i + 1..j];
      j
    else i
  }

  /** `re.split(r'(?<=[.!?])\s+', t)`: cut `t` at every whitespace run that
      follows a terminal punctuation mark, dropping the run */
  function RegexSplit(t: string): (pieces: seq<string>)
    ensures pieces != []
    decreases |t|
  {
    match FirstBreak(t, 0)
    case None => [t]
    case Some(i) => [t[..i]] + RegexSplit(t[SpaceRunEnd(t, i)..])
  }

  /** `[s.strip() for s in pieces if s.strip()]` */
  function KeepStripped(pieces: seq<string>): seq<string> {
    if pieces == [] then []
    else if Strip(pieces[0]) == [] then KeepStripped(pieces[1..])
    else [Strip(pieces[0])] + KeepStripped(pieces[1..])
  }

  /** The characters of `s` that are not whitespace */
  function Letters(s: string): string {
    if s == [] then []
    else if IsSpace(s[0]) then Letters(s[1..])
    else [s[0]] + Letters(s[1..])
  }

  /** `_split_into_sentences`: the sentences of `text` */
  function SplitIntoSentences(text: string): seq<string> {
    KeepStripped(RegexSplit(Strip(text)))
  }

  /** Every sentence is non-empty and stripped, every sentence but the last
      ends in `.`, `!` or `?`, no sentence holds a further split point, no
      non-blank character of `text` is lost or added, and only blank text has
      no sentences */
  lemma SplitIntoSentencesSound(text: string)
    ensures var r := SplitIntoSentences(text);
      && (forall i :: 0 <= i < |r| ==> r[i] != [] && IsStripped(r[i]))
      && (forall i :: 0 <= i < |r| - 1 ==> IsTerminal(Last(r[i])))
      && (forall i, k :: 0 <= i < |r| ==> !IsBreak(r[i], k))
      && Letters(Join(r)) == Letters(text)
      && (r == [] <==> IsBlank(text))
  {
    var t := Strip(text);
    var r := SplitIntoSentences(text);
    StripLetters(text);
    if t == [] {
      assert RegexSplit(t) == [[]];
      assert KeepStripped([[]]) == [];
      assert r == [];
    } else {
      var ps := RegexSplit(t);
      RegexSplitPieces(t);
      RegexSplitLetters(t);
      KeepStrippedOfStripped(ps);
      assert r == ps;
    }
  }

  lemma {:induction false} LettersAppend(a: string, b: string)
    ensures Letters(a + b) == Letters(a) + Letters(b)
  {
    if a == [] {
      assert a + b == b;
    } else {
      LettersAppend(a[1..], b);
      assert (a + b)[0] == a[0];
      assert (a + b)[1..] == a[1..] + b;
      var head := if IsSpace(a[0]) then [] else [a[0]];
      assert Letters(a + b) == head + (Letters(a[1..]) + Letters(b));
    }
  }

  lemma {:induction false} LettersOfSpace(s: string)
    requires AllSpace(s)
    ensures Letters(s) == []
  {
    if s != [] {
      LettersOfSpace(s[1..]);
    }
  }

  /** Stripping keeps every non-blank character */
  lemma StripLetters(s: string)
    ensures Letters(Strip(s)) == Letters(s)
  {
    StripBounds(s);
    var k := StripStart(s);
    var r := Strip(s);
    assert s == s[..k] + r + s[k + |r|..];
    LettersAppend(s[..k] + r, s[k + |r|..]);
    LettersAppend(s[..k], r);
    LettersOfSpace(s[..k]);
    LettersOfSpace(s[k + |r|..]);
  }

  /** Where a stripped text breaks, the piece before the break and the text
      after the whitespace run are both non-empty and stripped */
  lemma BreakSplitsStripped(t: string, i: nat)
    requires t != [] && IsStripped(t) && IsBreak(t, i)
    requires forall k :: 0 <= k < i ==> !IsBreak(t, k)
    ensures SpaceRunEnd(t, i) < |t|
    ensures t[..i] != [] && IsStripped(t[..i]) && IsTerminal(Last(t[..i]))
    ensures forall k :: !IsBreak(t[..i], k)
    ensures t[SpaceRunEnd(t, i)..] != [] && IsStripped(t[SpaceRunEnd(t, i)..])
  {
    var j := SpaceRunEnd(t, i);
    assert t[i..j][j - 1 - i] == t[j - 1];
    assert IsSpace(t[j - 1]);
    forall k ensures !IsBreak(t[..i], k) {
      if IsBreak(t[..i], k) {
        assert IsBreak(t, k);
      }
    }
  }

  /** On a stripped non-empty text, the regular-expression split already
      yields non-empty stripped pieces with the sentence properties */
  lemma {:induction false} RegexSplitPieces(t: string)
    requires t != [] && IsStripped(t)
    ensures var ps := RegexSplit(t);
      && (forall i :: 0 <= i < |ps| ==> ps[i] != [] && IsStripped(ps[i]))
      && (forall i :: 0 <= i < |ps| - 1 ==> IsTerminal(Last(ps[i])))
      && (forall i, k :: 0 <= i < |ps| ==> !IsBreak(ps[i], k))
    decreases |t|
  {
    match FirstBreak(t, 0)
    case None =>
      assert RegexSplit(t) == [t];
    case Some(i) =>
      BreakSplitsStripped(t, i);
      var rest := t[SpaceRunEnd(t, i)..];
      RegexSplitPieces(rest);
      assert RegexSplit(t) == [t[..i]] + RegexSplit(rest);
  }

  /** The regular-expression split of a stripped text drops only whitespace */
  lemma {:induction false} RegexSplitLetters(t: string)
    requires t != [] && IsStripped(t)
    ensures Letters(Join(RegexSplit(t))) == Letters(t)
    decreases |t|
  {
    match FirstBreak(t, 0)
    case None =>
      assert RegexSplit(t) == [t];
    case Some(i) =>
      BreakSplitsStripped(t, i);
      var j := SpaceRunEnd(t, i);
      var p, rest := t[..i], t[j..];
      RegexSplitLetters(rest);
      var tail := RegexSplit(rest);
      assert RegexSplit(t) == [p] + tail;
      JoinAppend([p], tail);
      LettersAppend(p + " ", Join(tail));
      LettersAppend(p, " ");
      assert Letters(" ") == [];
      assert t[..j] == p + t[i..j];
      assert t == t[..j] + rest;
      LettersAppend(p + t[i..j], rest);
      LettersAppend(p, t[i..j]);
      LettersOfSpace(t[i..j]);
  }

  lemma {:induction false} KeepStrippedOfStripped(pieces: seq<string>)
    requires forall i :: 0 <= i < |pieces| ==> pieces[i] != [] && IsStripped(pieces[i])
    ensures KeepStripped(pieces) == pieces
  {
    if pieces != [] {
      var p, rest := pieces[0], pieces[1..];
      assert forall i :: 0 <= i < |rest| ==> rest[i] != [] && IsStripped(rest[i]) by {
        forall i | 0 <= i < |rest|
          ensures rest[i] != [] && IsStripped(rest[i])
        {
          assert rest[i] == pieces[i + 1];
        }
      }
      KeepStrippedOfStripped(rest);
      assert KeepStripped(pieces) == [p] + rest by {
        StripStripped(p);
        assert KeepStripped(pieces) == [Strip(p)] + KeepStripped(rest);
      }
      assert pieces == [p] + rest;
    }
  }

  // ---------------------------------------------------------------------
  // Voice cues and the command classifier
  // ---------------------------------------------------------------------

  /** The internal command names "new_note", "discard", "pause", "resume", "flush" */
  datatype Cue = NewNoteCue | DiscardCue | PauseCue | ResumeCue | FlushCue

  /** One detected command: `{"command", "confidence", "trigger_phrase"}` */
  datatype Command = Command(cue: Cue, confidence: real, triggerPhrase: string)

  /** One tool call of the classifier's reply: the tool name and the
      optional `confidence` and `trigger_phrase` arguments */
  datatype ToolCall = ToolCall(name: string, confidence: Option<real>, triggerPhrase: Option<string>)

  /** What the command classifier did: replied with (possibly no) tool calls,
      or raised (network error, timeout, malformed arguments) */
  datatype CommandReply = Replied(toolCalls: seq<ToolCall>) | Raised

  /** Commands scoring at least this much are acted on */
  const CommandThreshold: real := 0.7

  /** The confidence attached to a command found by the legacy matcher */
  const LegacyConfidence: real := 0.6

  /** Confidence assumed when a tool call gives none */
  const DefaultToolConfidence: real := 0.8

  /** `_detect_voice_cue_legacy`: substring matching on the lower-cased text */
  function LegacyCue(text: string): Option<Cue> {
    LegacyCueOf(Strip(Lower(text)))
  }

  /** The phrase table of the legacy matcher, checked in order; it has no
      phrase for a manual flush */
  function LegacyCueOf(t: string): (cue: Option<Cue>)
    ensures cue != Some(FlushCue)
  {
    if Contains(t, "new note") then Some(NewNoteCue)
    else if Contains(t, "discard that") then Some(DiscardCue)
    else if Contains(t, "pause note") then Some(PauseCue)
    else if Contains(t, "resume note") then Some(ResumeCue)
    else None
  }

  /** The legacy matcher ignores case */
  lemma LegacyCueIgnoresCase(text: string)
    ensures LegacyCue(Lower(text)) == LegacyCue(text)
  {
    LowerIdempotent(text);
  }

  /** The tool-name map of `_check_for_commands` */
  function ToolCue(name: string): Option<Cue> {
    if name == "new_note" then Some(NewNoteCue)
    else if name == "discard_previous" then Some(DiscardCue)
    else if name == "flush_current" then Some(FlushCue)
    else None
  }

  /** The commands built from the tool calls whose names the map knows, in
      order; none of them is a pause or a resume */
  function MapToolCalls(calls: seq<ToolCall>): (cmds: seq<Command>)
    ensures |cmds| <= |calls|
    ensures forall i :: 0 <= i < |cmds| ==> cmds[i].cue != PauseCue && cmds[i].cue != ResumeCue
    ensures (forall i :: 0 <= i < |calls| ==> ToolCue(calls[i].name).None?) ==> cmds == []
  {
    if calls == [] then []
    else
      var c := calls[0];
      var rest := MapToolCalls(calls[1..]);
      match ToolCue(c.name)
      case None => rest
      case Some(cue) =>
        [Command(cue, c.confidence.GetOr(DefaultToolConfidence), c.triggerPhrase.GetOr(""))] + rest
  }

  /** `_check_for_commands` with the classifier's behaviour as `reply`: no
      client or blank accumulated text gives no commands; a reply is mapped
      tool call by tool call; a raised call falls back to the legacy matcher */
  function CheckForCommands(hasClient: bool, accumulated: string, reply: CommandReply): seq<Command> {
    if !hasClient || IsBlank(accumulated) then []
    else match reply
      case Replied(calls) => MapToolCalls(calls)
      case Raised =>
        match LegacyCue(accumulated)
        case None => []
        case Some(cue) => [Command(cue, LegacyConfidence, Strip(accumulated))]
  }

  /** Index of the first command whose confidence reaches the threshold */
  function FirstActionable(cmds: seq<Command>): (k: Option<nat>)
    ensures k.Some? ==> k.value < |cmds| && cmds[k.value].confidence >= CommandThreshold
    ensures k.Some? ==> forall j :: 0 <= j < k.value ==> cmds[j].confidence < CommandThreshold
    ensures k.None? ==> forall j :: 0 <= j < |cmds| ==> cmds[j].confidence < CommandThreshold
  {
    if cmds == [] then None
    else if cmds[0].confidence >= CommandThreshold then Some(0)
    else match FirstActionable(cmds[1..])
      case None => None
      case Some(k) => Some(k + 1)
  }

  /** The voice cue that is acted on, if any */
  function ActedCue(cmds: seq<Command>): Option<Cue> {
    match FirstActionable(cmds)
    case None => None
    case Some(k) => Some(cmds[k].cue)
  }

  /** Commands found by the legacy fallback (confidence 0.6) are never acted on */
  lemma FallbackNeverActedOn(hasClient: bool, accumulated: string)
    ensures ActedCue(CheckForCommands(hasClient, accumulated, Raised)) == None
  {
  }

  /** No reply of the command classifier can make the strategy pause or resume */
  lemma PauseResumeNeverActedOn(hasClient: bool, accumulated: string, reply: CommandReply)
    ensures ActedCue(CheckForCommands(hasClient, accumulated, reply)) != Some(PauseCue)
    ensures ActedCue(CheckForCommands(hasClient, accumulated, reply)) != Some(ResumeCue)
  {
    if reply.Raised? {
      FallbackNeverActedOn(hasClient, accumulated);
    }
  }
}
