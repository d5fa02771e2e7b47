/** The earlier `ThoughtCompletionDetector` of
    thought_detector_phase1_backup.py. It differs from the current one in
    three ways: a text is queued for analysis only when it is longer than
    the last text queued, acceptance needs confidence above 0.8, and the
    worker also records each successful analysis in a dictionary keyed by
    text that `wait_for_result` reads. */
module ThoughtDetectorPhase1 {
  import opened Wrappers
  import opened PyStrings
  import opened ThoughtReconcile

  /** `result.confidence > 0.8` */
  const Threshold: real := 0.8

  /** The detector's state: the current partial text, the last complete
      thought, the last text queued for analysis, the two queues, the
      `results` dictionary, and whether the worker runs */
  datatype Detector = Detector(
    partial: string,
    lastComplete: string,
    lastAnalyzed: string,
    processing: seq<string>,
    results: seq<Verdict>,
    stored: map<string, Analysis>,
    running: bool)

  /** The state right after `__init__`, which starts the worker */
  const Initial: Detector := Detector("", "", "", [], [], map[], true)

  /** One iteration of `_worker`. `analysis` is what `_analyze_text` returns
      for the dequeued text; a successful analysis is also stored under that
      text, replacing any earlier one. */
  function WorkerSpec(d: Detector, analysis: Option<Analysis>): Detector {
    if !d.running || d.processing == [] then d
    else
      var text := d.processing[0];
      var popped := d.(processing := d.processing[1..]);
      if !IsAnalyzable(text) then popped
      else
        var stored := if analysis.Some? then d.stored[text := analysis.value] else d.stored;
        popped.(results := d.results + [Verdict(text, analysis)], stored := stored)
  }

  /** `len(new_text) > len(self.last_analyzed_text)` */
  predicate Grows(d: Detector, newText: string) {
    |newText| > |d.lastAnalyzed|
  }

  /** The first part of `process_text`: the partial text is replaced, and
      the new text is queued only when it is longer than the last text queued */
  function Submitted(d: Detector, newText: string): Detector {
    var guarded :=
      if Grows(d, newText) then d.(lastAnalyzed := newText, processing := d.processing + [newText]) else d;
    guarded.(partial := newText)
  }

  /** `process_text(new_text)`: the new state and the returned thought */
  function ProcessSpec(d: Detector, newText: string): (Detector, Option<(string, Analysis)>) {
    var queued := Submitted(d, newText);
    var out := Drain(d.results, newText, Threshold);
    match out.found
    case Some(thought) =>
      (queued.(partial := "", lastAnalyzed := "", lastComplete := thought.0, results := out.left), out.found)
    case None => (queued.(results := out.left), None)
  }

  /** `wait_for_result(text)`: the text is queued once more, and the answer
      is whatever the dictionary holds for exactly that text when it is
      looked up (the polling until the timeout is not modelled) */
  function WaitSpec(d: Detector, text: string): (Detector, Option<Analysis>) {
    (d.(processing := d.processing + [text]), if text in d.stored then Some(d.stored[text]) else None)
  }

  /** `stop` */
  function StopSpec(d: Detector): Detector {
    d.(running := false)
  }

  /** A text is queued exactly when it is longer than the last text queued,
      and it then becomes the last text queued; otherwise neither changes.
      Acceptance works as in the current detector, with the 0.8 threshold,
      and also clears the last text queued. */
  lemma ProcessSound(d: Detector, newText: string)
    ensures ProcessSpec(d, newText).0.processing
            == if Grows(d, newText) then d.processing + [newText] else d.processing
    ensures ProcessSpec(d, newText).1.None? ==>
              ProcessSpec(d, newText).0.partial == newText &&
              ProcessSpec(d, newText).0.results == [] &&
              ProcessSpec(d, newText).0.lastAnalyzed == (if Grows(d, newText) then newText else d.lastAnalyzed)
    ensures ProcessSpec(d, newText).1.Some?
            <==> exists j :: 0 <= j < |d.results| && Accepts(d.results[j], newText, Threshold)
    ensures ProcessSpec(d, newText).1.Some? ==>
              var (d', (t, a)) := (ProcessSpec(d, newText).0, ProcessSpec(d, newText).1.value);
              t == newText && a.isComplete && a.confidence > Threshold &&
              d'.partial == "" && d'.lastAnalyzed == "" && d'.lastComplete == newText &&
              exists i :: 0 <= i < |d.results| && d.results[i] == Verdict(newText, Some(a)) &&
                          d'.results == d.results[i + 1..] &&
                          forall j :: 0 <= j < i ==> !Accepts(d.results[j], newText, Threshold)
    ensures ProcessSpec(d, newText).0.stored == d.stored && ProcessSpec(d, newText).0.running == d.running
  {
    DrainSound(d.results, newText, Threshold);
  }

  /** Between acceptances the last text queued only grows in length, so a
      text no longer than it is never queued again */
  lemma LastAnalyzedGrows(d: Detector, newText: string)
    requires ProcessSpec(d, newText).1.None?
    ensures |ProcessSpec(d, newText).0.lastAnalyzed| >= |d.lastAnalyzed|
    ensures |newText| <= |d.lastAnalyzed| ==> ProcessSpec(d, newText).0.processing == d.processing
  {
    ProcessSound(d, newText);
  }

  /** After an acceptance the length guard is reset, so the next non-empty
      text is queued again */
  lemma ResubmitAfterAcceptance(d: Detector, newText: string, nextText: string)
    requires ProcessSpec(d, newText).1.Some?
    requires nextText != []
    ensures var d' := ProcessSpec(d, newText).0;
            ProcessSpec(d', nextText).0.processing == d'.processing + [nextText]
  {
    ProcessSound(d, newText);
  }

  /** `wait_for_result` answers only with the analysis stored for exactly
      the requested text, and answers `None` exactly when there is none */
  lemma WaitSound(d: Detector, text: string)
    ensures WaitSpec(d, text).1.Some? ==> text in d.stored && WaitSpec(d, text).1.value == d.stored[text]
    ensures WaitSpec(d, text).1.None? <==> text !in d.stored
    ensures WaitSpec(d, text).0.processing == d.processing + [text]
  {
  }

  /** The worker run once per analyser answer in `analyses` */
  function RunWorker(d: Detector, analyses: seq<Option<Analysis>>): Detector
    decreases |analyses|
  {
    if analyses == [] then d else RunWorker(WorkerSpec(d, analyses[0]), analyses[1..])
  }

  /** Running the worker over the whole work queue empties it, appends one
      verdict per analysable text in queue order, and leaves every
      successfully analysed text with an entry in the dictionary */
  lemma {:induction false} WorkerDrainsQueue(d: Detector, analyses: seq<Option<Analysis>>)
    requires d.running && |analyses| == |d.processing|
    ensures RunWorker(d, analyses).processing == []
    ensures RunWorker(d, analyses).results == d.results + AnalyzedVerdicts(d.processing, analyses)
    ensures d.stored.Keys <= RunWorker(d, analyses).stored.Keys
    ensures forall k :: 0 <= k < |analyses| && IsAnalyzable(d.processing[k]) && analyses[k].Some? ==>
                          d.processing[k] in RunWorker(d, analyses).stored
    decreases |analyses|
  {
    if analyses != [] {
      var next := WorkerSpec(d, analyses[0]);
      WorkerDrainsQueue(next, analyses[1..]);
      var tail := AnalyzedVerdicts(d.processing[1..], analyses[1..]);
      if IsAnalyzable(d.processing[0]) {
        assert d.results + [Verdict(d.processing[0], analyses[0])] + tail
            == d.results + ([Verdict(d.processing[0], analyses[0])] + tail);
      }
      forall k | 0 <= k < |analyses| && IsAnalyzable(d.processing[k]) && analyses[k].Some?
        ensures d.processing[k] in RunWorker(d, analyses).stored
      {
        if k > 0 {
          assert d.processing[k] == next.processing[k - 1] && analyses[k] == analyses[1..][k - 1];
        }
      }
    }
  }

  /** A text that the worker never analyses successfully while draining the
      queue keeps whatever the dictionary held for it before */
  lemma {:induction false} WorkerKeepsUnanalysed(d: Detector, analyses: seq<Option<Analysis>>, t: string)
    requires d.running && |analyses| == |d.processing|
    requires !IsAnalyzable(t) || forall j :: 0 <= j < |analyses| && d.processing[j] == t ==> analyses[j].None?
    ensures t in RunWorker(d, analyses).stored <==> t in d.stored
    ensures t in d.stored ==> RunWorker(d, analyses).stored[t] == d.stored[t]
    decreases |analyses|
  {
    if analyses != [] {
      var next := WorkerSpec(d, analyses[0]);
      assert d.processing[0] == t ==> !IsAnalyzable(t) || analyses[0].None?;
      assert t in next.stored <==> t in d.stored;
      assert t in d.stored ==> next.stored[t] == d.stored[t];
      forall j | 0 <= j < |analyses[1..]| && next.processing[j] == t
        ensures !IsAnalyzable(t) || analyses[1..][j].None?
      {
        assert next.processing[j] == d.processing[j + 1];
      }
      WorkerKeepsUnanalysed(next, analyses[1..], t);
    }
  }

  /** After the queue is drained, a text holds the analysis of its last
      successful occurrence in the queue: a later analysis replaces an
      earlier one */
  lemma {:induction false} WorkerStoresLast(d: Detector, analyses: seq<Option<Analysis>>, k: nat)
    requires d.running && |analyses| == |d.processing| && k < |analyses|
    requires IsAnalyzable(d.processing[k]) && analyses[k].Some?
    requires forall j :: k < j < |analyses| && d.processing[j] == d.processing[k] ==> analyses[j].None?
    ensures d.processing[k] in RunWorker(d, analyses).stored
    ensures RunWorker(d, analyses).stored[d.processing[k]] == analyses[k].value
    decreases |analyses|
  {
    var t := d.processing[k];
    var next := WorkerSpec(d, analyses[0]);
    if k == 0 {
      assert next.stored == d.stored[t := analyses[0].value];
      forall j | 0 <= j < |analyses[1..]| && next.processing[j] == t
        ensures analyses[1..][j].None?
      {
        assert next.processing[j] == d.processing[j + 1];
      }
      WorkerKeepsUnanalysed(next, analyses[1..], t);
    } else {
      assert next.processing[k - 1] == t;
      forall j | k - 1 < j < |analyses[1..]| && next.processing[j] == t
        ensures analyses[1..][j].None?
      {
        assert next.processing[j] == d.processing[j + 1];
      }
      WorkerStoresLast(next, analyses[1..], k - 1);
    }
  }

  /** A stored analysis is only ever replaced by the worker: `process_text`
      and `wait_for_result` leave the dictionary as it is */
  lemma StoredOnlyByWorker(d: Detector, text: string, analysis: Option<Analysis>)
    ensures ProcessSpec(d, text).0.stored == d.stored
    ensures WaitSpec(d, text).0.stored == d.stored
    ensures d.running && d.processing != [] && IsAnalyzable(d.processing[0]) && analysis.Some? ==>
              WorkerSpec(d, analysis).stored == d.stored[d.processing[0] := analysis.value]
    ensures !(d.running && d.processing != [] && IsAnalyzable(d.processing[0]) && analysis.Some?) ==>
              WorkerSpec(d, analysis).stored == d.stored
  {
  }

  /** Every queued verdict is for an analysable text */
  predicate Valid(d: Detector) {
    AllAnalyzable(d.results)
  }

  lemma InitialValid()
    ensures Valid(Initial)
  {
  }

  lemma WorkerPreservesValid(d: Detector, analysis: Option<Analysis>)
    requires Valid(d)
    ensures Valid(WorkerSpec(d, analysis))
  {
    if d.running && d.processing != [] && IsAnalyzable(d.processing[0]) {
      var r := d.results + [Verdict(d.processing[0], analysis)];
      assert forall i :: 0 <= i < |d.results| ==> r[i] == d.results[i];
    }
  }

  /** `process_text` keeps the invariant, and in a valid state it never
      returns a thought for a text with fewer than three non-blank
      characters */
  lemma ProcessPreservesValid(d: Detector, newText: string)
    requires Valid(d)
    ensures Valid(ProcessSpec(d, newText).0)
    ensures ProcessSpec(d, newText).1.Some? ==> IsAnalyzable(newText)
  {
    DrainKeepsAnalyzable(d.results, newText, Threshold);
  }

  // ---------------------------------------------------------------------
  // The detector object
  // ---------------------------------------------------------------------

  class ThoughtCompletionDetector {
    var accumulatedPartial: string
    var lastCompleteThought: string
    var lastAnalyzedText: string
    var processingQueue: seq<string>
    var resultQueue: seq<Verdict>
    /** The `results` dictionary */
    var results: map<string, Analysis>
    var running: bool

    function State(): Detector
      reads this
    {
      Detector(accumulatedPartial, lastCompleteThought, lastAnalyzedText, processingQueue, resultQueue, results, running)
    }

    /** `__init__` followed by `_start_worker` */
    constructor ()
      ensures State() == Initial
    {
      accumulatedPartial := "";
      lastCompleteThought := "";
      lastAnalyzedText := "";
      processingQueue := [];
      resultQueue := [];
      results := map[];
      running := true;
    }

    /** One iteration of `_worker`, with `analysis` the analyser's answer */
    method WorkerStep(analysis: Option<Analysis>)
      modifies this
      ensures State() == WorkerSpec(old(State()), analysis)
    {
      if !running || processingQueue == [] {
        return;
      }
      var text := processingQueue[0];
      processingQueue := processingQueue[1..];
      if |Strip(text)| < MinAnalyzedLength {
        return;
      }
      if analysis.Some? {
        results := results[text := analysis.value];
      }
      resultQueue := resultQueue + [Verdict(text, analysis)];
    }

    /** `process_text` */
    method ProcessText(newText: string) returns (r: Option<(string, Analysis)>)
      modifies this
      ensures (State(), r) == ProcessSpec(old(State()), newText)
    {
      Submit(newText);
      ghost var submitted := State();
      ghost var q := resultQueue;
      ghost var i := 0;
      while resultQueue != []
        invariant 0 <= i <= |q| && resultQueue == q[i..]
        invariant forall j :: 0 <= j < i ==> !Accepts(q[j], newText, Threshold)
        invariant State() == submitted.(results := q[i..])
        decreases |resultQueue|
      {
        var v := resultQueue[0];
        resultQueue := resultQueue[1..];
        if v.result.Some? && v.text == accumulatedPartial && v.result.value.isComplete && v.result.value.confidence > Threshold {
          assert Accepts(q[i], newText, Threshold);
          assert FirstAccepted(q, newText, Threshold) == Some(i);
          assert Drain(q, newText, Threshold) == Drained(Some((newText, v.result.value)), q[i + 1..]);
          var completeThought := accumulatedPartial;
          lastCompleteThought := completeThought;
          accumulatedPartial := "";
          lastAnalyzedText := "";
          return Some((completeThought, v.result.value));
        }
        i := i + 1;
      }
      assert FirstAccepted(q, newText, Threshold).None?;
      return None;
    }

    /** The submission part of `process_text` */
    method Submit(newText: string)
      modifies this
      ensures State() == Submitted(old(State()), newText)
    {
      accumulatedPartial := newText;
      if |newText| > |lastAnalyzedText| {
        lastAnalyzedText := newText;
        processingQueue := processingQueue + [newText];
      }
    }

    /** `wait_for_result(text)` */
    method WaitForResult(text: string) returns (r: Option<Analysis>)
      modifies this
      ensures (State(), r) == WaitSpec(old(State()), text)
    {
      processingQueue := processingQueue + [text];
      if text in results {
        return Some(results[text]);
      }
      return None;
    }

    /** `stop`; joining the worker thread is not modelled */
    method Stop()
      modifies this
      ensures State() == StopSpec(old(State()))
    {
      running := false;
    }
  }
}
