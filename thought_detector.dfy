/** `ThoughtCompletionDetector` of thought_detector.py: every update of the
    transcribed partial text is queued for analysis, a worker turns queued
    texts into verdicts, and `process_text` accepts the first queued verdict
    that says the current partial text is complete with confidence above
    0.7. */
module ThoughtDetector {
  import opened Wrappers
  import opened PyStrings
  import opened ThoughtReconcile

  /** `result.confidence > 0.7` */
  const Threshold: real := 0.7

  /** The detector's state: the current partial text, the last complete
      thought, the work queue, the result queue, and whether the worker runs */
  datatype Detector = Detector(
    partial: string,
    lastComplete: string,
    processing: seq<string>,
    results: seq<Verdict>,
    running: bool)

  /** The state right after `__init__`, which starts the worker */
  const Initial: Detector := Detector("", "", [], [], true)

  /** One iteration of `_worker`. `analysis` is what `_analyze_text` returns
      for the dequeued text (`None` when the call fails). An empty work queue
      or a stopped worker changes nothing. */
  function WorkerSpec(d: Detector, analysis: Option<Analysis>): Detector {
    if !d.running || d.processing == [] then d
    else
      var text := d.processing[0];
      var popped := d.(processing := d.processing[1..]);
      if IsAnalyzable(text) then popped.(results := d.results + [Verdict(text, analysis)]) else popped
  }

  /** `process_text(new_text)`: the new state and the returned thought */
  function ProcessSpec(d: Detector, newText: string): (Detector, Option<(string, Analysis)>) {
    var queued := d.(partial := newText, processing := d.processing + [newText]);
    var out := Drain(d.results, newText, Threshold);
    match out.found
    case Some(thought) => (queued.(partial := "", lastComplete := thought.0, results := out.left), out.found)
    case None => (queued.(results := out.left), None)
  }

  /** `stop` */
  function StopSpec(d: Detector): Detector {
    d.(running := false)
  }

  /** The worker run once per analyser answer in `analyses` */
  function RunWorker(d: Detector, analyses: seq<Option<Analysis>>): Detector
    decreases |analyses|
  {
    if analyses == [] then d else RunWorker(WorkerSpec(d, analyses[0]), analyses[1..])
  }

  /** Running the worker over the whole work queue empties it and appends
      exactly one verdict per analysable text, in queue order; texts whose
      stripped form is shorter than three characters leave no verdict */
  lemma {:induction false} WorkerDrainsQueue(d: Detector, analyses: seq<Option<Analysis>>)
    requires d.running && |analyses| == |d.processing|
    ensures RunWorker(d, analyses).processing == []
    ensures RunWorker(d, analyses).results == d.results + AnalyzedVerdicts(d.processing, analyses)
    ensures RunWorker(d, analyses).partial == d.partial && RunWorker(d, analyses).lastComplete == d.lastComplete
    decreases |analyses|
  {
    if analyses != [] {
      var next := WorkerSpec(d, analyses[0]);
      WorkerDrainsQueue(next, analyses[1..]);
      var tail := AnalyzedVerdicts(d.processing[1..], analyses[1..]);
      if IsAnalyzable(d.processing[0]) {
        assert d.results + [Verdict(d.processing[0], analyses[0])] + tail
            == d.results + ([Verdict(d.processing[0], analyses[0])] + tail);
      }
    }
  }

  /** `process_text` always queues the new text. It returns a thought
      exactly when a queued verdict is accepted for the new text; the thought
      is then the new text with the first accepted verdict's analysis, it
      becomes the last complete thought, the partial text is cleared, and the
      verdicts after it stay queued. Otherwise the partial text is the new
      text and every verdict has been consumed. */
  lemma ProcessSound(d: Detector, newText: string)
    ensures ProcessSpec(d, newText).0.processing == d.processing + [newText]
    ensures ProcessSpec(d, newText).0.running == d.running
    ensures ProcessSpec(d, newText).1.Some?
            <==> exists j :: 0 <= j < |d.results| && Accepts(d.results[j], newText, Threshold)
    ensures ProcessSpec(d, newText).1.None? ==>
              ProcessSpec(d, newText).0 == d.(partial := newText, processing := d.processing + [newText], results := [])
    ensures ProcessSpec(d, newText).1.Some? ==>
              var (d', (t, a)) := (ProcessSpec(d, newText).0, ProcessSpec(d, newText).1.value);
              t == newText && a.isComplete && a.confidence > Threshold &&
              d'.partial == "" && d'.lastComplete == newText &&
              exists i :: 0 <= i < |d.results| && d.results[i] == Verdict(newText, Some(a)) &&
                          d'.results == d.results[i + 1..] &&
                          forall j :: 0 <= j < i ==> !Accepts(d.results[j], newText, Threshold)
  {
    DrainSound(d.results, newText, Threshold);
  }

  /** Every queued verdict is for an analysable text */
  predicate Valid(d: Detector) {
    AllAnalyzable(d.results)
  }

  lemma InitialValid()
    ensures Valid(Initial)
  {
  }

  lemma WorkerPreservesValid(d: Detector, analysis: Option<Analysis>)
    requires Valid(d)
    ensures Valid(WorkerSpec(d, analysis))
  {
    if d.running && d.processing != [] && IsAnalyzable(d.processing[0]) {
      var r := d.results + [Verdict(d.processing[0], analysis)];
      assert forall i :: 0 <= i < |d.results| ==> r[i] == d.results[i];
    }
  }

  /** `process_text` keeps the invariant, and in a valid state it never
      returns a thought for a text with fewer than three non-blank
      characters */
  lemma ProcessPreservesValid(d: Detector, newText: string)
    requires Valid(d)
    ensures Valid(ProcessSpec(d, newText).0)
    ensures ProcessSpec(d, newText).1.Some? ==> IsAnalyzable(newText)
  {
    DrainKeepsAnalyzable(d.results, newText, Threshold);
  }

  /** Once stopped, the worker changes nothing */
  lemma StoppedWorkerIdle(d: Detector, analysis: Option<Analysis>)
    ensures WorkerSpec(StopSpec(d), analysis) == StopSpec(d)
  {
  }

  // ---------------------------------------------------------------------
  // The detector object
  // ---------------------------------------------------------------------

  class ThoughtCompletionDetector {
    var accumulatedPartial: string
    var lastCompleteThought: string
    var processingQueue: seq<string>
    var resultQueue: seq<Verdict>
    var running: bool

    function State(): Detector
      reads this
    {
      Detector(accumulatedPartial, lastCompleteThought, processingQueue, resultQueue, running)
    }

    /** `__init__` followed by `_start_worker` */
    constructor ()
      ensures State() == Initial
    {
      accumulatedPartial := "";
      lastCompleteThought := "";
      processingQueue := [];
      resultQueue := [];
      running := true;
    }

    /** One iteration of `_worker`, with `analysis` the analyser's answer */
    method WorkerStep(analysis: Option<Analysis>)
      modifies this
      ensures State() == WorkerSpec(old(State()), analysis)
    {
      if !running || processingQueue == [] {
        return;
      }
      var text := processingQueue[0];
      processingQueue := processingQueue[1..];
      if |Strip(text)| < MinAnalyzedLength {
        return;
      }
      resultQueue := resultQueue + [Verdict(text, analysis)];
    }

    /** `process_text` */
    method ProcessText(newText: string) returns (r: Option<(string, Analysis)>)
      modifies this
      ensures (State(), r) == ProcessSpec(old(State()), newText)
    {
      accumulatedPartial := newText;
      processingQueue := processingQueue + [newText];
      ghost var q := resultQueue;
      ghost var i := 0;
      while resultQueue != []
        invariant 0 <= i <= |q| && resultQueue == q[i..]
        invariant forall j :: 0 <= j < i ==> !Accepts(q[j], newText, Threshold)
        invariant State() == old(State()).(partial := newText, processing := old(processingQueue) + [newText], results := q[i..])
        decreases |resultQueue|
      {
        var v := resultQueue[0];
        resultQueue := resultQueue[1..];
        if v.result.Some? && v.text == accumulatedPartial && v.result.value.isComplete && v.result.value.confidence > Threshold {
          assert Accepts(q[i], newText, Threshold);
          assert FirstAccepted(q, newText, Threshold) == Some(i);
          var completeThought := accumulatedPartial;
          lastCompleteThought := completeThought;
          accumulatedPartial := "";
          return Some((completeThought, v.result.value));
        }
        i := i + 1;
      }
      assert FirstAccepted(q, newText, Threshold).None?;
      return None;
    }

    /** `stop`; joining the worker thread is not modelled */
    method Stop()
      modifies this
      ensures State() == StopSpec(old(State()))
    {
      running := false;
    }
  }
}
