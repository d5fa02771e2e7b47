/** What the two versions of `ThoughtCompletionDetector` share: the
    analyser's verdict, the queued `(text, result)` pairs, the rule by which
    a verdict is accepted for the current partial text, and the drain of the
    result queue that stops at the first accepted verdict. */
module ThoughtReconcile {
  import opened Wrappers
  import opened PyStrings

  /** A confidence score; the analysis model validates it into [0, 1] */
  type Confidence = c: real | 0.0 <= c <= 1.0

  /** `ThoughtAnalysis` */
  datatype Analysis = Analysis(isComplete: bool, confidence: Confidence, reasoning: string)

  /** One item of `result_queue`: the analysed text and the analyser's
      verdict, `None` when the analysis failed */
  datatype Verdict = Verdict(text: string, result: Option<Analysis>)

  /** Texts whose stripped form is shorter than this are never analysed */
  const MinAnalyzedLength: nat := 3

  /** The worker analyses `text` only when `len(text.strip()) >= 3` */
  predicate IsAnalyzable(text: string) {
    |Strip(text)| >= MinAnalyzedLength
  }

  /** `result and text == accumulated_partial and result.is_complete and
      result.confidence > threshold` */
  predicate Accepts(v: Verdict, partial: string, threshold: real) {
    v.result.Some? && v.text == partial && v.result.value.isComplete && v.result.value.confidence > threshold
  }

  /** Index of the first verdict of `q` that is accepted for `partial` */
  function FirstAccepted(q: seq<Verdict>, partial: string, threshold: real): (r: Option<nat>)
    ensures r.Some? ==> r.value < |q| && Accepts(q[r.value], partial, threshold)
    ensures r.Some? ==> forall j :: 0 <= j < r.value ==> !Accepts(q[j], partial, threshold)
    ensures r.None? ==> forall j :: 0 <= j < |q| ==> !Accepts(q[j], partial, threshold)
    decreases |q|
  {
    if q == [] then None
    else if Accepts(q[0], partial, threshold) then Some(0)
    else
      match FirstAccepted(q[1..], partial, threshold)
      case Some(i) => Some(i + 1)
      case None => None
  }

  /** The outcome of draining the result queue: the accepted thought, if
      any, and what is left in the queue */
  datatype Drained = Drained(found: Option<(string, Analysis)>, left: seq<Verdict>)

  /** The `while True: get_nowait()` loop of `process_text`: verdicts are
      taken in order; the first accepted one is returned and the rest stay
      queued; when none is accepted the queue ends empty */
  function Drain(q: seq<Verdict>, partial: string, threshold: real): Drained {
    match FirstAccepted(q, partial, threshold)
    case Some(i) => Drained(Some((q[i].text, q[i].result.value)), q[i + 1..])
    case None => Drained(None, [])
  }

  /** A thought is returned exactly when some queued verdict is accepted;
      it is then the text and analysis of the first such verdict, and only
      the verdicts after it remain queued. Otherwise every verdict is
      consumed. */
  lemma DrainSound(q: seq<Verdict>, partial: string, threshold: real)
    ensures Drain(q, partial, threshold).found.Some?
            <==> exists j :: 0 <= j < |q| && Accepts(q[j], partial, threshold)
    ensures Drain(q, partial, threshold).found.None? ==> Drain(q, partial, threshold).left == []
    ensures Drain(q, partial, threshold).found.Some? ==>
              var (t, a) := Drain(q, partial, threshold).found.value;
              t == partial && a.isComplete && a.confidence > threshold &&
              exists i :: 0 <= i < |q| && q[i] == Verdict(t, Some(a)) &&
                          Drain(q, partial, threshold).left == q[i + 1..] &&
                          forall j :: 0 <= j < i ==> !Accepts(q[j], partial, threshold)
  {
    match FirstAccepted(q, partial, threshold)
    case Some(i) =>
      assert q[i] == Verdict(q[i].text, Some(q[i].result.value));
    case None =>
  }

  /** What is left after the drain is always a suffix of the queue */
  lemma DrainLeavesSuffix(q: seq<Verdict>, partial: string, threshold: real)
    ensures var left := Drain(q, partial, threshold).left;
            |left| <= |q| && left == q[|q| - |left|..]
  {
  }

  /** Every queued verdict is for a text the worker agreed to analyse */
  predicate AllAnalyzable(q: seq<Verdict>) {
    forall i :: 0 <= i < |q| ==> IsAnalyzable(q[i].text)
  }

  /** When every queued verdict is for an analysable text, so is whatever
      the drain leaves, and a thought is only ever accepted for a partial
      text that is itself analysable: a text of fewer than three
      non-blank characters is never a complete thought */
  lemma DrainKeepsAnalyzable(q: seq<Verdict>, partial: string, threshold: real)
    requires AllAnalyzable(q)
    ensures AllAnalyzable(Drain(q, partial, threshold).left)
    ensures Drain(q, partial, threshold).found.Some? ==> IsAnalyzable(partial)
  {
    match FirstAccepted(q, partial, threshold)
    case Some(i) =>
      var left := q[i + 1..];
      assert forall k :: 0 <= k < |left| ==> left[k] == q[i + 1 + k];
    case None =>
  }

  /** The verdicts the worker produces for `texts`, the k-th of which the
      analyser answers with `analyses[k]`: one per analysable text, in order */
  function AnalyzedVerdicts(texts: seq<string>, analyses: seq<Option<Analysis>>): seq<Verdict>
    requires |texts| == |analyses|
    decreases |texts|
  {
    if texts == [] then []
    else if IsAnalyzable(texts[0]) then [Verdict(texts[0], analyses[0])] + AnalyzedVerdicts(texts[1..], analyses[1..])
    else AnalyzedVerdicts(texts[1..], analyses[1..])
  }

  lemma {:induction false} AnalyzedVerdictsAnalyzable(texts: seq<string>, analyses: seq<Option<Analysis>>)
    requires |texts| == |analyses|
    ensures AllAnalyzable(AnalyzedVerdicts(texts, analyses))
    ensures |AnalyzedVerdicts(texts, analyses)| <= |texts|
    decreases |texts|
  {
    if texts != [] {
      AnalyzedVerdictsAnalyzable(texts[1..], analyses[1..]);
    }
  }
}
