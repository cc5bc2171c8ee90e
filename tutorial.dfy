/** The four-step tutorial panel: a fixed table indexed by the current step,
    with no bound check at the lookup. */
module Tutorial {

  const StepCount: nat := 4

  /** Step titles, in button order. */
  const StepTitles: seq<string> := ["Intuition", "Error", "Fit", "Predict"]

  /** A step the table can be indexed with. */
  predicate ValidStep(step: int)
  {
    0 <= step < StepCount
  }

  /** The title shown for a step; only valid steps can be looked up. */
  function StepTitle(step: int): (t: string)
    requires ValidStep(step)
    ensures |t| > 0
  {
    StepTitles[step]
  }

  /** The table has exactly one entry per step and no two steps share a title,
      so the shown title identifies the selected step. */
  lemma StepTitlesDistinct()
    ensures |StepTitles| == StepCount
    ensures forall i, j :: ValidStep(i) && ValidStep(j) && StepTitle(i) == StepTitle(j) ==> i == j
  {
  }

  /** Selecting step index 2 shows the "Fit" entry. */
  lemma FitStepTitle()
    ensures StepTitle(2) == "Fit"
  {
  }
}
