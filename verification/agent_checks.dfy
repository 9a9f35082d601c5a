/** The run over one agent (devops.py lines 101-145): the end-intent check of
    agent.json, then every intent file in listing order, skipping the
    training-phrase files. An exception for any intent aborts the run. */
module AgentChecks {
  import opened Wrappers
  import opened DialogflowModel
  import opened IntentChecks

  /** Line 135: files whose name contains this are training phrases. */
  const TrainingPhrasesMarker := "usersays_en.json"

  /** `pat` occurs in `s` starting at position `i`. */
  predicate OccursAt(s: string, pat: string, i: int) {
    0 <= i && i + |pat| <= |s| && s[i..i + |pat|] == pat
  }

  /** Python's `pat in s` for strings, scanning from the left. */
  function Contains(s: string, pat: string): (r: bool)
    ensures r <==> exists i :: OccursAt(s, pat, i)
  {
    if |s| < |pat| then
      assert forall i :: !OccursAt(s, pat, i);
      false
    else if s[..|pat|] == pat then
      assert OccursAt(s, pat, 0);
      true
    else
      var r := Contains(s[1..], pat);
      assert forall i :: OccursAt(s[1..], pat, i) <==> OccursAt(s, pat, i + 1) by {
        forall i ensures OccursAt(s[1..], pat, i) <==> OccursAt(s, pat, i + 1) {
          if 0 <= i && i + |pat| <= |s| - 1 {
            assert s[1..][i..i + |pat|] == s[i + 1..i + 1 + |pat|];
          }
        }
      }
      assert !OccursAt(s, pat, 0);
      assert forall i :: OccursAt(s, pat, i) && i != 0 ==> OccursAt(s[1..], pat, i - 1);
      r
  }

  predicate IsTrainingPhrases(f: IntentFile) {
    Contains(f.fileName, TrainingPhrasesMarker)
  }

  /** Lines 133-145 and the checks: every non-training file, in order. */
  function CheckFiles(b: Buckets, files: seq<IntentFile>): Result<Buckets, Fault>
    decreases files
  {
    if files == [] then Success(b)
    else if IsTrainingPhrases(files[0]) then CheckFiles(b, files[1..])
    else
      var b' :- CheckIntent(b, files[0].intent);
      CheckFiles(b', files[1..])
  }

  /** Line 121: `agent_d["googleAssistant"]["endIntentIds"]`. */
  function EndIntentIds(agent: Agent): Result<seq<string>, Fault> {
    match agent.googleAssistant
    case None => Failure(KeyError("googleAssistant"))
    case Some(ga) =>
      match ga.endIntentIds
      case None => Failure(KeyError("endIntentIds"))
      case Some(ids) => Success(ids)
  }

  /** What `write_output` receives for one agent. */
  datatype Report = Report(endIntentPresent: bool, buckets: Buckets)

  /** Lines 107-145: fresh lists, the end-intent check, then the intents. */
  function CheckAgent(agent: Agent, files: seq<IntentFile>): Result<Report, Fault> {
    var ids :- EndIntentIds(agent);
    var buckets :- CheckFiles(EmptyBuckets, files);
    Success(Report(|ids| > 0, buckets))
  }
}
