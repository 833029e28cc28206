// The client's stage name (`react-ui/src/features/stateSlices/gameStage.js`):
// `setStage` returns the payload's stage lower-cased.

module GameStageSlice {
  import Text

  const InitialStage: string := "day"

  /** `setStage`: the payload's stage in lower case; the previous stage plays no part. */
  function SetStage(previous: string, stage: string): (r: string)
    ensures |r| == |stage|
    ensures forall i :: 0 <= i < |r| ==> !('A' <= r[i] <= 'Z')
    ensures forall i :: 0 <= i < |r| ==> ('a' <= r[i] <= 'z' <==> 'a' <= stage[i] <= 'z' || 'A' <= stage[i] <= 'Z')
  {
    Text.Lower(stage)
  }

  /** Setting a stage again to its own value changes nothing. */
  lemma {:induction false} SetStageIdempotent(previous: string, stage: string)
    ensures SetStage(SetStage(previous, stage), SetStage(previous, stage)) == SetStage(previous, stage)
  {
    Text.LowerIdempotent(stage);
  }

  /** The server's stage names arrive upper-case and are shown lower-case: NIGHT becomes night. */
  lemma ServerStageNames()
    ensures SetStage(InitialStage, "NIGHT") == "night"
    ensures SetStage(InitialStage, "VOTING") == "voting"
  {
  }
}
