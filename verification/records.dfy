/** One recommended assessment as returned by the remote endpoint. Only the
    fields that the scripts and the client's filters read are kept. */
module Records {
  import opened Wrappers

  /** `url` is always present (the Python scripts index it directly); the
      display attributes are optional in the JSON payload. */
  datatype Recommendation = Recommendation(
    url: string,
    jobLevel: Option<string>,
    duration: Option<string>,
    testType: Option<string>)

  /** The remote endpoint, as seen by a batch script: the ranked records for a
      query text, or the empty list when the call failed. */
  type Endpoint = string -> seq<Recommendation>

  /** `[rec['url'] for rec in recommendations]`. */
  function Urls(recs: seq<Recommendation>): (urls: seq<string>)
    ensures |urls| == |recs|
    ensures forall i :: 0 <= i < |recs| ==> urls[i] == recs[i].url
  {
    seq(|recs|, i requires 0 <= i < |recs| => recs[i].url)
  }
}
