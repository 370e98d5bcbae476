/**
 * The version document for one channel tag: the trimmed record of the OTA
 * repository (always required), the trimmed record of the main repository
 * (absent when that lookup is a 404), and the changelog body taken from the
 * main record when there is one.
 */
module VersionJson {

  import opened Wrappers
  import opened Values
  import opened TagInfo
  import opened Retry

  /** The document written for one channel. */
  datatype VersionDoc = VersionDoc(
    version: string,
    body: Json,
    details: Option<map<string, Json>>,
    otaDetails: map<string, Json>)

  /** Python truthiness of `main_details`: not None and not an empty dictionary. */
  predicate DictTruthy(d: Option<map<string, Json>>)
    ensures d.None? ==> !DictTruthy(d)
    ensures d == Some(map[]) ==> !DictTruthy(d)
    ensures d.Some? && "assets" in d.value ==> DictTruthy(d)
  {
    d.Some? && d.value != map[]
  }

  /** A trimmed record always holds `assets`, so it is truthy. */
  lemma TrimmedReleaseTruthy(release: Json)
    requires TrimmedRelease(release).Ok?
    ensures DictTruthy(Some(TrimmedRelease(release).value))
  {
    assert "assets" in TrimmedRelease(release).value;
  }

  /**
   * The main repository's record: the trimmed record, `None` when the
   * lookup raised a 404, and any other failure propagated.
   */
  function MainDetails(mainFetch: Result<Json, Failure>): (r: Result<Option<map<string, Json>>, Failure>)
    ensures r == Ok(None) <==> mainFetch == Err(HttpFailure(NotFound))
    ensures mainFetch.Err? && mainFetch.error != HttpFailure(NotFound) ==> r == Err(mainFetch.error)
    ensures mainFetch.Ok? ==> r.Ok? == TrimmedRelease(mainFetch.value).Ok?
    ensures mainFetch.Ok? && TrimmedRelease(mainFetch.value).Err? ==> r == Err(TrimmedRelease(mainFetch.value).error)
    ensures r.Ok? && r.value.Some? ==> mainFetch.Ok? && TrimmedRelease(mainFetch.value) == Ok(r.value.value)
  {
    match mainFetch
    case Err(e) => if e == HttpFailure(NotFound) then Ok(None) else Err(e)
    case Ok(json) =>
      match TrimmedRelease(json)
      case Err(e) => Err(e)
      case Ok(m) => Ok(Some(m))
  }

  /** The record the changelog body is read from: the main record when there is one, else the OTA record. */
  function BodyRecord(otaDetails: map<string, Json>, mainDetails: Option<map<string, Json>>): map<string, Json>
  {
    if mainDetails.Some? then mainDetails.value else otaDetails
  }

  /**
   * The source's get_version_json, given what the two lookups by tag
   * fetched: the OTA repository's first, then the main repository's.
   */
  function GetVersionJson(versionId: string, otaFetch: Result<Json, Failure>, mainFetch: Result<Json, Failure>)
    : (r: Result<VersionDoc, Failure>)
    ensures r.Ok? <==>
      otaFetch.Ok? && TrimmedRelease(otaFetch.value).Ok? && MainDetails(mainFetch).Ok? &&
      "body" in BodyRecord(TrimmedRelease(otaFetch.value).value, MainDetails(mainFetch).value)
    ensures otaFetch.Err? ==> r == Err(otaFetch.error)
    ensures otaFetch.Ok? && TrimmedRelease(otaFetch.value).Err? ==> r == Err(TrimmedRelease(otaFetch.value).error)
    ensures otaFetch.Ok? && TrimmedRelease(otaFetch.value).Ok? && MainDetails(mainFetch).Err?
      ==> r == Err(MainDetails(mainFetch).error)
    ensures otaFetch.Ok? && TrimmedRelease(otaFetch.value).Ok? && MainDetails(mainFetch).Ok? &&
      "body" !in BodyRecord(TrimmedRelease(otaFetch.value).value, MainDetails(mainFetch).value)
      ==> r == Err(KeyError("body"))
    ensures otaFetch.Ok? && TrimmedRelease(otaFetch.value).Ok? && mainFetch.Err? && mainFetch.error != HttpFailure(NotFound)
      ==> r == Err(mainFetch.error)
    ensures r.Ok? ==> r.value.version == versionId
    ensures r.Ok? ==> otaFetch.Ok? && TrimmedRelease(otaFetch.value) == Ok(r.value.otaDetails)
    ensures r.Ok? ==> (r.value.details.None? <==> mainFetch == Err(HttpFailure(NotFound)))
    ensures r.Ok? && r.value.details.Some? ==>
      mainFetch.Ok? && TrimmedRelease(mainFetch.value) == Ok(r.value.details.value) &&
      "body" in r.value.details.value && r.value.body == r.value.details.value["body"]
    ensures r.Ok? && r.value.details.None? ==>
      "body" in r.value.otaDetails && r.value.body == r.value.otaDetails["body"]
  {
    match otaFetch
    case Err(e) => Err(e)
    case Ok(otaJson) =>
      match TrimmedRelease(otaJson)
      case Err(e) => Err(e)
      case Ok(otaDetails) =>
        match MainDetails(mainFetch)
        case Err(e) => Err(e)
        case Ok(mainDetails) =>
          var source := if DictTruthy(mainDetails) then mainDetails.value else otaDetails;
          if "body" !in source then Err(KeyError("body"))
          else Ok(VersionDoc(versionId, source["body"], mainDetails, otaDetails))
  }

  /**
   * When the main repository has no release for the tag, the document is
   * built from the OTA record alone, provided it has a body.
   */
  lemma NotFoundFallsBackToOta(versionId: string, otaJson: Json)
    requires TrimmedRelease(otaJson).Ok? && "body" in TrimmedRelease(otaJson).value
    ensures var ota := TrimmedRelease(otaJson).value;
      GetVersionJson(versionId, Ok(otaJson), Err(HttpFailure(NotFound))) ==
        Ok(VersionDoc(versionId, ota["body"], None, ota))
  {
  }

  /**
   * When the main lookup ran out of its five rate-limited attempts, the
   * document fails with AttributeError, which is not the tolerated 404.
   */
  lemma ExhaustedMainLookupAborts(versionId: string, otaJson: Json)
    requires TrimmedRelease(otaJson).Ok?
    ensures GetVersionJson(versionId, Ok(otaJson), ReadResponse<Json>(NoResponse)) == Err(AttributeError)
  {
  }

  /**
   * When both records trim and the main one has a body, the document is
   * built, with the main body and both records.
   */
  lemma MainPresentUsesMainBody(versionId: string, otaJson: Json, mainJson: Json)
    requires TrimmedRelease(otaJson).Ok? && TrimmedRelease(mainJson).Ok?
    requires "body" in TrimmedRelease(mainJson).value
    ensures var ota, main := TrimmedRelease(otaJson).value, TrimmedRelease(mainJson).value;
      GetVersionJson(versionId, Ok(otaJson), Ok(mainJson)) ==
        Ok(VersionDoc(versionId, main["body"], Some(main), ota))
  {
  }
}
