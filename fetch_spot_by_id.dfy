/** The detail page's single-record fetch: the dataset configuration looked up by dataset identifier,
    the category-to-dataset mapping, and the early-return chain around the one request, with the
    request itself a parameter. */
module FetchSpotById {
  import opened Wrappers
  import opened Types
  import opened DataTransformers
  import opened DataFetchers

  /** `getDatasetConfig`: the configuration registered under a dataset identifier, if any. */
  function GetDatasetConfig(datasetId: string): (r: Option<DatasetConfig>)
    ensures r.Some? <==> datasetId in {ACTIVITIES.datasetId, GREEN_SPACES.datasetId, FOUNTAINS.datasetId}
    ensures r.Some? ==> r.value.datasetId == datasetId && r.value in {ACTIVITIES, GREEN_SPACES, FOUNTAINS}
  {
    if datasetId == ACTIVITIES.datasetId then Some(ACTIVITIES)
    else if datasetId == GREEN_SPACES.datasetId then Some(GREEN_SPACES)
    else if datasetId == FOUNTAINS.datasetId then Some(FOUNTAINS)
    else None
  }

  /** The dataset a category's spots come from. */
  function DatasetOf(c: Category): DatasetConfig
  {
    match c
    case Activities => ACTIVITIES
    case GreenSpaces => GREEN_SPACES
    case WaterFountains => FOUNTAINS
  }

  /** `getDatasetIdFromCategory`: the dataset identifier of a category code; any other string throws
      "Unknown category: <string>". */
  function GetDatasetIdFromCategory(category: string): (r: Result<string, string>)
    ensures r.Success? <==> exists c :: CategoryCode(c) == category
    ensures r.Failure? ==> r.error == "Unknown category: " + category
  {
    if category == "activities" then
      assert CategoryCode(Activities) == category;
      Success(ACTIVITIES.datasetId)
    else if category == "green_spaces" then
      assert CategoryCode(GreenSpaces) == category;
      Success(GREEN_SPACES.datasetId)
    else if category == "water_fountains" then
      assert CategoryCode(WaterFountains) == category;
      Success(FOUNTAINS.datasetId)
    else
      assert forall c :: CategoryCode(c) != category;
      Failure("Unknown category: " + category)
  }

  /** Round trip: the dataset identifier of every category has a configuration, and it is the
      configuration of that category's dataset. */
  lemma CategoryDatasetRoundTrip(c: Category)
    ensures GetDatasetIdFromCategory(CategoryCode(c)) == Success(DatasetOf(c).datasetId)
    ensures GetDatasetConfig(DatasetOf(c).datasetId) == Some(DatasetOf(c))
  {
    DatasetIdsDistinct();
  }

  /** Distinct categories have distinct datasets. */
  lemma DatasetOfInjective(a: Category, b: Category)
    ensures DatasetOf(a).datasetId == DatasetOf(b).datasetId <==> a == b
  {
    DatasetIdsDistinct();
  }

  /** The field a record is looked up by: `gid` for fountains, `identifiant` otherwise. */
  function IdField(datasetId: string): string
  {
    if datasetId == FOUNTAINS.datasetId then "gid" else "identifiant"
  }

  /** `${base_url}/${dataset_id}/records?where=${idField}="${recordId}"&limit=1`. */
  function SearchUrl(config: DatasetConfig, idField: string, recordId: string): (url: string)
  {
    config.baseUrl + "/" + config.datasetId + "/records?where=" + idField + "=\"" + recordId + "\"&limit=1"
  }

  /** Different records of the same dataset are looked up at different URLs. */
  lemma SearchUrlInjective(config: DatasetConfig, idField: string, r1: string, r2: string)
    requires SearchUrl(config, idField, r1) == SearchUrl(config, idField, r2)
    ensures r1 == r2
  {
    var prefix := config.baseUrl + "/" + config.datasetId + "/records?where=" + idField + "=\"";
    var u1, u2 := SearchUrl(config, idField, r1), SearchUrl(config, idField, r2);
    assert u1 == prefix + r1 + "\"&limit=1";
    assert u2 == prefix + r2 + "\"&limit=1";
    assert |r1| == |r2|;
    assert u1[|prefix|..|prefix| + |r1|] == r1;
    assert u2[|prefix|..|prefix| + |r2|] == r2;
  }

  /** A JSON record of the single-record endpoint, seen through each of the three record schemas the
      mapper may cast it to. */
  datatype RawRecord = RawRecord(asActivity: ActivityData, asGreenSpace: GreenSpaceData, asFountain: FountainData)

  /** The body of a response: not JSON at all, or an object whose `results` field may be missing. */
  datatype Body = Unparseable | JsonObject(results: Option<seq<RawRecord>>)

  /** What a request gives: a thrown network error, or a response with its `ok` flag and body. */
  datatype FetchOutcome = NetworkError | Responded(ok: bool, body: Body)

  /** The mapper matching the dataset identifier, applied to a record. */
  function MapRecord(datasetId: string, record: RawRecord): Option<Spot>
  {
    if datasetId == ACTIVITIES.datasetId then Some(ActivityToSpot(record.asActivity))
    else if datasetId == GREEN_SPACES.datasetId then Some(GreenSpaceToSpot(record.asGreenSpace))
    else if datasetId == FOUNTAINS.datasetId then Some(FountainToSpot(record.asFountain))
    else None
  }

  /** The first record of a successful, non-empty response. */
  function FirstResult(outcome: FetchOutcome): (r: Option<RawRecord>)
    ensures r.Some? <==> outcome.Responded? && outcome.ok && outcome.body.JsonObject? &&
                         outcome.body.results.Some? && |outcome.body.results.value| > 0
  {
    match outcome
    case NetworkError => None
    case Responded(ok, body) =>
      if !ok then None
      else match body
        case Unparseable => None
        case JsonObject(results) =>
          if results.None? || |results.value| == 0 then None else Some(results.value[0])
  }

  /** `fetchSpotByDatasetAndId`: nothing for an unknown dataset, before any request; nothing for a
      network error, a non-ok response, an unreadable body or no results; otherwise the first result
      through the dataset's mapper. */
  function FetchSpotByDatasetAndId(datasetId: string, recordId: string, fetch: string -> FetchOutcome)
    : (r: Option<Spot>)
    ensures r.Some? <==> GetDatasetConfig(datasetId).Some? &&
                         FirstResult(fetch(SearchUrl(GetDatasetConfig(datasetId).value, IdField(datasetId), recordId))).Some?
    ensures r.Some? ==>
              r == MapRecord(datasetId,
                             FirstResult(fetch(SearchUrl(GetDatasetConfig(datasetId).value, IdField(datasetId), recordId))).value)
  {
    match GetDatasetConfig(datasetId)
    case None => None
    case Some(config) =>
      var searchUrl := SearchUrl(config, IdField(datasetId), recordId);
      match FirstResult(fetch(searchUrl))
      case None => None
      case Some(record) => MapRecord(datasetId, record)
  }

  /** An unknown dataset gives nothing whatever the network would have answered. */
  lemma UnknownDatasetNoRequest(datasetId: string, recordId: string, f1: string -> FetchOutcome,
                                f2: string -> FetchOutcome)
    requires GetDatasetConfig(datasetId).None?
    ensures FetchSpotByDatasetAndId(datasetId, recordId, f1) == None
    ensures FetchSpotByDatasetAndId(datasetId, recordId, f1) == FetchSpotByDatasetAndId(datasetId, recordId, f2)
  {
  }

  /** Fountains are looked up by `gid` and the other datasets by `identifiant`. */
  lemma LookupField(c: Category)
    ensures IdField(DatasetOf(c).datasetId) == (if c == WaterFountains then "gid" else "identifiant")
  {
    DatasetIdsDistinct();
  }

  /** A fetched spot belongs to the dataset it was fetched from: its category maps back to that
      dataset. */
  lemma FetchedSpotCategory(datasetId: string, recordId: string, fetch: string -> FetchOutcome)
    requires FetchSpotByDatasetAndId(datasetId, recordId, fetch).Some?
    ensures var s := FetchSpotByDatasetAndId(datasetId, recordId, fetch).value;
            GetDatasetIdFromCategory(CategoryCode(s.category)) == Success(datasetId)
  {
    DatasetIdsDistinct();
    var s := FetchSpotByDatasetAndId(datasetId, recordId, fetch).value;
    CategoryDatasetRoundTrip(s.category);
  }

  /** A fountain is requested by its `gid` and, when the response holds results, is the first of them
      through the fountain mapper. */
  lemma FetchFountainRecord(recordId: string, fetch: string -> FetchOutcome, results: seq<RawRecord>)
    requires |results| > 0
    requires fetch(SearchUrl(FOUNTAINS, "gid", recordId)) == Responded(true, JsonObject(Some(results)))
    ensures FetchSpotByDatasetAndId(FOUNTAINS.datasetId, recordId, fetch) == Some(FountainToSpot(results[0].asFountain))
  {
    DatasetIdsDistinct();
  }
}
