/** The three datasets the application reads from the Paris open-data portal: each with the URL of
    its full JSON export, its dataset identifier and the base URL of its catalogue. */
module DataFetchers {

  datatype DatasetConfig = DatasetConfig(url: string, datasetId: string, baseUrl: string)

  const PARIS_CATALOG := "https://opendata.paris.fr/api/explore/v2.1/catalog/datasets"
  const OPENDATASOFT_CATALOG := "https://parisdata.opendatasoft.com/api/explore/v2.1/catalog/datasets"

  /** The full JSON export of a dataset of a catalogue. */
  function ExportUrl(baseUrl: string, datasetId: string): string
  {
    baseUrl + "/" + datasetId + "/exports/json"
  }

  const ACTIVITIES: DatasetConfig := DatasetConfig(
    ExportUrl(PARIS_CATALOG, "ilots-de-fraicheur-equipements-activites"),
    "ilots-de-fraicheur-equipements-activites",
    PARIS_CATALOG)

  const GREEN_SPACES: DatasetConfig := DatasetConfig(
    ExportUrl(OPENDATASOFT_CATALOG, "ilots-de-fraicheur-espaces-verts-frais"),
    "ilots-de-fraicheur-espaces-verts-frais",
    OPENDATASOFT_CATALOG)

  const FOUNTAINS: DatasetConfig := DatasetConfig(
    ExportUrl(PARIS_CATALOG, "fontaines-a-boire"),
    "fontaines-a-boire",
    PARIS_CATALOG)

  /** The three dataset identifiers are pairwise distinct. */
  lemma DatasetIdsDistinct()
    ensures ACTIVITIES.datasetId != GREEN_SPACES.datasetId
    ensures ACTIVITIES.datasetId != FOUNTAINS.datasetId
    ensures GREEN_SPACES.datasetId != FOUNTAINS.datasetId
  {
    assert ACTIVITIES.datasetId[20] == 'q' && GREEN_SPACES.datasetId[20] == 's';
    assert |FOUNTAINS.datasetId| == 17 && |ACTIVITIES.datasetId| != 17 && |GREEN_SPACES.datasetId| != 17;
  }
}
