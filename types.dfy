/** The unified spot entity, the three upstream record schemas and the filter-option records.
    Coordinates are integers (a fixed-point reading of the upstream decimal degrees): the core only
    compares them with zero and writes them into fallback identifiers. */
module Types {
  import opened Wrappers
  import opened Strings

  datatype Category = Activities | GreenSpaces | WaterFountains

  /** The string code a category carries in URLs, JSON and filter options. */
  function CategoryCode(c: Category): string
  {
    match c
    case Activities => "activities"
    case GreenSpaces => "green_spaces"
    case WaterFountains => "water_fountains"
  }

  lemma CategoryCodeInjective(a: Category, b: Category)
    ensures CategoryCode(a) == CategoryCode(b) <==> a == b
  {
  }

  datatype GeoPoint = GeoPoint(lat: int, lon: int)

  /** The "no location" sentinel. */
  const ORIGIN := GeoPoint(0, 0)

  datatype Schedule = Schedule(
    period: Option<string>,
    openStatus: Option<string>,
    monday: Option<string>,
    tuesday: Option<string>,
    wednesday: Option<string>,
    thursday: Option<string>,
    friday: Option<string>,
    saturday: Option<string>,
    sunday: Option<string>)

  /** The district field is typed `number | string`. */
  datatype DistrictValue = DistrictText(text: string) | DistrictNumber(number: int)

  /** A status flag holds the upstream string or, in the aggregator's copy, a boolean. */
  datatype FlagValue = FlagText(text: string) | FlagBool(flag: bool)

  datatype Spot = Spot(
    id: string,
    category: Category,
    name: Option<string>,
    spotType: Option<string>,
    address: Option<string>,
    district: Option<DistrictValue>,
    geo: GeoPoint,
    schedule: Option<Schedule>,
    is24hOpen: Option<FlagValue>,
    isHeatwaveOpening: Option<FlagValue>,
    isNightSummerOpening: Option<FlagValue>,
    isPaid: Option<FlagValue>,
    categoryLabel: Option<string>,
    city: Option<string>,
    model: Option<string>,
    isAvailable: Option<string>)

  /** One record of the public activities/equipment dataset. */
  datatype ActivityData = ActivityData(
    identifiant: string,
    nom: string,
    kind: string,
    adresse: string,
    arrondissement: string,
    geoPoint2d: Option<GeoPoint>,
    horairesPeriode: Option<string>,
    statutOuverture: Option<string>,
    horairesLundi: Option<string>,
    horairesMardi: Option<string>,
    horairesMercredi: Option<string>,
    horairesJeudi: Option<string>,
    horairesVendredi: Option<string>,
    horairesSamedi: Option<string>,
    horairesDimanche: Option<string>,
    payant: Option<string>)

  /** One record of the cool green spaces dataset. */
  datatype GreenSpaceData = GreenSpaceData(
    identifiant: string,
    nom: string,
    kind: string,
    adresse: string,
    arrondissement: string,
    geoPoint2d: Option<GeoPoint>,
    horairesPeriode: Option<string>,
    statutOuverture: Option<string>,
    horairesLundi: Option<string>,
    horairesMardi: Option<string>,
    horairesMercredi: Option<string>,
    horairesJeudi: Option<string>,
    horairesVendredi: Option<string>,
    horairesSamedi: Option<string>,
    horairesDimanche: Option<string>,
    ouvert24h: Option<string>,
    caniculeOuverture: Option<string>,
    ouvertureEstivaleNocturne: Option<string>,
    categorie: Option<string>)

  /** One record of the drinking fountains dataset. */
  datatype FountainData = FountainData(
    gid: Option<int>,
    voie: string,
    commune: string,
    geoPoint2d: Option<GeoPoint>,
    modele: Option<string>,
    dispo: Option<string>)

  /** The structured filter criteria read from the URL. */
  datatype SpotFilters = SpotFilters(
    categories: Option<seq<Category>>,
    districts: Option<seq<string>>,
    types: Option<seq<string>>,
    paid: Option<string>)

  datatype CategoryOption = CategoryOption(value: Category, labelText: string)
  datatype LabelledOption = LabelledOption(value: string, labelText: string)
  datatype TypeOption = TypeOption(value: string, labelText: string, category: Category)

  /** The derived filter-option metadata the cache keeps. */
  datatype FilterOptions = FilterOptions(
    categories: seq<CategoryOption>,
    districts: seq<LabelledOption>,
    types: seq<TypeOption>)

  /** `item.geo_point_2d?.lat ?? 0` and `item.geo_point_2d?.lon ?? 0`. */
  function GeoOrOrigin(p: Option<GeoPoint>): (g: GeoPoint)
    ensures g == ORIGIN <==> p.None? || p.value == ORIGIN
  {
    match p
    case Some(q) => q
    case None => ORIGIN
  }

  /** A spot the aggregate collection may hold: `lat !== 0 || lon !== 0`. */
  predicate IsLocatable(s: Spot)
  {
    s.geo.lat != 0 || s.geo.lon != 0
  }

  /** `String(spot.district || '')`: a missing district, an empty string and the number 0 all give the
      empty text. */
  function DistrictString(d: Option<DistrictValue>): (r: string)
    ensures r == "" <==> d.None? || d == Some(DistrictText("")) || d == Some(DistrictNumber(0))
  {
    match d
    case None => ""
    case Some(DistrictText(t)) => t
    case Some(DistrictNumber(n)) => if n == 0 then "" else IntToString(n)
  }
}
