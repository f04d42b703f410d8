/** The older aggregator: the three exports are fetched, each record is mapped to a spot without any
    title-casing, and the collection goes through the same post-processing as the normalizer's. Any
    failure along the way gives the empty collection. The three responses are parameters. */
module FetchSpots {
  import opened Wrappers
  import opened Seqs
  import opened Types
  import opened DataTransformers

  /** A response of one export endpoint: its `ok` flag and, when its body reads as a JSON array of
      records, those records. */
  datatype Response<T> = Response(ok: bool, records: Option<seq<T>>)

  /** The activity mapper of this file: text fields are copied as they are. */
  function LegacyActivityToSpot(item: ActivityData): (s: Spot)
    ensures s.id == item.identifiant && s.category == Activities
    ensures s.name == Some(item.nom) && s.spotType == Some(item.kind) && s.address == Some(item.adresse)
    ensures IsLocatable(s) <==> item.geoPoint2d.Some? && item.geoPoint2d.value != ORIGIN
  {
    Spot(item.identifiant, Activities, Some(item.nom), Some(item.kind), Some(item.adresse),
         Some(DistrictText(item.arrondissement)), GeoOrOrigin(item.geoPoint2d), Some(ActivitySchedule(item)),
         None, None, None, OptionalFlag(item.payant), None, None, None, None)
  }

  /** `item.<flag> === 'Oui'`: a missing flag reads as false. */
  function OuiFlag(v: Option<string>): (f: FlagValue)
    ensures f.FlagBool? && (f.flag <==> v == Some("Oui"))
  {
    FlagBool(v == Some("Oui"))
  }

  /** The green-space mapper of this file: text fields copied, status flags turned into booleans. */
  function LegacyGreenSpaceToSpot(item: GreenSpaceData): (s: Spot)
    ensures s.id == item.identifiant && s.category == GreenSpaces
    ensures s.name == Some(item.nom) && s.spotType == Some(item.kind) && s.address == Some(item.adresse)
    ensures IsLocatable(s) <==> item.geoPoint2d.Some? && item.geoPoint2d.value != ORIGIN
  {
    Spot(item.identifiant, GreenSpaces, Some(item.nom), Some(item.kind), Some(item.adresse),
         Some(DistrictText(item.arrondissement)), GeoOrOrigin(item.geoPoint2d), Some(GreenSpaceSchedule(item)),
         Some(OuiFlag(item.ouvert24h)), Some(OuiFlag(item.caniculeOuverture)),
         Some(OuiFlag(item.ouvertureEstivaleNocturne)), None, item.categorie, None, None, None)
  }

  /** The fountain mapper of this file: the street is copied as it is. */
  function LegacyFountainToSpot(item: FountainData): (s: Spot)
    ensures s.id == FountainId(item) && s.category == WaterFountains && s.name == Some(FOUNTAIN_NAME)
    ensures s.address == Some(item.voie)
    ensures s.district == Some(DistrictText(TransformDistrict(item.commune)))
    ensures s.city == Some(TransformDistrict(item.commune))
    ensures IsLocatable(s) <==> item.geoPoint2d.Some? && item.geoPoint2d.value != ORIGIN
  {
    var district := TransformDistrict(item.commune);
    Spot(FountainId(item), WaterFountains, Some(FOUNTAIN_NAME), None, Some(item.voie),
         Some(DistrictText(district)), GeoOrOrigin(item.geoPoint2d), None, None, None, None, None, None,
         Some(district), item.modele, item.dispo)
  }

  /** The activity mappers of the two files differ only in the title-casing of name, type and address. */
  lemma ActivityMappersAgree(item: ActivityData)
    ensures ActivityToSpot(item) ==
            LegacyActivityToSpot(item).(name := Some(FormatToTitleCase(item.nom)),
                                        spotType := Some(FormatToTitleCase(item.kind)),
                                        address := Some(FormatToTitleCase(item.adresse)))
  {
  }

  /** The green-space mappers differ in the title-casing of the text fields and in the status flags,
      which the normalizer copies as text where this file tests them against 'Oui'. */
  lemma GreenSpaceMappersAgree(item: GreenSpaceData)
    ensures GreenSpaceToSpot(item) ==
            LegacyGreenSpaceToSpot(item).(name := Some(FormatToTitleCase(item.nom)),
                                          spotType := Some(FormatToTitleCase(item.kind)),
                                          address := Some(FormatToTitleCase(item.adresse)),
                                          is24hOpen := OptionalFlag(item.ouvert24h),
                                          isHeatwaveOpening := OptionalFlag(item.caniculeOuverture),
                                          isNightSummerOpening := OptionalFlag(item.ouvertureEstivaleNocturne))
  {
  }

  /** A green space's flags are true exactly when the upstream text is 'Oui'. */
  lemma GreenSpaceFlags(item: GreenSpaceData)
    ensures var s := LegacyGreenSpaceToSpot(item);
            s.is24hOpen == Some(FlagBool(item.ouvert24h == Some("Oui"))) &&
            s.isHeatwaveOpening == Some(FlagBool(item.caniculeOuverture == Some("Oui"))) &&
            s.isNightSummerOpening == Some(FlagBool(item.ouvertureEstivaleNocturne == Some("Oui")))
  {
  }

  /** The fountain mappers differ only in the title-casing of the street. */
  lemma FountainMappersAgree(item: FountainData)
    ensures FountainToSpot(item) == LegacyFountainToSpot(item).(address := Some(FormatToTitleCase(item.voie)))
  {
  }

  function LegacyMapActivities(items: seq<ActivityData>): seq<Spot>
  {
    seq(|items|, i requires 0 <= i < |items| => LegacyActivityToSpot(items[i]))
  }

  function LegacyMapGreenSpaces(items: seq<GreenSpaceData>): seq<Spot>
  {
    seq(|items|, i requires 0 <= i < |items| => LegacyGreenSpaceToSpot(items[i]))
  }

  function LegacyMapFountains(items: seq<FountainData>): seq<Spot>
  {
    seq(|items|, i requires 0 <= i < |items| => LegacyFountainToSpot(items[i]))
  }

  /** `[...activities, ...greenSpaces, ...fountains]`. */
  function LegacyAll(activities: seq<ActivityData>, greenSpaces: seq<GreenSpaceData>,
                     fountains: seq<FountainData>): seq<Spot>
  {
    LegacyMapActivities(activities) + LegacyMapGreenSpaces(greenSpaces) + LegacyMapFountains(fountains)
  }

  /** `fetchAllSpots`: the empty collection when a response is not ok or its body does not read as a
      record array; otherwise the mapped records, unlocated ones dropped and identifiers deduplicated. */
  function FetchAllSpots(activitiesRes: Response<ActivityData>, greenSpacesRes: Response<GreenSpaceData>,
                         fountainRes: Response<FountainData>): (r: seq<Spot>)
    ensures !(activitiesRes.ok && greenSpacesRes.ok && fountainRes.ok) ==> r == []
    ensures activitiesRes.records.None? || greenSpacesRes.records.None? || fountainRes.records.None? ==> r == []
  {
    if !activitiesRes.ok || !greenSpacesRes.ok || !fountainRes.ok then []
    else match (activitiesRes.records, greenSpacesRes.records, fountainRes.records)
      case (Some(a), Some(g), Some(f)) => Consolidate(LegacyAll(a, g, f))
      case _ => []
  }

  /** The three responses when all of them succeeded. */
  function Succeeded(activities: seq<ActivityData>, greenSpaces: seq<GreenSpaceData>, fountains: seq<FountainData>)
    : (Response<ActivityData>, Response<GreenSpaceData>, Response<FountainData>)
  {
    (Response(true, Some(activities)), Response(true, Some(greenSpaces)), Response(true, Some(fountains)))
  }

  /** Every returned spot is located and no two share an identifier. */
  lemma FetchAllSpotsLocatedAndDistinct(activitiesRes: Response<ActivityData>,
                                        greenSpacesRes: Response<GreenSpaceData>, fountainRes: Response<FountainData>)
    ensures var r := FetchAllSpots(activitiesRes, greenSpacesRes, fountainRes);
            (forall x :: x in r ==> IsLocatable(x)) && DistinctIds(r)
  {
    if activitiesRes.ok && greenSpacesRes.ok && fountainRes.ok &&
       activitiesRes.records.Some? && greenSpacesRes.records.Some? && fountainRes.records.Some? {
      ConsolidateLocatedAndDistinct(LegacyAll(activitiesRes.records.value, greenSpacesRes.records.value,
                                              fountainRes.records.value));
    }
  }

  /** On success the collection is activities, then green spaces, then fountains, minus dropped records. */
  lemma FetchAllSpotsOrdered(activities: seq<ActivityData>, greenSpaces: seq<GreenSpaceData>,
                             fountains: seq<FountainData>)
    ensures var (a, g, f) := Succeeded(activities, greenSpaces, fountains);
            SubseqOf(FetchAllSpots(a, g, f), LegacyAll(activities, greenSpaces, fountains))
  {
    ConsolidateOrdered(LegacyAll(activities, greenSpaces, fountains));
  }

  /** On success every identifier a located record carries is represented. */
  lemma FetchAllSpotsComplete(activities: seq<ActivityData>, greenSpaces: seq<GreenSpaceData>,
                              fountains: seq<FountainData>, i: int)
    requires var all := LegacyAll(activities, greenSpaces, fountains);
             0 <= i < |all| && IsLocatable(all[i])
    ensures var (a, g, f) := Succeeded(activities, greenSpaces, fountains);
            var all := LegacyAll(activities, greenSpaces, fountains);
            exists x :: x in FetchAllSpots(a, g, f) && x.id == all[i].id
  {
    ConsolidateComplete(LegacyAll(activities, greenSpaces, fountains), i);
  }

  /** A record without a location gets (0, 0) and is dropped. */
  lemma FetchAllSpotsDropsUnlocated(activities: seq<ActivityData>, greenSpaces: seq<GreenSpaceData>,
                                    fountains: seq<FountainData>, item: FountainData)
    requires item.geoPoint2d.None?
    ensures var (a, g, f) := Succeeded(activities, greenSpaces, fountains);
            LegacyFountainToSpot(item) !in FetchAllSpots(a, g, f)
  {
    var (a, g, f) := Succeeded(activities, greenSpaces, fountains);
    FetchAllSpotsLocatedAndDistinct(a, g, f);
  }

  lemma KeysAppend(a: seq<Spot>, b: seq<Spot>)
    ensures Keys(a + b) == Keys(a) + Keys(b)
  {
  }

  /** The two mappings of the same records agree on identifiers and locations, position by position. */
  lemma MappingsSameIdsAndGeo(activities: seq<ActivityData>, greenSpaces: seq<GreenSpaceData>,
                              fountains: seq<FountainData>)
    ensures SameIdsAndGeo(LegacyAll(activities, greenSpaces, fountains), AllMapped(activities, greenSpaces, fountains))
  {
    assert Keys(LegacyMapActivities(activities)) == Keys(MapActivities(activities));
    assert Keys(LegacyMapGreenSpaces(greenSpaces)) == Keys(MapGreenSpaces(greenSpaces));
    assert Keys(LegacyMapFountains(fountains)) == Keys(MapFountains(fountains));
    KeysAppend(LegacyMapActivities(activities), LegacyMapGreenSpaces(greenSpaces));
    KeysAppend(LegacyMapActivities(activities) + LegacyMapGreenSpaces(greenSpaces), LegacyMapFountains(fountains));
    KeysAppend(MapActivities(activities), MapGreenSpaces(greenSpaces));
    KeysAppend(MapActivities(activities) + MapGreenSpaces(greenSpaces), MapFountains(fountains));
  }

  /** The two aggregators keep the same records: on the same successful responses their collections
      carry the same identifiers and locations, in the same order. */
  lemma AggregatorsAgree(activities: seq<ActivityData>, greenSpaces: seq<GreenSpaceData>,
                         fountains: seq<FountainData>)
    ensures var (a, g, f) := Succeeded(activities, greenSpaces, fountains);
            SameIdsAndGeo(FetchAllSpots(a, g, f), TransformAPIDataToSpots(activities, greenSpaces, fountains))
  {
    MappingsSameIdsAndGeo(activities, greenSpaces, fountains);
    ConsolidateSame(LegacyAll(activities, greenSpaces, fountains), AllMapped(activities, greenSpaces, fountains));
  }
}
