/** The store of observing sites: a table built once from the site data
    file, keyed by the slug of each site's key. */
module ObserverStore {
  import opened Wrappers
  import opened StrOrder

  /** The geodetic fields of a site record, each value with its unit. */
  datatype Geodetic = Geodetic(
    longitude: real, longitudeUnit: string,
    latitude: real, latitudeUnit: string,
    elevation: real, elevationUnit: string)

  /** One site of the data file. */
  datatype SiteRecord = SiteRecord(name: string, aliases: seq<string>, timezone: string, geodetic: Geodetic)

  /** The location built from a record's geodetic fields; the astronomy
      library's conversion is not part of this model. */
  datatype EarthLocation = FromGeodetic(geodetic: Geodetic)

  /** The observer domain model. */
  datatype Observer = Observer(
    observerId: string, location: EarthLocation, name: string,
    aliases: seq<string>, localTimezone: string)

  /** The site `i` of `siteData` is the last one whose key has `slug`. */
  predicate LastWithSlug(siteData: seq<(string, SiteRecord)>, slugify: string -> string, i: int, slug: string) {
    0 <= i < |siteData| && slugify(siteData[i].0) == slug
    && forall j :: i < j < |siteData| ==> slugify(siteData[j].0) != slug
  }

  /** The table `{slugify(key): value for key, value in site_data.items()}`:
      entries are added in file order, so a later key with the same slug
      replaces an earlier one. */
  function SiteTable(siteData: seq<(string, SiteRecord)>, slugify: string -> string): (table: map<string, SiteRecord>)
    ensures forall slug :: slug in table <==> exists i :: 0 <= i < |siteData| && slugify(siteData[i].0) == slug
    ensures forall i :: 0 <= i < |siteData| && LastWithSlug(siteData, slugify, i, slugify(siteData[i].0)) ==> table[slugify(siteData[i].0)] == siteData[i].1
    decreases |siteData|
  {
    if |siteData| == 0 then map[]
    else
      var n := |siteData| - 1;
      var earlier := SiteTable(siteData[..n], slugify);
      assert forall i :: 0 <= i < n ==> siteData[..n][i] == siteData[i];
      earlier[slugify(siteData[n].0) := siteData[n].1]
  }

  class ObserverStore {
    /** Site records by slug; set once by the constructor. */
    const sites: map<string, SiteRecord>

    /** Loads the parsed site data file (its keys and records in file
        order); `slugify` is the slug function of the library used. */
    constructor (siteData: seq<(string, SiteRecord)>, slugify: string -> string)
      ensures sites == SiteTable(siteData, slugify)
    {
      sites := SiteTable(siteData, slugify);
    }

    /** The observer whose slug is exactly `observerId` (the id is not
        slugified again), or `None`. */
    function GetObserverById(observerId: string): (r: Option<Observer>)
      ensures r.None? <==> observerId !in sites
      ensures r.Some? ==> r.value.observerId == observerId
      ensures r.Some? ==> && r.value.name == sites[observerId].name
                          && r.value.aliases == sites[observerId].aliases
                          && r.value.localTimezone == sites[observerId].timezone
                          && r.value.location == FromGeodetic(sites[observerId].geodetic)
    {
      if observerId !in sites then None
      else
        var site := sites[observerId];
        Some(Observer(observerId, FromGeodetic(site.geodetic), site.name, site.aliases, site.timezone))
    }

    /** The ids of all observers in ascending order, each once. */
    method ObserverIds() returns (ids: seq<string>)
      ensures StrictlySorted(ids)
      ensures forall id :: id in ids <==> id in sites
      ensures |ids| == |sites|
    {
      ids := [];
      var remaining := sites.Keys;
      while remaining != {}
        invariant remaining <= sites.Keys
        invariant StrictlySorted(ids)
        invariant forall id :: id in ids <==> id in sites && id !in remaining
        invariant forall i, x :: 0 <= i < |ids| && x in remaining ==> Less(ids[i], x)
        invariant |ids| + |remaining| == |sites|
        decreases remaining
      {
        MinimumExists(remaining);
        var least :| IsLeast(least, remaining);
        ids := ids + [least];
        remaining := remaining - {least};
      }
    }
  }
}
