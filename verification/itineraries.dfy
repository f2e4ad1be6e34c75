/** Itineraries (src/itineraries/services/itineraries.service.ts): creating, editing and
    deleting itineraries under an owner guard, likes and saves, and the recomputation
    of a user's travel statistics (trips, countries, continents) that follows a create
    or an update. */
module Itineraries {
  import opened Common
  import opened Store
  import opened Text
  import opened Counters

  // ---------------------------------------------------------------------------
  // The travel statistics aggregator.
  // ---------------------------------------------------------------------------

  /** `extractCountry`: the destination split on ',' with each piece trimmed; the last
      piece when there are at least two, otherwise the only one. The result holds no
      comma and no surrounding white space, and a destination without a comma is only
      trimmed. */
  function ExtractCountry(destination: string): (r: string)
    ensures ',' !in r && IsTrimmed(r)
    ensures ',' !in destination ==> r == Trim(destination)
  {
    var parts := Split(destination, ',');
    SplitNoSep(destination, ',');
    if |parts| > 1 then Trim(parts[|parts| - 1]) else Trim(parts[0])
  }

  /** "City, Country": the country is what follows the last comma, trimmed. */
  lemma ExtractCountryOfPair(city: string, country: string)
    requires ',' !in country
    ensures ExtractCountry(city + "," + country) == Trim(country)
  {
    SplitConcat(city, country, ',');
    SplitNoSep(country, ',');
    assert city + "," + country == city + [','] + country;
    var parts := Split(city + "," + country, ',');
    assert parts[|parts| - 1] == country;
  }

  /** A destination without a comma is its own country once trimmed: white space
      around a country name ("  Iceland ") is dropped and nothing else changes. */
  lemma ExtractCountryPadded(a: string, country: string, b: string)
    requires forall k :: 0 <= k < |a| ==> IsSpace(a[k])
    requires forall k :: 0 <= k < |b| ==> IsSpace(b[k])
    requires ',' !in country && IsTrimmed(country)
    ensures ExtractCountry(a + country + b) == country
  {
    var d := a + country + b;
    assert ',' !in d by {
      forall k | 0 <= k < |d| ensures d[k] != ',' {
        if k < |a| {
          assert d[k] == a[k];
        } else if k < |a| + |country| {
          assert d[k] == country[k - |a|];
        } else {
          assert d[k] == b[k - |a| - |country|];
        }
      }
    }
    TrimPadded(a, country, b);
  }

  /** The country one itinerary contributes: a destination that is present and
      non-empty (`if (itinerary.destination)`) whose extracted country is non-empty
      (`if (country)`). */
  function TripCountry(t: Itinerary): (r: set<string>)
    ensures |r| <= 1 && "" !in r
  {
    if t.destination.Some? && t.destination.value != "" && ExtractCountry(t.destination.value) != ""
    then {ExtractCountry(t.destination.value)}
    else {}
  }

  /** The set `itineraryCountries` the first loop builds. */
  function TripCountries(its: seq<Itinerary>): set<string>
  {
    if its == [] then {} else TripCountries(its[..|its| - 1]) + TripCountry(its[|its| - 1])
  }

  /** A country is collected exactly when some itinerary has a non-empty destination
      whose non-empty extracted country it is. */
  lemma {:induction false} TripCountriesMembers(its: seq<Itinerary>, c: string)
    ensures c in TripCountries(its) <==>
      exists i :: 0 <= i < |its| && its[i].destination.Some? && its[i].destination.value != ""
                  && c == ExtractCountry(its[i].destination.value) && c != ""
  {
    if its != [] {
      var init := its[..|its| - 1];
      TripCountriesMembers(init, c);
      if c in TripCountries(init) {
        var i :| 0 <= i < |init| && init[i].destination.Some? && init[i].destination.value != ""
                 && c == ExtractCountry(init[i].destination.value) && c != "";
        assert its[i] == init[i];
      }
      if exists i :: 0 <= i < |its| && its[i].destination.Some? && its[i].destination.value != ""
                     && c == ExtractCountry(its[i].destination.value) && c != "" {
        var i :| 0 <= i < |its| && its[i].destination.Some? && its[i].destination.value != ""
                 && c == ExtractCountry(its[i].destination.value) && c != "";
        if i < |its| - 1 {
          assert init[i] == its[i];
        }
      }
    }
  }

  /** The first loop of `updateUserTravelStatistics`. */
  method CollectTripCountries(its: seq<Itinerary>) returns (countries: set<string>)
    ensures countries == TripCountries(its)
  {
    countries := {};
    var k := 0;
    while k < |its|
      invariant 0 <= k <= |its|
      invariant countries == TripCountries(its[..k])
    {
      var d := its[k].destination;
      if d.Some? && d.value != "" {
        var country := ExtractCountry(d.value);
        if country != "" {
          countries := countries + {country};
        }
      }
      assert its[..k + 1][..k] == its[..k];
      k := k + 1;
    }
    assert its[..k] == its;
  }

  /** The continents of a set of countries: those the mapping gives a non-empty
      continent for (`if (continent)`). */
  function Continents(countries: set<string>, mapping: map<string, string>): set<string>
  {
    set c | c in countries && c in mapping && mapping[c] != "" :: mapping[c]
  }

  /** The continent one country gives, if any. */
  function ContinentOf(c: string, mapping: map<string, string>): (r: set<string>)
    ensures |r| <= 1
  {
    if c in mapping && mapping[c] != "" then {mapping[c]} else {}
  }

  /** Adding a country adds at most its own continent. */
  lemma ContinentsAdd(countries: set<string>, c: string, mapping: map<string, string>)
    ensures Continents(countries + {c}, mapping) == Continents(countries, mapping) + ContinentOf(c, mapping)
  {
    forall k | k in Continents(countries + {c}, mapping)
      ensures k in Continents(countries, mapping) + ContinentOf(c, mapping)
    {
      var d :| d in countries + {c} && d in mapping && mapping[d] != "" && k == mapping[d];
      if d != c {
        assert d in countries;
      }
    }
  }

  /** Each country gives at most one continent, so there are no more continents than
      countries. */
  lemma {:induction false} ContinentsBound(countries: set<string>, mapping: map<string, string>)
    ensures |Continents(countries, mapping)| <= |countries|
    decreases |countries|
  {
    if countries != {} {
      var x :| x in countries;
      var rest := countries - {x};
      ContinentsBound(rest, mapping);
      ContinentsAdd(rest, x, mapping);
      assert rest + {x} == countries;
      var own := ContinentOf(x, mapping);
      assert |Continents(rest, mapping) + own| <= |Continents(rest, mapping)| + |own|;
    }
  }

  /** A country the mapping does not know adds nothing to the continents. */
  lemma UnmappedCountryAddsNoContinent(countries: set<string>, mapping: map<string, string>, c: string)
    requires c !in mapping
    ensures Continents(countries + {c}, mapping) == Continents(countries, mapping)
  {
    assert forall k :: k in Continents(countries + {c}, mapping) ==> k in Continents(countries, mapping);
  }

  /** The second loop of `updateUserTravelStatistics`, over the set of all countries. */
  method CollectContinents(countries: set<string>, mapping: map<string, string>) returns (continents: set<string>)
    ensures continents == Continents(countries, mapping)
  {
    continents := {};
    var todo := countries;
    while todo != {}
      invariant todo <= countries
      invariant continents == Continents(countries - todo, mapping)
      decreases |todo|
    {
      var c :| c in todo;
      ghost var done := countries - todo;
      if c in mapping && mapping[c] != "" {
        continents := continents + {mapping[c]};
      }
      todo := todo - {c};
      assert countries - todo == done + {c};
      ContinentsAdd(done, c, mapping);
    }
    assert countries - todo == countries;
  }

  /** The three figures the recomputation writes. */
  datatype TravelFigures = TravelFigures(trips: nat, countries: nat, continents: nat)

  function OwnedBy(userId: UserId): Itinerary -> bool
  {
    (t: Itinerary) => t.userId == userId
  }

  /** The profile's `countriesExplored`, or none without a profile. */
  function ProfileCountries(profiles: seq<Profile>, userId: UserId): seq<string>
  {
    match ProfileOf(profiles, userId)
    case None => []
    case Some(i) => profiles[i].countriesExplored
  }

  /** `allCountries`: the itinerary countries and the profile's countries together. */
  function AllCountries(its: seq<Itinerary>, profiles: seq<Profile>, userId: UserId): (r: set<string>)
    ensures forall c :: c in ProfileCountries(profiles, userId) ==> c in r
    ensures TripCountries(Filter(its, OwnedBy(userId))) <= r
  {
    TripCountries(Filter(its, OwnedBy(userId))) + (set c | c in ProfileCountries(profiles, userId))
  }

  /** What the recomputation writes: the user's number of itineraries, the number of
      distinct countries, and the number of distinct continents, which never exceeds
      the number of countries. */
  function Figures(its: seq<Itinerary>, profiles: seq<Profile>, userId: UserId,
                   mapping: map<string, string>): (r: TravelFigures)
    ensures r.trips == Count(its, OwnedBy(userId))
    ensures r.countries == |AllCountries(its, profiles, userId)|
    ensures r.continents == |Continents(AllCountries(its, profiles, userId), mapping)|
    ensures r.continents <= r.countries
  {
    var all := AllCountries(its, profiles, userId);
    ContinentsBound(all, mapping);
    FilterCount(its, OwnedBy(userId));
    TravelFigures(|Filter(its, OwnedBy(userId))|, |all|, |Continents(all, mapping)|)
  }

  /** `userStatistics.upsert`: the row gets the three figures; a missing row is created
      with every other column at zero. Other users' rows and the row's other columns
      are kept. */
  function WithFigures(stats: map<UserId, Stats>, userId: UserId, f: TravelFigures): (r: map<UserId, Stats>)
    ensures r.Keys == stats.Keys + {userId}
    ensures r[userId].totalTrips == f.trips && r[userId].countriesVisited == f.countries
            && r[userId].continentsVisited == f.continents
    ensures userId in stats ==> r[userId].(totalTrips := stats[userId].totalTrips,
                                           countriesVisited := stats[userId].countriesVisited,
                                           continentsVisited := stats[userId].continentsVisited) == stats[userId]
    ensures userId !in stats ==> r[userId].totalFollowers == 0 && r[userId].totalFollowing == 0
                                 && r[userId].totalPosts == 0
    ensures forall u :: u in stats && u != userId ==> r[u] == stats[u]
  {
    var row := if userId in stats then stats[userId] else EmptyStats;
    stats[userId := row.(totalTrips := f.trips, countriesVisited := f.countries, continentsVisited := f.continents)]
  }

  /** Writing the same figures twice is writing them once. */
  lemma WithFiguresIdempotent(stats: map<UserId, Stats>, userId: UserId, f: TravelFigures)
    ensures WithFigures(WithFigures(stats, userId, f), userId, f) == WithFigures(stats, userId, f)
  {
  }

  /** The upsert keeps the follow graph invariant: an existing row keeps its follow
      counters, and a new row for a user without one starts at zero, as that user has
      no edges. */
  lemma WithFiguresKeepsGraph(following: seq<Link<UserId>>, follower: seq<Link<UserId>>,
                              stats: map<UserId, Stats>, userId: UserId, f: TravelFigures)
    ensures GraphInvariant(following, follower, stats) ==>
      GraphInvariant(following, follower, WithFigures(stats, userId, f))
  {
    if userId in stats {
      GraphInvariantOtherColumns(following, follower, stats, WithFigures(stats, userId, f));
    } else if GraphInvariant(following, follower, stats) {
      GraphInvariantNewStatsRow(following, follower, stats, userId, WithFigures(stats, userId, f)[userId]);
    }
  }

  /** The user's itineraries (`findMany({ where: { userAccountId } })`). */
  method UserItineraries(its: seq<Itinerary>, userId: UserId) returns (mine: seq<Itinerary>)
    ensures mine == Filter(its, OwnedBy(userId))
  {
    mine := [];
    var k := 0;
    while k < |its|
      invariant 0 <= k <= |its|
      invariant mine == Filter(its[..k], OwnedBy(userId))
    {
      assert its[..k + 1][..k] == its[..k];
      if its[k].userId == userId {
        mine := mine + [its[k]];
      }
      k := k + 1;
    }
    assert its[..k] == its;
  }

  /** `updateUserTravelStatistics`: recomputes the user's figures from their itineraries
      and their profile and upserts them. Only the statistics table changes. */
  method UpdateUserTravelStatistics(db: Db, userId: UserId, mapping: map<string, string>)
    modifies db`stats
    ensures db.stats == WithFigures(old(db.stats), userId, Figures(db.itineraries, db.profiles, userId, mapping))
    ensures old(db.GraphValid()) ==> db.GraphValid()
  {
    var mine := UserItineraries(db.itineraries, userId);
    var tripCountries := CollectTripCountries(mine);
    var profileCountries := ProfileCountries(db.profiles, userId);
    var all := tripCountries + (set c | c in profileCountries);
    var continents := CollectContinents(all, mapping);
    var f := TravelFigures(|mine|, |all|, |continents|);
    assert f == Figures(db.itineraries, db.profiles, userId, mapping);
    WithFiguresKeepsGraph(db.following, db.follower, db.stats, userId, f);
    db.stats := WithFigures(db.stats, userId, f);
  }

  /** Running the recomputation twice on unchanged inputs writes the same row again. */
  method RecomputeTwice(db: Db, userId: UserId, mapping: map<string, string>)
    modifies db`stats
    ensures db.stats == WithFigures(old(db.stats), userId, Figures(db.itineraries, db.profiles, userId, mapping))
  {
    UpdateUserTravelStatistics(db, userId, mapping);
    ghost var once := db.stats;
    UpdateUserTravelStatistics(db, userId, mapping);
    WithFiguresIdempotent(old(db.stats), userId, Figures(db.itineraries, db.profiles, userId, mapping));
    assert db.stats == once;
  }

  // ---------------------------------------------------------------------------
  // Creating, reading, editing and deleting itineraries.
  // ---------------------------------------------------------------------------

  /** The itinerary columns a create or update DTO carries; `None` is a field left
      out. */
  datatype ItineraryFields = ItineraryFields(title: Option<string>, description: Option<string>,
                                             destination: Option<string>, country: Option<string>,
                                             rating: Option<int>, visibility: Option<Visibility>)

  function OrElse<T>(o: Option<T>, d: T): T
  {
    if o.Some? then o.value else d
  }

  /** The row `itinerary.create` inserts. */
  function NewItinerary(id: RowId, userId: UserId, title: string, f: ItineraryFields, now: nat): Itinerary
  {
    Itinerary(id, userId, title, f.description, f.destination, f.country,
              OrElse(f.visibility, DefaultVisibility), DefaultApproved, OrElse(f.rating, 0), 0, now)
  }

  /** `itinerary.update({ data: dto })`: the DTO's columns are written, the id, owner,
      approval, like counter and creation time are kept. */
  function ApplyFields(t: Itinerary, f: ItineraryFields): (r: Itinerary)
    ensures r.(title := t.title, description := t.description, destination := t.destination,
               country := t.country, rating := t.rating, visibility := t.visibility) == t
    ensures f.title.Some? ==> r.title == f.title.value
    ensures f.destination.Some? ==> r.destination == f.destination
    ensures f.destination.None? ==> r.destination == t.destination
  {
    t.(title := OrElse(f.title, t.title),
       description := if f.description.Some? then f.description else t.description,
       destination := if f.destination.Some? then f.destination else t.destination,
       country := if f.country.Some? then f.country else t.country,
       rating := OrElse(f.rating, t.rating),
       visibility := OrElse(f.visibility, t.visibility))
  }

  lemma ApplyFieldsIdempotent(t: Itinerary, f: ItineraryFields)
    ensures ApplyFields(ApplyFields(t, f), f) == ApplyFields(t, f)
  {
  }

  datatype ItineraryView = ItineraryView(itinerary: Itinerary, isLiked: bool, isSaved: bool)

  /** `findOne`: NotFound for a missing itinerary; otherwise the row, with whether the
      signed-in viewer liked and saved it. Nothing is written. */
  function FindOne(db: Db, id: RowId, viewer: Option<UserId>): (r: Result<ItineraryView>)
    reads db`itineraries, db`itineraryLikes, db`itinerarySaves
    ensures ItineraryIndex(db.itineraries, id).None? <==> r == Err(NotFound)
    ensures r.Ok? ==> r.value.itinerary == db.itineraries[ItineraryIndex(db.itineraries, id).value]
                      && r.value.itinerary.id == id
    ensures r.Ok? ==> (r.value.isLiked <==> Signed(viewer) && PairRows(db.itineraryLikes, id, viewer.value) > 0)
    ensures r.Ok? ==> (r.value.isSaved <==> Signed(viewer) && PairRows(db.itinerarySaves, id, viewer.value) > 0)
  {
    match ItineraryIndex(db.itineraries, id)
    case None => Err(NotFound)
    case Some(i) =>
      Ok(ItineraryView(db.itineraries[i],
                       Signed(viewer) && HasPair(db.itineraryLikes, id, viewer.value),
                       Signed(viewer) && HasPair(db.itinerarySaves, id, viewer.value)))
  }

  /** `create`: inserts the itinerary with the next id, recomputes the author's travel
      statistics, and returns it through `findOne`. */
  method Create(db: Db, userId: UserId, title: string, fields: ItineraryFields,
                mapping: map<string, string>, now: nat) returns (r: Result<ItineraryView>)
    requires db.ItineraryIdsValid()
    modifies db`itineraries, db`nextItineraryId, db`stats
    ensures db.ItineraryIdsValid()
    ensures db.itineraries == old(db.itineraries) + [NewItinerary(old(db.nextItineraryId), userId, title, fields, now)]
    ensures db.stats == WithFigures(old(db.stats), userId, Figures(db.itineraries, db.profiles, userId, mapping))
    ensures r.Ok? && r.value.itinerary == NewItinerary(old(db.nextItineraryId), userId, title, fields, now)
    ensures old(db.GraphValid()) ==> db.GraphValid()
  {
    var t := InsertItinerary(db, userId, title, fields, now);
    r := RecomputeAndFind(db, t.id, userId, mapping);
  }

  /** The tail of `create` and `update`: the author's travel statistics are recomputed,
      then the itinerary is read back through `findOne` for its author. */
  method RecomputeAndFind(db: Db, id: RowId, userId: UserId, mapping: map<string, string>)
    returns (r: Result<ItineraryView>)
    requires ItineraryIndex(db.itineraries, id).Some?
    modifies db`stats
    ensures db.stats == WithFigures(old(db.stats), userId, Figures(db.itineraries, db.profiles, userId, mapping))
    ensures r.Ok? && r.value.itinerary == db.itineraries[ItineraryIndex(db.itineraries, id).value]
    ensures old(db.GraphValid()) ==> db.GraphValid()
  {
    UpdateUserTravelStatistics(db, userId, mapping);
    r := FindOne(db, id, Some(userId));
  }

  /** `itinerary.create`: the new row goes last, with the next id, and a lookup of that
      id finds it. */
  method InsertItinerary(db: Db, userId: UserId, title: string, fields: ItineraryFields, now: nat)
    returns (t: Itinerary)
    requires db.ItineraryIdsValid()
    modifies db`itineraries, db`nextItineraryId
    ensures db.ItineraryIdsValid()
    ensures t == NewItinerary(old(db.nextItineraryId), userId, title, fields, now)
    ensures db.itineraries == old(db.itineraries) + [t]
    ensures ItineraryIndex(db.itineraries, t.id) == Some(|old(db.itineraries)|)
  {
    t := NewItinerary(db.nextItineraryId, userId, title, fields, now);
    FreshIdAppend(db.itineraries, ItineraryId, db.nextItineraryId, t);
    assert IdsBelow(db.itineraries, ItineraryId, t.id);
    db.itineraries := db.itineraries + [t];
    db.nextItineraryId := db.nextItineraryId + 1;
    var ti := ItineraryIndex(db.itineraries, t.id);
    assert db.itineraries[|db.itineraries| - 1].id == t.id;
  }

  /** The owner guard of `update` and `remove`: NotFound, then Forbidden. */
  function OwnedItinerary(its: seq<Itinerary>, id: RowId, userId: UserId): (r: Result<nat>)
    ensures ItineraryIndex(its, id).None? <==> r == Err(NotFound)
    ensures r.Ok? <==> ItineraryIndex(its, id).Some? && its[ItineraryIndex(its, id).value].userId == userId
    ensures r.Ok? ==> r.value == ItineraryIndex(its, id).value
    ensures r.Err? ==> r.error in {NotFound, Forbidden}
  {
    match ItineraryIndex(its, id)
    case None => Err(NotFound)
    case Some(i) => if its[i].userId != userId then Err(Forbidden) else Ok(i)
  }

  /** `update`: only the owner may edit; the DTO's columns are written, the owner's
      travel statistics are recomputed, and the itinerary is returned. A refusal
      changes nothing. */
  method Update(db: Db, id: RowId, userId: UserId, fields: ItineraryFields, mapping: map<string, string>)
    returns (r: Result<ItineraryView>)
    modifies db`itineraries, db`stats
    ensures OwnedItinerary(old(db.itineraries), id, userId).Err? ==>
      r == Err(OwnedItinerary(old(db.itineraries), id, userId).error) && unchanged(db)
    ensures OwnedItinerary(old(db.itineraries), id, userId).Ok? ==>
      var i := OwnedItinerary(old(db.itineraries), id, userId).value;
      && db.itineraries == old(db.itineraries)[i := ApplyFields(old(db.itineraries)[i], fields)]
      && db.stats == WithFigures(old(db.stats), userId, Figures(db.itineraries, db.profiles, userId, mapping))
      && r.Ok? && r.value.itinerary == db.itineraries[i]
    ensures old(db.ItineraryIdsValid()) ==> db.ItineraryIdsValid()
    ensures old(db.GraphValid()) ==> db.GraphValid()
  {
    var owned := OwnedItinerary(db.itineraries, id, userId);
    if owned.Err? {
      return Err(owned.error);
    }
    var i := owned.value;
    var t := ApplyFields(db.itineraries[i], fields);
    SameIdUpdate(db.itineraries, ItineraryId, db.nextItineraryId, i, t);
    ItineraryIndexUpdate(db.itineraries, id, t);
    db.itineraries := db.itineraries[i := t];
    r := RecomputeAndFind(db, id, userId, mapping);
  }

  /** `remove`: only the owner may delete; the row is deleted and, unlike `create` and
      `update`, the travel statistics are not recomputed. */
  method Remove(db: Db, id: RowId, userId: UserId) returns (r: Result<string>)
    modifies db`itineraries
    ensures OwnedItinerary(old(db.itineraries), id, userId).Err? ==>
      r == Err(OwnedItinerary(old(db.itineraries), id, userId).error) && unchanged(db)
    ensures OwnedItinerary(old(db.itineraries), id, userId).Ok? ==>
      && db.itineraries == RemoveAt(old(db.itineraries), OwnedItinerary(old(db.itineraries), id, userId).value)
      && r == Ok("Itinerary deleted successfully")
    ensures old(db.ItineraryIdsValid()) ==> db.ItineraryIdsValid()
  {
    var owned := OwnedItinerary(db.itineraries, id, userId);
    if owned.Err? {
      return Err(owned.error);
    }
    RemoveAtKeepsIds(db.itineraries, ItineraryId, db.nextItineraryId, owned.value);
    db.itineraries := RemoveAt(db.itineraries, owned.value);
    return Ok("Itinerary deleted successfully");
  }

  /** Deleting an itinerary under valid ids leaves no row with its id. */
  lemma RemoveDeletesTheRow(its: seq<Itinerary>, i: nat)
    requires i < |its| && DistinctIds(its, ItineraryId)
    ensures forall t :: t in RemoveAt(its, i) ==> t.id != its[i].id
  {
    forall t | t in RemoveAt(its, i) ensures t.id != its[i].id {
      var j :| 0 <= j < |RemoveAt(its, i)| && RemoveAt(its, i)[j] == t;
      if j < i {
        assert ItineraryId(its[j]) != ItineraryId(its[i]);
      } else {
        assert ItineraryId(its[i]) != ItineraryId(its[j + 1]);
      }
    }
  }

  // ---------------------------------------------------------------------------
  // Likes and saves of itineraries.
  // ---------------------------------------------------------------------------

  function ItineraryLikeCount(t: Itinerary): int { t.likeCount }

  /** `likeItinerary`: NotFound for a missing itinerary, 'Already liked' with nothing
      changed for a repeated like; otherwise one transaction adds the like row and
      raises `likeCount`. No notification is sent. */
  method LikeItinerary(db: Db, itineraryId: RowId, userId: UserId, now: nat) returns (r: Result<string>)
    modifies db`itineraries, db`itineraryLikes
    ensures ItineraryIndex(old(db.itineraries), itineraryId).None? ==> r == Err(NotFound) && unchanged(db)
    ensures ItineraryIndex(old(db.itineraries), itineraryId).Some? && old(PairRows(db.itineraryLikes, itineraryId, userId)) > 0 ==>
      r == Ok("Already liked") && unchanged(db)
    ensures ItineraryIndex(old(db.itineraries), itineraryId).Some? && old(PairRows(db.itineraryLikes, itineraryId, userId)) == 0 ==>
      var i := ItineraryIndex(old(db.itineraries), itineraryId).value;
      && r == Ok("Itinerary liked successfully")
      && db.itineraryLikes == old(db.itineraryLikes) + [Link(itineraryId, userId, now)]
      && db.itineraries == old(db.itineraries)[i := old(db.itineraries)[i].(likeCount := old(db.itineraries)[i].likeCount + 1)]
    ensures old(db.ItineraryIdsValid()) ==> db.ItineraryIdsValid()
    ensures old(AtMostOnePerPair(db.itineraryLikes)) ==> AtMostOnePerPair(db.itineraryLikes)
    ensures old(db.ItineraryIdsValid() && Counted(db.itineraries, ItineraryId, ItineraryLikeCount, db.itineraryLikes)) ==>
      Counted(db.itineraries, ItineraryId, ItineraryLikeCount, db.itineraryLikes)
  {
    var ti := ItineraryIndex(db.itineraries, itineraryId);
    if ti.None? {
      return Err(NotFound);
    }
    if HasPair(db.itineraryLikes, itineraryId, userId) {
      return Ok("Already liked");
    }
    var i := ti.value;
    var liked := db.itineraries[i].(likeCount := db.itineraries[i].likeCount + 1);
    if db.ItineraryIdsValid() && Counted(db.itineraries, ItineraryId, ItineraryLikeCount, db.itineraryLikes) {
      CountedAfterLike(db.itineraries, ItineraryId, ItineraryLikeCount, db.itineraryLikes, i, liked, userId, now);
    }
    if AtMostOnePerPair(db.itineraryLikes) {
      AtMostOneAfterAdd(db.itineraryLikes, itineraryId, userId, now);
    }
    SameIdUpdate(db.itineraries, ItineraryId, db.nextItineraryId, i, liked);
    db.itineraryLikes := db.itineraryLikes + [Link(itineraryId, userId, now)];
    db.itineraries := db.itineraries[i := liked];
    return Ok("Itinerary liked successfully");
  }

  /** `unlikeItinerary`: one transaction deletes the pair's like rows and lowers
      `likeCount` by one whether or not a row existed; a missing itinerary makes the
      update, and so the transaction, fail unchanged. The counter stays exact exactly
      when a like row was there. */
  method UnlikeItinerary(db: Db, itineraryId: RowId, userId: UserId) returns (r: Result<string>)
    modifies db`itineraries, db`itineraryLikes
    ensures ItineraryIndex(old(db.itineraries), itineraryId).None? ==> r == Err(StoreError) && unchanged(db)
    ensures ItineraryIndex(old(db.itineraries), itineraryId).Some? ==>
      var i := ItineraryIndex(old(db.itineraries), itineraryId).value;
      && r == Ok("Itinerary unliked successfully")
      && db.itineraryLikes == WithoutPair(old(db.itineraryLikes), itineraryId, userId)
      && db.itineraries == old(db.itineraries)[i := old(db.itineraries)[i].(likeCount := old(db.itineraries)[i].likeCount - 1)]
    ensures old(db.ItineraryIdsValid()) ==> db.ItineraryIdsValid()
    ensures old(AtMostOnePerPair(db.itineraryLikes)) ==> AtMostOnePerPair(db.itineraryLikes)
    ensures old(db.ItineraryIdsValid() && AtMostOnePerPair(db.itineraryLikes)
                && Counted(db.itineraries, ItineraryId, ItineraryLikeCount, db.itineraryLikes))
            && ItineraryIndex(old(db.itineraries), itineraryId).Some? ==>
      (Counted(db.itineraries, ItineraryId, ItineraryLikeCount, db.itineraryLikes)
       <==> old(PairRows(db.itineraryLikes, itineraryId, userId)) > 0)
  {
    var ti := ItineraryIndex(db.itineraries, itineraryId);
    if ti.None? {
      return Err(StoreError);
    }
    var i := ti.value;
    var unliked := db.itineraries[i].(likeCount := db.itineraries[i].likeCount - 1);
    if AtMostOnePerPair(db.itineraryLikes) {
      AtMostOneAfterDelete(db.itineraryLikes, itineraryId, userId);
      if db.ItineraryIdsValid() && Counted(db.itineraries, ItineraryId, ItineraryLikeCount, db.itineraryLikes) {
        if PairRows(db.itineraryLikes, itineraryId, userId) > 0 {
          CountedAfterUnlike(db.itineraries, ItineraryId, ItineraryLikeCount, db.itineraryLikes, i, unliked, userId);
        } else {
          UnlikeWithoutRowMiscounts(db.itineraries, ItineraryId, ItineraryLikeCount, db.itineraryLikes, i, unliked, userId);
        }
      }
    }
    SameIdUpdate(db.itineraries, ItineraryId, db.nextItineraryId, i, unliked);
    db.itineraryLikes := WithoutPair(db.itineraryLikes, itineraryId, userId);
    db.itineraries := db.itineraries[i := unliked];
    return Ok("Itinerary unliked successfully");
  }

  /** `saveItinerary`: 'Already saved' for a repeated save, otherwise one save row.
      The service does not look the itinerary up, but the save row's foreign key to
      it makes the store refuse a row for a missing itinerary. */
  method SaveItinerary(db: Db, itineraryId: RowId, userId: UserId, now: nat) returns (r: Result<string>)
    modifies db`itinerarySaves
    ensures old(PairRows(db.itinerarySaves, itineraryId, userId)) > 0 ==> r == Ok("Already saved") && unchanged(db)
    ensures old(PairRows(db.itinerarySaves, itineraryId, userId)) == 0 && ItineraryIndex(db.itineraries, itineraryId).None? ==>
      r == Err(StoreError) && unchanged(db)
    ensures old(PairRows(db.itinerarySaves, itineraryId, userId)) == 0 && ItineraryIndex(db.itineraries, itineraryId).Some? ==>
      r == Ok("Itinerary saved successfully")
      && db.itinerarySaves == old(db.itinerarySaves) + [Link(itineraryId, userId, now)]
      && PairRows(db.itinerarySaves, itineraryId, userId) == 1
    ensures old(AtMostOnePerPair(db.itinerarySaves)) ==> AtMostOnePerPair(db.itinerarySaves)
  {
    if HasPair(db.itinerarySaves, itineraryId, userId) {
      return Ok("Already saved");
    }
    if ItineraryIndex(db.itineraries, itineraryId).None? {
      return Err(StoreError);
    }
    if AtMostOnePerPair(db.itinerarySaves) {
      AtMostOneAfterAdd(db.itinerarySaves, itineraryId, userId, now);
    }
    PairRowsAppend(db.itinerarySaves, Link(itineraryId, userId, now), itineraryId, userId);
    db.itinerarySaves := db.itinerarySaves + [Link(itineraryId, userId, now)];
    return Ok("Itinerary saved successfully");
  }

  /** `unsaveItinerary`: deletes the pair's save rows, with no existence check. */
  method UnsaveItinerary(db: Db, itineraryId: RowId, userId: UserId) returns (r: Result<string>)
    modifies db`itinerarySaves
    ensures r == Ok("Itinerary unsaved successfully")
    ensures db.itinerarySaves == WithoutPair(old(db.itinerarySaves), itineraryId, userId)
    ensures PairRows(db.itinerarySaves, itineraryId, userId) == 0
    ensures old(AtMostOnePerPair(db.itinerarySaves)) ==> AtMostOnePerPair(db.itinerarySaves)
  {
    WithoutPairCounts(db.itinerarySaves, itineraryId, userId, itineraryId, userId);
    if AtMostOnePerPair(db.itinerarySaves) {
      AtMostOneAfterDelete(db.itinerarySaves, itineraryId, userId);
    }
    db.itinerarySaves := WithoutPair(db.itinerarySaves, itineraryId, userId);
    return Ok("Itinerary unsaved successfully");
  }
}
