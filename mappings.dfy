/** The lookup tables the query form offers (src/mappings.py): areas bucketed by
    their type, and the four enumerations read from the ranges file. Reading the
    files is not part of this model; the loops start from the decoded JSON. */
module Mappings {
  import opened Wrappers
  import opened Values

  /** One entry of the areas file's `results`: its id, its optional name, its type and, for a country,
      its optional ISO 3166-1 alpha-2 code. */
  datatype Area = Area(id: string, name: Option<string>, areaType: string, countryCode: Option<string>)

  const COUNTRY := "ML.country"
  const MUNICIPALITY := "ML.municipality"
  const BIOGEOGRAPHICAL_PROVINCE := "ML.biogeographicalProvince"
  const PROVINCE := "ML.province"
  const ELY_CENTRE := "ML.elyCentre"
  const BIRD_ASSOCIATION_AREA := "ML.birdAssociationArea"

  /** `area.get('name', '')`. */
  function NameOf(a: Area): string {
    a.name.GetOr("")
  }

  /** `area.get('countryCodeISOalpha2', 'Unknown')`. */
  function CodeOf(a: Area): string {
    a.countryCode.GetOr("Unknown")
  }

  /** The bucket of areas of type `t`: name to id, each area in turn, a later one overwriting an earlier
      one of the same name. */
  function Bucket(areas: seq<Area>, t: string): Dict<string> {
    if areas == [] then []
    else
      var prev := Bucket(areas[..|areas| - 1], t);
      var a := areas[|areas| - 1];
      if a.areaType == t then Put(prev, NameOf(a), a.id) else prev
  }

  /** `countries_by_id`: country id to its code. */
  function CodesById(areas: seq<Area>): Dict<string> {
    if areas == [] then []
    else
      var prev := CodesById(areas[..|areas| - 1]);
      var a := areas[|areas| - 1];
      if a.areaType == COUNTRY then Put(prev, a.id, CodeOf(a)) else prev
  }

  /** The keys of what `load_areas` returns, in order. */
  const AREA_KEYS := ["countries", "countries_by_id", "municipalities", "biogeographical_areas",
                      "provinces", "ely_centers", "bird_association_areas"]

  /** What `load_areas` returns for the given areas. */
  function AreasOf(areas: seq<Area>): Dict<Dict<string>> {
    [("countries", Bucket(areas, COUNTRY)),
     ("countries_by_id", CodesById(areas)),
     ("municipalities", Bucket(areas, MUNICIPALITY)),
     ("biogeographical_areas", Bucket(areas, BIOGEOGRAPHICAL_PROVINCE)),
     ("provinces", Bucket(areas, PROVINCE)),
     ("ely_centers", Bucket(areas, ELY_CENTRE)),
     ("bird_association_areas", Bucket(areas, BIRD_ASSOCIATION_AREA))]
  }

  /** The result always has the same seven keys, in order, whatever the file holds. */
  lemma AreasKeys(areas: seq<Area>)
    ensures KeysOf(AreasOf(areas)) == AREA_KEYS
  {
  }

  /** Area `a` is of type `t` and named `n`. */
  predicate Named(a: Area, t: string, n: string) {
    a.areaType == t && NameOf(a) == n
  }

  /** Area `k` is the last one of type `t` named `n`. */
  predicate LastNamed(areas: seq<Area>, t: string, n: string, k: int) {
    0 <= k < |areas| && Named(areas[k], t, n) && forall k' :: k < k' < |areas| ==> !Named(areas[k'], t, n)
  }

  /** A bucket holds a name exactly when some area of its type has that name; areas of other types, known
      or not, leave it alone. */
  lemma {:induction false} BucketHas(areas: seq<Area>, t: string, n: string)
    ensures Get(Bucket(areas, t), n).Some? <==> exists k :: 0 <= k < |areas| && Named(areas[k], t, n)
  {
    if areas != [] {
      var init := areas[..|areas| - 1];
      var a := areas[|areas| - 1];
      BucketHas(init, t, n);
      if Named(a, t, n) {
        assert Get(Bucket(areas, t), n) == Some(a.id);
        assert Named(areas[|areas| - 1], t, n);
      } else {
        assert Get(Bucket(areas, t), n) == Get(Bucket(init, t), n);
        if exists k :: 0 <= k < |areas| && Named(areas[k], t, n) {
          var k :| 0 <= k < |areas| && Named(areas[k], t, n);
          assert k < |init| && init[k] == areas[k];
        }
        if exists k :: 0 <= k < |init| && Named(init[k], t, n) {
          var k :| 0 <= k < |init| && Named(init[k], t, n);
          assert areas[k] == init[k];
        }
      }
    }
  }

  /** The name maps to the id of the last area of the type with that name. */
  lemma {:induction false} BucketLast(areas: seq<Area>, t: string, n: string, k: int)
    requires LastNamed(areas, t, n, k)
    ensures Get(Bucket(areas, t), n) == Some(areas[k].id)
  {
    var init := areas[..|areas| - 1];
    if k < |init| {
      forall k' | k < k' < |init| ensures !Named(init[k'], t, n) {
        assert init[k'] == areas[k'];
      }
      assert init[k] == areas[k];
      BucketLast(init, t, n, k);
      assert Get(Bucket(areas, t), n) == Get(Bucket(init, t), n);
    }
  }

  /** Area `a` is a country with id `id`. */
  predicate CountryWithId(a: Area, id: string) {
    a.areaType == COUNTRY && a.id == id
  }

  /** Country `k` is the last one with id `id`. */
  predicate LastCountry(areas: seq<Area>, id: string, k: int) {
    0 <= k < |areas| && CountryWithId(areas[k], id) && forall k' :: k < k' < |areas| ==> !CountryWithId(areas[k'], id)
  }

  /** `countries_by_id` holds the id of every country and of nothing else. */
  lemma {:induction false} CodesByIdHas(areas: seq<Area>, id: string)
    ensures Get(CodesById(areas), id).Some? <==> exists k :: 0 <= k < |areas| && CountryWithId(areas[k], id)
  {
    if areas != [] {
      var init := areas[..|areas| - 1];
      var a := areas[|areas| - 1];
      CodesByIdHas(init, id);
      if CountryWithId(a, id) {
        assert Get(CodesById(areas), id) == Some(CodeOf(a));
        assert CountryWithId(areas[|areas| - 1], id);
      } else {
        assert Get(CodesById(areas), id) == Get(CodesById(init), id);
        if exists k :: 0 <= k < |areas| && CountryWithId(areas[k], id) {
          var k :| 0 <= k < |areas| && CountryWithId(areas[k], id);
          assert k < |init| && init[k] == areas[k];
        }
        if exists k :: 0 <= k < |init| && CountryWithId(init[k], id) {
          var k :| 0 <= k < |init| && CountryWithId(init[k], id);
          assert areas[k] == init[k];
        }
      }
    }
  }

  /** A country id maps to the code of the last country with that id. */
  lemma {:induction false} CodesByIdLast(areas: seq<Area>, id: string, k: int)
    requires LastCountry(areas, id, k)
    ensures Get(CodesById(areas), id) == Some(CodeOf(areas[k]))
  {
    var init := areas[..|areas| - 1];
    if k < |init| {
      forall k' | k < k' < |init| ensures !CountryWithId(init[k'], id) {
        assert init[k'] == areas[k'];
      }
      assert init[k] == areas[k];
      CodesByIdLast(init, id, k);
      assert Get(CodesById(areas), id) == Get(CodesById(init), id);
    }
  }

  lemma BucketStep(areas: seq<Area>, i: nat, t: string)
    requires i < |areas|
    ensures Bucket(areas[..i + 1], t) ==
            if areas[i].areaType == t then Put(Bucket(areas[..i], t), NameOf(areas[i]), areas[i].id) else Bucket(areas[..i], t)
    ensures CodesById(areas[..i + 1]) ==
            if areas[i].areaType == COUNTRY then Put(CodesById(areas[..i]), areas[i].id, CodeOf(areas[i])) else CodesById(areas[..i])
  {
    assert areas[..i + 1][..i] == areas[..i];
  }

  /** `load_areas()` from the decoded `results`: each area is put in the one bucket its type selects, and
      an area of any other type is skipped. */
  method LoadAreas(results: seq<Area>) returns (areas: Dict<Dict<string>>)
    ensures areas == AreasOf(results)
  {
    var countries: Dict<string> := [];
    var countriesById: Dict<string> := [];
    var municipalities: Dict<string> := [];
    var biogeographicalAreas: Dict<string> := [];
    var provinces: Dict<string> := [];
    var elyCenters: Dict<string> := [];
    var birdAssociationAreas: Dict<string> := [];
    for i := 0 to |results|
      invariant countries == Bucket(results[..i], COUNTRY) && countriesById == CodesById(results[..i])
      invariant municipalities == Bucket(results[..i], MUNICIPALITY)
      invariant biogeographicalAreas == Bucket(results[..i], BIOGEOGRAPHICAL_PROVINCE)
      invariant provinces == Bucket(results[..i], PROVINCE)
      invariant elyCenters == Bucket(results[..i], ELY_CENTRE)
      invariant birdAssociationAreas == Bucket(results[..i], BIRD_ASSOCIATION_AREA)
    {
      var area := results[i];
      var name := NameOf(area);
      BucketStep(results, i, COUNTRY);
      BucketStep(results, i, MUNICIPALITY);
      BucketStep(results, i, BIOGEOGRAPHICAL_PROVINCE);
      BucketStep(results, i, PROVINCE);
      BucketStep(results, i, ELY_CENTRE);
      BucketStep(results, i, BIRD_ASSOCIATION_AREA);
      if area.areaType == COUNTRY {
        countries := Put(countries, name, area.id);
        countriesById := Put(countriesById, area.id, CodeOf(area));
      } else if area.areaType == MUNICIPALITY {
        municipalities := Put(municipalities, name, area.id);
      } else if area.areaType == BIOGEOGRAPHICAL_PROVINCE {
        biogeographicalAreas := Put(biogeographicalAreas, name, area.id);
      } else if area.areaType == PROVINCE {
        provinces := Put(provinces, name, area.id);
      } else if area.areaType == ELY_CENTRE {
        elyCenters := Put(elyCenters, name, area.id);
      } else if area.areaType == BIRD_ASSOCIATION_AREA {
        birdAssociationAreas := Put(birdAssociationAreas, name, area.id);
      }
    }
    assert results[..|results|] == results;
    areas := [("countries", countries), ("countries_by_id", countriesById), ("municipalities", municipalities),
              ("biogeographical_areas", biogeographicalAreas), ("provinces", provinces),
              ("ely_centers", elyCenters), ("bird_association_areas", birdAssociationAreas)];
  }

  // ----- ranges -----

  /** One `{value, id}` entry of an enumeration. */
  datatype RangeEntry = RangeEntry(value: string, id: string)

  /** The categories `load_ranges` keeps, in the order of its result. */
  const RANGE_KEYS := ["MX.adminStatusEnum", "MX.iucnStatuses", "MY.atlasCodeEnum", "MY.atlasClassEnum"]

  /** The entries put into `table`, each in turn: value to id. */
  function Filled(table: Dict<string>, entries: seq<RangeEntry>): Dict<string> {
    if entries == [] then table
    else
      var last := entries[|entries| - 1];
      Put(Filled(table, entries[..|entries| - 1]), last.value, last.id)
  }

  /** The table of category `c` after the given items of the file, in file order. */
  function Category(data: Dict<seq<RangeEntry>>, c: string): Dict<string> {
    if data == [] then []
    else
      var prev := Category(data[..|data| - 1], c);
      var item := data[|data| - 1];
      if item.0 == c then Filled(prev, item.1) else prev
  }

  /** What `load_ranges` returns for the decoded file. */
  function RangesOf(data: Dict<seq<RangeEntry>>): Dict<Dict<string>> {
    [(RANGE_KEYS[0], Category(data, RANGE_KEYS[0])), (RANGE_KEYS[1], Category(data, RANGE_KEYS[1])),
     (RANGE_KEYS[2], Category(data, RANGE_KEYS[2])), (RANGE_KEYS[3], Category(data, RANGE_KEYS[3]))]
  }

  /** The result always has the four category keys, in order. */
  lemma RangesKeys(data: Dict<seq<RangeEntry>>)
    ensures KeysOf(RangesOf(data)) == RANGE_KEYS
    ensures DistinctKeys(RangesOf(data))
  {
  }

  /** Entry `k` is the last one with value `v`. */
  predicate LastValue(entries: seq<RangeEntry>, v: string, k: int) {
    0 <= k < |entries| && entries[k].value == v && forall k' :: k < k' < |entries| ==> entries[k'].value != v
  }

  /** Filling a table leaves a value no entry has as it was. */
  lemma {:induction false} FilledUntouched(table: Dict<string>, entries: seq<RangeEntry>, v: string)
    requires forall k :: 0 <= k < |entries| ==> entries[k].value != v
    ensures Get(Filled(table, entries), v) == Get(table, v)
  {
    if entries != [] {
      var init := entries[..|entries| - 1];
      assert forall j :: 0 <= j < |init| ==> init[j] == entries[j];
      FilledUntouched(table, init, v);
    }
  }

  /** Filling a table maps a value of the entries to the id of the last entry with that value. */
  lemma {:induction false} FilledLast(table: Dict<string>, entries: seq<RangeEntry>, v: string, k: int)
    requires LastValue(entries, v, k)
    ensures Get(Filled(table, entries), v) == Some(entries[k].id)
  {
    var init := entries[..|entries| - 1];
    var last := entries[|entries| - 1];
    assert Filled(table, entries) == Put(Filled(table, init), last.value, last.id);
    if k < |init| {
      forall k' | k < k' < |init| ensures init[k'].value != v {
        assert init[k'] == entries[k'];
      }
      assert init[k] == entries[k];
      FilledLast(table, init, v, k);
      assert last.value != v;
    } else {
      assert last == entries[k];
    }
  }

  /** Looking a key up in a dictionary with one more item at its end. */
  lemma {:induction false} GetSnoc<V>(d: Dict<V>, item: (string, V), k: string)
    ensures Get(d + [item], k) == if Get(d, k).Some? then Get(d, k) else if item.0 == k then Some(item.1) else None
  {
    if d != [] {
      assert (d + [item])[1..] == d[1..] + [item];
      GetSnoc(d[1..], item, k);
    }
  }

  /** With the file's category names distinct (as JSON object keys are), a category's table is built from
      its own entries alone; a category the file lacks gives an empty table. */
  lemma {:induction false} CategoryOwnEntries(data: Dict<seq<RangeEntry>>, c: string)
    requires DistinctKeys(data)
    ensures Category(data, c) == match Get(data, c) case None => [] case Some(entries) => Filled([], entries)
  {
    if data != [] {
      var init := data[..|data| - 1];
      var item := data[|data| - 1];
      assert data == init + [item];
      assert DistinctKeys(init);
      CategoryOwnEntries(init, c);
      GetSnoc(init, item, c);
      if item.0 == c && Get(init, c).Some? {
        var p := GetIndex(init, c);
      }
    }
  }

  /** The inner loop over one category's entries. */
  method FillTable(table: Dict<string>, entries: seq<RangeEntry>) returns (filled: Dict<string>)
    ensures filled == Filled(table, entries)
  {
    filled := table;
    for i := 0 to |entries|
      invariant filled == Filled(table, entries[..i])
    {
      assert entries[..i + 1][..i] == entries[..i];
      filled := Put(filled, entries[i].value, entries[i].id);
    }
    assert entries[..|entries|] == entries;
  }

  lemma CategoryStep(data: Dict<seq<RangeEntry>>, i: nat, c: string)
    requires i < |data|
    ensures Category(data[..i + 1], c) == if data[i].0 == c then Filled(Category(data[..i], c), data[i].1) else Category(data[..i], c)
  {
    assert data[..i + 1][..i] == data[..i];
  }

  /** `load_ranges()` from the decoded file: the entries of the four known categories go to their tables,
      and other categories are skipped. */
  method LoadRanges(data: Dict<seq<RangeEntry>>) returns (ranges: Dict<Dict<string>>)
    ensures ranges == RangesOf(data)
  {
    var administrativeStatuses: Dict<string> := [];
    var iucnStatuses: Dict<string> := [];
    var atlasCodes: Dict<string> := [];
    var atlasClasses: Dict<string> := [];
    for i := 0 to |data|
      invariant administrativeStatuses == Category(data[..i], RANGE_KEYS[0])
      invariant iucnStatuses == Category(data[..i], RANGE_KEYS[1])
      invariant atlasCodes == Category(data[..i], RANGE_KEYS[2])
      invariant atlasClasses == Category(data[..i], RANGE_KEYS[3])
    {
      var (category, entries) := data[i];
      CategoryStep(data, i, RANGE_KEYS[0]);
      CategoryStep(data, i, RANGE_KEYS[1]);
      CategoryStep(data, i, RANGE_KEYS[2]);
      CategoryStep(data, i, RANGE_KEYS[3]);
      if category == "MX.adminStatusEnum" {
        administrativeStatuses := FillTable(administrativeStatuses, entries);
      } else if category == "MX.iucnStatuses" {
        iucnStatuses := FillTable(iucnStatuses, entries);
      } else if category == "MY.atlasCodeEnum" {
        atlasCodes := FillTable(atlasCodes, entries);
      } else if category == "MY.atlasClassEnum" {
        atlasClasses := FillTable(atlasClasses, entries);
      }
    }
    assert data[..|data|] == data;
    ranges := [("MX.adminStatusEnum", administrativeStatuses), ("MX.iucnStatuses", iucnStatuses),
               ("MY.atlasCodeEnum", atlasCodes), ("MY.atlasClassEnum", atlasClasses)];
  }
}
