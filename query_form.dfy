/** The query form both dialogs share (dialog.py and src/ui/main_dialog.py): what
    its widgets hold when Submit is pressed, the ten codes looked up for its
    multi-selections, and the optional filters that join the request parameters
    only when they are truthy. */
module QueryForm {
  import opened Wrappers
  import opened Text
  import opened Values
  import opened Frames
  import opened Transport
  import Mappings
  import Processors

  /** The form's inputs as its widgets report them: text boxes and combo boxes give their text, the date
      range gives `get_selected_dates()`, check boxes their state, the slider its value, and each checkable
      combo box the data of its checked items (`currentData()`). */
  datatype Form = Form(
    crs: string, geomType: string,
    collectionId: string, collectionIdNot: string, time: Option<string>,
    taxonId: string, informalTaxonGroupId: string, informalTaxonGroupIdNot: string,
    finnish: bool, invasive: bool, wild: string, taxonAdminFiltersOperator: string,
    wildCard: string, area: string, namedPlaceId: string, coordinateAccuracyMax: int,
    sourceOfCoordinates: string, collectionQuality: string, recordQuality: string,
    accessToken: string, useTestApi: bool,
    administrativeStatuses: seq<string>, redListStatuses: seq<string>,
    atlasCodes: seq<string>, atlasClasses: seq<string>,
    countries: seq<string>, municipalities: seq<string>, biogeographicalProvinces: seq<string>,
    elyCentres: seq<string>, provinces: seq<string>, birdAssociationAreas: seq<string>)

  /** The ten codes `map_values` builds from the multi-selections. */
  datatype Codes = Codes(
    administrativeStatusId: string, redListStatusId: string, atlasCode: string, atlasClass: string,
    countryId: string, finnishMunicipalityId: string, biogeographicalProvinceId: string,
    elyCentreId: string, provinceId: string, birdAssociationAreaId: string)

  /** An insertion-ordered dictionary read as a Python `dict`, for `.get`. */
  function AsMap(d: Dict<string>): (m: map<string, string>)
    ensures forall k :: k in m <==> HasKey(d, k)
    ensures forall k :: k in m ==> Get(d, k) == Some(m[k])
  {
    if d == [] then map[] else AsMap(d[1..])[d[0].0 := d[0].1]
  }

  /** The tables the dialogs are opened with hold the keys `load_areas` and `load_ranges` always return. */
  predicate Loaded(areas: Dict<Dict<string>>, ranges: Dict<Dict<string>>) {
    KeysOf(areas) == Mappings.AREA_KEYS && KeysOf(ranges) == Mappings.RANGE_KEYS
  }

  /** `tables[key]`. */
  function Table(tables: Dict<Dict<string>>, key: string): map<string, string>
    requires HasKey(tables, key)
  {
    AsMap(Get(tables, key).value)
  }

  /** The ten `map_values` calls, each on its own table. */
  function CodesOf(form: Form, areas: Dict<Dict<string>>, ranges: Dict<Dict<string>>): Codes
    requires Loaded(areas, ranges)
  {
    Codes(
      Processors.MapValues(form.administrativeStatuses, Table(ranges, "MX.adminStatusEnum")),
      Processors.MapValues(form.redListStatuses, Table(ranges, "MX.iucnStatuses")),
      Processors.MapValues(form.atlasCodes, Table(ranges, "MY.atlasCodeEnum")),
      Processors.MapValues(form.atlasClasses, Table(ranges, "MY.atlasClassEnum")),
      Processors.MapValues(form.countries, Table(areas, "countries")),
      Processors.MapValues(form.municipalities, Table(areas, "municipalities")),
      Processors.MapValues(form.biogeographicalProvinces, Table(areas, "biogeographical_areas")),
      Processors.MapValues(form.elyCentres, Table(areas, "ely_centers")),
      Processors.MapValues(form.provinces, Table(areas, "provinces")),
      Processors.MapValues(form.birdAssociationAreas, Table(areas, "bird_association_areas")))
  }

  /** The keys of the optional filters, in the order the dialogs test them. */
  const FILTER_KEYS: seq<string> := [
    "collectionId", "collectionIdNot", "time", "target", "informalTaxonGroupId", "informalTaxonGroupIdNot",
    "finnish", "invasive", "use_test_api", "wild", "administrativeStatusId", "redListStatusId",
    "taxonAdminFiltersOperator", "atlasCode", "atlasClass", "countryId", "finnishMunicipalityId",
    "biogeographicalProvinceId", "elyCentreId", "provinceId", "area", "namedPlaceId", "birdAssociationAreaId",
    "coordinateAccuracyMax", "sourceOfCoordinates", "collectionQuality", "recordQuality"]

  /** `get_selected_dates()` as a parameter value: `None` or the text. */
  function TimeValue(t: Option<string>): Value {
    match t
    case None => Null
    case Some(s) => Str(s)
  }

  /** The value each optional filter would be given, in the order of `FILTER_KEYS`. */
  function FilterValues(form: Form, codes: Codes): (vs: seq<Value>)
    ensures |vs| == |FILTER_KEYS|
  {
    [Str(form.collectionId), Str(form.collectionIdNot), TimeValue(form.time), Str(form.taxonId),
     Str(form.informalTaxonGroupId), Str(form.informalTaxonGroupIdNot),
     Bool(form.finnish), Bool(form.invasive), Bool(form.useTestApi), Str(form.wild),
     Str(codes.administrativeStatusId), Str(codes.redListStatusId), Str(form.taxonAdminFiltersOperator),
     Str(codes.atlasCode), Str(codes.atlasClass), Str(codes.countryId), Str(codes.finnishMunicipalityId),
     Str(codes.biogeographicalProvinceId), Str(codes.elyCentreId), Str(codes.provinceId),
     Str(form.area), Str(form.namedPlaceId), Str(codes.birdAssociationAreaId),
     Int(form.coordinateAccuracyMax), Str(form.sourceOfCoordinates), Str(form.collectionQuality),
     Str(form.recordQuality)]
  }

  /** Each optional filter with the value it would be given. */
  function Candidates(form: Form, codes: Codes): (cs: Dict<Value>)
    ensures KeysOf(cs) == FILTER_KEYS
  {
    var vs := FilterValues(form, codes);
    seq(|FILTER_KEYS|, i requires 0 <= i < |FILTER_KEYS| => (FILTER_KEYS[i], vs[i]))
  }

  /** The parameters after `if value: params[key] = value` for each candidate in turn. */
  function WithTruthy(d: Dict<Value>, cs: Dict<Value>): Dict<Value> {
    if cs == [] then d
    else
      var last := cs[|cs| - 1];
      var prev := WithTruthy(d, cs[..|cs| - 1]);
      if Truthy(last.1) then Put(prev, last.0, last.1) else prev
  }

  /** A key the candidates do not name keeps its value. */
  lemma {:induction false} WithTruthyOthers(d: Dict<Value>, cs: Dict<Value>, k: string)
    requires k !in KeysOf(cs)
    ensures Get(WithTruthy(d, cs), k) == Get(d, k)
  {
    if cs != [] {
      var init := cs[..|cs| - 1];
      var last := cs[|cs| - 1];
      var prev := WithTruthy(d, init);
      forall j | 0 <= j < |init| ensures KeysOf(init)[j] != k {
        assert KeysOf(cs)[j] == cs[j].0 == init[j].0;
      }
      assert last.0 == KeysOf(cs)[|cs| - 1];
      WithTruthyOthers(d, init, k);
      if Truthy(last.1) {
        assert WithTruthy(d, cs) == Put(prev, last.0, last.1);
      } else {
        assert WithTruthy(d, cs) == prev;
      }
    }
  }

  /** With distinct candidate keys, a candidate's key holds its value exactly when that value is truthy,
      and otherwise keeps what it held before. */
  lemma {:induction false} WithTruthyCandidate(d: Dict<Value>, cs: Dict<Value>, i: nat)
    requires DistinctKeys(cs) && i < |cs|
    ensures Get(WithTruthy(d, cs), cs[i].0) == if Truthy(cs[i].1) then Some(cs[i].1) else Get(d, cs[i].0)
  {
    var init := cs[..|cs| - 1];
    var last := cs[|cs| - 1];
    var prev := WithTruthy(d, init);
    var k := cs[i].0;
    var goal := if Truthy(cs[i].1) then Some(cs[i].1) else Get(d, k);
    if i < |init| {
      assert DistinctKeys(init);
      assert init[i] == cs[i];
      WithTruthyCandidate(d, init, i);
      assert Get(prev, k) == goal;
      assert last.0 != k;
      if Truthy(last.1) {
        assert WithTruthy(d, cs) == Put(prev, last.0, last.1);
      } else {
        assert WithTruthy(d, cs) == prev;
      }
    } else {
      forall j | 0 <= j < |init| ensures KeysOf(init)[j] != last.0 {
        assert init[j] == cs[j];
      }
      WithTruthyOthers(d, init, last.0);
      assert cs[i] == last;
      if Truthy(last.1) {
        assert WithTruthy(d, cs) == Put(prev, last.0, last.1);
      } else {
        assert WithTruthy(d, cs) == prev;
      }
    }
  }

  /** Keys present before stay present. */
  lemma {:induction false} WithTruthyKeeps(d: Dict<Value>, cs: Dict<Value>, k: string)
    requires HasKey(d, k)
    ensures HasKey(WithTruthy(d, cs), k)
  {
    if cs != [] {
      var init := cs[..|cs| - 1];
      var last := cs[|cs| - 1];
      var prev := WithTruthy(d, init);
      WithTruthyKeeps(d, init, k);
      assert Get(prev, k).Some?;
      assert WithTruthy(d, cs) == if Truthy(last.1) then Put(prev, last.0, last.1) else prev;
    }
  }

  /** The keys from index `lo` up to `hi` differ from every later key. */
  lemma FilterKeysDifferFrom(lo: nat, hi: nat)
    requires lo <= hi <= |FILTER_KEYS| && hi - lo <= 7
    ensures forall i, j :: lo <= i < hi && i < j < |FILTER_KEYS| ==> FILTER_KEYS[i] != FILTER_KEYS[j]
  {
  }

  /** The optional filter keys are distinct. */
  lemma FilterKeysDistinct()
    ensures Distinct(FILTER_KEYS)
  {
    FilterKeysDifferFrom(0, 7);
    FilterKeysDifferFrom(7, 14);
    FilterKeysDifferFrom(14, 21);
    FilterKeysDifferFrom(21, 27);
  }

  /** The keys every request starts with. */
  const BASE_KEYS: seq<string> := ["crs", "format", "featureType", "access_token", "page", "pageSize"]

  /** No optional filter shares its key with the keys every request starts with. */
  lemma FilterKeysNotBase()
    ensures forall k :: k in FILTER_KEYS ==> k !in BASE_KEYS
  {
    FilterKeysNotBaseFrom(0, 7);
    FilterKeysNotBaseFrom(7, 14);
    FilterKeysNotBaseFrom(14, 21);
    FilterKeysNotBaseFrom(21, 27);
  }

  /** The keys from index `lo` up to `hi` are none of the keys every request starts with. */
  lemma FilterKeysNotBaseFrom(lo: nat, hi: nat)
    requires lo <= hi <= |FILTER_KEYS| && hi - lo <= 7
    ensures forall i :: lo <= i < hi ==> FILTER_KEYS[i] !in BASE_KEYS
  {
  }

  /** The optional filters leave every other key as it was. */
  lemma FiltersLeaveOthers(base: Dict<Value>, form: Form, codes: Codes, k: string)
    requires k !in FILTER_KEYS
    ensures Get(WithTruthy(base, Candidates(form, codes)), k) == Get(base, k)
  {
    WithTruthyOthers(base, Candidates(form, codes), k);
  }

  /** An optional filter whose key the parameters do not hold yet is present exactly when its value is truthy,
      and then holds that value. */
  lemma FilterApplied(base: Dict<Value>, form: Form, codes: Codes, i: nat)
    requires i < |FILTER_KEYS| && !HasKey(base, FILTER_KEYS[i])
    ensures var v := FilterValues(form, codes)[i];
            Get(WithTruthy(base, Candidates(form, codes)), FILTER_KEYS[i]) == if Truthy(v) then Some(v) else None
  {
    var cs := Candidates(form, codes);
    FilterKeysDistinct();
    forall a, b | 0 <= a < b < |cs| ensures cs[a].0 != cs[b].0 {
      assert cs[a].0 == KeysOf(cs)[a] && cs[b].0 == KeysOf(cs)[b];
    }
    assert cs[i].0 == KeysOf(cs)[i];
    WithTruthyCandidate(base, cs, i);
  }

  /** The loop form of the twenty-seven `if value: params[key] = value` statements. */
  method AddFilters(params: ParamDict, cs: Dict<Value>)
    modifies params
    ensures params.entries == WithTruthy(old(params.entries), cs)
  {
    ghost var start := params.entries;
    for i := 0 to |cs|
      invariant params.entries == WithTruthy(start, cs[..i])
    {
      assert cs[..i + 1][..i] == cs[..i];
      if Truthy(cs[i].1) {
        params.Set(cs[i].0, cs[i].1);
      }
    }
    assert cs[..|cs|] == cs;
  }

  /** `wild_card.split('=')` gave exactly two parts: the text has exactly one `=`. */
  lemma WildCardPair(w: string)
    requires |Split(w, '=')| == 2
    ensures var parts := Split(w, '=');
            w == parts[0] + "=" + parts[1] && '=' !in parts[0] && '=' !in parts[1]
  {
    var parts := Split(w, '=');
    JoinSplit(w, '=');
    assert parts[1..] == [parts[1]];
  }

  /** Conversely, `key=value` with no other `=` splits into exactly that key and value. */
  lemma WildCardSplitsInTwo(k: string, v: string)
    requires '=' !in k && '=' !in v
    ensures Split(k + "=" + v, '=') == [k, v]
  {
    assert Join(['='], [k, v]) == k + "=" + v;
    SplitJoin([k, v], '=');
  }

  /** `key, value = wild_card.split('=')` and `params[key] = value` when the wild card is not empty; `None` when
      the unpacking raises because the split did not give exactly two parts. */
  function WithWildCard(params: Dict<Value>, w: string): Option<Dict<Value>> {
    if w == "" then Some(params)
    else
      var parts := Split(w, '=');
      if |parts| == 2 then Some(Put(params, parts[0], Str(parts[1]))) else None
  }

  /** A non-empty wild card is accepted exactly when it holds one `=`; it then sets the text before the `=` to
      the text after it, whichever key that is. */
  lemma WildCardOutcome(params: Dict<Value>, w: string)
    ensures WithWildCard(params, w).None? <==> w != "" && multiset(w)['='] != 1
    ensures w != "" && multiset(w)['='] == 1 ==>
              exists k, v :: '=' !in k && '=' !in v && w == k + "=" + v && WithWildCard(params, w) == Some(Put(params, k, Str(v)))
  {
    SplitCount(w, '=');
    if w != "" && multiset(w)['='] == 1 {
      var parts := Split(w, '=');
      WildCardPair(w);
      assert '=' !in parts[0] && '=' !in parts[1] && w == parts[0] + "=" + parts[1];
    }
  }

  /** `key=value` with no other `=` sets `key` to `value`. */
  lemma WildCardSets(params: Dict<Value>, k: string, v: string)
    requires '=' !in k && '=' !in v
    ensures WithWildCard(params, k + "=" + v) == Some(Put(params, k, Str(v)))
  {
    WildCardSplitsInTwo(k, v);
  }

  /** `params["access_token"]`. */
  function TokenOf(params: Dict<Value>): (r: Result<Value, PyError>)
    ensures r.Ok? <==> HasKey(params, "access_token")
    ensures r.Ok? ==> Get(params, "access_token") == Some(r.value)
  {
    match Get(params, "access_token")
    case None => Err(KeyError("access_token"))
    case Some(v) => Ok(v)
  }

  /** The `key: value` lines shown in the confirmation question, in parameter order. */
  function ParamText(params: Dict<Value>): string {
    Join("\n", seq(|params|, i requires 0 <= i < |params| => params[i].0 + ": " + PyStr(params[i].1)))
  }

  /** When no key or value holds a line break, the text has one line per parameter. */
  lemma ParamTextLines(params: Dict<Value>)
    requires |params| >= 1
    requires forall i :: 0 <= i < |params| ==> '\n' !in params[i].0 && '\n' !in PyStr(params[i].1)
    ensures var lines := Split(ParamText(params), '\n');
            |lines| == |params| && forall i :: 0 <= i < |params| ==> lines[i] == params[i].0 + ": " + PyStr(params[i].1)
  {
    var lines := seq(|params|, i requires 0 <= i < |params| => params[i].0 + ": " + PyStr(params[i].1));
    forall i | 0 <= i < |lines| ensures '\n' !in lines[i] {
      assert lines[i] == params[i].0 + ": " + PyStr(params[i].1);
    }
    SplitJoin(lines, '\n');
  }

  /** The `QSettings` key the access token is saved under. */
  const TOKEN_SETTING := "FinBIF_API_Plugin/access_token"

  /** The text the access token field starts with: the saved token, or nothing. */
  function InitialToken(saved: Dict<Value>): string {
    var v := Get(saved, TOKEN_SETTING);
    if v.Some? && v.value.Str? then v.value.s else ""
  }

  /** The settings once `saved` is written to them. */
  function Saving(settings: Dict<Value>, saved: Option<Value>): Dict<Value> {
    if saved.Some? then Put(settings, TOKEN_SETTING, saved.value) else settings
  }
}
