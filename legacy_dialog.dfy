/** The Submit handler of the first plug-in version (dialog.py, `FinBIFDialog.run`):
    the request parameters are assembled from the form, the wild card and the
    access token are checked, the user confirms, the pages are fetched, and the
    features are sorted by geometry type into up to six memory layers, every
    GeometryCollection being exploded into copies of its feature, one per member. */
module LegacyDialog {
  import opened Wrappers
  import opened Text
  import opened Values
  import opened Geometry
  import opened Frames
  import opened Transport
  import Layers
  import QueryForm
  import LegacyApi
  import Api

  // ---------------------------------------------------------------------------------------------
  // The request parameters

  /** The dictionary literal every request starts from. */
  function BaseParams(form: QueryForm.Form): (d: Dict<Value>)
    ensures KeysOf(d) == QueryForm.BASE_KEYS
  {
    [("crs", Str(form.crs)), ("format", Str("geojson")), ("featureType", Str(form.geomType)),
     ("access_token", Str(form.accessToken)), ("page", Int(1)), ("pageSize", Int(10000))]
  }

  /** The parameters after the twenty-seven `if value: params[key] = value` statements. */
  function Filtered(form: QueryForm.Form, codes: QueryForm.Codes): Dict<Value> {
    QueryForm.WithTruthy(BaseParams(form), QueryForm.Candidates(form, codes))
  }

  /** The literal holds the form's access token. */
  lemma BaseToken(form: QueryForm.Form)
    ensures Get(BaseParams(form), "access_token") == Some(Str(form.accessToken))
  {
    var d := BaseParams(form);
    assert d == d[..3] + d[3..];
    GetAfter(d[..3], d[3..], "access_token");
  }

  /** The six fixed parameters keep the values of the literal, and each optional filter is present exactly
      when its value is truthy. */
  lemma FilteredParams(form: QueryForm.Form, codes: QueryForm.Codes)
    ensures forall k :: k in QueryForm.BASE_KEYS ==> Get(Filtered(form, codes), k) == Get(BaseParams(form), k)
    ensures var vs := QueryForm.FilterValues(form, codes);
            forall i :: 0 <= i < |QueryForm.FILTER_KEYS| ==>
              Get(Filtered(form, codes), QueryForm.FILTER_KEYS[i]) == if Truthy(vs[i]) then Some(vs[i]) else None
  {
    var base := BaseParams(form);
    QueryForm.FilterKeysNotBase();
    forall k | k in QueryForm.BASE_KEYS ensures Get(Filtered(form, codes), k) == Get(base, k) {
      QueryForm.FiltersLeaveOthers(base, form, codes, k);
    }
    forall i | 0 <= i < |QueryForm.FILTER_KEYS|
      ensures var v := QueryForm.FilterValues(form, codes)[i];
              Get(Filtered(form, codes), QueryForm.FILTER_KEYS[i]) == if Truthy(v) then Some(v) else None
    {
      assert QueryForm.FILTER_KEYS[i] in QueryForm.FILTER_KEYS;
      assert QueryForm.FILTER_KEYS[i] !in KeysOf(base);
      QueryForm.FilterApplied(base, form, codes, i);
    }
  }

  /** The access token survives the optional filters. */
  lemma FilteredToken(form: QueryForm.Form, codes: QueryForm.Codes)
    ensures Get(Filtered(form, codes), "access_token") == Some(Str(form.accessToken))
  {
    BaseToken(form);
    QueryForm.FilterKeysNotBase();
    assert "access_token" in QueryForm.BASE_KEYS;
    QueryForm.FiltersLeaveOthers(BaseParams(form), form, codes, "access_token");
  }

  /** How a press of Submit ends. */
  datatype RunEnd =
    | Cancelled                             // pressed while a run was marked running: the mark is cleared
    | BadWildCard                           // the wild card did not split in two: a warning, and the mark is cleared
    | MissingToken                          // the access token is empty: a warning, and the mark is cleared
    | Declined                              // the user answered No: the mark is cleared
    | Raised(error: PyError)                // an exception escaped `run`: the mark stays set
    | FetchFailed(end: LegacyApi.LegacyEnd) // an exception escaped `fetch_data`: the mark stays set
    | Loaded(records: nat)                  // the information message reported this many records

  /** After the form is read: the wild card is applied to `params` and the token is checked. The result is the
      parameters that are sent, or how the run ends before anything is fetched. */
  function RequestFrom(params: Dict<Value>, w: string): Result<Dict<Value>, RunEnd> {
    match QueryForm.WithWildCard(params, w)
    case None => Err(BadWildCard)
    case Some(params') =>
      match QueryForm.TokenOf(params')
      case Err(e) => Err(Raised(e))
      case Ok(token) => if Truthy(token) then Ok(params') else Err(MissingToken)
  }

  /** The parameters that are sent for a form, or how the run ends before anything is fetched. */
  function Request(form: QueryForm.Form, codes: QueryForm.Codes): Result<Dict<Value>, RunEnd> {
    RequestFrom(Filtered(form, codes), form.wildCard)
  }

  /** The token lookup cannot fail: the key is in the literal and nothing removes it. So the run ends before
      fetching with a bad wild card or an empty token, or goes on with a non-empty token. */
  lemma RequestOutcomes(form: QueryForm.Form, codes: QueryForm.Codes)
    ensures var r := Request(form, codes);
            && (r.Err? ==> r.error == BadWildCard || r.error == MissingToken)
            && (r.Ok? ==> QueryForm.TokenOf(r.value).Ok? && QueryForm.TokenOf(r.value).value.Str? && Truthy(QueryForm.TokenOf(r.value).value))
  {
    FilteredToken(form, codes);
    var d := Filtered(form, codes);
    match QueryForm.WithWildCard(d, form.wildCard)
    case None =>
    case Some(params) =>
      if form.wildCard != "" {
        var parts := Split(form.wildCard, '=');
        assert params == Put(d, parts[0], Str(parts[1]));
        assert Get(params, "access_token").Some?;
      }
  }

  /** The wild card is applied before the token check, so `access_token=...` supplies a token the form left
      empty. */
  lemma WildCardSuppliesToken(form: QueryForm.Form, codes: QueryForm.Codes, t: string)
    requires t != "" && '=' !in t
    requires form.wildCard == "access_token=" + t
    ensures Request(form, codes).Ok?
    ensures Get(Request(form, codes).value, "access_token") == Some(Str(t))
  {
    var d := Filtered(form, codes);
    assert form.wildCard == "access_token" + "=" + t;
    QueryForm.WildCardSets(d, "access_token", t);
    var params := Put(d, "access_token", Str(t));
    assert QueryForm.WithWildCard(d, form.wildCard) == Some(params);
    assert QueryForm.TokenOf(params) == Ok(Str(t));
    assert Request(form, codes) == Ok(params);
  }

  /** An empty token in the form and no wild card end the run before anything is fetched. */
  lemma EmptyTokenStops(form: QueryForm.Form, codes: QueryForm.Codes)
    requires form.accessToken == "" && form.wildCard == ""
    ensures Request(form, codes) == Err(MissingToken)
  {
    FilteredToken(form, codes);
  }

  /** The text of the confirmation question. */
  const QUESTION_HEAD := "Fetching data with the following parameters:\n\n"
  const QUESTION_TAIL := "\n\nDo you want to continue?"

  function Question(params: Dict<Value>): string {
    QUESTION_HEAD + QueryForm.ParamText(params) + QUESTION_TAIL
  }

  // ---------------------------------------------------------------------------------------------
  // Sorting the features by geometry type

  /** The six types a layer is made for, in the order the layers are created. */
  const LAYER_KINDS: seq<Kind> := [PointKind, LineStringKind, PolygonKind, MultiPointKind, MultiLineStringKind, MultiPolygonKind]

  /** Every type but GeometryCollection has a layer. */
  lemma LayerKindsAll(k: Kind)
    ensures k in LAYER_KINDS <==> k != CollectionKind
  {
  }

  /** The feature has a geometry of type `k`. */
  predicate HasKind(f: Feature, k: Kind) {
    f.geometry.Some? && KindOf(f.geometry.value) == k
  }

  /** `[feature for feature in all_features if feature['geometry']['type'] == k]`. */
  function OfKind(fs: seq<Feature>, k: Kind): seq<Feature> {
    if fs == [] then []
    else
      var last := fs[|fs| - 1];
      OfKind(fs[..|fs| - 1], k) + (if HasKind(last, k) then [last] else [])
  }

  /** `feature['geometry']['geometries']` for a GeometryCollection; nothing for any other feature. */
  function GeomsOf(f: Feature): seq<Geom> {
    match f.geometry
    case Some(GeometryCollection(gs)) => gs
    case _ => []
  }

  /** The copies of `f` the explosion appends to the list of type `k`: one per member of that type, with only
      the geometry replaced. */
  function Children(f: Feature, gs: seq<Geom>, k: Kind): seq<Feature> {
    if gs == [] then []
    else
      var g := gs[|gs| - 1];
      Children(f, gs[..|gs| - 1], k) + (if KindOf(g) == k then [Feature(Some(g), f.properties)] else [])
  }

  /** The copies the explosion loop appends to the list of type `k`, collection by collection. */
  function Exploded(fs: seq<Feature>, k: Kind): seq<Feature> {
    if fs == [] then []
    else
      var last := fs[|fs| - 1];
      Exploded(fs[..|fs| - 1], k) + Children(last, GeomsOf(last), k)
  }

  /** The list of type `k` once the collections are exploded: the features of that type, then the copies. */
  function Bucket(fs: seq<Feature>, k: Kind): seq<Feature> {
    OfKind(fs, k) + Exploded(OfKind(fs, CollectionKind), k)
  }

  lemma {:induction false} OfKindMembers(fs: seq<Feature>, k: Kind, f: Feature)
    ensures f in OfKind(fs, k) <==> f in fs && HasKind(f, k)
  {
    if fs != [] {
      var init := fs[..|fs| - 1];
      OfKindMembers(init, k, f);
      assert fs == init + [fs[|fs| - 1]];
    }
  }

  /** `x` is the copy of the `j`-th member of `fs[i]`'s collection, which has type `k`. */
  predicate ChildCopy(fs: seq<Feature>, i: int, j: int, k: Kind, x: Feature) {
    0 <= i < |fs| && 0 <= j < |GeomsOf(fs[i])| && KindOf(GeomsOf(fs[i])[j]) == k
    && x == Feature(Some(GeomsOf(fs[i])[j]), fs[i].properties)
  }

  lemma {:induction false} ChildrenMembers(f: Feature, gs: seq<Geom>, k: Kind, x: Feature)
    ensures x in Children(f, gs, k) <==> exists j :: 0 <= j < |gs| && KindOf(gs[j]) == k && x == Feature(Some(gs[j]), f.properties)
  {
    if gs != [] {
      var init := gs[..|gs| - 1];
      ChildrenMembers(f, init, k, x);
      if exists j :: 0 <= j < |gs| && KindOf(gs[j]) == k && x == Feature(Some(gs[j]), f.properties) {
        var j :| 0 <= j < |gs| && KindOf(gs[j]) == k && x == Feature(Some(gs[j]), f.properties);
        if j < |init| {
          assert init[j] == gs[j];
        }
      }
      if exists j :: 0 <= j < |init| && KindOf(init[j]) == k && x == Feature(Some(init[j]), f.properties) {
        var j :| 0 <= j < |init| && KindOf(init[j]) == k && x == Feature(Some(init[j]), f.properties);
        assert gs[j] == init[j];
      }
    }
  }

  lemma {:induction false} ExplodedHas(fs: seq<Feature>, k: Kind, i: nat, j: nat)
    requires i < |fs| && j < |GeomsOf(fs[i])| && KindOf(GeomsOf(fs[i])[j]) == k
    ensures Feature(Some(GeomsOf(fs[i])[j]), fs[i].properties) in Exploded(fs, k)
  {
    var init := fs[..|fs| - 1];
    var last := fs[|fs| - 1];
    var x := Feature(Some(GeomsOf(fs[i])[j]), fs[i].properties);
    assert Exploded(fs, k) == Exploded(init, k) + Children(last, GeomsOf(last), k);
    if i < |init| {
      assert init[i] == fs[i];
      ExplodedHas(init, k, i, j);
    } else {
      ChildrenMembers(last, GeomsOf(last), k, x);
    }
  }

  lemma {:induction false} ExplodedFrom(fs: seq<Feature>, k: Kind, x: Feature)
    requires x in Exploded(fs, k)
    ensures exists i, j :: ChildCopy(fs, i, j, k, x)
  {
    var init := fs[..|fs| - 1];
    var last := fs[|fs| - 1];
    assert Exploded(fs, k) == Exploded(init, k) + Children(last, GeomsOf(last), k);
    if x in Exploded(init, k) {
      ExplodedFrom(init, k, x);
      var i, j :| ChildCopy(init, i, j, k, x);
      assert fs[i] == init[i];
      assert ChildCopy(fs, i, j, k, x);
    } else {
      ChildrenMembers(last, GeomsOf(last), k, x);
      var j :| 0 <= j < |GeomsOf(last)| && KindOf(GeomsOf(last)[j]) == k && x == Feature(Some(GeomsOf(last)[j]), last.properties);
      assert ChildCopy(fs, |fs| - 1, j, k, x);
    }
  }

  lemma ExplodedMembers(fs: seq<Feature>, k: Kind, x: Feature)
    ensures x in Exploded(fs, k) <==> exists i, j :: ChildCopy(fs, i, j, k, x)
  {
    if x in Exploded(fs, k) {
      ExplodedFrom(fs, k, x);
    }
    if exists i, j :: ChildCopy(fs, i, j, k, x) {
      var i, j :| ChildCopy(fs, i, j, k, x);
      ExplodedHas(fs, k, i, j);
    }
  }

  /** Exploding only the collections gives the same copies as exploding every feature. */
  lemma {:induction false} ExplodedCollections(fs: seq<Feature>, k: Kind)
    ensures Exploded(OfKind(fs, CollectionKind), k) == Exploded(fs, k)
  {
    if fs != [] {
      var init := fs[..|fs| - 1];
      var last := fs[|fs| - 1];
      var cols := OfKind(init, CollectionKind);
      ExplodedCollections(init, k);
      assert Exploded(fs, k) == Exploded(init, k) + Children(last, GeomsOf(last), k);
      if HasKind(last, CollectionKind) {
        assert OfKind(fs, CollectionKind) == cols + [last];
        assert (cols + [last])[..|cols|] == cols;
      } else {
        assert OfKind(fs, CollectionKind) == cols + [] == cols;
        assert GeomsOf(last) == [];
        assert Children(last, [], k) == [];
        assert Exploded(fs, k) == Exploded(init, k) + [] == Exploded(init, k);
      }
    }
  }

  /** The lists the layers are made from form an exact sorting: the list of type `k` holds the features of
      type `k`, and for each GeometryCollection feature a copy per member of type `k` with only the geometry
      replaced; nothing else. So a GeometryCollection nested in a collection lands in no list, and every feature
      in the list of type `k` has type `k`. */
  lemma BucketMembers(fs: seq<Feature>, k: Kind, x: Feature)
    requires k != CollectionKind
    ensures x in Bucket(fs, k) <==> (x in fs && HasKind(x, k)) || exists i, j :: ChildCopy(fs, i, j, k, x)
    ensures x in Bucket(fs, k) ==> HasKind(x, k)
  {
    OfKindMembers(fs, k, x);
    ExplodedCollections(fs, k);
    ExplodedMembers(fs, k, x);
  }

  /** The number of members of a collection that are not collections themselves. */
  function NonCollections(gs: seq<Geom>): nat {
    if gs == [] then 0
    else NonCollections(gs[..|gs| - 1]) + (if KindOf(gs[|gs| - 1]) != CollectionKind then 1 else 0)
  }

  /** The list entries a feature should give rise to: one for a feature of a layer type, one per member that is
      not a collection for a GeometryCollection, and none for a feature without a geometry. */
  function Weight(f: Feature): nat {
    match f.geometry
    case None => 0
    case Some(GeometryCollection(gs)) => NonCollections(gs)
    case Some(_) => 1
  }

  function TotalWeight(fs: seq<Feature>): nat {
    if fs == [] then 0 else TotalWeight(fs[..|fs| - 1]) + Weight(fs[|fs| - 1])
  }

  /** The entries of the six lists together. */
  function Spread(fs: seq<Feature>): nat {
    |Bucket(fs, PointKind)| + |Bucket(fs, LineStringKind)| + |Bucket(fs, PolygonKind)|
    + |Bucket(fs, MultiPointKind)| + |Bucket(fs, MultiLineStringKind)| + |Bucket(fs, MultiPolygonKind)|
  }

  function ChildrenSpread(f: Feature, gs: seq<Geom>): nat {
    |Children(f, gs, PointKind)| + |Children(f, gs, LineStringKind)| + |Children(f, gs, PolygonKind)|
    + |Children(f, gs, MultiPointKind)| + |Children(f, gs, MultiLineStringKind)| + |Children(f, gs, MultiPolygonKind)|
  }

  lemma {:induction false} ChildrenCount(f: Feature, gs: seq<Geom>)
    ensures ChildrenSpread(f, gs) == NonCollections(gs)
  {
    if gs != [] {
      ChildrenCount(f, gs[..|gs| - 1]);
    }
  }

  function ExplodedSpread(fs: seq<Feature>): nat {
    |Exploded(fs, PointKind)| + |Exploded(fs, LineStringKind)| + |Exploded(fs, PolygonKind)|
    + |Exploded(fs, MultiPointKind)| + |Exploded(fs, MultiLineStringKind)| + |Exploded(fs, MultiPolygonKind)|
  }

  function TopSpread(fs: seq<Feature>): nat {
    |OfKind(fs, PointKind)| + |OfKind(fs, LineStringKind)| + |OfKind(fs, PolygonKind)|
    + |OfKind(fs, MultiPointKind)| + |OfKind(fs, MultiLineStringKind)| + |OfKind(fs, MultiPolygonKind)|
  }

  lemma {:induction false} SpreadSplits(fs: seq<Feature>)
    ensures Spread(fs) == TopSpread(fs) + ExplodedSpread(fs)
  {
    ExplodedCollections(fs, PointKind);
    ExplodedCollections(fs, LineStringKind);
    ExplodedCollections(fs, PolygonKind);
    ExplodedCollections(fs, MultiPointKind);
    ExplodedCollections(fs, MultiLineStringKind);
    ExplodedCollections(fs, MultiPolygonKind);
  }

  lemma {:induction false} SpreadStep(fs: seq<Feature>)
    ensures TopSpread(fs) + ExplodedSpread(fs) == TotalWeight(fs)
  {
    if fs != [] {
      var init := fs[..|fs| - 1];
      var last := fs[|fs| - 1];
      SpreadStep(init);
      ChildrenCount(last, GeomsOf(last));
      assert ExplodedSpread(fs) == ExplodedSpread(init) + ChildrenSpread(last, GeomsOf(last));
      match last.geometry
      case None =>
        assert TopSpread(fs) == TopSpread(init);
      case Some(g) =>
        if g.GeometryCollection? {
          assert TopSpread(fs) == TopSpread(init);
        } else {
          assert GeomsOf(last) == [];
          assert TopSpread(fs) == TopSpread(init) + 1;
        }
    }
  }

  /** Nothing is lost or counted twice: the six lists together hold one entry per feature of a layer type and
      one per member of a GeometryCollection feature that is not itself a collection. */
  lemma SpreadIsWeight(fs: seq<Feature>)
    ensures Spread(fs) == TotalWeight(fs)
  {
    SpreadSplits(fs);
    SpreadStep(fs);
  }

  /** The exception `feature['geometry']['type']` raises for a feature whose geometry is `null`. */
  const GEOMETRY_MISSING := TypeError("'NoneType' object is not subscriptable")

  /** Some feature has no geometry. */
  predicate AnyWithoutGeometry(fs: seq<Feature>) {
    exists i :: 0 <= i < |fs| && fs[i].geometry.None?
  }

  /** The inner loop of the explosion: the copies of one feature's members go to the lists of their types,
      members that are collections themselves to none. */
  method AppendChildren(lists: map<Kind, seq<Feature>>, feature: Feature) returns (out: map<Kind, seq<Feature>>)
    requires forall k :: k != CollectionKind ==> k in lists
    ensures forall k :: k != CollectionKind ==> k in out && out[k] == lists[k] + Children(feature, GeomsOf(feature), k)
  {
    var gs := GeomsOf(feature);
    out := lists;
    for j := 0 to |gs|
      invariant forall k :: k != CollectionKind ==> k in out && out[k] == lists[k] + Children(feature, gs[..j], k)
    {
      var kind := KindOf(gs[j]);
      var copy := Feature(Some(gs[j]), feature.properties);
      ghost var before := out;
      assert gs[..j + 1][..j] == gs[..j] && gs[..j + 1][j] == gs[j];
      if kind != CollectionKind {
        LayerKindsAll(kind);
        out := out[kind := out[kind] + [copy]];
      }
      forall k | k != CollectionKind
        ensures k in out && out[k] == lists[k] + Children(feature, gs[..j + 1], k)
      {
        LayerKindsAll(k);
        assert Children(feature, gs[..j + 1], k) == Children(feature, gs[..j], k) + (if kind == k then [copy] else []);
      }
    }
    assert gs[..|gs|] == gs;
  }

  /** The first comprehension reads `feature['geometry']['type']` of every feature in turn: it gets through
      exactly when every feature has a geometry. */
  method CheckGeometries(fs: seq<Feature>) returns (ok: bool)
    ensures ok <==> !AnyWithoutGeometry(fs)
  {
    for i := 0 to |fs|
      invariant forall j :: 0 <= j < i ==> fs[j].geometry.Some?
    {
      if fs[i].geometry.None? {
        return false;
      }
    }
    return true;
  }

  /** One turn of the explosion loop: appending the copies of the next collection's members extends each
      list by that collection's share of `Exploded`. */
  lemma ExplodeStep(fs: seq<Feature>, cols: seq<Feature>, i: nat, before: map<Kind, seq<Feature>>,
                    after: map<Kind, seq<Feature>>)
    requires i < |cols|
    requires forall k :: k != CollectionKind ==> k in before && before[k] == OfKind(fs, k) + Exploded(cols[..i], k)
    requires forall k :: k != CollectionKind ==> k in after && after[k] == before[k] + Children(cols[i], GeomsOf(cols[i]), k)
    ensures forall k :: k != CollectionKind ==> k in after && after[k] == OfKind(fs, k) + Exploded(cols[..i + 1], k)
  {
    assert cols[..i + 1][..i] == cols[..i] && cols[..i + 1][i] == cols[i];
    forall k | k != CollectionKind
      ensures after[k] == OfKind(fs, k) + Exploded(cols[..i + 1], k)
    {
      Concat3(OfKind(fs, k), Exploded(cols[..i], k), Children(cols[i], GeomsOf(cols[i]), k), []);
      AppendNothing(Exploded(cols[..i], k) + Children(cols[i], GeomsOf(cols[i]), k));
      AppendNothing(after[k]);
    }
  }

  /** The lists the six comprehensions give: the features of each layer type, in order. */
  function TopLists(fs: seq<Feature>): map<Kind, seq<Feature>> {
    map[PointKind := OfKind(fs, PointKind), LineStringKind := OfKind(fs, LineStringKind),
        PolygonKind := OfKind(fs, PolygonKind), MultiPointKind := OfKind(fs, MultiPointKind),
        MultiLineStringKind := OfKind(fs, MultiLineStringKind), MultiPolygonKind := OfKind(fs, MultiPolygonKind)]
  }

  /** Before the explosion loop nothing is exploded yet: each layer type's list holds its features. */
  lemma ExplodeStart(fs: seq<Feature>)
    ensures var lists := TopLists(fs);
            forall k :: k != CollectionKind ==> k in lists && lists[k] == OfKind(fs, k) + Exploded(OfKind(fs, CollectionKind)[..0], k)
  {
    assert OfKind(fs, CollectionKind)[..0] == [];
    forall k | k != CollectionKind
      ensures k in TopLists(fs) && TopLists(fs)[k] == OfKind(fs, k) + Exploded(OfKind(fs, CollectionKind)[..0], k)
    {
      AppendNothing(OfKind(fs, k));
      match k
      case PointKind =>
      case LineStringKind =>
      case PolygonKind =>
      case MultiPointKind =>
      case MultiLineStringKind =>
      case MultiPolygonKind =>
    }
  }

  /** The six comprehensions for the layer types, then the loop over the GeometryCollection features: the
      list of each layer type ends as its `Bucket`. */
  method Explode(fs: seq<Feature>) returns (lists: map<Kind, seq<Feature>>)
    ensures forall k :: k != CollectionKind ==> k in lists && lists[k] == Bucket(fs, k)
  {
    var cols := OfKind(fs, CollectionKind);
    lists := TopLists(fs);
    ExplodeStart(fs);
    for i := 0 to |cols|
      invariant forall k :: k != CollectionKind ==> k in lists
      invariant forall k {:trigger lists[k]} :: k != CollectionKind ==> k in lists && lists[k] == OfKind(fs, k) + Exploded(cols[..i], k)
    {
      var next := AppendChildren(lists, cols[i]);
      ExplodeStep(fs, cols, i, lists, next);
      lists := next;
    }
    assert cols[..|cols|] == cols;
  }

  /** The seven comprehensions and the explosion loop: a feature without a geometry makes the first
      comprehension raise; otherwise the list of each layer type is exactly its `Bucket`. */
  method SortFeatures(fs: seq<Feature>) returns (r: Result<map<Kind, seq<Feature>>, PyError>)
    ensures r.Err? <==> AnyWithoutGeometry(fs)
    ensures r.Err? ==> r.error == GEOMETRY_MISSING
    ensures r.Ok? ==> forall k :: k != CollectionKind ==> k in r.value && r.value[k] == Bucket(fs, k)
  {
    var ok := CheckGeometries(fs);
    if !ok {
      return Err(GEOMETRY_MISSING);
    }
    var lists := Explode(fs);
    return Ok(lists);
  }

  // ---------------------------------------------------------------------------------------------
  // The layers

  /** `crs.authid()` for the CRS chosen by the combo box text. */
  function AuthId(crs: string): (a: string)
    ensures a == "EPSG:3067" <==> crs == "EUREF"
    ensures a == "EPSG:2393" <==> crs == "YKJ"
    ensures a == "EPSG:4326" <==> crs != "EUREF" && crs != "YKJ"
  {
    if crs == "EUREF" then "EPSG:3067" else if crs == "YKJ" then "EPSG:2393" else "EPSG:4326"
  }

  /** QGIS's part in `create_layer`: the fields `QgsJsonUtils.stringToFields` reads from one feature, the
      features `stringToFeatureList` parses against them, and whether a memory layer with a given source is
      valid. */
  datatype Qgis = Qgis(fieldsOf: Feature -> seq<Layers.LayerField>,
                       parse: (seq<Feature>, seq<Layers.LayerField>) -> seq<Feature>,
                       isValid: string -> bool)

  /** The layer the inner `create_layer` adds for the list of type `k`, if any. */
  function LayerFor(features: seq<Feature>, k: Kind, authid: string, qgis: Qgis): Option<Layers.Layer> {
    var source := Layers.LayerSource(TypeName(k), authid);
    if features == [] || !qgis.isValid(source) then None
    else
      var fields := qgis.fieldsOf(features[0]);
      Some(Layers.Layer(source, "Custom " + TypeName(k) + " Layer", fields, qgis.parse(features, fields)))
  }

  /** The warning the inner `create_layer` shows for the list of type `k`, if any. */
  function WarningFor(features: seq<Feature>, k: Kind, authid: string, qgis: Qgis): Option<string> {
    if features != [] && !qgis.isValid(Layers.LayerSource(TypeName(k), authid))
    then Some(Layers.InvalidLayerWarning(TypeName(k))) else None
  }

  function Listed<T>(o: Option<T>): seq<T> {
    if o.Some? then [o.value] else []
  }

  /** A non-empty list gives either a layer or a warning, never both; an empty one gives neither. */
  lemma LayerOrWarning(features: seq<Feature>, k: Kind, authid: string, qgis: Qgis)
    ensures |Listed(LayerFor(features, k, authid, qgis))| + |Listed(WarningFor(features, k, authid, qgis))|
            == if features == [] then 0 else 1
    ensures LayerFor(features, k, authid, qgis).Some? ==>
              var l := LayerFor(features, k, authid, qgis).value;
              && l.fields == qgis.fieldsOf(features[0]) && l.features == qgis.parse(features, l.fields)
              && l.source == AsciiLower(TypeName(k) + "?crs=" + authid)
  {
  }

  /** The inner `create_layer(features, geometry_type, crs)`. */
  method CreateLayer(project: Layers.Project, features: seq<Feature>, k: Kind, authid: string, qgis: Qgis)
    returns (warning: Option<string>)
    modifies project
    ensures project.layers == old(project.layers) + Listed(LayerFor(features, k, authid, qgis))
    ensures warning == WarningFor(features, k, authid, qgis)
  {
    warning := None;
    if features != [] {
      var fields := qgis.fieldsOf(features[0]);
      var source := Layers.LayerSource(TypeName(k), authid);
      if qgis.isValid(source) {
        project.AddMapLayer(Layers.Layer(source, "Custom " + TypeName(k) + " Layer", fields, qgis.parse(features, fields)));
      } else {
        warning := Some(Layers.InvalidLayerWarning(TypeName(k)));
      }
    }
  }

  /** The layers the six calls add, in call order. */
  function AddedLayers(fs: seq<Feature>, authid: string, qgis: Qgis): seq<Layers.Layer> {
    Listed(LayerFor(Bucket(fs, PointKind), PointKind, authid, qgis))
    + Listed(LayerFor(Bucket(fs, LineStringKind), LineStringKind, authid, qgis))
    + Listed(LayerFor(Bucket(fs, PolygonKind), PolygonKind, authid, qgis))
    + Listed(LayerFor(Bucket(fs, MultiPointKind), MultiPointKind, authid, qgis))
    + Listed(LayerFor(Bucket(fs, MultiLineStringKind), MultiLineStringKind, authid, qgis))
    + Listed(LayerFor(Bucket(fs, MultiPolygonKind), MultiPolygonKind, authid, qgis))
  }

  /** The warnings the six calls show, in call order. */
  function LayerWarnings(fs: seq<Feature>, authid: string, qgis: Qgis): seq<string> {
    Listed(WarningFor(Bucket(fs, PointKind), PointKind, authid, qgis))
    + Listed(WarningFor(Bucket(fs, LineStringKind), LineStringKind, authid, qgis))
    + Listed(WarningFor(Bucket(fs, PolygonKind), PolygonKind, authid, qgis))
    + Listed(WarningFor(Bucket(fs, MultiPointKind), MultiPointKind, authid, qgis))
    + Listed(WarningFor(Bucket(fs, MultiLineStringKind), MultiLineStringKind, authid, qgis))
    + Listed(WarningFor(Bucket(fs, MultiPolygonKind), MultiPolygonKind, authid, qgis))
  }

  /** No features, no layers and no warnings. */
  lemma NothingAdded(authid: string, qgis: Qgis)
    ensures AddedLayers([], authid, qgis) == [] && LayerWarnings([], authid, qgis) == []
  {
    assert forall k :: Bucket([], k) == [];
  }

  function Occupied(xs: seq<Feature>): nat {
    if xs == [] then 0 else 1
  }

  /** The number of the six lists that are not empty. */
  function OccupiedLists(fs: seq<Feature>): nat {
    Occupied(Bucket(fs, PointKind)) + Occupied(Bucket(fs, LineStringKind)) + Occupied(Bucket(fs, PolygonKind))
    + Occupied(Bucket(fs, MultiPointKind)) + Occupied(Bucket(fs, MultiLineStringKind)) + Occupied(Bucket(fs, MultiPolygonKind))
  }

  /** Every non-empty list ends as exactly one layer or one warning. */
  lemma LayersAndWarnings(fs: seq<Feature>, authid: string, qgis: Qgis)
    ensures |AddedLayers(fs, authid, qgis)| + |LayerWarnings(fs, authid, qgis)| == OccupiedLists(fs)
    ensures |AddedLayers(fs, authid, qgis)| <= |LAYER_KINDS|
  {
    LayerOrWarning(Bucket(fs, PointKind), PointKind, authid, qgis);
    LayerOrWarning(Bucket(fs, LineStringKind), LineStringKind, authid, qgis);
    LayerOrWarning(Bucket(fs, PolygonKind), PolygonKind, authid, qgis);
    LayerOrWarning(Bucket(fs, MultiPointKind), MultiPointKind, authid, qgis);
    LayerOrWarning(Bucket(fs, MultiLineStringKind), MultiLineStringKind, authid, qgis);
    LayerOrWarning(Bucket(fs, MultiPolygonKind), MultiPolygonKind, authid, qgis);
  }

  /** The list of each layer type in a map holding all six. */
  predicate HoldsAll(lists: map<Kind, seq<Feature>>) {
    && PointKind in lists && LineStringKind in lists && PolygonKind in lists
    && MultiPointKind in lists && MultiLineStringKind in lists && MultiPolygonKind in lists
  }

  /** The layers the six calls add for the lists in `lists`, in call order. */
  function LayersFrom(lists: map<Kind, seq<Feature>>, authid: string, qgis: Qgis): seq<Layers.Layer>
    requires HoldsAll(lists)
  {
    Listed(LayerFor(lists[PointKind], PointKind, authid, qgis))
    + Listed(LayerFor(lists[LineStringKind], LineStringKind, authid, qgis))
    + Listed(LayerFor(lists[PolygonKind], PolygonKind, authid, qgis))
    + Listed(LayerFor(lists[MultiPointKind], MultiPointKind, authid, qgis))
    + Listed(LayerFor(lists[MultiLineStringKind], MultiLineStringKind, authid, qgis))
    + Listed(LayerFor(lists[MultiPolygonKind], MultiPolygonKind, authid, qgis))
  }

  /** The warnings the six calls show for the lists in `lists`, in call order. */
  function WarningsFrom(lists: map<Kind, seq<Feature>>, authid: string, qgis: Qgis): seq<string>
    requires HoldsAll(lists)
  {
    Listed(WarningFor(lists[PointKind], PointKind, authid, qgis))
    + Listed(WarningFor(lists[LineStringKind], LineStringKind, authid, qgis))
    + Listed(WarningFor(lists[PolygonKind], PolygonKind, authid, qgis))
    + Listed(WarningFor(lists[MultiPointKind], MultiPointKind, authid, qgis))
    + Listed(WarningFor(lists[MultiLineStringKind], MultiLineStringKind, authid, qgis))
    + Listed(WarningFor(lists[MultiPolygonKind], MultiPolygonKind, authid, qgis))
  }

  /** Lists that are the buckets of `fs` give the layers and warnings of `fs`. */
  lemma FromBuckets(lists: map<Kind, seq<Feature>>, fs: seq<Feature>, authid: string, qgis: Qgis)
    requires forall k :: k != CollectionKind ==> k in lists && lists[k] == Bucket(fs, k)
    ensures HoldsAll(lists)
    ensures LayersFrom(lists, authid, qgis) == AddedLayers(fs, authid, qgis)
    ensures WarningsFrom(lists, authid, qgis) == LayerWarnings(fs, authid, qgis)
  {
  }

  /** Six appends one after another append their concatenation. */
  lemma Concat6<T>(s: seq<T>, a: seq<T>, b: seq<T>, c: seq<T>, d: seq<T>, e: seq<T>, f: seq<T>)
    ensures s + a + b + c + d + e + f == s + (a + b + c + d + e + f)
  {
  }

  /** Appending nothing changes nothing. */
  lemma AppendNothing<T>(s: seq<T>)
    ensures s + [] == s
  {
  }

  /** Three appends one after another append their concatenation. */
  lemma Concat3<T>(s: seq<T>, a: seq<T>, b: seq<T>, c: seq<T>)
    ensures s + a + b + c == s + (a + b + c)
  {
  }

  /** The six `create_layer` calls, in their order. */
  method CreateLayers(project: Layers.Project, lists: map<Kind, seq<Feature>>, authid: string, qgis: Qgis)
    returns (warnings: seq<string>)
    requires HoldsAll(lists)
    modifies project
    ensures project.layers == old(project.layers) + LayersFrom(lists, authid, qgis)
    ensures warnings == WarningsFrom(lists, authid, qgis)
  {
    ghost var start := project.layers;
    var w1 := CreateLayer(project, lists[PointKind], PointKind, authid, qgis);
    var w2 := CreateLayer(project, lists[LineStringKind], LineStringKind, authid, qgis);
    var w3 := CreateLayer(project, lists[PolygonKind], PolygonKind, authid, qgis);
    var w4 := CreateLayer(project, lists[MultiPointKind], MultiPointKind, authid, qgis);
    var w5 := CreateLayer(project, lists[MultiLineStringKind], MultiLineStringKind, authid, qgis);
    var w6 := CreateLayer(project, lists[MultiPolygonKind], MultiPolygonKind, authid, qgis);
    Concat6(start, Listed(LayerFor(lists[PointKind], PointKind, authid, qgis)), Listed(LayerFor(lists[LineStringKind], LineStringKind, authid, qgis)), Listed(LayerFor(lists[PolygonKind], PolygonKind, authid, qgis)), Listed(LayerFor(lists[MultiPointKind], MultiPointKind, authid, qgis)), Listed(LayerFor(lists[MultiLineStringKind], MultiLineStringKind, authid, qgis)), Listed(LayerFor(lists[MultiPolygonKind], MultiPolygonKind, authid, qgis)));
    warnings := Listed(w1) + Listed(w2) + Listed(w3) + Listed(w4) + Listed(w5) + Listed(w6);
  }

  // ---------------------------------------------------------------------------------------------
  // The Submit handler

  /** How the run ends once the features are returned: the sorting raises, or the records are loaded. */
  function Loading(fs: seq<Feature>): RunEnd {
    if fs != [] && AnyWithoutGeometry(fs) then Raised(GEOMETRY_MISSING) else Loaded(|fs|)
  }

  /** The records that reach the layers once the features are returned. */
  function Placed(fs: seq<Feature>): seq<Feature> {
    if Loading(fs).Loaded? then fs else []
  }

  /** How the run ends once `fetch_data` has returned `features` (`None` when it raises) and stopped as `end`
      says. */
  function Outcome(features: Option<seq<Feature>>, end: LegacyApi.LegacyEnd): RunEnd {
    match features
    case None => FetchFailed(end)
    case Some(fs) => Loading(fs)
  }

  /** The records that reach the layers once `fetch_data` has returned `features`. */
  function Shown(features: Option<seq<Feature>>): seq<Feature> {
    match features
    case None => []
    case Some(fs) => Placed(fs)
  }

  /** How the run ends once the user has said Yes and `fetch_data` has walked the pages as `run` says. */
  function Fetched(run: LegacyApi.LegacyRun): RunEnd {
    Outcome(LegacyApi.Returned(run), run.end)
  }

  /** The values handed to the progress bar once the user has said Yes: a reset, the pages' values, and a
      reset once the records are loaded. */
  function FetchValues(run: LegacyApi.LegacyRun): seq<int> {
    [0] + run.values + (if Fetched(run).Loaded? then [0] else [])
  }

  /** The records that reach the layers once the user has said Yes. */
  function Mapped(run: LegacyApi.LegacyRun): seq<Feature> {
    Shown(LegacyApi.Returned(run))
  }

  /** The user's reply to the question showing `sent`. */
  predicate Confirmed(sent: Dict<Value>, answer: string -> bool) {
    answer(Question(sent))
  }

  /** What a press of Submit does when no run is marked: how it ends, the token it saves, the requests it
      sends, what it hands to the progress bar, and the records that reach the layers. */
  datatype Effects = Effects(outcome: RunEnd, saved: Option<Value>, sent: seq<Dict<Value>>,
                             values: seq<int>, maxima: seq<int>, shown: seq<Feature>)

  /** The effects of a run once the form has given `params`; `answer` is the user's reply to a question and
      `server` the replies the API gives, page by page. */
  function EffectsOf(params: Dict<Value>, w: string, answer: string -> bool, server: seq<Reply>): Effects {
    match RequestFrom(params, w)
    case Err(e) => Effects(e, None, [], [], [], [])
    case Ok(sent) => Proceeding(sent, answer, server)
  }

  /** The effects of a run once the parameters `sent` are complete: the token saved, the question, and the
      fetch when the user says Yes. */
  function Proceeding(sent: Dict<Value>, answer: string -> bool, server: seq<Reply>): Effects {
    var saved := if QueryForm.TokenOf(sent).Ok? then Some(QueryForm.TokenOf(sent).value) else None;
    if !Confirmed(sent, answer) then Effects(Declined, saved, [], [], [], [])
    else
      var run := LegacyApi.Walk(server);
      Effects(Fetched(run), saved, Api.Requested(LegacyApi.Prepared(sent), run.requests), FetchValues(run), run.maxima, Mapped(run))
  }

  /** Every request a run sends carries the token it saved, which is non-empty text, asks for GeoJSON, and
      asks for the pages 1, 2, ... in turn. */
  lemma RequestsCarryToken(form: QueryForm.Form, codes: QueryForm.Codes, answer: string -> bool, server: seq<Reply>)
    ensures var e := EffectsOf(Filtered(form, codes), form.wildCard, answer, server);
            && (e.sent != [] ==> e.saved.Some? && e.saved.value.Str? && e.saved.value.s != "")
            && forall k :: 0 <= k < |e.sent| ==>
                 && Get(e.sent[k], "access_token") == e.saved
                 && Get(e.sent[k], "format") == Some(Str("geojson"))
                 && Get(e.sent[k], "page") == Some(Int(k + 1))
  {
    RequestOutcomes(form, codes);
    var e := EffectsOf(Filtered(form, codes), form.wildCard, answer, server);
    match Request(form, codes)
    case Err(_) =>
    case Ok(sent) =>
      var start := LegacyApi.Prepared(sent);
      assert Get(start, "access_token") == Get(sent, "access_token");
      forall k | 0 <= k < |e.sent|
        ensures && Get(e.sent[k], "access_token") == e.saved
                && Get(e.sent[k], "format") == Some(Str("geojson"))
                && Get(e.sent[k], "page") == Some(Int(k + 1))
      {
        assert e.sent[k] == Api.AtPage(start, k + 1);
      }
  }

  /** How a run that was not marked can end: never as a cancellation; an escaping exception is only the
      sorting's on a feature without geometry; nothing is sent or shown unless the user said Yes; and a
      loaded run reports and shows every feature `fetch_data` returned. */
  lemma RunOutcomes(form: QueryForm.Form, codes: QueryForm.Codes, answer: string -> bool, server: seq<Reply>)
    ensures var e := EffectsOf(Filtered(form, codes), form.wildCard, answer, server);
            && !e.outcome.Cancelled?
            && (e.outcome.Raised? ==> e.outcome.error == GEOMETRY_MISSING)
            && (e.outcome.BadWildCard? || e.outcome.MissingToken? || e.outcome.Declined? ==>
                  e.sent == [] && e.values == [] && e.shown == [])
            && (e.outcome.Loaded? ==>
                  var fs := LegacyApi.Returned(LegacyApi.Walk(server));
                  fs.Some? && e.shown == fs.value && e.outcome.records == |fs.value|)
  {
    RequestOutcomes(form, codes);
    match Request(form, codes)
    case Err(_) =>
    case Ok(sent) => FetchedOutcomes(LegacyApi.Walk(server));
  }

  /** Once the user has said Yes: an escaping exception is only the sorting's, and a loaded run shows every
      feature returned. */
  lemma FetchedOutcomes(run: LegacyApi.LegacyRun)
    ensures Fetched(run).Raised? ==> Fetched(run).error == GEOMETRY_MISSING
    ensures !Fetched(run).Cancelled? && !Fetched(run).Declined?
    ensures Fetched(run).Loaded? ==>
              var fs := LegacyApi.Returned(run);
              fs.Some? && Mapped(run) == fs.value && Fetched(run).records == |fs.value|
  {
  }

  /** The token a run saves is what the access token field shows the next time the dialog opens. */
  lemma SavedTokenRestored(settings: Dict<Value>, form: QueryForm.Form, codes: QueryForm.Codes,
                           answer: string -> bool, server: seq<Reply>)
    ensures var e := EffectsOf(Filtered(form, codes), form.wildCard, answer, server);
            && (e.saved.Some? ==> e.saved.value.Str? && QueryForm.InitialToken(QueryForm.Saving(settings, e.saved)) == e.saved.value.s)
            && (e.saved.None? ==> QueryForm.InitialToken(QueryForm.Saving(settings, e.saved)) == QueryForm.InitialToken(settings))
  {
    RequestOutcomes(form, codes);
  }

  /** The layer types, the memory layer for each, and the warnings it shows: the Submit handler. */
  class Dialog {
    var isRunning: bool
    var submitText: string
    var settings: Dict<Value>
    const bar: ProgressBar

    /** The dialog as it opens: no run marked, the button reads Submit, and the settings are those saved. */
    constructor (saved: Dict<Value>)
      ensures !isRunning && submitText == "Submit" && settings == saved
      ensures fresh(bar) && bar.maxima == [] && bar.values == []
    {
      isRunning := false;
      submitText := "Submit";
      settings := saved;
      bar := new ProgressBar();
    }

    /** The parameter dictionary the form gives: the literal, then the filters. */
    static method ReadParams(form: QueryForm.Form, codes: QueryForm.Codes) returns (params: ParamDict)
      ensures fresh(params) && params.entries == Filtered(form, codes)
    {
      params := new ParamDict(BaseParams(form));
      QueryForm.AddFilters(params, QueryForm.Candidates(form, codes));
    }

    /** The features are sorted into six lists and the layers are created; `Err` when the sorting raises. */
    static method ShowFeatures(project: Layers.Project, features: seq<Feature>, authid: string, qgis: Qgis)
      returns (r: Result<seq<string>, PyError>)
      modifies project
      ensures r.Err? <==> AnyWithoutGeometry(features)
      ensures r.Err? ==> r.error == GEOMETRY_MISSING && project.layers == old(project.layers)
      ensures r.Ok? ==> project.layers == old(project.layers) + AddedLayers(features, authid, qgis)
                        && r.value == LayerWarnings(features, authid, qgis)
    {
      var sorted := SortFeatures(features);
      if sorted.Err? {
        return Err(sorted.error);
      }
      FromBuckets(sorted.value, features, authid, qgis);
      var warnings := CreateLayers(project, sorted.value, authid, qgis);
      return Ok(warnings);
    }

    /** The wild card and the token check: `stop` is how the run ends when one of them stops it; otherwise
        `params` holds what is sent. */
    static method CheckRequest(params: ParamDict, w: string) returns (stop: Option<RunEnd>)
      modifies params
      ensures stop.Some? ==> RequestFrom(old(params.entries), w) == Err(stop.value)
      ensures stop.None? ==> RequestFrom(old(params.entries), w) == Ok(params.entries)
    {
      ghost var start := params.entries;
      if w != "" {
        var parts := Split(w, '=');
        if |parts| != 2 {
          return Some(BadWildCard);
        }
        params.Set(parts[0], Str(parts[1]));
      }
      assert QueryForm.WithWildCard(start, w) == Some(params.entries);
      var token := QueryForm.TokenOf(params.entries);
      if token.Err? {
        return Some(Raised(token.error));
      }
      if !Truthy(token.value) {
        return Some(MissingToken);
      }
      return None;
    }

    /** What `run` does with the features `fetch_data` returned: the layers, the information message, and
        the mark cleared, unless the sorting raises. */
    method Place(features: seq<Feature>, authid: string, project: Layers.Project, qgis: Qgis)
      returns (outcome: RunEnd, warnings: seq<string>)
      modifies this, bar, project
      ensures outcome == Loading(features)
      ensures if outcome.Raised? then isRunning == old(isRunning) && submitText == old(submitText) && bar.values == old(bar.values)
              else !isRunning && submitText == "Submit" && bar.values == old(bar.values) + [0]
      ensures settings == old(settings) && bar.maxima == old(bar.maxima)
      ensures project.layers == old(project.layers) + AddedLayers(Placed(features), authid, qgis)
      ensures warnings == LayerWarnings(Placed(features), authid, qgis)
    {
      warnings := [];
      if features != [] {
        var shown := ShowFeatures(project, features, authid, qgis);
        if shown.Err? {
          NothingAdded(authid, qgis);
          return Raised(shown.error), warnings;
        }
        warnings := shown.value;
      } else {
        NothingAdded(authid, qgis);
      }
      outcome := Loaded(|features|);
      isRunning, submitText := false, "Submit";
      bar.SetValue(0);
    }

    /** What `run` does with what `fetch_data` gave: nothing more when it raised, and otherwise the layers. */
    method Display(features: Option<seq<Feature>>, end: LegacyApi.LegacyEnd, authid: string, project: Layers.Project,
                   qgis: Qgis)
      returns (outcome: RunEnd, warnings: seq<string>)
      modifies this, bar, project
      ensures outcome == Outcome(features, end)
      ensures if outcome.Raised? || outcome.FetchFailed? then isRunning == old(isRunning) && submitText == old(submitText)
              else !isRunning && submitText == "Submit"
      ensures bar.values == old(bar.values) + (if outcome.Loaded? then [0] else [])
      ensures settings == old(settings) && bar.maxima == old(bar.maxima)
      ensures project.layers == old(project.layers) + AddedLayers(Shown(features), authid, qgis)
      ensures warnings == LayerWarnings(Shown(features), authid, qgis)
    {
      if features.None? {
        NothingAdded(authid, qgis);
        AppendNothing(project.layers);
        AppendNothing(bar.values);
        return FetchFailed(end), [];
      }
      outcome, warnings := Place(features.value, authid, project, qgis);
      if outcome.Raised? {
        AppendNothing(old(bar.values));
      }
    }

    /** The progress bar reset and `fetch_data`: the features it returns, or `None` when it raises. */
    method Download(params: ParamDict, server: seq<Reply>)
      returns (features: Option<seq<Feature>>, end: LegacyApi.LegacyEnd, sent: seq<Dict<Value>>)
      modifies bar, params
      ensures var run := LegacyApi.Walk(server);
              && features == LegacyApi.Returned(run) && end == run.end
              && sent == Api.Requested(LegacyApi.Prepared(old(params.entries)), run.requests)
              && bar.values == old(bar.values) + [0] + run.values
              && bar.maxima == old(bar.maxima) + run.maxima
    {
      bar.SetValue(0);
      var fs, e, client := LegacyApi.FetchData(params, bar, server);
      features := if e.NoNextPage? || e.TooManyFeatures? || e.QueryFailed? then Some(fs) else None;
      end, sent := e, client.sent;
    }

    /** What `run` does once the parameters are complete and the user has said Yes: the fetch and the layers.
        The mark is cleared unless an exception escapes. */
    method Fetch(params: ParamDict, authid: string, server: seq<Reply>, project: Layers.Project, qgis: Qgis)
      returns (outcome: RunEnd, sent: seq<Dict<Value>>, warnings: seq<string>)
      modifies this, bar, project, params
      ensures var run := LegacyApi.Walk(server);
              && outcome == Fetched(run)
              && (if outcome.Raised? || outcome.FetchFailed? then isRunning == old(isRunning) && submitText == old(submitText)
                  else !isRunning && submitText == "Submit")
              && settings == old(settings)
              && sent == Api.Requested(LegacyApi.Prepared(old(params.entries)), run.requests)
              && bar.values == old(bar.values) + FetchValues(run)
              && bar.maxima == old(bar.maxima) + run.maxima
              && project.layers == old(project.layers) + AddedLayers(Mapped(run), authid, qgis)
              && warnings == LayerWarnings(Mapped(run), authid, qgis)
    {
      ghost var run := LegacyApi.Walk(server);
      ghost var values := bar.values;
      var features, end;
      features, end, sent := Download(params, server);
      outcome, warnings := Display(features, end, authid, project, qgis);
      Concat3(values, [0], run.values, if outcome.Loaded? then [0] else []);
    }

    /** What `run` does once the wild card and the token check have passed: the token saved, the question,
        the fetch and the layers. The mark is cleared unless an exception escapes. */
    method Proceed(params: ParamDict, authid: string, answer: string -> bool, server: seq<Reply>,
                   project: Layers.Project, qgis: Qgis)
      returns (outcome: RunEnd, sent: seq<Dict<Value>>, warnings: seq<string>)
      requires QueryForm.TokenOf(params.entries).Ok?
      modifies this, bar, project, params
      ensures var e := Proceeding(old(params.entries), answer, server);
              && outcome == e.outcome
              && (if outcome.Raised? || outcome.FetchFailed? then isRunning == old(isRunning) && submitText == old(submitText)
                  else !isRunning && submitText == "Submit")
              && settings == QueryForm.Saving(old(settings), e.saved)
              && sent == e.sent
              && bar.values == old(bar.values) + e.values && bar.maxima == old(bar.maxima) + e.maxima
              && project.layers == old(project.layers) + AddedLayers(e.shown, authid, qgis)
              && warnings == LayerWarnings(e.shown, authid, qgis)
    {
      var token := QueryForm.TokenOf(params.entries);
      settings := Put(settings, QueryForm.TOKEN_SETTING, token.value);
      if !answer(Question(params.entries)) {
        isRunning, submitText := false, "Submit";
        NothingAdded(authid, qgis);
        AppendNothing(bar.values);
        AppendNothing(bar.maxima);
        AppendNothing(project.layers);
        return Declined, [], [];
      }
      outcome, sent, warnings := Fetch(params, authid, server, project, qgis);
    }

    /** What `run` does once the form is read into `params`: the wild card, the token, the question, the fetch
        and the layers. The mark is cleared unless an exception escapes. */
    method Submit(params: ParamDict, w: string, authid: string, answer: string -> bool, server: seq<Reply>,
                  project: Layers.Project, qgis: Qgis)
      returns (outcome: RunEnd, sent: seq<Dict<Value>>, warnings: seq<string>)
      modifies this, bar, project, params
      ensures var e := EffectsOf(old(params.entries), w, answer, server);
              && outcome == e.outcome
              && (if outcome.Raised? || outcome.FetchFailed? then isRunning == old(isRunning) && submitText == old(submitText)
                  else !isRunning && submitText == "Submit")
              && settings == QueryForm.Saving(old(settings), e.saved)
              && sent == e.sent
              && bar.values == old(bar.values) + e.values && bar.maxima == old(bar.maxima) + e.maxima
              && project.layers == old(project.layers) + AddedLayers(e.shown, authid, qgis)
              && warnings == LayerWarnings(e.shown, authid, qgis)
    {
      var stop := CheckRequest(params, w);
      if stop.Some? {
        if !stop.value.Raised? {
          isRunning, submitText := false, "Submit";
        }
        NothingAdded(authid, qgis);
        AppendNothing(bar.values);
        AppendNothing(bar.maxima);
        AppendNothing(project.layers);
        return stop.value, [], [];
      }
      outcome, sent, warnings := Proceed(params, authid, answer, server, project, qgis);
    }

    /** A press of Submit while no run is marked: the mark is set, the form is read and the run goes on as
        `Submit` says. */
    method Start(form: QueryForm.Form, codes: QueryForm.Codes, answer: string -> bool, server: seq<Reply>,
                 project: Layers.Project, qgis: Qgis)
      returns (outcome: RunEnd, sent: seq<Dict<Value>>, warnings: seq<string>)
      modifies this, bar, project
      ensures var e := EffectsOf(Filtered(form, codes), form.wildCard, answer, server);
              && outcome == e.outcome
              && isRunning == (outcome.Raised? || outcome.FetchFailed?)
              && submitText == (if isRunning then "Cancel" else "Submit")
              && settings == QueryForm.Saving(old(settings), e.saved)
              && sent == e.sent
              && bar.values == old(bar.values) + e.values && bar.maxima == old(bar.maxima) + e.maxima
              && project.layers == old(project.layers) + AddedLayers(e.shown, AuthId(form.crs), qgis)
              && warnings == LayerWarnings(e.shown, AuthId(form.crs), qgis)
    {
      isRunning, submitText := true, "Cancel";
      var params := ReadParams(form, codes);
      outcome, sent, warnings := Submit(params, form.wildCard, AuthId(form.crs), answer, server, project, qgis);
    }

    /** `run`, the Submit handler. A press while a run is marked only clears the mark. Otherwise the form is read
        and the run ends as `Outcome` says, the mark staying set when an exception escapes. */
    method Run(form: QueryForm.Form, codes: QueryForm.Codes, answer: string -> bool, server: seq<Reply>,
               project: Layers.Project, qgis: Qgis)
      returns (outcome: RunEnd, sent: seq<Dict<Value>>, warnings: seq<string>)
      modifies this, bar, project
      ensures old(isRunning) ==>
                && outcome == Cancelled && !isRunning && submitText == "Submit"
                && sent == [] && warnings == [] && settings == old(settings)
                && bar.values == old(bar.values) && bar.maxima == old(bar.maxima)
                && project.layers == old(project.layers)
      ensures !old(isRunning) ==>
                var e := EffectsOf(Filtered(form, codes), form.wildCard, answer, server);
                && outcome == e.outcome
                && isRunning == (outcome.Raised? || outcome.FetchFailed?)
                && submitText == (if isRunning then "Cancel" else "Submit")
                && settings == QueryForm.Saving(old(settings), e.saved)
                && sent == e.sent
                && bar.values == old(bar.values) + e.values && bar.maxima == old(bar.maxima) + e.maxima
                && project.layers == old(project.layers) + AddedLayers(e.shown, AuthId(form.crs), qgis)
                && warnings == LayerWarnings(e.shown, AuthId(form.crs), qgis)
    {
      if isRunning {
        isRunning, submitText := false, "Submit";
        return Cancelled, [], [];
      }
      outcome, sent, warnings := Start(form, codes, answer, server, project, qgis);
    }
  }
}
