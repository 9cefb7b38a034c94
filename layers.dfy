/** Building a QGIS memory layer from fetched features (src/create_layer.py):
    one field per collected property name, typed from a fixed table, and every
    feature re-keyed to exactly those names, in that order. */
module Layers {
  import opened Wrappers
  import opened Text
  import opened Values
  import opened Frames

  /** The `QVariant` types the fields are given. */
  datatype FieldType = StringType | IntType | DateType | BoolType

  /** `FIELD_TYPE_MAP`: the properties that are not stored as strings. */
  const FIELD_TYPE_MAP: map<string, FieldType> := map[
    "gathering.eventDate.end" := DateType,
    "gathering.eventDate.begin" := DateType,
    "unit.linkings.originalTaxon.taxonomicOrder" := IntType,
    "unit.linkings.taxon.taxonomicOrder" := IntType,
    "gathering.interpretations.coordinateAccuracy" := IntType,
    "unit.linkings.originalTaxon.occurrenceCountFinland" := IntType,
    "unit.linkings.originalTaxon.sensitive" := BoolType,
    "document.loadDate" := DateType,
    "unit.linkings.originalTaxon.finnish" := BoolType,
    "unit.linkings.originalTaxon.latestRedListStatusFinland.year" := IntType,
    "unit.linkings.originalTaxon.cursiveName" := BoolType,
    "unit.interpretations.individualCount" := IntType
  ]

  /** `FIELD_TYPE_MAP.get(name, QVariant.String)`. */
  function FieldTypeOf(name: string): FieldType {
    if name in FIELD_TYPE_MAP then FIELD_TYPE_MAP[name] else StringType
  }

  /** The table read the other way round: exactly three properties are dates, three are booleans, six are
      integers, and every other name, known or not, is a string. */
  lemma FieldTypeClasses(name: string)
    ensures FieldTypeOf(name) == DateType <==>
              name in {"gathering.eventDate.end", "gathering.eventDate.begin", "document.loadDate"}
    ensures FieldTypeOf(name) == BoolType <==>
              name in {"unit.linkings.originalTaxon.sensitive", "unit.linkings.originalTaxon.finnish",
                       "unit.linkings.originalTaxon.cursiveName"}
    ensures FieldTypeOf(name) == IntType <==>
              name in {"unit.linkings.originalTaxon.taxonomicOrder", "unit.linkings.taxon.taxonomicOrder",
                       "gathering.interpretations.coordinateAccuracy", "unit.linkings.originalTaxon.occurrenceCountFinland",
                       "unit.linkings.originalTaxon.latestRedListStatusFinland.year", "unit.interpretations.individualCount"}
    ensures FieldTypeOf(name) == StringType <==> name !in FIELD_TYPE_MAP
  {
  }

  /** A `QgsField`: a name and its type. */
  datatype LayerField = LayerField(name: string, kind: FieldType)

  /** The loop that appends one field per collected name. */
  method BuildFields(names: seq<string>) returns (fields: seq<LayerField>)
    ensures |fields| == |names|
    ensures forall i :: 0 <= i < |names| ==> fields[i].name == names[i] && fields[i].kind == FieldTypeOf(names[i])
  {
    fields := [];
    for i := 0 to |names|
      invariant |fields| == i
      invariant forall j :: 0 <= j < i ==> fields[j].name == names[j] && fields[j].kind == FieldTypeOf(names[j])
    {
      fields := fields + [LayerField(names[i], FieldTypeOf(names[i]))];
    }
  }

  /** `{key: props.get(key, "") for key in names}`. */
  function Ordered(props: Dict<Value>, names: seq<string>): Dict<Value>
    decreases |names|
  {
    if names == [] then []
    else
      var key := names[|names| - 1];
      Put(Ordered(props, names[..|names| - 1]), key, Get(props, key).GetOr(Str("")))
  }

  /** The re-keyed properties hold exactly the field names: a name the feature has keeps its value, and a
      name it lacks reads as the empty string. */
  lemma {:induction false} OrderedLookup(props: Dict<Value>, names: seq<string>, k: string)
    ensures Get(Ordered(props, names), k) == if k in names then Some(Get(props, k).GetOr(Str(""))) else None
    decreases |names|
  {
    if names != [] {
      var init := names[..|names| - 1];
      OrderedLookup(props, init, k);
      assert k in names <==> k in init || k == names[|names| - 1];
    }
  }

  /** With distinct field names, the keys come in field order. */
  lemma {:induction false} OrderedKeys(props: Dict<Value>, names: seq<string>)
    requires Distinct(names)
    ensures KeysOf(Ordered(props, names)) == names
    decreases |names|
  {
    if names != [] {
      var init := names[..|names| - 1];
      var key := names[|names| - 1];
      assert Distinct(init);
      OrderedKeys(props, init);
      OrderedLookup(props, init, key);
      assert key !in init;
      PutKeys(Ordered(props, init), key, Get(props, key).GetOr(Str("")));
      assert init + [key] == names;
    }
  }

  /** The `ordered_feature` dictionary built for one feature. */
  function OrderedFeature(f: Feature, names: seq<string>): Feature {
    Feature(f.geometry, Ordered(f.properties, names))
  }

  /** The loop that builds `ordered_features`. */
  method OrderFeatures(features: seq<Feature>, names: seq<string>) returns (ordered: seq<Feature>)
    ensures |ordered| == |features|
    ensures forall i :: 0 <= i < |features| ==> ordered[i] == OrderedFeature(features[i], names)
  {
    ordered := [];
    for i := 0 to |features|
      invariant |ordered| == i
      invariant forall j :: 0 <= j < i ==> ordered[j] == OrderedFeature(features[j], names)
    {
      ordered := ordered + [OrderedFeature(features[i], names)];
    }
  }

  /** A memory layer added to the project: its data source, its name, its fields and its features. */
  datatype Layer = Layer(source: string, name: string, fields: seq<LayerField>, features: seq<Feature>)

  /** `QgsProject.instance()`, as the layers added to it. */
  class Project {
    var layers: seq<Layer>

    constructor ()
      ensures layers == []
    {
      layers := [];
    }

    /** `addMapLayer(layer)`. */
    method AddMapLayer(l: Layer)
      modifies this
      ensures layers == old(layers) + [l]
    {
      layers := layers + [l];
    }
  }

  /** `f"{geometry_type}?crs={authid}".lower()`. */
  function LayerSource(geometryType: string, authid: string): string {
    AsciiLower(geometryType + "?crs=" + authid)
  }

  /** The warning shown when QGIS reports the layer invalid. */
  function InvalidLayerWarning(geometryType: string): string {
    "Failed to create " + AsciiLower(geometryType) + " layer from fetched data."
  }

  /** `create_layer(features, geometry_type, qgis_crs)`. Which names become fields is decided by
      `collectFieldNames`, and whether QGIS accepts the layer source by `isValid`. An empty feature list builds
      nothing; an invalid layer adds nothing and warns; otherwise one layer is added whose fields are the
      collected names in order, each typed from the table, and whose features are the input features in
      order, each with its geometry and its properties re-keyed to the field names. */
  method CreateLayer(project: Project, features: seq<Feature>, geometryType: string, authid: string,
                     collectFieldNames: seq<Feature> -> seq<string>, isValid: string -> bool)
    returns (warning: Option<string>)
    modifies project
    ensures features == [] ==> project.layers == old(project.layers) && warning.None?
    ensures features != [] && !isValid(LayerSource(geometryType, authid)) ==>
              project.layers == old(project.layers) && warning == Some(InvalidLayerWarning(geometryType))
    ensures features != [] && isValid(LayerSource(geometryType, authid)) ==>
              var names := collectFieldNames(features);
              && warning.None? && |project.layers| == |old(project.layers)| + 1
              && project.layers[..|old(project.layers)|] == old(project.layers)
              && var l := project.layers[|old(project.layers)|];
                 && l.source == LayerSource(geometryType, authid)
                 && l.name == "FinBIF_" + geometryType + "_Occurrences"
                 && |l.fields| == |names|
                 && (forall i :: 0 <= i < |names| ==> l.fields[i] == LayerField(names[i], FieldTypeOf(names[i])))
                 && |l.features| == |features|
                 && forall i :: 0 <= i < |features| ==>
                      l.features[i].geometry == features[i].geometry
                      && l.features[i].properties == Ordered(features[i].properties, names)
  {
    warning := None;
    if features == [] {
      return;
    }
    var names := collectFieldNames(features);
    var fields := BuildFields(names);
    var source := LayerSource(geometryType, authid);
    if !isValid(source) {
      warning := Some(InvalidLayerWarning(geometryType));
      return;
    }
    var ordered := OrderFeatures(features, names);
    project.AddMapLayer(Layer(source, "FinBIF_" + geometryType + "_Occurrences", fields, ordered));
  }
}
