/** The tables the plug-in works on: GeoJSON features as the warehouse sends them,
    and the (Geo)DataFrame built from them, with named columns, one record per
    occurrence and a geometry per record. */
module Frames {
  import opened Wrappers
  import opened Values
  import opened Geometry

  /** A GeoJSON feature: its geometry (absent or null reads as `None`) and its properties. */
  datatype Feature = Feature(geometry: Option<Geom>, properties: Dict<Value>)

  type Row = map<string, Value>

  /** One table row: the attribute cells and the geometry column. */
  datatype Record = Record(cells: Row, geometry: Option<Geom>)

  /** A table: attribute column names in order, and the rows. The geometry column is kept apart in each record. */
  datatype Frame = Frame(columns: seq<string>, rows: seq<Record>)

  predicate Distinct(xs: seq<string>) {
    forall i, j :: 0 <= i < j < |xs| ==> xs[i] != xs[j]
  }

  /** The halves of a list of distinct names are distinct and share no name. */
  lemma DistinctSplit(a: seq<string>, b: seq<string>)
    requires Distinct(a + b)
    ensures Distinct(a) && Distinct(b)
    ensures forall x :: x in a ==> x !in b
  {
    var all := a + b;
    forall i, j | 0 <= i < j < |a| ensures a[i] != a[j] {
      assert all[i] == a[i] && all[j] == a[j];
    }
    forall i, j | 0 <= i < j < |b| ensures b[i] != b[j] {
      assert all[|a| + i] == b[i] && all[|a| + j] == b[j];
    }
    forall x | x in a ensures x !in b {
      var i :| 0 <= i < |a| && a[i] == x;
      forall j | 0 <= j < |b| ensures b[j] != x {
        assert all[|a| + j] == b[j] && all[i] == a[i];
      }
    }
  }

  /** Column names are distinct and every row has exactly the frame's columns. */
  predicate WellFormed(f: Frame) {
    && Distinct(f.columns)
    && forall i :: 0 <= i < |f.rows| ==> f.rows[i].cells.Keys == set c | c in f.columns
  }

  /** The value in column `c` of `r`; a missing cell reads as `Null`. */
  function Cell(r: Record, c: string): Value {
    if c in r.cells then r.cells[c] else Null
  }

  /** `f[c]`: the column as a sequence, one value per row. */
  function Column(f: Frame, c: string): (col: seq<Value>)
    ensures |col| == |f.rows|
    ensures forall i :: 0 <= i < |f.rows| ==> col[i] == Cell(f.rows[i], c)
  {
    seq(|f.rows|, i requires 0 <= i < |f.rows| => Cell(f.rows[i], c))
  }

  /** `f[name] = values`: an existing column keeps its position, a new one goes last. */
  function WithColumn(f: Frame, name: string, values: seq<Value>): (g: Frame)
    requires |values| == |f.rows|
    ensures WellFormed(f) ==> WellFormed(g)
  {
    var g := Frame(if name in f.columns then f.columns else f.columns + [name],
                   seq(|f.rows|, i requires 0 <= i < |f.rows| =>
                         Record(f.rows[i].cells[name := values[i]], f.rows[i].geometry)));
    assert WellFormed(f) ==> WellFormed(g) by {
      if WellFormed(f) {
        forall i | 0 <= i < |g.rows| ensures g.rows[i].cells.Keys == set c | c in g.columns {
          assert f.rows[i].cells.Keys == set c | c in f.columns;
        }
      }
    }
    g
  }

  /** Setting a column writes its values and leaves every other column as it was. */
  lemma WithColumnEffect(f: Frame, name: string, values: seq<Value>)
    requires |values| == |f.rows|
    ensures var g := WithColumn(f, name, values);
            && |f.columns| <= |g.columns| && g.columns[..|f.columns|] == f.columns
            && name in g.columns
            && (forall c :: c in g.columns <==> c in f.columns || c == name)
            && (forall i :: 0 <= i < |f.rows| ==> Cell(g.rows[i], name) == values[i])
            && (forall i, c :: 0 <= i < |f.rows| && c != name ==> Cell(g.rows[i], c) == Cell(f.rows[i], c))
  {
  }

  /** `xs` without the names in `drop`, order kept. */
  function Keep(xs: seq<string>, drop: seq<string>): (r: seq<string>)
    ensures forall c :: c in r <==> c in xs && c !in drop
    ensures Distinct(xs) ==> Distinct(r)
    ensures |r| <= |xs|
  {
    if xs == [] then []
    else
      var rest := Keep(xs[1..], drop);
      assert forall c :: c in xs <==> c == xs[0] || c in xs[1..];
      if xs[0] in drop then rest
      else
        assert Distinct(xs) ==> xs[0] !in rest;
        [xs[0]] + rest
  }

  /** `f.drop(columns=names)`. */
  function WithoutColumns(f: Frame, names: seq<string>): (g: Frame)
    ensures WellFormed(f) ==> WellFormed(g)
  {
    var dropped := set c | c in names;
    var g := Frame(Keep(f.columns, names),
                   seq(|f.rows|, i requires 0 <= i < |f.rows| =>
                         Record(f.rows[i].cells - dropped, f.rows[i].geometry)));
    assert WellFormed(f) ==> WellFormed(g) by {
      if WellFormed(f) {
        forall i | 0 <= i < |g.rows| ensures g.rows[i].cells.Keys == set c | c in g.columns {
          assert f.rows[i].cells.Keys == set c | c in f.columns;
        }
      }
    }
    g
  }

  /** Dropping columns removes exactly them and leaves every other cell as it was. */
  lemma WithoutColumnsEffect(f: Frame, names: seq<string>)
    ensures var g := WithoutColumns(f, names);
            && |g.rows| == |f.rows|
            && (forall c :: c in g.columns <==> c in f.columns && c !in names)
            && (forall i :: 0 <= i < |f.rows| ==> g.rows[i].geometry == f.rows[i].geometry)
            && (forall i, c :: 0 <= i < |f.rows| && c in names ==> c !in g.rows[i].cells)
            && (forall i, c :: 0 <= i < |f.rows| && c !in names ==> Cell(g.rows[i], c) == Cell(f.rows[i], c))
  {
  }

  /** `acc` followed by the names of `keys` not yet in it, in their order. */
  function AppendNew(acc: seq<string>, keys: seq<string>): (r: seq<string>)
    ensures forall c :: c in r <==> c in acc || c in keys
    ensures |acc| <= |r| && r[..|acc|] == acc
    ensures Distinct(acc) ==> Distinct(r)
    decreases |keys|
  {
    if keys == [] then acc
    else if keys[0] in acc then AppendNew(acc, keys[1..])
    else
      var r := AppendNew(acc + [keys[0]], keys[1..]);
      assert (acc + [keys[0]])[..|acc|] == acc;
      r
  }

  /** The property names of all features, each once, in order of first appearance. */
  function FeatureColumns(fs: seq<Feature>): (cols: seq<string>)
    ensures Distinct(cols)
    ensures forall c :: c in cols <==> exists i :: 0 <= i < |fs| && c in KeysOf(fs[i].properties)
  {
    if fs == [] then []
    else
      var prev := FeatureColumns(fs[..|fs| - 1]);
      var cols := AppendNew(prev, KeysOf(fs[|fs| - 1].properties));
      assert forall i :: 0 <= i < |fs| - 1 ==> fs[..|fs| - 1][i] == fs[i];
      cols
  }

  /** `GeoDataFrame.from_features(features)`: one row per feature in order, one column per property
      name, a property a feature lacks read as missing. */
  function FromFeatures(fs: seq<Feature>): (f: Frame)
    ensures WellFormed(f)
    ensures |f.rows| == |fs|
    ensures forall c :: c in f.columns <==> exists i :: 0 <= i < |fs| && HasKey(fs[i].properties, c)
    ensures forall i :: 0 <= i < |fs| ==> f.rows[i].geometry == fs[i].geometry
  {
    var cols := FeatureColumns(fs);
    Frame(cols, seq(|fs|, i requires 0 <= i < |fs| =>
                      Record(map c | c in cols :: Get(fs[i].properties, c).GetOr(Null), fs[i].geometry)))
  }

  /** Each row holds its feature's properties, and a property the feature lacks reads as missing. */
  lemma FromFeaturesCells(fs: seq<Feature>, i: nat, c: string)
    requires i < |fs|
    ensures var f := FromFeatures(fs);
            && (HasKey(fs[i].properties, c) ==> Some(Cell(f.rows[i], c)) == Get(fs[i].properties, c))
            && (!HasKey(fs[i].properties, c) ==> Cell(f.rows[i], c) == Null)
  {
    assert HasKey(fs[i].properties, c) ==> c in FeatureColumns(fs);
  }

  /** A (Geo)DataFrame object, whose columns and rows the processors update in place. */
  class GeoDataFrame {
    var columns: seq<string>
    var rows: seq<Record>

    function Table(): Frame
      reads this
    {
      Frame(columns, rows)
    }

    constructor (t: Frame)
      ensures Table() == t
    {
      columns := t.columns;
      rows := t.rows;
    }

    /** `gdf[name] = values`. */
    method SetColumn(name: string, values: seq<Value>)
      requires |values| == |rows|
      modifies this
      ensures Table() == WithColumn(old(Table()), name, values)
    {
      var t := WithColumn(Table(), name, values);
      columns, rows := t.columns, t.rows;
    }

    /** `gdf.drop(columns=names, inplace=True)`. */
    method DropColumns(names: seq<string>)
      modifies this
      ensures Table() == WithoutColumns(old(Table()), names)
    {
      var t := WithoutColumns(Table(), names);
      columns, rows := t.columns, t.rows;
    }

    /** `gdf['geometry'] = geoms`. */
    method SetGeometry(geoms: seq<Option<Geom>>)
      requires |geoms| == |rows|
      modifies this
      ensures columns == old(columns)
      ensures |rows| == |geoms|
      ensures forall i :: 0 <= i < |rows| ==> rows[i] == old(rows[i]).(geometry := geoms[i])
    {
      var current := rows;
      rows := seq(|current|, i requires 0 <= i < |current| => current[i].(geometry := geoms[i]));
    }
  }
}
