/** The frame processors of src/prosessors.py: column families and their combination,
    collection names, the taxonomy merge, geometry repair and collection conversion,
    and the mapping of selected filter values. */
module Processors {
  import opened Wrappers
  import opened Text
  import opened Values
  import opened Geometry
  import opened Frames

  // ----- the column-family pattern `^(.+?)(\[\d+\])(.*)$` -----

  /** The end of the run of ASCII digits that starts at `j`. */
  function DigitRunEnd(s: string, j: nat): (k: nat)
    requires j <= |s|
    ensures j <= k <= |s|
    ensures forall m :: j <= m < k ==> IsDigit(s[m])
    ensures k < |s| ==> !IsDigit(s[k])
    decreases |s| - j
  {
    if j < |s| && IsDigit(s[j]) then DigitRunEnd(s, j + 1) else j
  }

  /** What `(.*)$` captures of `rest`: all of it when it holds no newline, all but a final newline
      when that is its only one; `None` when the pattern cannot end there. */
  function TailGroup(rest: string): (t: Option<string>)
    ensures t.Some? ==> '\n' !in t.value && (rest == t.value || rest == t.value + "\n")
    ensures t.None? ==> '\n' in rest && !('\n' !in rest[..|rest| - 1] && rest[|rest| - 1] == '\n')
  {
    if '\n' !in rest then Some(rest)
    else if rest[|rest| - 1] == '\n' && '\n' !in rest[..|rest| - 1] then
      assert rest == rest[..|rest| - 1] + "\n";
      Some(rest[..|rest| - 1])
    else None
  }

  /** The family name when the lazy first group is exactly `s[..i]`: that prefix followed by whatever
      `(.*)$` takes after the first bracketed index. */
  function MatchAt(s: string, i: nat): Option<string>
    requires i <= |s|
  {
    if i < |s| && s[i] == '[' then
      var k := DigitRunEnd(s, i + 1);
      if k > i + 1 && k < |s| && s[k] == ']' then
        match TailGroup(s[k + 1..])
        case Some(t) => Some(s[..i] + t)
        case None => None
      else None
    else None
  }

  /** The first group can be `s[..i]`: it is non-empty, holds no newline, and the rest of the pattern matches after it. */
  predicate MatchesAt(s: string, i: nat) {
    1 <= i <= |s| && '\n' !in s[..i] && MatchAt(s, i).Some?
  }

  /** The lazy `(.+?)`: the shortest first group from `i` on for which the pattern matches. */
  function LazySearch(s: string, i: nat): (r: Option<nat>)
    requires 1 <= i <= |s| + 1
    requires '\n' !in s[..i - 1]
    ensures r.Some? ==> i <= r.value && MatchesAt(s, r.value)
    ensures r.Some? ==> forall j :: i <= j < r.value ==> !MatchesAt(s, j)
    ensures r.None? ==> forall j :: i <= j ==> !MatchesAt(s, j)
    decreases |s| + 1 - i
  {
    if i > |s| then None
    else if s[i - 1] == '\n' then
      assert forall j :: i <= j <= |s| ==> s[i - 1] in s[..j];
      None
    else
      assert s[..i] == s[..i - 1] + [s[i - 1]];
      if MatchAt(s, i).Some? then Some(i)
      else LazySearch(s, i + 1)
  }

  /** The family name of a column, `match.group(1) + match.group(3)`, or `None` when
      `pattern.match(col)` fails. The first bracketed index is the one removed. */
  function FamilyName(col: string): (r: Option<string>)
    ensures r.Some? <==> exists i :: MatchesAt(col, i)
    ensures r.Some? ==> exists i :: MatchesAt(col, i) && r == MatchAt(col, i)
                                    && forall j :: j < i ==> !MatchesAt(col, j)
  {
    match LazySearch(col, 1)
    case None => None
    case Some(i) => MatchAt(col, i)
  }

  predicate AllDigits(d: string) {
    forall m :: 0 <= m < |d| ==> IsDigit(d[m])
  }

  /** A name of the form `prefix[n]suffix`, with no bracket in the prefix, belongs to the family
      `prefix` + `suffix`. */
  lemma FamilyOfIndexedName(prefix: string, digits: string, suffix: string)
    requires prefix != [] && '[' !in prefix && '\n' !in prefix
    requires digits != [] && AllDigits(digits)
    requires '\n' !in suffix
    ensures FamilyName(prefix + "[" + digits + "]" + suffix) == Some(prefix + suffix)
  {
    var s := prefix + "[" + digits + "]" + suffix;
    IndexedMatch(prefix, digits, suffix);
    NoEarlierMatch(prefix, s);
  }

  /** The pattern matches with the prefix as its first group, and the family is the prefix and the suffix. */
  lemma IndexedMatch(prefix: string, digits: string, suffix: string)
    requires prefix != [] && '\n' !in prefix
    requires digits != [] && AllDigits(digits)
    requires '\n' !in suffix
    ensures var s := prefix + "[" + digits + "]" + suffix;
            MatchesAt(s, |prefix|) && MatchAt(s, |prefix|) == Some(prefix + suffix)
  {
    var s := prefix + "[" + digits + "]" + suffix;
    var i := |prefix|;
    assert s[..i] == prefix;
    assert s[i] == '[';
    var k := DigitRunEnd(s, i + 1);
    forall m | i + 1 <= m < i + 1 + |digits| ensures IsDigit(s[m]) {
      assert s[m] == digits[m - i - 1];
    }
    assert s[i + 1 + |digits|] == ']';
    assert k == i + 1 + |digits|;
    assert s[k + 1..] == suffix;
  }

  /** No shorter first group works when the prefix holds no bracket. */
  lemma NoEarlierMatch(prefix: string, s: string)
    requires '[' !in prefix && |prefix| <= |s| && s[..|prefix|] == prefix
    ensures forall j: nat :: j < |prefix| ==> !MatchesAt(s, j)
  {
    forall j: nat | j < |prefix| ensures !MatchesAt(s, j) {
      assert s[j] == prefix[j];
    }
  }

  /** A name with no `[` has no family. */
  lemma NoBracketNoFamily(col: string)
    requires '[' !in col
    ensures FamilyName(col) == None
  {
    forall i: nat | 1 <= i < |col| ensures col[i] != '[' {
      assert col[i] in col;
    }
  }

  // ----- combine_similar_columns -----

  /** `columns_dict` after the loop over `cols`: each family name with its member columns,
      families in order of first appearance. */
  function Families(cols: seq<string>): (fams: Dict<seq<string>>)
    ensures DistinctKeys(fams)
  {
    if cols == [] then []
    else
      var prev := Families(cols[..|cols| - 1]);
      var c := cols[|cols| - 1];
      match FamilyName(c)
      case None => prev
      case Some(b) =>
        var started := if HasKey(prev, b) then prev else Put(prev, b, []);
        PutDistinct(prev, b, []);
        PutDistinct(started, b, Get(started, b).value + [c]);
        Put(started, b, Get(started, b).value + [c])
  }

  /** The columns of `cols` in the family `b`, in column order. */
  function MembersOf(cols: seq<string>, b: string): (ms: seq<string>)
    ensures forall c :: c in ms <==> c in cols && FamilyName(c) == Some(b)
  {
    if cols == [] then []
    else
      var c := cols[|cols| - 1];
      assert forall x :: x in cols <==> x in cols[..|cols| - 1] || x == c;
      MembersOf(cols[..|cols| - 1], b) + (if FamilyName(c) == Some(b) then [c] else [])
  }

  /** The loop groups the columns by family name: a name is a key exactly when some column has
      it, and its list holds exactly that family's columns in column order. */
  lemma {:induction false} FamiliesGroup(cols: seq<string>)
    ensures forall b :: Get(Families(cols), b) == if MembersOf(cols, b) == [] then None else Some(MembersOf(cols, b))
  {
    if cols != [] {
      var init := cols[..|cols| - 1];
      FamiliesGroup(init);
      var prev := Families(init);
      var c := cols[|cols| - 1];
      match FamilyName(c)
      case None =>
        assert forall b :: MembersOf(cols, b) == MembersOf(init, b);
      case Some(b) =>
        var started := if HasKey(prev, b) then prev else Put(prev, b, []);
        assert Get(started, b).value == MembersOf(init, b);
        assert forall b' :: b' != b ==> MembersOf(cols, b') == MembersOf(init, b');
    }
  }

  /** `for col in gdf.columns: ... columns_dict[base_name].append(col)`. */
  method CollectFamilies(cols: seq<string>) returns (fams: Dict<seq<string>>)
    ensures fams == Families(cols)
  {
    fams := [];
    var i := 0;
    while i < |cols|
      invariant 0 <= i <= |cols|
      invariant fams == Families(cols[..i])
    {
      assert cols[..i + 1][..i] == cols[..i];
      match FamilyName(cols[i]) {
        case None =>
        case Some(b) =>
          if !HasKey(fams, b) {
            fams := Put(fams, b, []);
          }
          fams := Put(fams, b, Get(fams, b).value + [cols[i]]);
      }
      i := i + 1;
    }
    assert cols[..i] == cols;
  }

  /** A value counts towards a combined cell when it is not missing and `str(value).strip()` is not empty. */
  predicate Contributes(v: Value) {
    v != Null && Strip(PyStr(v)) != ""
  }

  /** `row_values`: `str(value)` of each contributing member value, in member order. */
  function Contributions(r: Record, members: seq<string>): (vs: seq<string>)
    ensures |vs| <= |members|
  {
    if members == [] then []
    else
      var c := members[|members| - 1];
      Contributions(r, members[..|members| - 1]) + if Contributes(Cell(r, c)) then [PyStr(Cell(r, c))] else []
  }

  /** A row has no contributions exactly when none of its member cells contributes. */
  lemma {:induction false} ContributionsEmpty(r: Record, members: seq<string>)
    ensures Contributions(r, members) == [] <==> forall c :: c in members ==> !Contributes(Cell(r, c))
  {
    if members != [] {
      var c := members[|members| - 1];
      ContributionsEmpty(r, members[..|members| - 1]);
      assert forall x :: x in members <==> x in members[..|members| - 1] || x == c;
    }
  }

  /** The combined cell of a row: the contributions joined with ", ", or `None` when there are none. */
  function CombinedCell(r: Record, members: seq<string>): Value {
    var vs := Contributions(r, members);
    if vs == [] then Null else Str(Join(", ", vs))
  }

  /** The combined cell is `None` exactly when every member cell is missing or blank, and a string otherwise. */
  lemma CombinedCellNull(r: Record, members: seq<string>)
    ensures var v := CombinedCell(r, members);
            && (v.Null? || v.Str?)
            && (v.Null? <==> forall c :: c in members ==> Cell(r, c) == Null || IsBlank(PyStr(Cell(r, c))))
  {
    ContributionsEmpty(r, members);
    forall c | c in members ensures Contributes(Cell(r, c)) <==> !(Cell(r, c) == Null || IsBlank(PyStr(Cell(r, c)))) {
      StripEmptyIffBlank(PyStr(Cell(r, c)));
    }
  }

  /** The combined cell depends only on the member cells. */
  lemma {:induction false} CombinedCellAgree(r: Record, r': Record, members: seq<string>)
    requires forall c :: c in members ==> Cell(r, c) == Cell(r', c)
    ensures CombinedCell(r, members) == CombinedCell(r', members)
  {
    ContributionsAgree(r, r', members);
  }

  lemma {:induction false} ContributionsAgree(r: Record, r': Record, members: seq<string>)
    requires forall c :: c in members ==> Cell(r, c) == Cell(r', c)
    ensures Contributions(r, members) == Contributions(r', members)
  {
    if members != [] {
      ContributionsAgree(r, r', members[..|members| - 1]);
      assert members[|members| - 1] in members;
    }
  }

  /** `row_values` for one row, member by member. */
  method RowValues(row: Record, members: seq<string>) returns (rowValues: seq<string>)
    ensures rowValues == Contributions(row, members)
  {
    rowValues := [];
    var j := 0;
    while j < |members|
      invariant 0 <= j <= |members|
      invariant rowValues == Contributions(row, members[..j])
    {
      assert members[..j + 1][..j] == members[..j];
      var value := Cell(row, members[j]);
      if value != Null && Strip(PyStr(value)) != "" {
        rowValues := rowValues + [PyStr(value)];
      }
      j := j + 1;
    }
    assert members[..j] == members;
  }

  /** `combined_values` for one family, row by row. */
  method CombinedValues(t: Frame, members: seq<string>) returns (values: seq<Value>)
    ensures |values| == |t.rows|
    ensures forall i :: 0 <= i < |t.rows| ==> values[i] == CombinedCell(t.rows[i], members)
  {
    values := [];
    var idx := 0;
    while idx < |t.rows|
      invariant 0 <= idx <= |t.rows|
      invariant |values| == idx
      invariant forall i :: 0 <= i < idx ==> values[i] == CombinedCell(t.rows[i], members)
    {
      var rowValues := RowValues(t.rows[idx], members);
      values := values + [if rowValues != [] then Str(Join(", ", rowValues)) else Null];
      idx := idx + 1;
    }
  }

  /** One family's turn: a family of two or more columns is written to the column named after it
      and its member columns are dropped; a one-column family is left alone. */
  function CombineStep(f: Frame, base: string, members: seq<string>): (g: Frame)
    ensures |g.rows| == |f.rows|
    ensures forall i :: 0 <= i < |f.rows| ==> g.rows[i].geometry == f.rows[i].geometry
    ensures WellFormed(f) ==> WellFormed(g)
  {
    if |members| > 1 then
      var values := seq(|f.rows|, i requires 0 <= i < |f.rows| => CombinedCell(f.rows[i], members));
      WithoutColumns(WithColumn(f, base, values), members)
    else f
  }

  /** The families taken in order, each on the frame the previous ones left. */
  function CombineAll(f: Frame, fams: Dict<seq<string>>): (g: Frame)
    ensures |g.rows| == |f.rows|
    ensures forall i :: 0 <= i < |f.rows| ==> g.rows[i].geometry == f.rows[i].geometry
    ensures WellFormed(f) ==> WellFormed(g)
  {
    if fams == [] then f
    else
      var last := fams[|fams| - 1];
      CombineStep(CombineAll(f, fams[..|fams| - 1]), last.0, last.1)
  }

  /** What `combine_similar_columns(gdf)` returns. */
  function Combined(f: Frame): (g: Frame)
    ensures |g.rows| == |f.rows|
    ensures forall i :: 0 <= i < |f.rows| ==> g.rows[i].geometry == f.rows[i].geometry
    ensures WellFormed(f) ==> WellFormed(g)
  {
    CombineAll(f, Families(f.columns))
  }

  /** The body of the loop over `columns_dict.items()` for one family. */
  method CombineFamily(gdf: GeoDataFrame, base: string, members: seq<string>)
    modifies gdf
    ensures gdf.Table() == CombineStep(old(gdf.Table()), base, members)
  {
    if |members| > 1 {
      var values := CombinedValues(gdf.Table(), members);
      gdf.SetColumn(base, values);
      gdf.DropColumns(members);
    }
  }

  /** `combine_similar_columns(gdf)`: works on a copy, so the frame passed in is not changed. */
  method CombineSimilarColumns(gdf: GeoDataFrame) returns (out: GeoDataFrame)
    ensures fresh(out)
    ensures out.Table() == Combined(gdf.Table())
  {
    var fams := CollectFamilies(gdf.columns);
    var original := gdf.Table();
    out := new GeoDataFrame(original);
    var p := 0;
    while p < |fams|
      invariant 0 <= p <= |fams|
      invariant out.Table() == CombineAll(original, fams[..p])
    {
      CombineAllSnoc(original, fams, p);
      CombineFamily(out, fams[p].0, fams[p].1);
      p := p + 1;
    }
    assert fams[..p] == fams;
  }

  lemma CombineAllSnoc(f: Frame, fams: Dict<seq<string>>, p: nat)
    requires p < |fams|
    ensures CombineAll(f, fams[..p + 1]) == CombineStep(CombineAll(f, fams[..p]), fams[p].0, fams[p].1)
  {
    assert fams[..p + 1][..p] == fams[..p];
  }

  // ----- what combining does to each column -----

  /** Family names are distinct, no family name is a member of a family, and no column is in two families. */
  predicate Separate(fams: Dict<seq<string>>) {
    && DistinctKeys(fams)
    && (forall p, q :: 0 <= p < |fams| && 0 <= q < |fams| ==> fams[p].0 !in fams[q].1)
    && (forall p, q, c :: 0 <= p < q < |fams| && c in fams[p].1 ==> c !in fams[q].1)
  }

  /** `c` is the name or a member of a family of two or more columns. */
  predicate Touched(fams: Dict<seq<string>>, c: string) {
    exists p :: 0 <= p < |fams| && |fams[p].1| > 1 && (c == fams[p].0 || c in fams[p].1)
  }

  lemma SeparatePrefix(fams: Dict<seq<string>>)
    requires Separate(fams) && fams != []
    ensures Separate(fams[..|fams| - 1])
  {
  }

  /** A column no combined family names or contains keeps its place among the columns and its values. */
  lemma {:induction false} CombineKeepsOthers(f: Frame, fams: Dict<seq<string>>, c: string)
    requires !Touched(fams, c)
    ensures var g := CombineAll(f, fams);
            && (c in g.columns <==> c in f.columns)
            && forall i :: 0 <= i < |f.rows| ==> Cell(g.rows[i], c) == Cell(f.rows[i], c)
  {
    if fams != [] {
      var init := fams[..|fams| - 1];
      assert forall p :: 0 <= p < |init| ==> init[p] == fams[p];
      CombineKeepsOthers(f, init, c);
      assert fams[|fams| - 1] == fams[|fams| - 1];
    }
  }

  /** Every column of a combined family is gone from the result. */
  lemma {:induction false} CombineDropsMembers(f: Frame, fams: Dict<seq<string>>, p: nat, c: string)
    requires Separate(fams)
    requires p < |fams| && |fams[p].1| > 1 && c in fams[p].1
    ensures var g := CombineAll(f, fams);
            && c !in g.columns
            && forall i :: 0 <= i < |g.rows| ==> c !in g.rows[i].cells
  {
    var n := |fams| - 1;
    var init := fams[..n];
    var last := fams[n];
    var h := CombineAll(f, init);
    assert CombineAll(f, fams) == CombineStep(h, last.0, last.1);
    if p < n {
      SeparatePrefix(fams);
      assert init[p] == fams[p];
      CombineDropsMembers(f, init, p, c);
      assert last.0 != c && c !in last.1;
    }
  }

  /** One step writes the combined cells under the family name when that name is not itself a member. */
  lemma CombineStepSetsBase(h: Frame, base: string, members: seq<string>)
    requires |members| > 1 && base !in members
    ensures var g := CombineStep(h, base, members);
            && base in g.columns
            && forall i :: 0 <= i < |h.rows| ==> Cell(g.rows[i], base) == CombinedCell(h.rows[i], members)
  {
  }

  /** One step leaves every other column where it was. */
  lemma CombineStepKeeps(h: Frame, base: string, members: seq<string>, c: string)
    requires |members| <= 1 || (c != base && c !in members)
    ensures var g := CombineStep(h, base, members);
            && (c in g.columns <==> c in h.columns)
            && forall i :: 0 <= i < |h.rows| ==> Cell(g.rows[i], c) == Cell(h.rows[i], c)
  {
  }

  /** Each combined family's name holds, in every row, the combined cell of that row's original member values. */
  lemma {:induction false} CombineSetsBases(f: Frame, fams: Dict<seq<string>>, p: nat)
    requires Separate(fams)
    requires p < |fams| && |fams[p].1| > 1
    ensures var g := CombineAll(f, fams);
            && fams[p].0 in g.columns
            && forall i :: 0 <= i < |f.rows| ==> Cell(g.rows[i], fams[p].0) == CombinedCell(f.rows[i], fams[p].1)
  {
    var n := |fams| - 1;
    var init := fams[..n];
    var last := fams[n];
    var h := CombineAll(f, init);
    assert CombineAll(f, fams) == CombineStep(h, last.0, last.1);
    SeparatePrefix(fams);
    if p == n {
      LastFamilyReadsOriginal(f, fams);
      CombineStepSetsBase(h, last.0, last.1);
    } else {
      assert init[p] == fams[p];
      CombineSetsBases(f, init, p);
      assert fams[p].0 != last.0;
      assert fams[p].0 !in last.1;
      CombineStepKeeps(h, last.0, last.1, fams[p].0);
    }
  }

  /** The last family's members are untouched by the families before it, so its combined cells
      are those of the original rows. */
  lemma LastFamilyReadsOriginal(f: Frame, fams: Dict<seq<string>>)
    requires Separate(fams) && fams != []
    ensures var n := |fams| - 1;
            var h := CombineAll(f, fams[..n]);
            forall i :: 0 <= i < |f.rows| ==> CombinedCell(h.rows[i], fams[n].1) == CombinedCell(f.rows[i], fams[n].1)
  {
    var n := |fams| - 1;
    var init := fams[..n];
    var h := CombineAll(f, init);
    var ms := fams[n].1;
    assert forall q :: 0 <= q < |init| ==> init[q] == fams[q];
    forall m | m in ms ensures forall i :: 0 <= i < |f.rows| ==> Cell(h.rows[i], m) == Cell(f.rows[i], m) {
      CombineKeepsOthers(f, init, m);
    }
    forall i | 0 <= i < |f.rows| ensures CombinedCell(h.rows[i], ms) == CombinedCell(f.rows[i], ms) {
      CombinedCellAgree(h.rows[i], f.rows[i], ms);
    }
  }

  // ----- the same, stated on the frame's own columns -----

  /** No family name is itself an indexed name (true of the warehouse's column names, such as
      `unit.keywords[0]` or `gathering.team[2]`). */
  predicate NoIndexedFamilyName(cols: seq<string>) {
    forall c :: c in cols && FamilyName(c).Some? ==> FamilyName(FamilyName(c).value).None?
  }

  lemma FamiliesSeparate(cols: seq<string>)
    requires NoIndexedFamilyName(cols)
    ensures Separate(Families(cols))
  {
    var fams := Families(cols);
    FamiliesGroup(cols);
    forall p | 0 <= p < |fams| ensures fams[p].1 == MembersOf(cols, fams[p].0) && fams[p].1 != [] {
      GetAt(fams, p);
    }
    forall p, q | 0 <= p < |fams| && 0 <= q < |fams| ensures fams[p].0 !in fams[q].1 {
      var c0 := fams[p].1[0];
      assert c0 in MembersOf(cols, fams[p].0);
    }
    forall p, q, c | 0 <= p < q < |fams| && c in fams[p].1 ensures c !in fams[q].1 {
      assert c in MembersOf(cols, fams[p].0);
    }
  }

  /** Under `combine_similar_columns`, a family of two or more columns gets a column named after it
      holding, row by row, the ", "-join of its members' non-blank values, or `None`. */
  lemma CombinedFamilyColumn(f: Frame, b: string)
    requires NoIndexedFamilyName(f.columns)
    requires |MembersOf(f.columns, b)| > 1
    ensures var g := Combined(f);
            && b in g.columns
            && forall i :: 0 <= i < |f.rows| ==> Cell(g.rows[i], b) == CombinedCell(f.rows[i], MembersOf(f.columns, b))
  {
    var fams := Families(f.columns);
    FamiliesGroup(f.columns);
    FamiliesSeparate(f.columns);
    var p := GetIndex(fams, b);
    CombineSetsBases(f, fams, p);
  }

  /** Every column of a family of two or more columns is dropped. */
  lemma CombinedMembersDropped(f: Frame, c: string)
    requires NoIndexedFamilyName(f.columns)
    requires c in f.columns && FamilyName(c).Some? && |MembersOf(f.columns, FamilyName(c).value)| > 1
    ensures c !in Combined(f).columns
  {
    var fams := Families(f.columns);
    FamiliesGroup(f.columns);
    FamiliesSeparate(f.columns);
    var p := GetIndex(fams, FamilyName(c).value);
    CombineDropsMembers(f, fams, p, c);
  }

  /** A column that neither names nor belongs to a family of two or more columns keeps its values;
      in particular a one-column family keeps its indexed name. */
  lemma CombinedOthersKept(f: Frame, c: string)
    requires |MembersOf(f.columns, c)| <= 1
    requires FamilyName(c).Some? ==> |MembersOf(f.columns, FamilyName(c).value)| <= 1
    ensures var g := Combined(f);
            && (c in g.columns <==> c in f.columns)
            && forall i :: 0 <= i < |f.rows| ==> Cell(g.rows[i], c) == Cell(f.rows[i], c)
  {
    var fams := Families(f.columns);
    FamiliesGroup(f.columns);
    forall p | 0 <= p < |fams| && |fams[p].1| > 1 ensures c != fams[p].0 && c !in fams[p].1 {
      GetAt(fams, p);
    }
    CombineKeepsOthers(f, fams, c);
  }

  // ----- map_collection_id -----

  const COLLECTION_ID := "document.collectionId"
  const COLLECTION_NAME := "document.collectionName"

  /** One cell of `.str.split('/').str[-1].map(collection_names)`: the name of the collection whose id
      is the last `/`-segment, or missing when there is no such collection or the cell is not a string. */
  function CollectionName(v: Value, names: map<string, string>): Value {
    match v
    case Str(s) =>
      var id := LastSegment(s, '/');
      if id in names then Str(names[id]) else Null
    case _ => Null
  }

  /** A collection URI is looked up by the identifier after its last `/`. */
  lemma CollectionUriNamed(base: string, id: string, names: map<string, string>)
    requires '/' !in id
    ensures CollectionName(Str(base + "/" + id), names) == if id in names then Str(names[id]) else Null
  {
    LastSegmentAfter(base, '/', id);
  }

  /** `map_collection_id(gdf, collection_names)`, or the `KeyError` of a frame without collection ids. */
  function WithCollectionNames(t: Frame, names: map<string, string>): Result<Frame, PyError> {
    if COLLECTION_ID !in t.columns then Err(KeyError(COLLECTION_ID))
    else
      Ok(WithColumn(t, COLLECTION_NAME,
                    seq(|t.rows|, i requires 0 <= i < |t.rows| => CollectionName(Cell(t.rows[i], COLLECTION_ID), names))))
  }

  /** The names column is added (or overwritten) from the id column, which stays, as does every other column. */
  lemma CollectionNamesEffect(t: Frame, names: map<string, string>)
    ensures WithCollectionNames(t, names).Err? <==> COLLECTION_ID !in t.columns
    ensures WithCollectionNames(t, names).Err? ==> WithCollectionNames(t, names).error == KeyError(COLLECTION_ID)
    ensures WithCollectionNames(t, names).Ok? ==>
              var g := WithCollectionNames(t, names).value;
              && |g.rows| == |t.rows|
              && COLLECTION_ID in g.columns && COLLECTION_NAME in g.columns
              && (forall c :: c in t.columns ==> c in g.columns)
              && (forall i :: 0 <= i < |t.rows| ==>
                    Cell(g.rows[i], COLLECTION_NAME) == CollectionName(Cell(t.rows[i], COLLECTION_ID), names))
              && (forall i, c :: 0 <= i < |t.rows| && c != COLLECTION_NAME ==> Cell(g.rows[i], c) == Cell(t.rows[i], c))
  {
    if COLLECTION_ID in t.columns {
      WithColumnEffect(t, COLLECTION_NAME,
                       seq(|t.rows|, i requires 0 <= i < |t.rows| => CollectionName(Cell(t.rows[i], COLLECTION_ID), names)));
    }
  }

  /** `map_collection_id(gdf, collection_names)`, which assigns the new column in place. */
  method MapCollectionId(gdf: GeoDataFrame, names: map<string, string>) returns (err: Option<PyError>)
    modifies gdf
    ensures match WithCollectionNames(old(gdf.Table()), names)
            case Ok(t) => err.None? && gdf.Table() == t
            case Err(e) => err == Some(e) && gdf.Table() == old(gdf.Table())
  {
    if COLLECTION_ID !in gdf.columns {
      return Some(KeyError(COLLECTION_ID));
    }
    var ids := Column(gdf.Table(), COLLECTION_ID);
    var collectionNames := seq(|ids|, i requires 0 <= i < |ids| => CollectionName(ids[i], names));
    gdf.SetColumn(COLLECTION_NAME, collectionNames);
    err := None;
  }

  // ----- merge_taxonomy_data -----

  const GROUP_PREFIX := "unit.linkings.taxon.informalTaxonGroups["
  const FIRST_GROUP := "unit.linkings.taxon.informalTaxonGroups[0]"
  const TAXON_ID := "id"

  /** `MVL.` and the longest run of ASCII digits after it, when such a text starts at `i`. */
  function MvlAt(s: string, i: nat): (r: Option<string>)
    requires i <= |s|
    ensures r.Some? ==> |r.value| > 4 && r.value[..4] == "MVL." && AllDigits(r.value[4..])
    ensures r.Some? ==> i + |r.value| <= |s| && s[i..i + |r.value|] == r.value
    ensures r.Some? ==> i + |r.value| == |s| || !IsDigit(s[i + |r.value|])
  {
    if i + 4 < |s| && s[i..i + 4] == "MVL." && IsDigit(s[i + 4]) then
      var k := DigitRunEnd(s, i + 4);
      assert s[i..k][..4] == s[i..i + 4];
      Some(s[i..k])
    else None
  }

  /** The leftmost position from `i` on where `MVL.` and a digit start. */
  function MvlSearch(s: string, i: nat): (r: Option<nat>)
    requires i <= |s|
    ensures r.Some? ==> i <= r.value <= |s| && MvlAt(s, r.value).Some?
    ensures r.Some? ==> forall j :: i <= j < r.value ==> MvlAt(s, j).None?
    ensures r.None? ==> forall j :: i <= j <= |s| ==> MvlAt(s, j).None?
    decreases |s| - i
  {
    if MvlAt(s, i).Some? then Some(i)
    else if i == |s| then None
    else MvlSearch(s, i + 1)
  }

  /** One cell of `.str.extract(r'(MVL\.\d+)')`: the first informal-group identifier in a string,
      missing when there is none or the cell is not a string. */
  function ExtractMvl(v: Value): (r: Value)
    ensures r.Null? || r.Str?
    ensures r.Str? ==> v.Str? && exists i :: 0 <= i <= |v.s| && MvlAt(v.s, i) == Some(r.s)
  {
    match v
    case Str(s) =>
      (match MvlSearch(s, 0)
       case Some(i) => Str(MvlAt(s, i).value)
       case None => Null)
    case _ => Null
  }

  /** An identifier URI such as `http://tun.fi/MVL.1` yields its `MVL.` identifier (the base holding no `M`). */
  lemma ExtractFromUri(base: string, digits: string)
    requires 'M' !in base && digits != [] && AllDigits(digits)
    ensures ExtractMvl(Str(base + "MVL." + digits)) == Str("MVL." + digits)
  {
    var s := base + "MVL." + digits;
    var i := |base|;
    assert s[i..i + 4] == "MVL.";
    assert s[i + 4] == digits[0];
    var k := DigitRunEnd(s, i + 4);
    forall m | i + 4 <= m < |s| ensures IsDigit(s[m]) {
      assert s[m] == digits[m - i - 4];
    }
    assert k == |s|;
    assert s[i..k] == "MVL." + digits;
    forall j | 0 <= j < i ensures MvlAt(s, j).None? {
      assert s[j] == base[j];
    }
    assert MvlAt(s, i) == Some("MVL." + digits);
    assert MvlSearch(s, 0) == Some(i);
  }

  /** The occurrence frame after the first group column is ensured and reduced to its `MVL.` identifier. */
  function Prepared(t: Frame): (p: Frame)
    ensures |p.rows| == |t.rows|
    ensures FIRST_GROUP in p.columns
    ensures forall c :: c in p.columns <==> c in t.columns || c == FIRST_GROUP
    ensures forall i :: 0 <= i < |t.rows| ==> p.rows[i].geometry == t.rows[i].geometry
    ensures forall i :: 0 <= i < |t.rows| ==>
              Cell(p.rows[i], FIRST_GROUP) == ExtractMvl(if FIRST_GROUP in t.columns then Cell(t.rows[i], FIRST_GROUP) else Null)
    ensures forall i, c :: 0 <= i < |t.rows| && c != FIRST_GROUP ==> Cell(p.rows[i], c) == Cell(t.rows[i], c)
  {
    var nulls := seq(|t.rows|, _ => Null);
    var ensured := if FIRST_GROUP in t.columns then t else WithColumn(t, FIRST_GROUP, nulls);
    WithColumnEffect(t, FIRST_GROUP, nulls);
    var extracted := seq(|ensured.rows|, i requires 0 <= i < |ensured.rows| => ExtractMvl(Cell(ensured.rows[i], FIRST_GROUP)));
    WithColumnEffect(ensured, FIRST_GROUP, extracted);
    WithColumn(ensured, FIRST_GROUP, extracted)
  }

  /** `cols` with `suffix` added to each name that `others` also has, as `merge` renames overlapping columns. */
  function Suffixed(cols: seq<string>, others: seq<string>, suffix: string): (r: seq<string>)
    ensures |r| == |cols|
    ensures forall j :: 0 <= j < |cols| ==> r[j] == if cols[j] in others then cols[j] + suffix else cols[j]
  {
    if cols == [] then []
    else [if cols[0] in others then cols[0] + suffix else cols[0]] + Suffixed(cols[1..], others, suffix)
  }

  /** Writes the cell `sources[j]` of `r` under the name `names[j]`, for each `j` in turn. */
  function Fill(cells: Row, names: seq<string>, sources: seq<string>, r: Record): Row
    requires |names| == |sources|
    decreases |names|
  {
    if names == [] then cells
    else Fill(cells[names[0] := Cell(r, sources[0])], names[1..], sources[1..], r)
  }

  /** Filling adds exactly the given names, keeps every other cell, and with distinct names each one
      holds its source cell. */
  lemma {:induction false} FillEffect(cells: Row, names: seq<string>, sources: seq<string>, r: Record)
    requires |names| == |sources|
    ensures var out := Fill(cells, names, sources, r);
            && (forall k :: k in out <==> k in cells || k in names)
            && (forall k :: k !in names && k in cells ==> out[k] == cells[k])
            && (Distinct(names) ==> forall j :: 0 <= j < |names| ==> out[names[j]] == Cell(r, sources[j]))
    decreases |names|
  {
    if names != [] {
      var next := cells[names[0] := Cell(r, sources[0])];
      assert Fill(cells, names, sources, r) == Fill(next, names[1..], sources[1..], r);
      FillEffect(next, names[1..], sources[1..], r);
      assert forall k :: k in names <==> k == names[0] || k in names[1..];
      assert Distinct(names) ==> names[0] !in names[1..];
      assert Distinct(names) ==> Distinct(names[1..]) && forall j :: 1 <= j < |names| ==> names[j] == names[1..][j - 1];
    }
  }

  /** The row that stands for "no match": every taxonomy cell reads as missing. */
  const NoMatch := Record(map[], None)

  /** One merged row: the occurrence's cells under their (suffixed) names, then the taxonomy row's. */
  function Joined(l: Record, m: Record, left: Frame, right: Frame): Record {
    var lnames := Suffixed(left.columns, right.columns, "_x");
    var rnames := Suffixed(right.columns, left.columns, "_y");
    Record(Fill(Fill(map[], lnames, left.columns, l), rnames, right.columns, m), l.geometry)
  }

  /** The rows of `rows` whose `key` cell is `v`, in order (missing matches missing, as in pandas). */
  function MatchingRows(rows: seq<Record>, key: string, v: Value): (ms: seq<Record>)
    ensures |ms| <= |rows|
    ensures forall k :: 0 <= k < |ms| ==> Cell(ms[k], key) == v
  {
    if rows == [] then []
    else (if Cell(rows[0], key) == v then [rows[0]] else []) + MatchingRows(rows[1..], key, v)
  }

  /** The merged rows of one occurrence: one per matching taxonomy row, or one with no match. */
  function JoinOne(l: Record, left: Frame, right: Frame, lkey: string, rkey: string): (out: seq<Record>)
    ensures |out| >= 1
  {
    var ms := MatchingRows(right.rows, rkey, Cell(l, lkey));
    if ms == [] then [Joined(l, NoMatch, left, right)]
    else seq(|ms|, k requires 0 <= k < |ms| => Joined(l, ms[k], left, right))
  }

  function JoinRows(lrows: seq<Record>, left: Frame, right: Frame, lkey: string, rkey: string): (out: seq<Record>)
    ensures |out| >= |lrows|
  {
    if lrows == [] then []
    else JoinRows(lrows[..|lrows| - 1], left, right, lkey, rkey) + JoinOne(lrows[|lrows| - 1], left, right, lkey, rkey)
  }

  /** `left.merge(right, left_on=lkey, right_on=rkey, how='left')`: occurrences in their order, each followed
      by its matches in taxonomy order; overlapping names get `_x` and `_y`. */
  function LeftJoin(left: Frame, right: Frame, lkey: string, rkey: string): Frame {
    Frame(Suffixed(left.columns, right.columns, "_x") + Suffixed(right.columns, left.columns, "_y"),
          JoinRows(left.rows, left, right, lkey, rkey))
  }

  /** Taxonomy rows have distinct identifiers. */
  predicate UniqueKeys(rows: seq<Record>, key: string) {
    forall p, q :: 0 <= p < q < |rows| ==> Cell(rows[p], key) != Cell(rows[q], key)
  }

  /** The taxonomy row with identifier `v`, or no match. */
  function Lookup(rows: seq<Record>, key: string, v: Value): Record {
    var ms := MatchingRows(rows, key, v);
    if ms == [] then NoMatch else ms[0]
  }

  lemma {:induction false} NoMatchingRows(rows: seq<Record>, key: string, v: Value)
    requires forall q :: 0 <= q < |rows| ==> Cell(rows[q], key) != v
    ensures MatchingRows(rows, key, v) == []
  {
    if rows != [] {
      NoMatchingRows(rows[1..], key, v);
    }
  }

  lemma {:induction false} AtMostOneMatch(rows: seq<Record>, key: string, v: Value)
    requires UniqueKeys(rows, key)
    ensures |MatchingRows(rows, key, v)| <= 1
  {
    if rows != [] {
      if Cell(rows[0], key) == v {
        forall q | 0 <= q < |rows[1..]| ensures Cell(rows[1..][q], key) != v {
          assert rows[1..][q] == rows[q + 1];
        }
        NoMatchingRows(rows[1..], key, v);
      } else {
        AtMostOneMatch(rows[1..], key, v);
      }
    }
  }

  /** With distinct taxonomy identifiers the merge is a lookup: one merged row per occurrence, in order,
      holding the occurrence and the taxonomy row whose identifier is its key. */
  lemma {:induction false} JoinIsLookup(lrows: seq<Record>, left: Frame, right: Frame, lkey: string, rkey: string)
    requires UniqueKeys(right.rows, rkey)
    ensures var out := JoinRows(lrows, left, right, lkey, rkey);
            && |out| == |lrows|
            && forall i :: 0 <= i < |lrows| ==>
                 out[i] == Joined(lrows[i], Lookup(right.rows, rkey, Cell(lrows[i], lkey)), left, right)
  {
    JoinRowsLength(lrows, left, right, lkey, rkey);
    forall i | 0 <= i < |lrows|
      ensures JoinRows(lrows, left, right, lkey, rkey)[i]
           == Joined(lrows[i], Lookup(right.rows, rkey, Cell(lrows[i], lkey)), left, right)
    {
      JoinRowsAt(lrows, left, right, lkey, rkey, i);
    }
  }

  lemma {:induction false} JoinRowsLength(lrows: seq<Record>, left: Frame, right: Frame, lkey: string, rkey: string)
    requires UniqueKeys(right.rows, rkey)
    ensures |JoinRows(lrows, left, right, lkey, rkey)| == |lrows|
  {
    if lrows != [] {
      JoinRowsLength(lrows[..|lrows| - 1], left, right, lkey, rkey);
      JoinOneIsLookup(lrows[|lrows| - 1], left, right, lkey, rkey);
    }
  }

  lemma {:induction false} JoinRowsAt(lrows: seq<Record>, left: Frame, right: Frame, lkey: string, rkey: string, i: nat)
    requires UniqueKeys(right.rows, rkey)
    requires i < |lrows|
    ensures i < |JoinRows(lrows, left, right, lkey, rkey)|
    ensures JoinRows(lrows, left, right, lkey, rkey)[i]
         == Joined(lrows[i], Lookup(right.rows, rkey, Cell(lrows[i], lkey)), left, right)
  {
    var init := lrows[..|lrows| - 1];
    var l := lrows[|lrows| - 1];
    var head := JoinRows(init, left, right, lkey, rkey);
    var one := JoinOne(l, left, right, lkey, rkey);
    JoinRowsLength(init, left, right, lkey, rkey);
    JoinOneIsLookup(l, left, right, lkey, rkey);
    assert JoinRows(lrows, left, right, lkey, rkey) == head + one;
    if i < |init| {
      JoinRowsAt(init, left, right, lkey, rkey, i);
      assert lrows[i] == init[i];
    } else {
      assert lrows[i] == l;
    }
  }

  lemma JoinOneIsLookup(l: Record, left: Frame, right: Frame, lkey: string, rkey: string)
    requires UniqueKeys(right.rows, rkey)
    ensures JoinOne(l, left, right, lkey, rkey) == [Joined(l, Lookup(right.rows, rkey, Cell(l, lkey)), left, right)]
  {
    AtMostOneMatch(right.rows, rkey, Cell(l, lkey));
  }

  /** With no clashing names, a merged row holds the occurrence's cells under the left names and the
      taxonomy row's cells under the right names. */
  lemma JoinedCells(l: Record, m: Record, left: Frame, right: Frame)
    requires Distinct(Suffixed(left.columns, right.columns, "_x") + Suffixed(right.columns, left.columns, "_y"))
    ensures var lnames := Suffixed(left.columns, right.columns, "_x");
            var rnames := Suffixed(right.columns, left.columns, "_y");
            var j := Joined(l, m, left, right);
            && j.geometry == l.geometry
            && (forall k :: 0 <= k < |lnames| ==> Cell(j, lnames[k]) == Cell(l, left.columns[k]))
            && (forall k :: 0 <= k < |rnames| ==> Cell(j, rnames[k]) == Cell(m, right.columns[k]))
  {
    var lnames := Suffixed(left.columns, right.columns, "_x");
    var rnames := Suffixed(right.columns, left.columns, "_y");
    FillTwice(lnames, left.columns, l, rnames, right.columns, m);
    assert Joined(l, m, left, right).cells
        == Fill(Fill(map[], lnames, left.columns, l), rnames, right.columns, m);
  }

  /** Filling from two rows under two disjoint lists of names: each name holds its own row's cell. */
  lemma FillTwice(lnames: seq<string>, lsources: seq<string>, l: Record,
                  rnames: seq<string>, rsources: seq<string>, m: Record)
    requires |lnames| == |lsources| && |rnames| == |rsources|
    requires Distinct(lnames + rnames)
    ensures var out := Fill(Fill(map[], lnames, lsources, l), rnames, rsources, m);
            && (forall k :: 0 <= k < |lnames| ==> lnames[k] in out && out[lnames[k]] == Cell(l, lsources[k]))
            && (forall k :: 0 <= k < |rnames| ==> rnames[k] in out && out[rnames[k]] == Cell(m, rsources[k]))
  {
    DistinctSplit(lnames, rnames);
    var inner := Fill(map[], lnames, lsources, l);
    var out := Fill(inner, rnames, rsources, m);
    FillEffect(map[], lnames, lsources, l);
    FillEffect(inner, rnames, rsources, m);
    forall k | 0 <= k < |lnames| ensures lnames[k] in out && out[lnames[k]] == Cell(l, lsources[k]) {
      assert lnames[k] in lnames;
      assert lnames[k] in inner;
      assert lnames[k] !in rnames;
    }
    forall k | 0 <= k < |rnames| ensures rnames[k] in out {
      assert rnames[k] in rnames;
    }
  }

  /** An informal-group column `unit.linkings.taxon.informalTaxonGroups[...]`. */
  predicate IsGroupColumn(c: string) {
    StartsWith(c, GROUP_PREFIX) && EndsWith(c, "]")
  }

  /** `[col for col in columns if col.startswith(...) and col.endswith(']')]`. */
  function GroupColumns(cols: seq<string>): (r: seq<string>)
    ensures forall c :: c in r <==> c in cols && IsGroupColumn(c)
  {
    if cols == [] then []
    else (if IsGroupColumn(cols[0]) then [cols[0]] else []) + GroupColumns(cols[1..])
  }

  /** `merge_taxonomy_data(occurrence_gdf, taxonomy_df)`: the result, or the `KeyError` raised when the
      taxonomy has no `id` column or the merged frame has none to drop. */
  function TaxonomyMerged(occ: Frame, tax: Frame): Result<Frame, PyError> {
    if TAXON_ID !in tax.columns then Err(KeyError(TAXON_ID))
    else
      var merged := LeftJoin(Prepared(occ), tax, FIRST_GROUP, TAXON_ID);
      if TAXON_ID !in merged.columns then Err(KeyError(TAXON_ID))
      else Ok(WithoutColumns(merged, GroupColumns(merged.columns) + [TAXON_ID]))
  }

  /** `merge_taxonomy_data`: the occurrence frame's group column is rewritten in place, then a new merged frame is built. */
  method MergeTaxonomyData(occ: GeoDataFrame, tax: Frame) returns (r: Result<GeoDataFrame, PyError>)
    modifies occ
    ensures occ.Table() == Prepared(old(occ.Table()))
    ensures r.Ok? ==> fresh(r.value) && TaxonomyMerged(old(occ.Table()), tax) == Ok(r.value.Table())
    ensures r.Err? ==> TaxonomyMerged(old(occ.Table()), tax) == Err(r.error)
  {
    var original := occ.Table();
    if FIRST_GROUP !in occ.columns {
      occ.SetColumn(FIRST_GROUP, seq(|occ.rows|, _ => Null));
    }
    var ensured := occ.Table();
    occ.SetColumn(FIRST_GROUP, seq(|ensured.rows|, i requires 0 <= i < |ensured.rows| => ExtractMvl(Cell(ensured.rows[i], FIRST_GROUP))));
    assert occ.Table() == Prepared(original);
    if TAXON_ID !in tax.columns {
      return Err(KeyError(TAXON_ID));
    }
    var merged := LeftJoin(occ.Table(), tax, FIRST_GROUP, TAXON_ID);
    var toDrop := GroupColumns(merged.columns) + [TAXON_ID];
    if TAXON_ID !in merged.columns {
      return Err(KeyError(TAXON_ID));
    }
    var out := new GeoDataFrame(merged);
    out.DropColumns(toDrop);
    r := Ok(out);
  }

  lemma SuffixedHas(cols: seq<string>, others: seq<string>, suffix: string, x: string)
    requires |suffix| == 2 && |x| >= 1 && suffix[1] != x[|x| - 1]
    ensures x in Suffixed(cols, others, suffix) <==> x in cols && x !in others
  {
    var r := Suffixed(cols, others, suffix);
    if x in r {
      var j :| 0 <= j < |r| && r[j] == x;
      var longer := cols[j] + suffix;
      assert longer[|longer| - 1] == suffix[1];
    }
    if x in cols && x !in others {
      var j :| 0 <= j < |cols| && cols[j] == x;
      assert r[j] == x;
    }
  }

  /** The merge fails exactly when the taxonomy has no `id` column or the occurrences already have one
      (then both are renamed with suffixes and no plain `id` is left to drop). Otherwise no group column
      and no `id` column is left. */
  lemma MergeOutcome(occ: Frame, tax: Frame)
    ensures TaxonomyMerged(occ, tax).Err? <==> TAXON_ID !in tax.columns || TAXON_ID in occ.columns
    ensures TaxonomyMerged(occ, tax).Err? ==> TaxonomyMerged(occ, tax).error == KeyError(TAXON_ID)
    ensures TaxonomyMerged(occ, tax).Ok? ==>
              var g := TaxonomyMerged(occ, tax).value;
              TAXON_ID !in g.columns && forall c :: c in g.columns ==> !IsGroupColumn(c)
  {
    var p := Prepared(occ);
    SuffixedHas(p.columns, tax.columns, "_x", TAXON_ID);
    SuffixedHas(tax.columns, p.columns, "_y", TAXON_ID);
    if TAXON_ID in tax.columns {
      var merged := LeftJoin(p, tax, FIRST_GROUP, TAXON_ID);
      WithoutColumnsEffect(merged, GroupColumns(merged.columns) + [TAXON_ID]);
    }
  }

  /** A right-hand column of a one-to-one left join holds, row by row, the looked-up right row's cell. */
  lemma LeftJoinLookupColumn(left: Frame, right: Frame, lkey: string, rkey: string, k: nat)
    requires UniqueKeys(right.rows, rkey)
    requires Distinct(LeftJoin(left, right, lkey, rkey).columns)
    requires k < |right.columns| && right.columns[k] !in left.columns
    ensures var m := LeftJoin(left, right, lkey, rkey);
            var c := right.columns[k];
            && |m.rows| == |left.rows|
            && c in m.columns
            && forall i :: 0 <= i < |left.rows| ==>
                 && m.rows[i].geometry == left.rows[i].geometry
                 && Cell(m.rows[i], c) == Cell(Lookup(right.rows, rkey, Cell(left.rows[i], lkey)), c)
  {
    var m := LeftJoin(left, right, lkey, rkey);
    var c := right.columns[k];
    JoinIsLookup(left.rows, left, right, lkey, rkey);
    var lnames := Suffixed(left.columns, right.columns, "_x");
    var rnames := Suffixed(right.columns, left.columns, "_y");
    assert rnames[k] == c;
    assert m.columns[|lnames| + k] == c;
    forall i | 0 <= i < |left.rows|
      ensures Cell(m.rows[i], c) == Cell(Lookup(right.rows, rkey, Cell(left.rows[i], lkey)), c)
    {
      JoinedCells(left.rows[i], Lookup(right.rows, rkey, Cell(left.rows[i], lkey)), left, right);
    }
  }

  /** With distinct taxonomy identifiers and no clashing names, the merge keeps one row per occurrence,
      in order and with its geometry, and fills each taxonomy column from the taxonomy row whose `id`
      is the occurrence's extracted `MVL.` identifier (missing when there is none). */
  lemma MergeIsLookup(occ: Frame, tax: Frame, c: string)
    requires UniqueKeys(tax.rows, TAXON_ID)
    requires Distinct(LeftJoin(Prepared(occ), tax, FIRST_GROUP, TAXON_ID).columns)
    requires TaxonomyMerged(occ, tax).Ok?
    requires c in tax.columns && c !in occ.columns && c != FIRST_GROUP && c != TAXON_ID && !IsGroupColumn(c)
    ensures var g := TaxonomyMerged(occ, tax).value;
            && |g.rows| == |occ.rows|
            && c in g.columns
            && forall i :: 0 <= i < |occ.rows| ==>
                 && g.rows[i].geometry == occ.rows[i].geometry
                 && Cell(g.rows[i], c) == Cell(Lookup(tax.rows, TAXON_ID, Cell(Prepared(occ).rows[i], FIRST_GROUP)), c)
  {
    var p := Prepared(occ);
    var merged := LeftJoin(p, tax, FIRST_GROUP, TAXON_ID);
    var names := GroupColumns(merged.columns) + [TAXON_ID];
    var g := WithoutColumns(merged, names);
    assert TaxonomyMerged(occ, tax).value == g;
    var k :| 0 <= k < |tax.columns| && tax.columns[k] == c;
    assert c !in p.columns;
    LeftJoinLookupColumn(p, tax, FIRST_GROUP, TAXON_ID, k);
    WithoutColumnsEffect(merged, names);
    assert c !in names;
    forall i | 0 <= i < |occ.rows|
      ensures && g.rows[i].geometry == occ.rows[i].geometry
              && Cell(g.rows[i], c) == Cell(Lookup(tax.rows, TAXON_ID, Cell(p.rows[i], FIRST_GROUP)), c)
    {
      assert g.rows[i].geometry == merged.rows[i].geometry;
      assert Cell(g.rows[i], c) == Cell(merged.rows[i], c);
    }
  }

  // ----- validate_geometry -----

  /** One row of `validate_geometry`: an invalid geometry is replaced by its `make_valid` repair. A missing
      geometry counts as invalid, and its repair is missing again. */
  function Repaired(g: Option<Geom>, isValid: Geom -> bool, makeValid: Geom -> Geom): (r: Option<Geom>)
    ensures r.None? <==> g.None?
  {
    match g
    case None => None
    case Some(x) => if isValid(x) then g else Some(makeValid(x))
  }

  /** When `make_valid` always yields a valid geometry, every repaired geometry is valid, valid ones are
      kept as they are, and repairing twice changes nothing more. */
  lemma RepairIsIdempotent(g: Option<Geom>, isValid: Geom -> bool, makeValid: Geom -> Geom)
    requires forall x :: isValid(makeValid(x))
    ensures var r := Repaired(g, isValid, makeValid);
            && (r.Some? ==> isValid(r.value))
            && (g.Some? && isValid(g.value) ==> r == g)
            && Repaired(r, isValid, makeValid) == r
  {
  }

  /** `validate_geometry(gdf)`, which assigns the repaired geometries in place. */
  method ValidateGeometry(gdf: GeoDataFrame, isValid: Geom -> bool, makeValid: Geom -> Geom)
    modifies gdf
    ensures gdf.columns == old(gdf.columns)
    ensures |gdf.rows| == |old(gdf.rows)|
    ensures forall i :: 0 <= i < |gdf.rows| ==>
              gdf.rows[i] == old(gdf.rows[i]).(geometry := Repaired(old(gdf.rows[i]).geometry, isValid, makeValid))
  {
    var rows := gdf.rows;
    gdf.SetGeometry(seq(|rows|, i requires 0 <= i < |rows| => Repaired(rows[i].geometry, isValid, makeValid)));
  }

  // ----- convert_geometry_collection_to_multipolygon -----

  /** `convert_geometry_collection_to_multipolygon(gdf, buffer_distance)`: `process_geometry` applied to every
      row's geometry in place. */
  method ConvertGeometryCollections(gdf: GeoDataFrame, distance: real, buffer: (Geom, real) -> Geom,
                                    unaryUnion: seq<Geom> -> Geom)
    modifies gdf
    ensures gdf.columns == old(gdf.columns)
    ensures |gdf.rows| == |old(gdf.rows)|
    ensures forall i :: 0 <= i < |gdf.rows| ==>
              gdf.rows[i] == old(gdf.rows[i]).(geometry := ProcessGeometry(old(gdf.rows[i]).geometry, distance, buffer, unaryUnion))
  {
    var rows := gdf.rows;
    gdf.SetGeometry(seq(|rows|, i requires 0 <= i < |rows| => ProcessGeometry(rows[i].geometry, distance, buffer, unaryUnion)));
  }

  // ----- map_values -----

  /** `[mapping_dict.get(value, '') for value in selected_values]` with the empty strings filtered out. */
  function MappedValues(selected: seq<string>, mapping: map<string, string>): (vs: seq<string>)
    ensures |vs| <= |selected|
    ensures forall k :: 0 <= k < |vs| ==> vs[k] != ""
    ensures vs == [] <==> forall v :: v in selected ==> v !in mapping || mapping[v] == ""
  {
    if selected == [] then []
    else
      var v := selected[0];
      var rest := MappedValues(selected[1..], mapping);
      assert forall x :: x in selected <==> x == v || x in selected[1..];
      (if v in mapping && mapping[v] != "" then [mapping[v]] else []) + rest
  }

  /** `map_values(combo_box, mapping_dict)` on the selected items' data. */
  function MapValues(selected: seq<string>, mapping: map<string, string>): string {
    Join(",", MappedValues(selected, mapping))
  }

  lemma {:induction false} JoinNonEmpty(sep: string, parts: seq<string>)
    requires parts != [] && parts[0] != ""
    ensures Join(sep, parts) != ""
  {
  }

  /** The parameter is empty exactly when no selected item has a non-empty mapping. */
  lemma MapValuesEmptyIff(selected: seq<string>, mapping: map<string, string>)
    ensures MapValues(selected, mapping) == "" <==> forall v :: v in selected ==> v !in mapping || mapping[v] == ""
  {
    var vs := MappedValues(selected, mapping);
    if vs != [] {
      JoinNonEmpty(",", vs);
    }
  }

  /** When no mapped value holds a comma, splitting the parameter at commas gives back the mapped values
      of the selection, in selection order. */
  lemma MapValuesSplit(selected: seq<string>, mapping: map<string, string>)
    requires forall v :: v in mapping.Values ==> ',' !in v
    requires MapValues(selected, mapping) != ""
    ensures Split(MapValues(selected, mapping), ',') == MappedValues(selected, mapping)
  {
    var vs := MappedValues(selected, mapping);
    MappedValuesFromMapping(selected, mapping);
    SplitJoin(vs, ',');
  }

  lemma {:induction false} MappedValuesFromMapping(selected: seq<string>, mapping: map<string, string>)
    ensures forall k :: 0 <= k < |MappedValues(selected, mapping)| ==> MappedValues(selected, mapping)[k] in mapping.Values
  {
    if selected != [] {
      MappedValuesFromMapping(selected[1..], mapping);
    }
  }
}
