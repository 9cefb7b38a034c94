/** The Submit handler of the current plug-in version (src/ui/main_dialog.py, `FinBIFDialog.run`): the
    request parameters are assembled from the form, the wild card is applied and the access token checked,
    the observations are counted and too large a query is refused, the user confirms, and the fetch
    begins; and the stage that follows it, which processes the fetched frame and groups its rows by
    geometry type to make one layer per type. */
module MainDialog {
  import opened Wrappers
  import opened Text
  import opened Values
  import opened Geometry
  import opened Frames
  import opened Transport
  import QueryForm
  import Validators
  import Api
  import Processors

  // ---------------------------------------------------------------------------------------------
  // The tables at the top of the file

  /** The largest count a query may have. */
  const MAX_OBSERVATIONS_LIMIT := 500000

  /** The labels of the CRS combo box and the codes they stand for. */
  const CRS_MAPPINGS: map<string, string> :=
    map["ETRS-TM35FIN (for Finnish)" := "EUREF", "YKJ (for Finnish)" := "YKJ", "WGS84 (for global)" := "WGS84"]

  /** The codes and their EPSG identifiers. */
  const EPSG_MAPPINGS: map<string, string> := map["EUREF" := "EPSG:3067", "YKJ" := "EPSG:2393", "WGS84" := "EPSG:4326"]

  /** `CRS_MAPPINGS.get(crs, 'WGS84')`. */
  function CrsCode(choice: string): string {
    if choice in CRS_MAPPINGS then CRS_MAPPINGS[choice] else "WGS84"
  }

  /** `EPSG_MAPPINGS.get(params["crs"])`: only a text value can be one of the table's keys. */
  function EpsgOf(crs: Value): Option<string> {
    if crs.Str? && crs.s in EPSG_MAPPINGS then Some(EPSG_MAPPINGS[crs.s]) else None
  }

  /** Every label, listed or not, gives a code the second table holds: the two Finnish labels give EPSG:3067
      and EPSG:2393, and the WGS84 label and every unknown label give EPSG:4326. */
  lemma LabelEpsg(choice: string)
    ensures EpsgOf(Str(CrsCode(choice))).Some?
    ensures EpsgOf(Str(CrsCode(choice))).value ==
              if choice == "ETRS-TM35FIN (for Finnish)" then "EPSG:3067"
              else if choice == "YKJ (for Finnish)" then "EPSG:2393"
              else "EPSG:4326"
  {
  }

  // ---------------------------------------------------------------------------------------------
  // The request parameters

  /** The dictionary literal every request starts from. */
  function BaseParams(form: QueryForm.Form): (d: Dict<Value>)
    ensures KeysOf(d) == ["crs", "featureType", "access_token"]
  {
    [("crs", Str(CrsCode(form.crs))), ("featureType", Str(form.geomType)), ("access_token", Str(form.accessToken))]
  }

  /** The parameters after the twenty-seven `if value: params[key] = value` statements. */
  function Filtered(form: QueryForm.Form, codes: QueryForm.Codes): Dict<Value> {
    QueryForm.WithTruthy(BaseParams(form), QueryForm.Candidates(form, codes))
  }

  /** The literal's three values. */
  lemma BaseGets(form: QueryForm.Form)
    ensures var d := BaseParams(form);
            && Get(d, "crs") == Some(Str(CrsCode(form.crs)))
            && Get(d, "featureType") == Some(Str(form.geomType))
            && Get(d, "access_token") == Some(Str(form.accessToken))
  {
    var d := BaseParams(form);
    assert d == [d[0]] + ([d[1]] + [d[2]]);
    GetAfter([d[0]], [d[1]] + [d[2]], "featureType");
    assert d == [d[0], d[1]] + [d[2]];
    GetAfter([d[0], d[1]], [d[2]], "access_token");
  }

  /** The three fixed parameters keep the values of the literal. */
  lemma FilteredBase(form: QueryForm.Form, codes: QueryForm.Codes)
    ensures var d := Filtered(form, codes);
            && Get(d, "crs") == Some(Str(CrsCode(form.crs)))
            && Get(d, "featureType") == Some(Str(form.geomType))
            && Get(d, "access_token") == Some(Str(form.accessToken))
  {
    var base := BaseParams(form);
    BaseGets(form);
    QueryForm.FilterKeysNotBase();
    assert "crs" in QueryForm.BASE_KEYS && "featureType" in QueryForm.BASE_KEYS && "access_token" in QueryForm.BASE_KEYS;
    QueryForm.FiltersLeaveOthers(base, form, codes, "crs");
    QueryForm.FiltersLeaveOthers(base, form, codes, "featureType");
    QueryForm.FiltersLeaveOthers(base, form, codes, "access_token");
  }

  /** Each optional filter, the test-API flag among them, is present exactly when its value is truthy. */
  lemma FilteredParams(form: QueryForm.Form, codes: QueryForm.Codes)
    ensures var vs := QueryForm.FilterValues(form, codes);
            forall i :: 0 <= i < |QueryForm.FILTER_KEYS| ==>
              Get(Filtered(form, codes), QueryForm.FILTER_KEYS[i]) == if Truthy(vs[i]) then Some(vs[i]) else None
  {
    var base := BaseParams(form);
    QueryForm.FilterKeysNotBase();
    forall i | 0 <= i < |QueryForm.FILTER_KEYS|
      ensures var v := QueryForm.FilterValues(form, codes)[i];
              Get(Filtered(form, codes), QueryForm.FILTER_KEYS[i]) == if Truthy(v) then Some(v) else None
    {
      assert QueryForm.FILTER_KEYS[i] in QueryForm.FILTER_KEYS;
      assert QueryForm.FILTER_KEYS[i] !in KeysOf(base);
      QueryForm.FilterApplied(base, form, codes, i);
    }
  }

  // ---------------------------------------------------------------------------------------------
  // The wild card and the token

  /** The `ValueError` of `key, value = parts` when `parts` does not have two members. */
  function UnpackError(n: nat): PyError {
    if n > 2 then ValueError("too many values to unpack (expected 2)")
    else ValueError("not enough values to unpack (expected 2, got " + IntToString(n) + ")")
  }

  /** Whether `validate_wild_card` shows its warning. Its answer is a tuple, which `not` always finds true,
      so the run goes on whatever the answer. */
  predicate Warned(w: string) {
    w != "" && !Validators.ValidateWildCard(w).ok
  }

  /** The parameters once the wild card is applied, or as they were when the unpacking raises. */
  function Applied(params: Dict<Value>, w: string): Dict<Value> {
    match QueryForm.WithWildCard(params, w)
    case None => params
    case Some(p) => p
  }

  /** How a press of Submit ends. */
  datatype RunEnd =
    | Cancelled               // pressed while a run was marked running: the mark is cleared
    | MissingToken            // the access token is empty: a warning, and the mark is cleared
    | TooMany(total: int)     // the count is over the limit: a warning, and the mark is cleared
    | Declined                // the user answered No: the mark is cleared
    | Raised(error: PyError)  // an exception escaped `run`: the mark stays set

  /** After the form is read: the wild card is applied and the token is checked. The result is the parameters
      that go on, or how the run ends first. */
  function RequestFrom(params: Dict<Value>, w: string): Result<Dict<Value>, RunEnd> {
    match QueryForm.WithWildCard(params, w)
    case None => Err(Raised(UnpackError(|Split(w, '=')|)))
    case Some(p) =>
      match QueryForm.TokenOf(p)
      case Err(e) => Err(Raised(e))
      case Ok(token) => if Truthy(token) then Ok(p) else Err(MissingToken)
  }

  /** The validator's verdict on a `key=value` wild card (a warning when either side is blank) changes nothing:
      the key is set to the value, unstripped, whatever the verdict. */
  lemma WarningIgnored(params: Dict<Value>, k: string, v: string)
    requires '=' !in k && '=' !in v
    ensures Warned(k + "=" + v) <==> IsBlank(k) || IsBlank(v)
    ensures QueryForm.WithWildCard(params, k + "=" + v) == Some(Put(params, k, Str(v)))
  {
    Validators.WildCardSplit(k, v);
    QueryForm.WildCardSets(params, k, v);
  }

  /** A wild card the validator accepts, because it splits at the first `=` only, still ends the run when it
      holds a second `=`: the unpacking of the three parts raises and the mark stays set. */
  lemma AcceptedYetRaises(params: Dict<Value>, k: string, v1: string, v2: string)
    requires '=' !in k && '=' !in v1 && '=' !in v2 && !IsBlank(k) && !IsBlank(v1)
    ensures !Warned(k + "=" + v1 + "=" + v2)
    ensures RequestFrom(params, k + "=" + v1 + "=" + v2) == Err(Raised(ValueError("too many values to unpack (expected 2)")))
  {
    NotBlankExtended(v1, "=" + v2);
    assert v1 + "=" + v2 == v1 + ("=" + v2);
    FirstSplitAccepted(k, v1 + "=" + v2);
    assert k + "=" + (v1 + "=" + v2) == k + "=" + v1 + "=" + v2;
    ThreeParts(k, v1, v2);
  }

  /** The validator accepts `key=rest` when neither side is blank, whatever `=` the rest holds. */
  lemma FirstSplitAccepted(k: string, v: string)
    requires '=' !in k && !IsBlank(k) && !IsBlank(v)
    ensures !Warned(k + "=" + v)
  {
    Validators.WildCardSplit(k, v);
  }

  /** `k=v1=v2` splits into its three parts. */
  lemma ThreeParts(k: string, v1: string, v2: string)
    requires '=' !in k && '=' !in v1 && '=' !in v2
    ensures Split(k + "=" + v1 + "=" + v2, '=') == [k, v1, v2]
  {
    var parts := [k, v1, v2];
    var tail := v1 + "=" + v2;
    assert parts[1..] == [v1, v2] && parts[1..][1..] == [v2];
    assert Join("=", parts[1..]) == tail;
    assert Join("=", parts) == k + "=" + tail;
    assert k + "=" + tail == k + "=" + v1 + "=" + v2;
    SplitJoin(parts, '=');
  }

  /** Text that is not blank stays so whatever follows it. */
  lemma NotBlankExtended(a: string, b: string)
    requires !IsBlank(a)
    ensures !IsBlank(a + b)
  {
    var i :| 0 <= i < |a| && !IsSpace(a[i]);
    assert (a + b)[i] == a[i];
  }

  // ---------------------------------------------------------------------------------------------
  // The count and the question

  /** `total_obs and total_obs > MAX_OBSERVATIONS_LIMIT`. */
  predicate OverLimit(total: Option<int>) {
    total.Some? && total.value != 0 && total.value > MAX_OBSERVATIONS_LIMIT
  }

  /** The parameter summary: a `key: value` line for every parameter but the access token. */
  function Summary(p: Dict<Value>): string {
    QueryForm.ParamText(Remove(p, "access_token"))
  }

  /** The summary never shows the access token; when no key or value holds a line break it has one line per
      other parameter, in parameter order. */
  lemma SummaryOmitsToken(p: Dict<Value>)
    ensures "access_token" !in KeysOf(Remove(p, "access_token"))
    ensures KeysOf(Remove(p, "access_token")) == Without(KeysOf(p), "access_token")
    ensures var q := Remove(p, "access_token");
            |q| >= 1 && (forall i :: 0 <= i < |q| ==> '\n' !in q[i].0 && '\n' !in PyStr(q[i].1)) ==>
              var lines := Split(Summary(p), '\n');
              |lines| == |q| && forall i :: 0 <= i < |q| ==> lines[i] == q[i].0 + ": " + PyStr(q[i].1)
  {
    var q := Remove(p, "access_token");
    RemoveKeys(p, "access_token");
    assert !HasKey(q, "access_token");
    if |q| >= 1 && (forall i :: 0 <= i < |q| ==> '\n' !in q[i].0 && '\n' !in PyStr(q[i].1)) {
      QueryForm.ParamTextLines(q);
    }
  }

  /** The text of the confirmation question. */
  const QUESTION_HEAD := "Fetching "
  const QUESTION_MIDDLE := " occurrences with the following parameters:\n\n"
  const QUESTION_TAIL := "\n\nDo you want to continue?"

  /** The question, with the count as `str` shows it: `None` when there is none. */
  function Question(total: Option<int>, summary: string): string {
    QUESTION_HEAD + PyStr(if total.Some? then Int(total.value) else Null) + QUESTION_MIDDLE + summary + QUESTION_TAIL
  }

  /** What `fetch_data(...)` returns: a generator, whose body does not run, and which has no `empty`. */
  const NOT_A_FRAME := AttributeError("'generator' object has no attribute 'empty'")

  /** What a press of Submit does when no run is marked: how it ends, the token it saves, whether it counts,
      the parameters as it leaves them, the question it asks, what it hands to the progress bar and the EPSG
      identifier it looks up. */
  datatype Effects = Effects(outcome: RunEnd, saved: Option<Value>, counted: bool, params: Dict<Value>,
                             asked: Option<string>, values: seq<int>, epsg: Option<string>)

  /** The effects of a run once the form has given `params`; `reply` answers the count request and `answer`
      is the user's reply to a question. */
  function EffectsOf(params: Dict<Value>, w: string, reply: Reply, answer: string -> bool): Effects {
    match RequestFrom(params, w)
    case Err(e) => Effects(e, None, false, Applied(params, w), None, [], None)
    case Ok(p) => Counting(p, reply, answer)
  }

  /** The effects once the parameters `p` have passed the token check: the token saved, the count (which
      pops the test flag), the limit, the question, and the start of the fetch when the user says Yes. */
  function Counting(p: Dict<Value>, reply: Reply, answer: string -> bool): Effects {
    Asking(Get(p, "access_token"), Remove(p, Api.TEST_FLAG), Api.CountOf(p, reply), answer)
  }

  /** The effects once the token `saved` is saved and the count `total` made, which left the parameters
      `left`: the limit, the question, and the start of the fetch when the user says Yes. */
  function Asking(saved: Option<Value>, left: Dict<Value>, total: Option<int>, answer: string -> bool): Effects {
    if OverLimit(total) then Effects(TooMany(total.value), saved, true, left, None, [], None)
    else
      var question := Question(total, Summary(left));
      if !answer(question) then Effects(Declined, saved, true, left, Some(question), [], None)
      else
        match Get(left, "crs")
        case None => Effects(Raised(KeyError("crs")), saved, true, left, Some(question), [0], None)
        case Some(crs) => Effects(Raised(NOT_A_FRAME), saved, true, left, Some(question), [0], EpsgOf(crs))
  }

  /** Applying the wild card keeps every key, and when the parameters hold the CRS code and the access
      token, the run stops before the count only at an unpacking that raises or an empty token. */
  lemma RequestKeys(d: Dict<Value>, w: string, k: string)
    requires HasKey(d, "crs") && HasKey(d, k) && Get(d, "access_token").Some? && Get(d, "access_token").value.Str?
    ensures HasKey(Applied(d, w), k) && HasKey(Applied(d, w), "crs") && HasKey(Applied(d, w), "access_token")
    ensures var r := RequestFrom(d, w);
            && (r.Ok? ==> && r.value == Applied(d, w) && QueryForm.TokenOf(r.value).Ok?
                          && QueryForm.TokenOf(r.value).value.Str? && Truthy(QueryForm.TokenOf(r.value).value))
            && (r.Err? ==> r.error == MissingToken ||
                           (w != "" && |Split(w, '=')| != 2 && r.error == Raised(UnpackError(|Split(w, '=')|))))
  {
    match QueryForm.WithWildCard(d, w)
    case None =>
    case Some(p) =>
      if w != "" {
        var parts := Split(w, '=');
        assert p == Put(d, parts[0], Str(parts[1]));
        assert Get(p, k).Some? && Get(p, "crs").Some? && Get(p, "access_token").Some? && Get(p, "access_token").value.Str?;
      }
  }

  /** Once the count is made: a count over the limit (and only such a count) refuses the query, a missing
      count never does, nothing reaches the progress bar unless the user said Yes, and after a Yes the run
      ends at the generator, having looked up the EPSG identifier of the CRS parameter. */
  lemma AskingGate(saved: Option<Value>, left: Dict<Value>, total: Option<int>, answer: string -> bool)
    requires HasKey(left, "crs")
    ensures var e := Asking(saved, left, total, answer);
            && e.counted && e.saved == saved && e.params == left
            && (e.outcome.TooMany? <==> total.Some? && total.value > MAX_OBSERVATIONS_LIMIT)
            && (e.outcome.TooMany? ==> e.outcome.total == total.value && e.asked.None?)
            && (!e.outcome.TooMany? ==> e.asked == Some(Question(total, Summary(left))))
            && (e.values == [] <==> e.outcome.TooMany? || e.outcome.Declined?)
            && (e.values != [] ==> && e.values == [0] && e.outcome == Raised(NOT_A_FRAME) && e.asked.Some? && answer(e.asked.value)
                                   && e.epsg == EpsgOf(Get(left, "crs").value))
            && (e.outcome.Declined? ==> e.asked.Some? && !answer(e.asked.value))
  {
  }

  /** Whatever happens after the count, the token passed in is the one saved and the parameters are left as
      the count left them. */
  lemma AskingSaves(saved: Option<Value>, left: Dict<Value>, total: Option<int>, answer: string -> bool)
    ensures Asking(saved, left, total, answer).saved == saved
    ensures Asking(saved, left, total, answer).params == left
  {
  }

  /** Once the token check has passed: the token is saved, the count pops the test flag and leaves every
      other parameter as it was, and the rest goes as `AskingGate` says. */
  lemma CountGate(p: Dict<Value>, reply: Reply, answer: string -> bool)
    requires HasKey(p, "crs")
    ensures var e := Counting(p, reply, answer);
            && e.counted && e.saved == Get(p, "access_token")
            && !HasKey(e.params, Api.TEST_FLAG)
            && (forall k :: k != Api.TEST_FLAG ==> Get(e.params, k) == Get(p, k))
            && (e.outcome.TooMany? <==> Api.CountOf(p, reply).Some? && Api.CountOf(p, reply).value > MAX_OBSERVATIONS_LIMIT)
            && (!e.outcome.TooMany? ==> e.asked == Some(Question(Api.CountOf(p, reply), Summary(e.params))))
            && (e.outcome.TooMany? ==> e.outcome.total > MAX_OBSERVATIONS_LIMIT && e.values == [])
            && (e.outcome.Raised? ==> e.outcome.error == NOT_A_FRAME && e.values == [0] && e.asked.Some? && answer(e.asked.value))
            && (e.values != [] ==> e.values == [0] && e.outcome == Raised(NOT_A_FRAME) && e.epsg == EpsgOf(Get(p, "crs").value))
  {
    var left := Remove(p, Api.TEST_FLAG);
    assert Get(left, "crs") == Get(p, "crs");
    AskingGate(Get(p, "access_token"), left, Api.CountOf(p, reply), answer);
  }

  /** With the test-API box checked the flag is among the parameters. */
  lemma TestFlagSet(form: QueryForm.Form, codes: QueryForm.Codes)
    requires form.useTestApi
    ensures Get(Filtered(form, codes), Api.TEST_FLAG) == Some(Bool(true))
  {
    var base := BaseParams(form);
    FlagValue(form, codes);
    assert Api.TEST_FLAG !in KeysOf(base);
    QueryForm.FilterApplied(base, form, codes, 8);
  }

  /** The ninth optional filter is the test-API flag, with the check box's state. */
  lemma FlagValue(form: QueryForm.Form, codes: QueryForm.Codes)
    ensures QueryForm.FILTER_KEYS[8] == Api.TEST_FLAG
    ensures QueryForm.FilterValues(form, codes)[8] == Bool(form.useTestApi)
  {
  }

  /** With the test-API box checked, and no wild card naming the flag, the count request cannot be built and
      the count is `None`, so the limit cannot refuse the query and the question shows `None` for the count. */
  lemma TestApiNotCounted(form: QueryForm.Form, codes: QueryForm.Codes, reply: Reply, answer: string -> bool)
    requires form.useTestApi
    requires form.wildCard == "" || Split(form.wildCard, '=')[0] != Api.TEST_FLAG
    ensures var e := EffectsOf(Filtered(form, codes), form.wildCard, reply, answer);
            && !e.outcome.TooMany?
            && (e.asked.Some? ==> e.asked.value == Question(None, Summary(e.params)))
  {
    var d := Filtered(form, codes);
    FilteredBase(form, codes);
    TestFlagSet(form, codes);
    RequestKeys(d, form.wildCard, Api.TEST_FLAG);
    match RequestFrom(d, form.wildCard)
    case Err(_) =>
    case Ok(p) =>
      assert Get(p, Api.TEST_FLAG) == Get(d, Api.TEST_FLAG) by {
        if form.wildCard != "" {
          var parts := Split(form.wildCard, '=');
          assert p == Put(d, parts[0], Str(parts[1]));
        }
      }
      Api.CountFlagCases(p, reply);
      CountGate(p, reply, answer);
  }

  /** A wild card `use_test_api=<text>` sets the flag to text, which becomes the query of the count request
      to the test base: the count is the reply's total, so the limit can refuse the query. */
  lemma WildCardFlagCounted(form: QueryForm.Form, codes: QueryForm.Codes, v: string, reply: Reply,
                            answer: string -> bool)
    requires form.wildCard == Api.TEST_FLAG + "=" + v && '=' !in v && form.accessToken != ""
    ensures var e := EffectsOf(Filtered(form, codes), form.wildCard, reply, answer);
            && e.counted
            && (e.outcome.TooMany? <==> Api.CountTotal(reply).Some? && Api.CountTotal(reply).value > MAX_OBSERVATIONS_LIMIT)
            && (!e.outcome.TooMany? ==> e.asked == Some(Question(Api.CountTotal(reply), Summary(e.params))))
  {
    FilteredBase(form, codes);
    FlagCountedFrom(Filtered(form, codes), form.accessToken, v, reply, answer);
  }

  /** `WildCardFlagCounted` for any parameters holding the CRS code and a non-empty token. */
  lemma FlagCountedFrom(d: Dict<Value>, token: string, v: string, reply: Reply, answer: string -> bool)
    requires '=' !in v && HasKey(d, "crs") && Get(d, "access_token") == Some(Str(token)) && token != ""
    ensures var e := EffectsOf(d, Api.TEST_FLAG + "=" + v, reply, answer);
            && e.counted
            && (e.outcome.TooMany? <==> Api.CountTotal(reply).Some? && Api.CountTotal(reply).value > MAX_OBSERVATIONS_LIMIT)
            && (!e.outcome.TooMany? ==> e.asked == Some(Question(Api.CountTotal(reply), Summary(e.params))))
  {
    QueryForm.WildCardSets(d, Api.TEST_FLAG, v);
    var p := Put(d, Api.TEST_FLAG, Str(v));
    assert Get(p, "access_token") == Get(d, "access_token") && Get(p, "crs") == Get(d, "crs");
    assert RequestFrom(d, Api.TEST_FLAG + "=" + v) == Ok(p);
    Api.CountFlagCases(p, reply);
    CountGate(p, reply, answer);
    assert EffectsOf(d, Api.TEST_FLAG + "=" + v, reply, answer) == Counting(p, reply, answer);
  }

  /** How a run that was not marked can end: never as a cancellation; an escaping exception is the unpacking
      of a wild card that did not split in two, or the generator's missing `empty` after a Yes; the token,
      saved exactly when the count is made, is non-empty text; an empty token stops the run before the
      count; and the progress bar is touched only after a Yes. */
  lemma RunOutcomes(form: QueryForm.Form, codes: QueryForm.Codes, reply: Reply, answer: string -> bool)
    ensures var e := EffectsOf(Filtered(form, codes), form.wildCard, reply, answer);
            var w := form.wildCard;
            && !e.outcome.Cancelled?
            && (e.outcome.Raised? ==>
                  || (w != "" && |Split(w, '=')| != 2 && e.outcome.error == UnpackError(|Split(w, '=')|) && !e.counted)
                  || (e.outcome.error == NOT_A_FRAME && e.values == [0] && e.asked.Some? && answer(e.asked.value)))
            && (e.counted <==> e.saved.Some?)
            && (e.saved.Some? ==> e.saved.value.Str? && e.saved.value.s != "")
            && (e.outcome.MissingToken? ==> !e.counted && e.asked.None? && e.values == [])
            && (e.outcome.TooMany? ==> e.counted && e.outcome.total > MAX_OBSERVATIONS_LIMIT && e.values == [])
            && (e.values != [] ==> e.values == [0] && e.outcome == Raised(NOT_A_FRAME))
  {
    FilteredBase(form, codes);
    OutcomesFrom(Filtered(form, codes), form.wildCard, reply, answer);
  }

  /** `RunOutcomes` for any parameters that hold the CRS code and a textual access token. */
  lemma OutcomesFrom(d: Dict<Value>, w: string, reply: Reply, answer: string -> bool)
    requires HasKey(d, "crs") && Get(d, "access_token").Some? && Get(d, "access_token").value.Str?
    ensures var e := EffectsOf(d, w, reply, answer);
            && !e.outcome.Cancelled?
            && (e.outcome.Raised? ==>
                  || (w != "" && |Split(w, '=')| != 2 && e.outcome.error == UnpackError(|Split(w, '=')|) && !e.counted)
                  || (e.outcome.error == NOT_A_FRAME && e.values == [0] && e.asked.Some? && answer(e.asked.value)))
            && (e.counted <==> e.saved.Some?)
            && (e.saved.Some? ==> e.saved.value.Str? && e.saved.value.s != "")
            && (e.outcome.MissingToken? ==> !e.counted && e.asked.None? && e.values == [])
            && (e.outcome.TooMany? ==> e.counted && e.outcome.total > MAX_OBSERVATIONS_LIMIT && e.values == [])
            && (e.values != [] ==> e.values == [0] && e.outcome == Raised(NOT_A_FRAME))
  {
    RequestKeys(d, w, "crs");
    match RequestFrom(d, w)
    case Err(err) =>
      assert EffectsOf(d, w, reply, answer) == Effects(err, None, false, Applied(d, w), None, [], None);
    case Ok(p) =>
      CountedOutcomes(p, reply, answer);
      assert EffectsOf(d, w, reply, answer) == Counting(p, reply, answer);
  }

  /** The outcomes of a run whose parameters passed the token check with a non-empty textual token. */
  lemma CountedOutcomes(p: Dict<Value>, reply: Reply, answer: string -> bool)
    requires HasKey(p, "crs") && QueryForm.TokenOf(p).Ok? && QueryForm.TokenOf(p).value.Str?
    requires Truthy(QueryForm.TokenOf(p).value)
    ensures var e := Counting(p, reply, answer);
            && !e.outcome.Cancelled? && !e.outcome.MissingToken?
            && (e.outcome.Raised? ==> e.outcome.error == NOT_A_FRAME && e.values == [0] && e.asked.Some? && answer(e.asked.value))
            && e.counted && e.saved.Some? && e.saved.value.Str? && e.saved.value.s != ""
            && (e.outcome.TooMany? ==> e.outcome.total > MAX_OBSERVATIONS_LIMIT && e.values == [])
            && (e.values != [] ==> e.values == [0] && e.outcome == Raised(NOT_A_FRAME))
  {
    CountGate(p, reply, answer);
  }

  /** Unless the wild card names `crs`, a run the user said Yes to looks up the EPSG identifier of the CRS
      label the form shows, and finds one. */
  lemma EpsgLookedUp(form: QueryForm.Form, codes: QueryForm.Codes, reply: Reply, answer: string -> bool)
    requires form.wildCard == "" || Split(form.wildCard, '=')[0] != "crs"
    ensures var e := EffectsOf(Filtered(form, codes), form.wildCard, reply, answer);
            e.values != [] ==> e.epsg == EpsgOf(Str(CrsCode(form.crs))) && e.epsg.Some?
  {
    var d := Filtered(form, codes);
    FilteredBase(form, codes);
    LabelEpsg(form.crs);
    RequestKeys(d, form.wildCard, "crs");
    match RequestFrom(d, form.wildCard)
    case Err(_) =>
    case Ok(p) =>
      assert Get(p, "crs") == Get(d, "crs") by {
        if form.wildCard != "" {
          var parts := Split(form.wildCard, '=');
          assert p == Put(d, parts[0], Str(parts[1]));
        }
      }
      CountGate(p, reply, answer);
  }

  // ---------------------------------------------------------------------------------------------
  // The stage after the fetch: processing, grouping by geometry type, and the layers

  /** The buffer distance the collection conversion runs with: the default of its parameter. */
  const BUFFER_DISTANCE: real := 0.5

  /** A row's geometry after the collection conversion and then the validation. */
  function FinalGeometry(g: Option<Geom>, buffer: (Geom, real) -> Geom, unaryUnion: seq<Geom> -> Geom,
                         isValid: Geom -> bool, makeValid: Geom -> Geom): Option<Geom>
  {
    Processors.Repaired(ProcessGeometry(g, BUFFER_DISTANCE, buffer, unaryUnion), isValid, makeValid)
  }

  /** The frame with every row's geometry converted and then validated, nothing else changed. */
  function Reshaped(c: Frame, buffer: (Geom, real) -> Geom, unaryUnion: seq<Geom> -> Geom,
                    isValid: Geom -> bool, makeValid: Geom -> Geom): Frame
  {
    Frame(c.columns, seq(|c.rows|, i requires 0 <= i < |c.rows| =>
                           c.rows[i].(geometry := FinalGeometry(c.rows[i].geometry, buffer, unaryUnion, isValid, makeValid))))
  }

  /** The processing chain on a fetched frame: the taxonomy merge, the collection names, the combined
      columns, the collection conversion and the validation, in that order; an exception of a step ends it. */
  function Processed(t: Frame, tax: Frame, names: map<string, string>, buffer: (Geom, real) -> Geom,
                     unaryUnion: seq<Geom> -> Geom, isValid: Geom -> bool, makeValid: Geom -> Geom): Result<Frame, PyError>
  {
    match Processors.TaxonomyMerged(t, tax)
    case Err(e) => Err(e)
    case Ok(merged) =>
      match Processors.WithCollectionNames(merged, names)
      case Err(e) => Err(e)
      case Ok(named) => Ok(Reshaped(Processors.Combined(named), buffer, unaryUnion, isValid, makeValid))
  }

  /** After processing, with a repair that always yields a valid geometry, every geometry is valid and is no
      geometry collection unless the repair made it one; rows keep their number and whether they have a
      geometry. */
  lemma {:induction false} ProcessedGeometries(t: Frame, tax: Frame, names: map<string, string>,
                                               buffer: (Geom, real) -> Geom, unaryUnion: seq<Geom> -> Geom,
                                               isValid: Geom -> bool, makeValid: Geom -> Geom)
    requires forall x :: isValid(makeValid(x))
    ensures var r := Processed(t, tax, names, buffer, unaryUnion, isValid, makeValid);
            r.Ok? ==>
              forall i :: 0 <= i < |r.value.rows| && r.value.rows[i].geometry.Some? ==>
                isValid(r.value.rows[i].geometry.value)
  {
    var r := Processed(t, tax, names, buffer, unaryUnion, isValid, makeValid);
    if r.Ok? {
      forall i | 0 <= i < |r.value.rows| && r.value.rows[i].geometry.Some?
        ensures isValid(r.value.rows[i].geometry.value)
      {
        var named := Processors.WithCollectionNames(Processors.TaxonomyMerged(t, tax).value, names).value;
        var c := Processors.Combined(named);
        Processors.RepairIsIdempotent(ProcessGeometry(c.rows[i].geometry, BUFFER_DISTANCE, buffer, unaryUnion), isValid, makeValid);
      }
    }
  }

  /** The type `geom_type` gives a row: `None` for a row without a geometry. */
  function GeomType(r: Record): Option<Kind> {
    if r.geometry.Some? then Some(KindOf(r.geometry.value)) else None
  }

  /** `geom_type.unique()`: the types of the rows, each once, in order of first appearance. */
  function UniqueTypes(rows: seq<Record>): seq<Option<Kind>> {
    if rows == [] then []
    else
      var prev := UniqueTypes(rows[..|rows| - 1]);
      var ty := GeomType(rows[|rows| - 1]);
      if ty in prev then prev else prev + [ty]
  }

  /** The unique types hold no repeat, and a type is among them exactly when some row has it. */
  lemma {:induction false} UniqueTypesSpec(rows: seq<Record>)
    ensures forall a, b :: 0 <= a < b < |UniqueTypes(rows)| ==> UniqueTypes(rows)[a] != UniqueTypes(rows)[b]
    ensures forall ty :: ty in UniqueTypes(rows) <==> exists i :: 0 <= i < |rows| && GeomType(rows[i]) == ty
  {
    if rows != [] {
      var front := rows[..|rows| - 1];
      UniqueTypesSpec(front);
      var prev, last := UniqueTypes(front), GeomType(rows[|rows| - 1]);
      var ts := UniqueTypes(rows);
      assert ts == if last in prev then prev else prev + [last];
      forall a, b | 0 <= a < b < |ts|
        ensures ts[a] != ts[b]
      {
        if b == |prev| {
          assert ts[a] == prev[a] && ts[b] == last;
        }
      }
      forall ty | ty in prev
        ensures exists i :: 0 <= i < |rows| && GeomType(rows[i]) == ty
      {
        var i :| 0 <= i < |front| && GeomType(front[i]) == ty;
        assert GeomType(rows[i]) == ty;
      }
      forall ty | (exists i :: 0 <= i < |rows| && GeomType(rows[i]) == ty)
        ensures ty in ts
      {
        var i :| 0 <= i < |rows| && GeomType(rows[i]) == ty;
        if i < |front| {
          assert GeomType(front[i]) == ty;
          assert ty in prev;
        } else {
          assert ty == last;
        }
      }
    }
  }

  /** `gdf[gdf.geometry.geom_type == k]`: the rows of type `k`, in order. */
  function Matching(rows: seq<Record>, k: Kind): (m: seq<Record>)
    ensures forall x :: x in m <==> x in rows && GeomType(x) == Some(k)
  {
    if rows == [] then []
    else
      var last := rows[|rows| - 1];
      assert rows == rows[..|rows| - 1] + [last];
      Matching(rows[..|rows| - 1], k) + (if GeomType(last) == Some(k) then [last] else [])
  }

  /** `gdfs_by_type` once the types `ts` have been gone through: a non-empty subset per type, in order; the
      comparison with a missing type selects no row. */
  function Grouped(t: Frame, ts: seq<Option<Kind>>): seq<(Kind, Frame)> {
    if ts == [] then []
    else
      var prev := Grouped(t, ts[..|ts| - 1]);
      match ts[|ts| - 1]
      case None => prev
      case Some(k) =>
        var subset := Matching(t.rows, k);
        if subset != [] then prev + [(k, Frame(t.columns, subset))] else prev
  }

  /** Over distinct types, the groups have distinct kinds, each kind from `ts`, each group the non-empty
      subset of its kind, and every kind of `ts` with a matching row has a group. */
  lemma {:induction false} GroupedSpec(t: Frame, ts: seq<Option<Kind>>)
    requires forall a, b :: 0 <= a < b < |ts| ==> ts[a] != ts[b]
    ensures forall a, b :: 0 <= a < b < |Grouped(t, ts)| ==> Grouped(t, ts)[a].0 != Grouped(t, ts)[b].0
    ensures forall j :: 0 <= j < |Grouped(t, ts)| ==>
              && Some(Grouped(t, ts)[j].0) in ts
              && Grouped(t, ts)[j].1 == Frame(t.columns, Matching(t.rows, Grouped(t, ts)[j].0))
              && Grouped(t, ts)[j].1.rows != []
    ensures forall k :: Some(k) in ts && Matching(t.rows, k) != [] ==>
              exists j :: 0 <= j < |Grouped(t, ts)| && Grouped(t, ts)[j].0 == k
  {
    if ts != [] {
      var front := ts[..|ts| - 1];
      GroupedSpec(t, front);
      var prev := Grouped(t, front);
      assert ts == front + [ts[|ts| - 1]];
      match ts[|ts| - 1]
      case None =>
        assert Grouped(t, ts) == prev;
      case Some(k0) =>
        if Matching(t.rows, k0) == [] {
          assert Grouped(t, ts) == prev;
        } else {
          var g := Grouped(t, ts);
          assert g == prev + [(k0, Frame(t.columns, Matching(t.rows, k0)))];
          forall j | 0 <= j < |prev|
            ensures prev[j].0 != k0
          {
            assert Some(prev[j].0) in front;
          }
          forall k | Some(k) in ts && Matching(t.rows, k) != []
            ensures exists j :: 0 <= j < |g| && g[j].0 == k
          {
            if k == k0 {
              assert g[|prev|].0 == k;
            } else {
              assert Some(k) in front;
              var j :| 0 <= j < |prev| && prev[j].0 == k;
              assert g[j] == prev[j];
            }
          }
        }
    }
  }

  /** `gdfs_by_type` once every type has been gone through. */
  function Groups(t: Frame): seq<(Kind, Frame)> {
    Grouped(t, UniqueTypes(t.rows))
  }

  /** The grouping partitions the rows with a geometry: the groups have distinct kinds, and a row is in a
      group exactly when it has a geometry of the group's kind; every row with a geometry has a group, and a
      row without one is in none. */
  lemma {:induction false} GroupsPartition(t: Frame)
    ensures forall a, b :: 0 <= a < b < |Groups(t)| ==> Groups(t)[a].0 != Groups(t)[b].0
    ensures forall j :: 0 <= j < |Groups(t)| ==> Groups(t)[j].1.columns == t.columns && Groups(t)[j].1.rows != []
    ensures forall j, x :: 0 <= j < |Groups(t)| ==>
              (x in Groups(t)[j].1.rows <==> x in t.rows && GeomType(x) == Some(Groups(t)[j].0))
    ensures forall i :: 0 <= i < |t.rows| && t.rows[i].geometry.Some? ==>
              exists j :: 0 <= j < |Groups(t)| && Groups(t)[j].0 == KindOf(t.rows[i].geometry.value)
  {
    var ts := UniqueTypes(t.rows);
    UniqueTypesSpec(t.rows);
    GroupedSpec(t, ts);
    var gs := Groups(t);
    assert gs == Grouped(t, ts);
    forall j, x | 0 <= j < |gs|
      ensures x in gs[j].1.rows <==> x in t.rows && GeomType(x) == Some(gs[j].0)
    {
      assert gs[j].1.rows == Matching(t.rows, gs[j].0);
    }
    forall i | 0 <= i < |t.rows| && t.rows[i].geometry.Some?
      ensures exists j :: 0 <= j < |gs| && gs[j].0 == KindOf(t.rows[i].geometry.value)
    {
      var k := KindOf(t.rows[i].geometry.value);
      assert GeomType(t.rows[i]) == Some(k);
      assert t.rows[i] in Matching(t.rows, k);
    }
  }

  /** How the stage after the fetch ends: nothing fetched, no row left after processing, the records loaded,
      or an exception. */
  datatype LoadEnd = NoDataRetrieved | NoValidData | Loaded(records: nat) | LoadRaised(error: PyError)

  /** `create_layer` tests its frame argument with `if features:`, and pandas refuses a frame a truth value. */
  const AMBIGUOUS := ValueError("The truth value of a DataFrame is ambiguous. Use a.empty, a.bool(), a.item(), a.any() or a.all().")

  /** The layer step on a processed frame: no rows is reported as such; otherwise the first group's layer
      raises, and only a frame with no geometry at all reaches the success message. */
  function Loading(t: Frame): LoadEnd {
    if t.rows == [] then NoValidData
    else if Groups(t) != [] then LoadRaised(AMBIGUOUS)
    else Loaded(|t.rows|)
  }

  /** The layer step reports success exactly when the frame has rows and none of them has a geometry, and it
      raises exactly when some row has one. */
  lemma {:induction false} LoadingOutcome(t: Frame)
    ensures Loading(t).Loaded? <==> t.rows != [] && forall i :: 0 <= i < |t.rows| ==> t.rows[i].geometry.None?
    ensures Loading(t).LoadRaised? <==> exists i :: 0 <= i < |t.rows| && t.rows[i].geometry.Some?
    ensures Loading(t).Loaded? ==> Loading(t).records == |t.rows|
  {
    GroupsPartition(t);
    var gs := Groups(t);
    if gs != [] {
      assert gs[0].1.rows != [];
      var x := gs[0].1.rows[0];
      assert x in gs[0].1.rows;
      assert x in t.rows;
      assert x in gs[0].1.rows;
      var i :| 0 <= i < |t.rows| && t.rows[i] == x;
      assert t.rows[i].geometry.Some?;
    }
  }

  /** How the stage ends on the fetched frame: an empty frame is reported as such; otherwise an exception of
      the processing chain, or the layer step. */
  function Finished(t: Frame, tax: Frame, names: map<string, string>, buffer: (Geom, real) -> Geom,
                    unaryUnion: seq<Geom> -> Geom, isValid: Geom -> bool, makeValid: Geom -> Geom): LoadEnd
  {
    if t.rows == [] then NoDataRetrieved
    else
      match Processed(t, tax, names, buffer, unaryUnion, isValid, makeValid)
      case Err(e) => LoadRaised(e)
      case Ok(p) => Loading(p)
  }

  /** The Submit handler and the state it changes. */
  class Dialog {
    var isRunning: bool
    var submitText: string
    var settings: Dict<Value>
    const bar: ProgressBar

    /** The dialog as it opens: no run marked, the button reads Submit, and the settings are those saved. */
    constructor (saved: Dict<Value>)
      ensures !isRunning && submitText == "Submit" && settings == saved
      ensures fresh(bar) && bar.maxima == [] && bar.values == []
    {
      isRunning := false;
      submitText := "Submit";
      settings := saved;
      bar := new ProgressBar();
    }

    /** The parameter dictionary the form gives: the literal, then the filters. */
    static method ReadParams(form: QueryForm.Form, codes: QueryForm.Codes) returns (params: ParamDict)
      ensures fresh(params) && params.entries == Filtered(form, codes)
    {
      params := new ParamDict(BaseParams(form));
      QueryForm.AddFilters(params, QueryForm.Candidates(form, codes));
    }

    /** The wild card, validated with the verdict ignored and then unpacked, and the token check: `stop` is how
        the run ends when one of them stops it; otherwise `params` holds what goes on. */
    static method CheckRequest(params: ParamDict, w: string) returns (warned: bool, stop: Option<RunEnd>)
      modifies params
      ensures warned == Warned(w)
      ensures params.entries == Applied(old(params.entries), w)
      ensures stop.Some? ==> RequestFrom(old(params.entries), w) == Err(stop.value)
      ensures stop.None? ==> RequestFrom(old(params.entries), w) == Ok(params.entries)
    {
      ghost var start := params.entries;
      warned := false;
      if w != "" {
        var verdict := Validators.ValidateWildCard(w);
        warned := !verdict.ok;
        var parts := Split(w, '=');
        if |parts| != 2 {
          return warned, Some(Raised(UnpackError(|parts|)));
        }
        params.Set(parts[0], Str(parts[1]));
      }
      assert QueryForm.WithWildCard(start, w) == Some(params.entries);
      var token := QueryForm.TokenOf(params.entries);
      if token.Err? {
        return warned, Some(Raised(token.error));
      }
      if !Truthy(token.value) {
        return warned, Some(MissingToken);
      }
      return warned, None;
    }

    /** What `run` does once the token check has passed: the token saved and the count, then as `Ask` says.
        The mark is cleared unless an exception escapes. */
    method Proceed(params: ParamDict, reply: Reply, answer: string -> bool)
      returns (outcome: RunEnd, asked: Option<string>, epsg: Option<string>)
      requires HasKey(params.entries, "access_token")
      modifies this, bar, params
      ensures var e := Counting(old(params.entries), reply, answer);
              && outcome == e.outcome && asked == e.asked && epsg == e.epsg
              && params.entries == e.params
              && settings == QueryForm.Saving(old(settings), e.saved)
              && bar.values == old(bar.values) + e.values && bar.maxima == old(bar.maxima)
              && if outcome.Raised? then isRunning == old(isRunning) && submitText == old(submitText)
                 else !isRunning && submitText == "Submit"
    {
      var token := Get(params.entries, "access_token");
      settings := Put(settings, QueryForm.TOKEN_SETTING, token.value);
      var total, _ := Api.GetTotalObs(params, reply);
      AskingSaves(token, params.entries, total, answer);
      assert settings == QueryForm.Saving(old(settings), token);
      outcome, asked, epsg := Ask(params.entries, total, answer, token);
    }

    /** What `run` does once the count `total` is made and `params` is left: the limit, the question, the
        progress bar reset and the EPSG lookup. The mark is cleared unless an exception escapes. */
    method Ask(params: Dict<Value>, total: Option<int>, answer: string -> bool, ghost saved: Option<Value>)
      returns (outcome: RunEnd, asked: Option<string>, epsg: Option<string>)
      modifies this, bar
      ensures var e := Asking(saved, params, total, answer);
              && outcome == e.outcome && asked == e.asked && epsg == e.epsg
              && settings == old(settings)
              && bar.values == old(bar.values) + e.values && bar.maxima == old(bar.maxima)
              && if outcome.Raised? then isRunning == old(isRunning) && submitText == old(submitText)
                 else !isRunning && submitText == "Submit"
    {
      var summary := QueryForm.ParamText(Remove(params, "access_token"));
      if total.Some? && total.value != 0 && total.value > MAX_OBSERVATIONS_LIMIT {
        isRunning, submitText := false, "Submit";
        assert bar.values == old(bar.values) + [];
        return TooMany(total.value), None, None;
      }
      var question := Question(total, summary);
      if !answer(question) {
        isRunning, submitText := false, "Submit";
        assert bar.values == old(bar.values) + [];
        return Declined, Some(question), None;
      }
      bar.SetValue(0);
      var crs := Get(params, "crs");
      if crs.None? {
        return Raised(KeyError("crs")), Some(question), None;
      }
      epsg := EpsgOf(crs.value);
      return Raised(NOT_A_FRAME), Some(question), epsg;
    }

    /** What `run` does once the form is read into `params`. */
    method Submit(params: ParamDict, w: string, reply: Reply, answer: string -> bool)
      returns (outcome: RunEnd, warned: bool, asked: Option<string>, epsg: Option<string>)
      modifies this, bar, params
      ensures var e := EffectsOf(old(params.entries), w, reply, answer);
              && outcome == e.outcome && warned == Warned(w) && asked == e.asked && epsg == e.epsg
              && params.entries == e.params
              && settings == QueryForm.Saving(old(settings), e.saved)
              && bar.values == old(bar.values) + e.values && bar.maxima == old(bar.maxima)
              && if outcome.Raised? then isRunning == old(isRunning) && submitText == old(submitText)
                 else !isRunning && submitText == "Submit"
    {
      var stop;
      warned, stop := CheckRequest(params, w);
      if stop.Some? {
        if !stop.value.Raised? {
          isRunning, submitText := false, "Submit";
        }
        assert bar.values == old(bar.values) + [];
        return stop.value, warned, None, None;
      }
      outcome, asked, epsg := Proceed(params, reply, answer);
    }

    /** A press of Submit while no run is marked: the mark is set, the form is read and the run goes on as
        `Submit` says. */
    method Start(form: QueryForm.Form, codes: QueryForm.Codes, reply: Reply, answer: string -> bool)
      returns (outcome: RunEnd, warned: bool, asked: Option<string>, epsg: Option<string>)
      modifies this, bar
      ensures var e := EffectsOf(Filtered(form, codes), form.wildCard, reply, answer);
              && outcome == e.outcome && warned == Warned(form.wildCard) && asked == e.asked && epsg == e.epsg
              && isRunning == outcome.Raised?
              && submitText == (if isRunning then "Cancel" else "Submit")
              && settings == QueryForm.Saving(old(settings), e.saved)
              && bar.values == old(bar.values) + e.values && bar.maxima == old(bar.maxima)
    {
      isRunning, submitText := true, "Cancel";
      var params := ReadParams(form, codes);
      outcome, warned, asked, epsg := Submit(params, form.wildCard, reply, answer);
    }

    /** `run`, the Submit handler. A press while a run is marked only clears the mark. Otherwise the form is
        read and the run ends as `EffectsOf` says, the mark staying set when an exception escapes, which a run
        the user said Yes to always does. */
    method Run(form: QueryForm.Form, codes: QueryForm.Codes, reply: Reply, answer: string -> bool)
      returns (outcome: RunEnd, warned: bool, asked: Option<string>, epsg: Option<string>)
      modifies this, bar
      ensures old(isRunning) ==>
                && outcome == Cancelled && !warned && asked.None? && epsg.None?
                && !isRunning && submitText == "Submit"
                && settings == old(settings) && bar.values == old(bar.values) && bar.maxima == old(bar.maxima)
      ensures !old(isRunning) ==>
                var e := EffectsOf(Filtered(form, codes), form.wildCard, reply, answer);
                && outcome == e.outcome && warned == Warned(form.wildCard) && asked == e.asked && epsg == e.epsg
                && isRunning == outcome.Raised?
                && submitText == (if isRunning then "Cancel" else "Submit")
                && settings == QueryForm.Saving(old(settings), e.saved)
                && bar.values == old(bar.values) + e.values && bar.maxima == old(bar.maxima)
    {
      if isRunning {
        isRunning, submitText := false, "Submit";
        return Cancelled, false, None, None;
      }
      outcome, warned, asked, epsg := Start(form, codes, reply, answer);
    }

    /** The processing chain run on the fetched frame in place of the old one: the merge first prepares the
        frame it is given, and each later step works on what the one before returned. */
    static method ProcessFrame(gdf: GeoDataFrame, tax: Frame, names: map<string, string>,
                               buffer: (Geom, real) -> Geom, unaryUnion: seq<Geom> -> Geom,
                               isValid: Geom -> bool, makeValid: Geom -> Geom)
      returns (r: Result<GeoDataFrame, PyError>)
      modifies gdf
      ensures gdf.Table() == Processors.Prepared(old(gdf.Table()))
      ensures match Processed(old(gdf.Table()), tax, names, buffer, unaryUnion, isValid, makeValid)
              case Err(e) => r == Err(e)
              case Ok(p) => r.Ok? && fresh(r.value) && r.value.Table() == p
    {
      var merged := Processors.MergeTaxonomyData(gdf, tax);
      if merged.Err? {
        return Err(merged.error);
      }
      var m := merged.value;
      var err := Processors.MapCollectionId(m, names);
      if err.Some? {
        return Err(err.value);
      }
      var c := Reshape(m, buffer, unaryUnion, isValid, makeValid);
      r := Ok(c);
    }

    /** The last three steps of the chain: the combined columns, then the collection conversion and the
        validation, which work on the new frame in place. */
    static method Reshape(m: GeoDataFrame, buffer: (Geom, real) -> Geom, unaryUnion: seq<Geom> -> Geom,
                          isValid: Geom -> bool, makeValid: Geom -> Geom)
      returns (c: GeoDataFrame)
      ensures fresh(c) && c.Table() == Reshaped(Processors.Combined(m.Table()), buffer, unaryUnion, isValid, makeValid)
    {
      c := Processors.CombineSimilarColumns(m);
      ghost var combined := c.Table();
      Processors.ConvertGeometryCollections(c, BUFFER_DISTANCE, buffer, unaryUnion);
      Processors.ValidateGeometry(c, isValid, makeValid);
      assert c.Table() == Reshaped(combined, buffer, unaryUnion, isValid, makeValid);
    }

    /** The loop that fills `gdfs_by_type`, one type at a time. */
    static method GroupByGeometryType(t: Frame) returns (groups: seq<(Kind, Frame)>)
      ensures groups == Groups(t)
    {
      var types := UniqueTypes(t.rows);
      groups := [];
      for j := 0 to |types|
        invariant groups == Grouped(t, types[..j])
      {
        assert types[..j + 1][..j] == types[..j];
        match types[j]
        case None =>
        case Some(k) =>
          var subset := Frame(t.columns, Matching(t.rows, k));
          if subset.rows != [] {
            groups := groups + [(k, subset)];
          }
      }
      assert types[..|types|] == types;
    }

    /** The row check, the grouping and the layers on the processed frame. */
    static method PlaceLayers(t: Frame) returns (outcome: LoadEnd)
      ensures outcome == Loading(t)
    {
      if t.rows == [] {
        return NoValidData;
      }
      var groups := GroupByGeometryType(t);
      if groups != [] {
        return LoadRaised(AMBIGUOUS);
      }
      outcome := Loaded(|t.rows|);
    }

    /** The stage after the fetch: the emptiness check, the processing chain, the layer step, and the reset
        of the dialog, which an exception skips. */
    method Load(gdf: GeoDataFrame, tax: Frame, names: map<string, string>,
                buffer: (Geom, real) -> Geom, unaryUnion: seq<Geom> -> Geom,
                isValid: Geom -> bool, makeValid: Geom -> Geom)
      returns (outcome: LoadEnd)
      modifies this, bar, gdf
      ensures outcome == Finished(old(gdf.Table()), tax, names, buffer, unaryUnion, isValid, makeValid)
      ensures gdf.Table() == if old(gdf.rows) == [] then old(gdf.Table()) else Processors.Prepared(old(gdf.Table()))
      ensures settings == old(settings) && bar.maxima == old(bar.maxima)
      ensures outcome.LoadRaised? ==>
                isRunning == old(isRunning) && submitText == old(submitText) && bar.values == old(bar.values)
      ensures !outcome.LoadRaised? ==> !isRunning && submitText == "Submit" && bar.values == old(bar.values) + [0]
    {
      if gdf.rows == [] {
        outcome := NoDataRetrieved;
      } else {
        var processed := ProcessFrame(gdf, tax, names, buffer, unaryUnion, isValid, makeValid);
        if processed.Err? {
          return LoadRaised(processed.error);
        }
        outcome := PlaceLayers(processed.value.Table());
        if outcome.LoadRaised? {
          return;
        }
      }
      isRunning, submitText := false, "Submit";
      bar.SetValue(0);
    }
  }
}
