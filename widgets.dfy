/** The two custom widgets of the old dialog (custom_widgets.py): the optional date range, and the
    combo box whose items carry check marks. Drawing, popups, timers and eliding are not modelled. */
module Widgets {
  import opened Wrappers
  import opened Text
  import opened Values

  // ----- dates -----

  /** A `QDate`: the null date `QDate()`, or a day of the proleptic Gregorian calendar. */
  datatype Date = NullDate | Ymd(year: int, month: int, day: int)

  /** `QDate.isLeapYear`: there is no year 0, so year -1 is counted like year 0. */
  predicate IsLeap(y: int) {
    var a := if y < 1 then y + 1 else y;
    (a % 4 == 0 && a % 100 != 0) || a % 400 == 0
  }

  function DaysInMonth(y: int, m: int): int
    requires 1 <= m <= 12
  {
    if m == 2 then (if IsLeap(y) then 29 else 28)
    else if m == 4 || m == 6 || m == 9 || m == 11 then 30
    else 31
  }

  /** `QDate.isValid()`. */
  predicate IsValid(d: Date) {
    d.Ymd? && d.year != 0 && 1 <= d.month <= 12 && 1 <= d.day <= DaysInMonth(d.year, d.month)
  }

  /** A day a `QDateEdit` can hold: its range runs from 1752-09-14 to 9999-12-31. */
  predicate InEditRange(d: Date) {
    IsValid(d)
    && (d.year > 1752 || (d.year == 1752 && (d.month > 9 || (d.month == 9 && d.day >= 14))))
    && d.year <= 9999
  }

  /** `a > b` on two valid dates: later in the calendar. */
  predicate After(a: Date, b: Date)
    requires IsValid(a) && IsValid(b)
  {
    a.year > b.year || (a.year == b.year && (a.month > b.month || (a.month == b.month && a.day > b.day)))
  }

  function Pow10(w: nat): (p: nat)
    ensures p >= 1
  {
    if w == 0 then 1 else 10 * Pow10(w - 1)
  }

  /** `n` as exactly `w` decimal digits, zero-padded on the left. */
  function Digits(n: nat, w: nat): (r: string)
    ensures |r| == w && forall i :: 0 <= i < w ==> IsDigit(r[i])
  {
    if w == 0 then [] else Digits(n / 10, w - 1) + [DigitChar(n % 10)]
  }

  /** Zero-padded digits read back as the number they print. */
  lemma {:induction false} ParseDigits(n: nat, w: nat)
    requires n < Pow10(w)
    ensures ParseNat(Digits(n, w)) == n
  {
    if w > 0 {
      var s := Digits(n, w);
      assert s[..w - 1] == Digits(n / 10, w - 1);
      ParseDigits(n / 10, w - 1);
    }
  }

  /** A day the date edit shows as `yyyy-MM-dd`. */
  predicate Printable(d: Date) {
    d.Ymd? && 1 <= d.year <= 9999 && 1 <= d.month <= 12 && 1 <= d.day <= 31
  }

  /** `date.toString('yyyy-MM-dd')`. */
  function FormatDate(d: Date): (r: string)
    requires Printable(d)
    ensures |r| == 10 && r[4] == '-' && r[7] == '-'
  {
    Digits(d.year as nat, 4) + "-" + Digits(d.month as nat, 2) + "-" + Digits(d.day as nat, 2)
  }

  /** Reading a `yyyy-MM-dd` day back. */
  function ParseDate(s: string): Option<Date> {
    if |s| == 10 && s[4] == '-' && s[7] == '-'
       && (forall i :: 0 <= i < 10 && i != 4 && i != 7 ==> IsDigit(s[i]))
    then Some(Ymd(ParseNat(s[..4]), ParseNat(s[5..7]), ParseNat(s[8..])))
    else None
  }

  lemma ParseFormatDate(d: Date)
    requires Printable(d)
    ensures ParseDate(FormatDate(d)) == Some(d)
  {
    var s := FormatDate(d);
    assert s[..4] == Digits(d.year as nat, 4);
    assert s[5..7] == Digits(d.month as nat, 2);
    assert s[8..] == Digits(d.day as nat, 2);
    ParseDigits(d.year as nat, 4);
    ParseDigits(d.month as nat, 2);
    ParseDigits(d.day as nat, 2);
  }

  /** Reading a day or a `start/end` interval (section 4.4 of ISO 8601:2004) back. */
  function ParseInterval(s: string): Option<(Date, Date)> {
    if |s| == 10 then
      match ParseDate(s)
      case None => None
      case Some(d) => Some((d, d))
    else if |s| == 21 && s[10] == '/' then
      match (ParseDate(s[..10]), ParseDate(s[11..]))
      case (Some(a), Some(b)) => Some((a, b))
      case _ => None
    else None
  }

  /** `DateRangeInput`: a check box that enables two date edits. */
  class DateRangeInput {
    var checked: bool
    var startEnabled: bool
    var endEnabled: bool
    var start: Date
    var end: Date

    /** Each date edit holds a day in its range; the null date, which a `QDate` may be, is admitted too. */
    predicate Valid()
      reads this
    {
      (start.NullDate? || InEditRange(start)) && (end.NullDate? || InEditRange(end))
    }

    /** The date edits are enabled exactly while the box is checked. */
    predicate Synced()
      reads this
    {
      startEnabled == checked && endEnabled == checked
    }

    /** Unchecked, both edits disabled and showing `today`, the clock's current date. */
    constructor (today: Date)
      requires InEditRange(today)
      ensures Valid() && Synced()
      ensures !checked && start == today && end == today
    {
      checked := false;
      startEnabled := false;
      endEnabled := false;
      start := today;
      end := today;
    }

    /** `toggle_date_selection(state)`: the edits are enabled exactly for state 2, `Qt.Checked`. */
    method ToggleDateSelection(state: int)
      modifies this
      ensures startEnabled == (state == 2) && endEnabled == (state == 2)
      ensures checked == old(checked) && start == old(start) && end == old(end)
    {
      var enabled := state == 2;
      startEnabled := enabled;
      endEnabled := enabled;
    }

    /** `enable_checkbox.setChecked(c)`, by the user or by code: `stateChanged` fires only on a change,
        and runs the toggle with 2 or 0. */
    method SetChecked(c: bool)
      modifies this
      ensures checked == c && start == old(start) && end == old(end)
      ensures c != old(checked) ==> startEnabled == c && endEnabled == c
      ensures c == old(checked) ==> startEnabled == old(startEnabled) && endEnabled == old(endEnabled)
      ensures old(Synced()) ==> Synced()
    {
      if c != checked {
        checked := c;
        ToggleDateSelection(if c then 2 else 0);
      }
    }

    /** The user picks a start day in the calendar popup. */
    method PickStart(d: Date)
      requires InEditRange(d)
      modifies this
      ensures start == d && end == old(end) && checked == old(checked)
      ensures startEnabled == old(startEnabled) && endEnabled == old(endEnabled)
    {
      start := d;
    }

    /** The user picks an end day in the calendar popup. */
    method PickEnd(d: Date)
      requires InEditRange(d)
      modifies this
      ensures end == d && start == old(start) && checked == old(checked)
      ensures startEnabled == old(startEnabled) && endEnabled == old(endEnabled)
    {
      end := d;
    }

    /** `reset()`: the box is unchecked and both edits disabled. The `setDate(QDate())` calls pass the null
        date, which a date edit ignores because it only takes a valid date, so both edits keep their days and
        checking the box again selects them again. */
    method Reset()
      modifies this
      ensures !checked && !startEnabled && !endEnabled && start == old(start) && end == old(end)
      ensures Synced()
      ensures old(Valid()) ==> Valid() && GetSelectedDates().None?
    {
      SetChecked(false);
      startEnabled := false;
      endEnabled := false;
    }

    /** `get_selected_dates()`: nothing unless the box is checked, both days are valid and the start is not
        after the end (then a warning is shown); otherwise one day, or the `start/end` interval. */
    function GetSelectedDates(): (r: Option<string>)
      reads this
      requires Valid()
      ensures r.None? <==> !checked || !IsValid(start) || !IsValid(end) || After(start, end)
      ensures r.Some? ==> ParseInterval(r.value) == Some((start, end))
      ensures r.Some? ==> ('/' in r.value <==> start != end)
    {
      if !checked then None
      else if !IsValid(start) || !IsValid(end) then None
      else if After(start, end) then None
      else
        ParseFormatDate(start);
        ParseFormatDate(end);
        var first := FormatDate(start);
        assert '/' !in first by {
          forall i | 0 <= i < 10 ensures first[i] != '/' {
            if i != 4 && i != 7 {
              assert IsDigit(first[i]);
            }
          }
        }
        if start == end then Some(first)
        else
          var r := first + "/" + FormatDate(end);
          assert r[..10] == first && r[11..] == FormatDate(end);
          Some(r)
    }
  }

  // ----- the checkable combo box -----

  /** A `QStandardItem` of the combo box: its text, its data and its check state. */
  datatype Item = Item(text: string, data: string, checked: bool)

  /** The texts of the checked items, in model order. */
  function CheckedTexts(items: seq<Item>): seq<string> {
    if items == [] then []
    else
      var last := items[|items| - 1];
      CheckedTexts(items[..|items| - 1]) + (if last.checked then [last.text] else [])
  }

  /** The data of the checked items, in model order. */
  function CheckedData(items: seq<Item>): seq<string> {
    if items == [] then []
    else
      var last := items[|items| - 1];
      CheckedData(items[..|items| - 1]) + (if last.checked then [last.data] else [])
  }

  lemma CheckedOne(x: Item)
    ensures CheckedData([x]) == (if x.checked then [x.data] else [])
    ensures CheckedTexts([x]) == (if x.checked then [x.text] else [])
  {
    assert [x][..0] == [];
  }

  lemma {:induction false} CheckedDataAppend(a: seq<Item>, b: seq<Item>)
    ensures CheckedData(a + b) == CheckedData(a) + CheckedData(b)
    ensures CheckedTexts(a + b) == CheckedTexts(a) + CheckedTexts(b)
  {
    if b == [] {
      assert a + b == a;
    } else {
      var init := b[..|b| - 1];
      var last := b[|b| - 1];
      assert (a + b)[..|a + b| - 1] == a + init;
      assert (a + b)[|a + b| - 1] == last;
      CheckedDataAppend(a, init);
    }
  }

  /** The selection splits around one row. */
  lemma CheckedAround(items: seq<Item>, row: nat)
    requires row < |items|
    ensures CheckedData(items) ==
            CheckedData(items[..row]) + (if items[row].checked then [items[row].data] else []) + CheckedData(items[row + 1..])
  {
    var before, x, after := items[..row], items[row], items[row + 1..];
    SplitAround(items, row);
    CheckedDataAppend(before + [x], after);
    CheckedDataAppend(before, [x]);
    CheckedOne(x);
  }

  lemma SplitAround(items: seq<Item>, row: nat)
    requires row < |items|
    ensures items == items[..row] + [items[row]] + items[row + 1..]
  {
  }

  /** The data of the `i`th element of `datalist`, when there is one: `datalist[i]` raises a `TypeError` on
      `None` and an `IndexError` past the end, and both give `None`. */
  function DataAt(datalist: Option<seq<Option<string>>>, i: nat): Option<string> {
    match datalist
    case None => None
    case Some(l) => if i < |l| then l[i] else None
  }

  /** The unchecked item `addItem(text, data)` appends: its data defaults to its text. */
  function NewItem(text: string, data: Option<string>): Item {
    Item(text, data.GetOr(text), false)
  }

  /** The items `addItems(texts, datalist)` appends. */
  function NewItems(texts: seq<string>, datalist: Option<seq<Option<string>>>): (r: seq<Item>)
    ensures |r| == |texts|
    ensures forall i :: 0 <= i < |texts| ==> r[i] == NewItem(texts[i], DataAt(datalist, i))
  {
    seq(|texts|, i requires 0 <= i < |texts| => NewItem(texts[i], DataAt(datalist, i)))
  }

  lemma NewItemsStep(texts: seq<string>, datalist: Option<seq<Option<string>>>, i: nat)
    requires i < |texts|
    ensures NewItems(texts[..i + 1], datalist) == NewItems(texts[..i], datalist) + [NewItem(texts[i], DataAt(datalist, i))]
  {
  }

  /** The items with the check state of the one at `row` flipped. */
  function Toggled(items: seq<Item>, row: nat): (r: seq<Item>)
    requires row < |items|
  {
    items[row := items[row].(checked := !items[row].checked)]
  }

  /** Clicking an item twice leaves the model as it was. */
  lemma ToggledTwice(items: seq<Item>, row: nat)
    requires row < |items|
    ensures Toggled(Toggled(items, row), row) == items
  {
  }

  /** A click selects or deselects exactly the clicked item: its data joins or leaves the selection at its
      place in model order, and every other item keeps its place in the selection. */
  lemma ToggledSelection(items: seq<Item>, row: nat)
    requires row < |items|
    ensures var before := CheckedData(items[..row]);
            var after := CheckedData(items[row + 1..]);
            && CheckedData(items) == before + (if items[row].checked then [items[row].data] else []) + after
            && CheckedData(Toggled(items, row)) == before + (if items[row].checked then [] else [items[row].data]) + after
  {
    var t := Toggled(items, row);
    CheckedAround(items, row);
    CheckedAround(t, row);
    assert t[..row] == items[..row] && t[row + 1..] == items[row + 1..];
  }

  /** Nothing is selected once every item is unchecked. */
  lemma {:induction false} NothingChecked(items: seq<Item>)
    requires forall i :: 0 <= i < |items| ==> !items[i].checked
    ensures CheckedData(items) == [] && CheckedTexts(items) == []
  {
    if items != [] {
      NothingChecked(items[..|items| - 1]);
    }
  }

  /** `CheckableComboBox`: the items of its model and the text of its line edit before eliding. */
  class CheckableComboBox {
    var items: seq<Item>
    var text: string

    /** The line edit shows the checked texts joined with `", "`. */
    predicate Valid()
      reads this
    {
      text == Join(", ", CheckedTexts(items))
    }

    constructor ()
      ensures items == [] && Valid()
    {
      items := [];
      text := "";
    }

    /** `addItem(text, data)`: one unchecked item at the end, so the checked texts stay as they were. The
        first row appended to an empty model becomes the combo's current row, and an editable combo then
        shows that row's text in its line edit; later rows leave the line edit alone. */
    method AddItem(t: string, data: Option<string>)
      modifies this
      ensures items == old(items) + [NewItem(t, data)]
      ensures text == if old(items) == [] then t else old(text)
      ensures CheckedTexts(items) == CheckedTexts(old(items))
      ensures old(items) != [] ==> (Valid() <==> old(Valid()))
      ensures old(items) == [] ==> (Valid() <==> t == "")
    {
      var item := NewItem(t, data);
      CheckedDataAppend(items, [item]);
      CheckedOne(item);
      assert CheckedTexts(items + [item]) == CheckedTexts(items);
      if items == [] {
        text := t;
      }
      items := items + [item];
    }

    /** `addItems(texts, datalist)`: one item per text, in order, with the data at the same index; into an
        empty model the first text becomes the line edit's text. */
    method AddItems(texts: seq<string>, datalist: Option<seq<Option<string>>>)
      modifies this
      ensures items == old(items) + NewItems(texts, datalist)
      ensures text == if old(items) == [] && texts != [] then texts[0] else old(text)
      ensures CheckedTexts(items) == CheckedTexts(old(items))
      ensures old(Valid()) ==> (Valid() <==> old(items) != [] || texts == [] || texts[0] == "")
    {
      ghost var before := items;
      for i := 0 to |texts|
        invariant items == before + NewItems(texts[..i], datalist)
        invariant text == if before == [] && i > 0 then texts[0] else old(text)
        invariant CheckedTexts(items) == CheckedTexts(before)
      {
        AddItem(texts[i], DataAt(datalist, i));
        NewItemsStep(texts, datalist, i);
      }
      assert texts[..|texts|] == texts;
      if before == [] {
        assert Join(", ", CheckedTexts(before)) == "";
      }
    }

    /** `updateText()`: the checked texts, joined. */
    method UpdateText()
      modifies this
      ensures items == old(items) && Valid()
    {
      var texts: seq<string> := [];
      for i := 0 to |items|
        invariant texts == CheckedTexts(items[..i])
      {
        assert items[..i + 1][..i] == items[..i];
        if items[i].checked {
          texts := texts + [items[i].text];
        }
      }
      assert items[..|items|] == items;
      text := Join(", ", texts);
    }

    /** A release of the mouse on row `row` of the popup: that item's check state flips, and the line edit
        follows. A click below the last item finds no item and raises. */
    method Click(row: int) returns (error: Option<PyError>)
      modifies this
      ensures !(0 <= row < |old(items)|) ==> error == Some(AttributeError("checkState")) && items == old(items) && text == old(text)
      ensures 0 <= row < |old(items)| ==> error.None? && items == Toggled(old(items), row) && Valid()
    {
      if !(0 <= row < |items|) {
        return Some(AttributeError("checkState"));
      }
      items := Toggled(items, row);
      UpdateText();
      error := None;
    }

    /** `currentData()`: the data of the checked items, in model order. */
    method CurrentData() returns (res: seq<string>)
      ensures res == CheckedData(items)
    {
      res := [];
      for i := 0 to |items|
        invariant res == CheckedData(items[..i])
      {
        assert items[..i + 1][..i] == items[..i];
        if items[i].checked {
          res := res + [items[i].data];
        }
      }
      assert items[..|items|] == items;
    }

    /** `clearSelection()`: every item unchecked, texts and data untouched, and an empty line edit. */
    method ClearSelection()
      modifies this
      ensures |items| == |old(items)|
      ensures forall i :: 0 <= i < |items| ==> items[i] == old(items)[i].(checked := false)
      ensures CheckedData(items) == [] && text == "" && Valid()
    {
      for i := 0 to |items|
        invariant |items| == |old(items)|
        invariant forall j :: 0 <= j < i ==> items[j] == old(items)[j].(checked := false)
        invariant forall j :: i <= j < |items| ==> items[j] == old(items)[j]
      {
        items := items[i := items[i].(checked := false)];
      }
      NothingChecked(items);
      UpdateText();
    }
  }
}
