/** The balance wheel's category ledger.

    The component keeps five index-aligned arrays as state: the category
    labels, the current ratings, the current notes, the future ratings and
    the future notes. Every handler computes fresh arrays from the old ones
    (copy, then replace) and hands them to the state setters; the setters of
    one handler are batched, so a handler is one step from a `Ledger` value
    to the next. */
module CategoryLedger {

  /** The two rating series every category carries. */
  datatype Series = Current | Future

  /** Index `i` of the five arrays, read as one record. */
  datatype Category = Category(
    name: string,
    currentValue: int,
    currentText: string,
    futureValue: int,
    futureText: string)

  /** The five state arrays of the component. */
  datatype Ledger = Ledger(
    categories: seq<string>,
    currentValues: seq<int>,
    currentText: seq<string>,
    futureValues: seq<int>,
    futureText: seq<string>)
  {
    /** All five arrays have the same length. */
    predicate Aligned() {
      |currentValues| == |categories| && |currentText| == |categories| &&
      |futureValues| == |categories| && |futureText| == |categories|
    }

    function Size(): nat {
      |categories|
    }

    /** The ratings array of one series. */
    function Values(series: Series): seq<int> {
      match series
      case Current => currentValues
      case Future => futureValues
    }

    /** The notes array of one series. */
    function Texts(series: Series): seq<string> {
      match series
      case Current => currentText
      case Future => futureText
    }
  }

  /** The slider's bounds (`min={1} max={10}`). */
  const MinRating: int := 1
  const MaxRating: int := 10
  /** Rating given to every initial and every appended category. */
  const DefaultRating: int := 5
  /** Label of a category appended by the add button. */
  const NewCategoryLabel: string := "新しいカテゴリ"
  const InitialLabels: seq<string> := [
    "仕事・キャリア", "お金・経済", "健康", "家族・パートナー",
    "人間関係", "学び・自己啓発", "遊び・余暇", "物理的環境"
  ]

  predicate InRating(v: int) {
    MinRating <= v <= MaxRating
  }

  /** Every rating of both series lies within the slider's bounds. */
  predicate RatingsInRange(l: Ledger) {
    (forall i :: 0 <= i < |l.currentValues| ==> InRating(l.currentValues[i])) &&
    (forall i :: 0 <= i < |l.futureValues| ==> InRating(l.futureValues[i]))
  }

  function Other(series: Series): Series {
    match series
    case Current => Future
    case Future => Current
  }

  /** `new Array(n).fill(x)` */
  function Filled<T>(n: nat, x: T): (r: seq<T>)
    ensures |r| == n
    ensures forall i :: 0 <= i < n ==> r[i] == x
  {
    seq(n, _ => x)
  }

  /** `s.filter((_, i) => i !== index)`: every element whose position is not
      `index`, in their original order. */
  function Without<T>(s: seq<T>, index: int): (r: seq<T>)
    ensures 0 <= index < |s| ==> r == s[..index] + s[index + 1..]
    ensures !(0 <= index < |s|) ==> r == s
    decreases |s|
  {
    if s == [] then []
    else
      var init := s[..|s| - 1];
      var rest := Without(init, index);
      if |s| - 1 == index then
        assert s[index + 1..] == [];
        rest
      else
        assert 0 <= index < |s| - 1 ==> init[..index] == s[..index] && init[index + 1..] + [s[|s| - 1]] == s[index + 1..];
        assert s == init + [s[|s| - 1]];
        rest + [s[|s| - 1]]
  }

  /** The state the component starts with: eight predefined categories,
      every rating 5, every note empty. */
  function Initial(): (l: Ledger)
    ensures l.Aligned() && l.Size() == 8 && RatingsInRange(l)
    ensures l.categories == InitialLabels
    ensures forall i :: 0 <= i < 8 ==>
      l.currentValues[i] == DefaultRating && l.futureValues[i] == DefaultRating &&
      l.currentText[i] == "" && l.futureText[i] == ""
  {
    Ledger(InitialLabels, Filled(8, DefaultRating), Filled(8, ""), Filled(8, DefaultRating), Filled(8, ""))
  }

  /** `handleCategoryChange(index, value)`. A write past the end would grow
      a JavaScript array, so the index must be in range. */
  function HandleCategoryChange(l: Ledger, index: int, value: string): (r: Ledger)
    requires 0 <= index < |l.categories|
    ensures |r.categories| == |l.categories| && r.categories[index] == value
    ensures forall j :: 0 <= j < |l.categories| && j != index ==> r.categories[j] == l.categories[j]
    ensures r.currentValues == l.currentValues && r.currentText == l.currentText
    ensures r.futureValues == l.futureValues && r.futureText == l.futureText
  {
    l.(categories := l.categories[index := value])
  }

  /** `handleSliderChange(values, setValues, index, newValue)` on the ratings
      array of `series`. */
  function HandleSliderChange(l: Ledger, series: Series, index: int, newValue: int): (r: Ledger)
    requires 0 <= index < |l.Values(series)|
    ensures |r.Values(series)| == |l.Values(series)| && r.Values(series)[index] == newValue
    ensures forall j :: 0 <= j < |l.Values(series)| && j != index ==> r.Values(series)[j] == l.Values(series)[j]
    ensures r.Values(Other(series)) == l.Values(Other(series))
    ensures r.categories == l.categories && r.currentText == l.currentText && r.futureText == l.futureText
  {
    match series
    case Current => l.(currentValues := l.currentValues[index := newValue])
    case Future => l.(futureValues := l.futureValues[index := newValue])
  }

  /** `handleTextChange(texts, setTexts, index, value)` on the notes array of
      `series`. */
  function HandleTextChange(l: Ledger, series: Series, index: int, value: string): (r: Ledger)
    requires 0 <= index < |l.Texts(series)|
    ensures |r.Texts(series)| == |l.Texts(series)| && r.Texts(series)[index] == value
    ensures forall j :: 0 <= j < |l.Texts(series)| && j != index ==> r.Texts(series)[j] == l.Texts(series)[j]
    ensures r.Texts(Other(series)) == l.Texts(Other(series))
    ensures r.categories == l.categories && r.currentValues == l.currentValues && r.futureValues == l.futureValues
  {
    match series
    case Current => l.(currentText := l.currentText[index := value])
    case Future => l.(futureText := l.futureText[index := value])
  }

  /** `addCategory()`: one new entry at the end of all five arrays. */
  function AddCategory(l: Ledger): (r: Ledger)
    ensures |r.categories| == |l.categories| + 1 && r.categories[..|l.categories|] == l.categories
    ensures |r.currentValues| == |l.currentValues| + 1 && r.currentValues[..|l.currentValues|] == l.currentValues
    ensures |r.currentText| == |l.currentText| + 1 && r.currentText[..|l.currentText|] == l.currentText
    ensures |r.futureValues| == |l.futureValues| + 1 && r.futureValues[..|l.futureValues|] == l.futureValues
    ensures |r.futureText| == |l.futureText| + 1 && r.futureText[..|l.futureText|] == l.futureText
    ensures r.categories[|l.categories|] == NewCategoryLabel
    ensures r.currentValues[|l.currentValues|] == DefaultRating && r.futureValues[|l.futureValues|] == DefaultRating
    ensures r.currentText[|l.currentText|] == "" && r.futureText[|l.futureText|] == ""
  {
    Ledger(
      l.categories + [NewCategoryLabel],
      l.currentValues + [DefaultRating],
      l.currentText + [""],
      l.futureValues + [DefaultRating],
      l.futureText + [""])
  }

  /** `removeCategory(index)`: the same position filtered out of all five
      arrays; an index that is not a position filters out nothing. */
  function RemoveCategory(l: Ledger, index: int): (r: Ledger)
    ensures l.Aligned() ==> r.Aligned()
    ensures l.Aligned() && 0 <= index < l.Size() ==> r.Size() == l.Size() - 1
    ensures !(0 <= index < l.Size()) ==> r.categories == l.categories
  {
    Ledger(
      Without(l.categories, index),
      Without(l.currentValues, index),
      Without(l.currentText, index),
      Without(l.futureValues, index),
      Without(l.futureText, index))
  }

  /** The ledger read as one sequence of category records. */
  function Entries(l: Ledger): seq<Category>
    requires l.Aligned()
  {
    seq(l.Size(), i requires 0 <= i < l.Size() =>
      Category(l.categories[i], l.currentValues[i], l.currentText[i], l.futureValues[i], l.futureText[i]))
  }

  /** The record `addCategory` appends. */
  const NewCategory: Category := Category(NewCategoryLabel, DefaultRating, "", DefaultRating, "")

  /** Appending to the five arrays appends one default record. */
  lemma AddCategoryAppends(l: Ledger)
    requires l.Aligned()
    ensures AddCategory(l).Aligned()
    ensures Entries(AddCategory(l)) == Entries(l) + [NewCategory]
  {
  }

  /** Filtering the five arrays at one position filters the record sequence
      at that position: index `i` keeps naming one category in all five. */
  lemma RemoveCategoryRemovesEntry(l: Ledger, index: int)
    requires l.Aligned()
    ensures RemoveCategory(l, index).Aligned()
    ensures Entries(RemoveCategory(l, index)) == Without(Entries(l), index)
  {
    var r := RemoveCategory(l, index);
    var es, rs := Entries(l), Entries(r);
    if 0 <= index < l.Size() {
      var kept := es[..index] + es[index + 1..];
      assert |rs| == |kept|;
      forall j | 0 <= j < |rs|
        ensures rs[j] == kept[j]
      {
        if j < index {
          assert kept[j] == es[j];
        } else {
          assert kept[j] == es[j + 1];
        }
      }
      assert rs == kept;
    }
  }

  /** Deleting position `k` moves every later category up by one position
      with all five of its values, and leaves earlier ones where they were. */
  lemma RemoveCategoryShifts(l: Ledger, k: int)
    requires l.Aligned() && 0 <= k < l.Size()
    ensures RemoveCategory(l, k).Aligned() && RemoveCategory(l, k).Size() == l.Size() - 1
    ensures forall j :: 0 <= j < k ==> Entries(RemoveCategory(l, k))[j] == Entries(l)[j]
    ensures forall j :: k <= j < l.Size() - 1 ==> Entries(RemoveCategory(l, k))[j] == Entries(l)[j + 1]
  {
    RemoveCategoryRemovesEntry(l, k);
    var es, rs := Entries(l), Entries(RemoveCategory(l, k));
    assert rs == es[..k] + es[k + 1..];
    forall j | k <= j < l.Size() - 1
      ensures rs[j] == es[j + 1]
    {
      assert rs[j] == es[k + 1..][j - k];
    }
  }

  /** Deleting a position that does not exist changes nothing. */
  lemma RemoveCategoryOutOfRange(l: Ledger, k: int)
    requires l.Aligned() && !(0 <= k < l.Size())
    ensures RemoveCategory(l, k) == l
  {
  }

  /** Each edit handler changes one field of one record and nothing else. */
  lemma EditsChangeOneEntry(l: Ledger, index: int, series: Series, v: int, text: string)
    requires l.Aligned() && 0 <= index < l.Size()
    ensures Entries(HandleCategoryChange(l, index, text)) == Entries(l)[index := Entries(l)[index].(name := text)]
    ensures Entries(HandleSliderChange(l, series, index, v)) ==
      Entries(l)[index := if series == Current then Entries(l)[index].(currentValue := v) else Entries(l)[index].(futureValue := v)]
    ensures Entries(HandleTextChange(l, series, index, text)) ==
      Entries(l)[index := if series == Current then Entries(l)[index].(currentText := text) else Entries(l)[index].(futureText := text)]
  {
  }

  /** Scenario: deleting position 3 of the initial ledger leaves seven
      categories, and the one formerly at 4 is now at 3 with its values. */
  lemma RemoveThirdOfInitial()
    ensures RemoveCategory(Initial(), 3).Size() == 7
    ensures Entries(RemoveCategory(Initial(), 3))[3] == Entries(Initial())[4]
    ensures Entries(RemoveCategory(Initial(), 3))[3].name == "人間関係"
  {
    RemoveCategoryShifts(Initial(), 3);
  }

  /** The user events that reach the ledger: typing in a label field, moving
      a slider, typing in a note field, the add button and a delete button. */
  datatype Event =
    | CategoryEdited(index: int, text: string)
    | SliderMoved(series: Series, index: int, value: int)
    | TextEdited(series: Series, index: int, text: string)
    | CategoryAdded
    | CategoryRemoved(index: int)

  /** What the user interface guarantees of an event: fields and sliders
      exist only for present positions, and the slider yields values within
      its bounds. */
  predicate Enabled(l: Ledger, e: Event) {
    match e
    case CategoryEdited(i, _) => 0 <= i < l.Size()
    case SliderMoved(_, i, v) => 0 <= i < l.Size() && InRating(v)
    case TextEdited(_, i, _) => 0 <= i < l.Size()
    case CategoryAdded => true
    case CategoryRemoved(_) => true
  }

  /** One event's handler, as one batched state update. */
  function Apply(l: Ledger, e: Event): (r: Ledger)
    requires l.Aligned() && Enabled(l, e)
    ensures r.Aligned()
    ensures RatingsInRange(l) ==> RatingsInRange(r)
  {
    match e
    case CategoryEdited(i, text) => HandleCategoryChange(l, i, text)
    case SliderMoved(s, i, v) => HandleSliderChange(l, s, i, v)
    case TextEdited(s, i, text) => HandleTextChange(l, s, i, text)
    case CategoryAdded => AddCategory(l)
    case CategoryRemoved(i) =>
      RemoveCategoryKeepsRatings(l, i);
      RemoveCategory(l, i)
  }

  /** Deleting a category leaves only ratings that were there before, so
      they stay within the slider's bounds. */
  lemma RemoveCategoryKeepsRatings(l: Ledger, index: int)
    ensures RatingsInRange(l) ==> RatingsInRange(RemoveCategory(l, index))
  {
    var r := RemoveCategory(l, index);
    if !RatingsInRange(l) {
      return;
    }
    forall j | 0 <= j < |r.currentValues|
      ensures InRating(r.currentValues[j])
    {
      if 0 <= index < |l.currentValues| {
        assert r.currentValues[j] == l.currentValues[if j < index then j else j + 1];
      }
    }
    forall j | 0 <= j < |r.futureValues|
      ensures InRating(r.futureValues[j])
    {
      if 0 <= index < |l.futureValues| {
        assert r.futureValues[j] == l.futureValues[if j < index then j else j + 1];
      }
    }
  }

  /** Every event of `events` is enabled in the state it reaches. */
  predicate Admissible(l: Ledger, events: seq<Event>)
    decreases |events|
  {
    l.Aligned() &&
    (events == [] || (Enabled(l, events[0]) && Admissible(Apply(l, events[0]), events[1..])))
  }

  /** The state after handling `events` in order. */
  function Run(l: Ledger, events: seq<Event>): (r: Ledger)
    requires Admissible(l, events)
    ensures r.Aligned()
    ensures RatingsInRange(l) ==> RatingsInRange(r)
    decreases |events|
  {
    if events == [] then l else Run(Apply(l, events[0]), events[1..])
  }

  /** From the initial state, after any admissible sequence of edits, appends
      and deletions the five arrays have equal length and every rating lies
      in [1, 10]. */
  lemma SessionKeepsInvariants(events: seq<Event>)
    requires Admissible(Initial(), events)
    ensures Run(Initial(), events).Aligned()
    ensures RatingsInRange(Run(Initial(), events))
  {
  }
}
