/** The component instance: the five `useState` slots of the ledger and the
    handlers bound to them. A handler computes the new arrays from the
    current ones and commits all of them in one batched step. */
module Component {
  import opened CategoryLedger

  class RadarChartComparison {
    var categories: seq<string>
    var currentValues: seq<int>
    var currentText: seq<string>
    var futureValues: seq<int>
    var futureText: seq<string>

    /** The five state slots read together. */
    function State(): Ledger
      reads this
    {
      Ledger(categories, currentValues, currentText, futureValues, futureText)
    }

    /** The arrays are aligned and every rating is within the slider's
        bounds. */
    ghost predicate Valid()
      reads this
    {
      State().Aligned() && RatingsInRange(State())
    }

    /** The initial `useState` values. */
    constructor ()
      ensures Valid()
      ensures State() == Initial()
    {
      var init := Initial();
      categories := init.categories;
      currentValues := init.currentValues;
      currentText := init.currentText;
      futureValues := init.futureValues;
      futureText := init.futureText;
    }

    /** The batched setter calls of one handler. */
    method Commit(next: Ledger)
      modifies this
      ensures State() == next
    {
      categories := next.categories;
      currentValues := next.currentValues;
      currentText := next.currentText;
      futureValues := next.futureValues;
      futureText := next.futureText;
    }

    /** The label field of row `index` changed. */
    method OnCategoryChange(index: int, value: string)
      requires Valid() && 0 <= index < |categories|
      modifies this
      ensures Valid()
      ensures State() == HandleCategoryChange(old(State()), index, value)
    {
      Commit(HandleCategoryChange(State(), index, value));
    }

    /** The slider of row `index` in `series` moved to `newValue`. */
    method OnSliderChange(series: Series, index: int, newValue: int)
      requires Valid() && 0 <= index < |categories| && InRating(newValue)
      modifies this
      ensures Valid()
      ensures State() == HandleSliderChange(old(State()), series, index, newValue)
    {
      Commit(HandleSliderChange(State(), series, index, newValue));
    }

    /** The note field of row `index` in `series` changed. */
    method OnTextChange(series: Series, index: int, value: string)
      requires Valid() && 0 <= index < |categories|
      modifies this
      ensures Valid()
      ensures State() == HandleTextChange(old(State()), series, index, value)
    {
      Commit(HandleTextChange(State(), series, index, value));
    }

    /** The add button was pressed. */
    method OnAddCategory()
      requires Valid()
      modifies this
      ensures Valid()
      ensures State() == AddCategory(old(State()))
      ensures |categories| == old(|categories|) + 1
    {
      Commit(Apply(State(), CategoryAdded));
    }

    /** The delete button of row `index` was pressed. */
    method OnRemoveCategory(index: int)
      requires Valid()
      modifies this
      ensures Valid()
      ensures State() == RemoveCategory(old(State()), index)
      ensures 0 <= index < old(|categories|) ==> |categories| == old(|categories|) - 1
      ensures !(0 <= index < old(|categories|)) ==> State() == old(State())
    {
      Commit(Apply(State(), CategoryRemoved(index)));
    }
  }
}
