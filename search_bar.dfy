/*
  The search form of the weather page: one text field whose value is kept
  in the component's `city` state. Submitting hands the trimmed text to the
  page's search callback and clears the field; blank text is ignored.
 */
module SearchBar {
  import opened Wrappers
  import opened Text

  /** What one submit does: the argument given to `onSearch`, if any, and the field's new text. */
  datatype SubmitOutcome = SubmitOutcome(searched: Option<string>, text: string)

  /** `handleSubmit` on the field text `city`. */
  function Submit(city: string): SubmitOutcome {
    var query := Trim(city);
    if query != "" then SubmitOutcome(Some(query), "") else SubmitOutcome(None, city)
  }

  /** Blank text calls nothing and stays in the field; anything else is searched and cleared. */
  lemma BlankSubmitKeepsText(city: string)
    ensures Submit(city).searched == None <==> AllSpace(city)
    ensures AllSpace(city) ==> Submit(city).text == city
    ensures !AllSpace(city) ==> Submit(city).text == ""
  {
    TrimEmptyIff(city);
  }

  /** The callback only ever receives non-empty text with no white space at either end. */
  lemma SearchedTextIsClean(city: string)
    ensures Submit(city).searched.Some? ==>
      var q := Submit(city).searched.value;
      q != "" && Trimmed(q) && Trim(q) == q
  {
    TrimIdempotent(city);
  }

  /** White space around the text does not change what is searched. */
  lemma SubmitIgnoresPadding(before: string, city: string, after: string)
    requires AllSpace(before) && AllSpace(after)
    ensures Submit(before + city + after).searched == Submit(city).searched
  {
    TrimIgnoresPadding(before, city, after);
  }

  /** The searched text sits inside what was typed. */
  lemma SearchedTextWasTyped(city: string)
    ensures Submit(city).searched.Some? ==> Contains(city, Submit(city).searched.value)
  {
    var n, m := TrimIsCore(city);
    assert city == city[..n] + city[n..m] + city[m..];
    ContainsInMiddle(city[..n], city[n..m], city[m..]);
  }

  class SearchBar {
    var city: string

    /** The field starts empty. */
    constructor()
      ensures city == ""
    {
      city := "";
    }

    /** `handleSubmit`: returns the argument passed to `onSearch`, or `None` when it is not called. */
    method HandleSubmit() returns (searched: Option<string>)
      modifies this
      ensures SubmitOutcome(searched, city) == Submit(old(city))
    {
      var query := Trim(city);
      if query != "" {
        searched := Some(query);
        city := "";
      } else {
        searched := None;
      }
    }

    /** `handleChange`: the field takes the input's value as it is. */
    method HandleChange(value: string)
      modifies this
      ensures city == value
    {
      city := value;
    }
  }
}
