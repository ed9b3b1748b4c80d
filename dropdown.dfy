/**
 * The searchable select used for a course's category and instructor: a label,
 * a list of options, the selected value (owned by the parent form) and a
 * search box whose text narrows the options shown.
 */
module Dropdown {
  import opened Optional
  import opened Seqs
  import opened Text

  /** An option; its `label` is called `text` here because `label` is a Dafny keyword. */
  datatype SelectOption = SelectOption(text: string, value: string)

  function LabelMatches(query: string): SelectOption -> bool {
    (o: SelectOption) => MatchesQuery(o.text, query)
  }

  /** `filtered`: every option for an empty query, otherwise the options whose label contains the query, ignoring case. */
  function FilterOptions(options: seq<SelectOption>, query: string): seq<SelectOption> {
    if query != "" then Filter(options, LabelMatches(query)) else options
  }

  /**
   * The shortcut for the empty query changes nothing: the shown options are always
   * exactly the options whose label matches, in their order.
   */
  lemma FilterOptionsSpec(options: seq<SelectOption>, query: string)
    ensures FilterOptions(options, query) == Filter(options, LabelMatches(query))
    ensures forall o :: o in FilterOptions(options, query) <==> o in options && MatchesQuery(o.text, query)
    ensures IsSubseq(FilterOptions(options, query), options)
    ensures query == "" ==> FilterOptions(options, query) == options
  {
    if query == "" {
      forall i | 0 <= i < |options| ensures LabelMatches(query)(options[i]) {
        EmptyQueryMatches(options[i].text);
      }
      FilterAllPass(options, LabelMatches(query));
    }
    forall o ensures o in FilterOptions(options, query) <==> o in options && MatchesQuery(o.text, query) {
      FilterMembers(options, LabelMatches(query), o);
    }
    FilterIsSubseq(options, LabelMatches(query));
  }

  /** `options.find((o) => o.value === value)?.label`: the label of the first option with that value. */
  function SelectedLabel(options: seq<SelectOption>, value: string): (r: Option<string>)
    ensures r.None? <==> forall i :: 0 <= i < |options| ==> options[i].value != value
    ensures r.Some? ==> exists i :: 0 <= i < |options| && options[i].value == value && options[i].text == r.value &&
                                    forall j :: 0 <= j < i ==> options[j].value != value
  {
    if options == [] then None
    else if options[0].value == value then Some(options[0].text)
    else
      var r := SelectedLabel(options[1..], value);
      if r.Some? then
        var i :| 0 <= i < |options[1..]| && options[1..][i].value == value && options[1..][i].text == r.value &&
                 forall j :: 0 <= j < i ==> options[1..][j].value != value;
        assert options[i + 1].value == value && forall j :: 0 <= j < i + 1 ==> options[j].value != value;
        r
      else
        r
  }

  /** The button text: the selected label, or "Select <label>" when there is none or it is empty. */
  function ButtonText(fieldName: string, options: seq<SelectOption>, value: string): (text: string)
    ensures var sel := SelectedLabel(options, value);
      if sel.Some? && sel.value != "" then text == sel.value else text == "Select " + fieldName
  {
    match SelectedLabel(options, value)
    case Some(l) => if l != "" then l else "Select " + fieldName
    case None => "Select " + fieldName
  }

  /** An option is highlighted and check-marked when it holds the current value. */
  predicate Highlighted(o: SelectOption, value: string) {
    o.value == value
  }

  const NoResultsMessage: string := "No results found"

  /** What the panel lists: one entry per shown option, or the "No results found" note. */
  datatype Panel = Entries(options: seq<SelectOption>, highlighted: seq<bool>) | NoResults(message: string)

  function PanelFor(options: seq<SelectOption>, query: string, value: string): (p: Panel)
    ensures p.NoResults? <==> FilterOptions(options, query) == []
    ensures p.NoResults? ==> p.message == NoResultsMessage
    ensures p.Entries? ==>
              && p.options == FilterOptions(options, query)
              && |p.highlighted| == |p.options|
              && forall i :: 0 <= i < |p.options| ==> (p.highlighted[i] <==> p.options[i].value == value)
  {
    var shown := FilterOptions(options, query);
    if |shown| > 0 then Entries(shown, Map(shown, (o: SelectOption) => Highlighted(o, value)))
    else NoResults(NoResultsMessage)
  }

  /** The component's own state: the search text. The options and the value are its parent's. */
  class SearchableSelect {
    const fieldName: string
    var query: string

    /** `fieldName` is the `label` prop, e.g. "Category". */
    constructor (fieldName: string)
      ensures this.fieldName == fieldName && query == ""
    {
      this.fieldName := fieldName;
      query := "";
    }

    /** Typing in the search box. */
    method SetQuery(text: string)
      modifies this
      ensures query == text
    {
      query := text;
    }

    /** Choosing a shown option: its value goes to the parent's `onChange` and the search text is cleared. */
    method Choose(options: seq<SelectOption>, o: SelectOption) returns (emitted: string)
      requires o in FilterOptions(options, query)
      modifies this
      ensures emitted == o.value && query == ""
      ensures FilterOptions(options, query) == options
    {
      emitted := o.value;
      query := "";
    }
  }
}
