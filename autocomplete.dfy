/** The autocomplete input: options filtered by the typed text, ignoring case, and a
    dropdown that opens on typing and closes on select. */
module Autocomplete {
  import Text
  import Lists

  /** The filter callback `(o) => o.toLowerCase().includes(input.toLowerCase())`. */
  function Matches(input: string): string -> bool {
    (o: string) => Text.ContainsIgnoreCase(o, input)
  }

  /** `options.filter(...)` with that callback, in the options' order
      (`FilteredOptionsAppend` states the order). */
  function FilteredOptions(options: seq<string>, input: string): (r: seq<string>)
    ensures |r| <= |options|
    ensures forall i :: 0 <= i < |r| ==> r[i] in options && Text.ContainsIgnoreCase(r[i], input)
    ensures forall o :: o in options && Text.ContainsIgnoreCase(o, input) ==> o in r
  {
    Lists.Filter(options, Matches(input))
  }

  /** One more option at the end is offered at the end, iff it matches. */
  lemma FilteredOptionsAppend(options: seq<string>, o: string, input: string)
    ensures FilteredOptions(options + [o], input)
         == FilteredOptions(options, input) + (if Text.ContainsIgnoreCase(o, input) then [o] else [])
  {
    Lists.FilterAppend(options, o, Matches(input));
  }

  /** The callbacks the component calls, in order. */
  datatype Call = Changed(value: string) | Selected(option: string)

  class AutocompleteInput {
    const options: seq<string>
    var inputValue: string
    var open: bool
    var calls: seq<Call>

    constructor (options: seq<string>, value: string)
      ensures this.options == options && inputValue == value && !open && calls == []
    {
      this.options := options;
      inputValue := value;
      open := false;
      calls := [];
    }

    function Filtered(): seq<string>
      reads this
    {
      FilteredOptions(options, inputValue)
    }

    /** The option list is rendered. */
    predicate ShowsDropdown()
      reads this
    {
      open && |Filtered()| > 0
    }

    /** The empty message is rendered. */
    predicate ShowsEmptyMessage()
      reads this
    {
      open && inputValue != "" && |Filtered()| == 0
    }

    /** The list and the empty message are never shown together, and with the dropdown open
        and some text typed one of them is. */
    lemma DisplayExclusive()
      ensures !(ShowsDropdown() && ShowsEmptyMessage())
      ensures open && inputValue != "" ==> ShowsDropdown() || ShowsEmptyMessage()
    {
    }

    /** An empty input matches every option. */
    lemma EmptyInputMatchesAll()
      requires inputValue == ""
      ensures forall o :: o in options ==> o in Filtered()
    {
      forall o | o in options
        ensures Text.ContainsIgnoreCase(o, inputValue)
      {
        Text.ContainsIgnoreCaseEmptyQuery(o);
      }
    }

    /** The `value` prop changed: the input takes it. */
    method ValueChanged(value: string)
      modifies this
      ensures inputValue == value && open == old(open) && calls == old(calls)
    {
      inputValue := value;
    }

    /** `handleInputChange`. */
    method HandleInputChange(newValue: string)
      modifies this
      ensures inputValue == newValue && calls == old(calls) + [Changed(newValue)]
      ensures open <==> |newValue| > 0
    {
      inputValue := newValue;
      calls := calls + [Changed(newValue)];
      open := |newValue| > 0;
    }

    /** `handleSelect`: `onChange` then `onSelect`, then the dropdown closes. */
    method HandleSelect(option: string)
      modifies this
      ensures inputValue == option && !open
      ensures calls == old(calls) + [Changed(option), Selected(option)]
    {
      inputValue := option;
      calls := calls + [Changed(option)];
      calls := calls + [Selected(option)];
      open := false;
    }

    /** `handleClear`: the input is emptied and the dropdown closed, and then `focus()`
        fires the input's `onFocus`. That handler belongs to the render that showed the clear
        button, so it still sees the text that was there and opens the dropdown again, which
        now lists every option. */
    method HandleClear()
      modifies this
      ensures inputValue == "" && calls == old(calls) + [Changed("")]
      ensures open <==> old(inputValue) != ""
      ensures ShowsDropdown() <==> old(inputValue) != "" && |options| > 0
      ensures !ShowsEmptyMessage()
    {
      var rendered := inputValue;
      inputValue := "";
      calls := calls + [Changed("")];
      open := false;
      if rendered != "" {
        open := true;
      }
      EmptyInputMatchesAll();
      if |options| > 0 {
        assert options[0] in Filtered();
      }
    }

    /** Focus opens the dropdown when there is text. */
    method HandleFocus()
      modifies this
      ensures open == (old(open) || old(inputValue) != "") && inputValue == old(inputValue) && calls == old(calls)
    {
      if inputValue != "" {
        open := true;
      }
    }

    /** A click outside the component closes the dropdown. */
    method ClickOutside()
      modifies this
      ensures !open && inputValue == old(inputValue) && calls == old(calls)
    {
      open := false;
    }
  }
}
