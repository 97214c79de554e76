/**
 * The AlphabetFlatList component (index.js) as an object: its state
 * (`alphabetList`, `selectedLetter`), the updates queued with
 * `InteractionManager.runAfterInteractions`, and a record of the commands
 * it has sent out. Each handler is tied to its transition in Selection.
 */
module Component {
  import opened Keys
  import opened Markers
  import opened Selection

  /**
   * The entries of the style arrays the setters return: the component's own
   * sheet (`styles.…`) and the overrides from `alphabetListProps`.
   */
  datatype StyleRef =
    | SheetAlphabetText | SheetSelectedAlphabetText | SheetAlphabetButton
    | PropAlphabetText | PropSelectedAlphabetText | PropAlphabetButton | PropSelectedAlphabetButton

  class AlphabetFlatList {
    /** `this.state.alphabetList`, fixed at construction. */
    const alphabetList: seq<char>
    /** `this.state.selectedLetter`. */
    var selectedLetter: char
    /** Selection updates waiting for the interactions to settle, oldest first. */
    var pending: seq<char>
    /** Every `scrollToIndex` command sent to the main list. */
    var scrolls: seq<ScrollCommand>
    /** Every argument the `onPressLetter` prop was called with. */
    var callbacks: seq<char>
    /** How many times `console.warn` was called. */
    var warnings: nat

    function State(): Snapshot
      reads this
    {
      Snapshot(selectedLetter, pending, scrolls, callbacks, warnings)
    }

    ghost predicate Valid()
      reads this
    {
      alphabetList == AlphabetList() && Inv(State())
    }

    constructor ()
      ensures Valid() && State() == Initial()
      ensures alphabetList == "ABCDEFGHIJKLMNOPQRSTUVWXYZ#" && selectedLetter == 'A'
    {
      var letters := UpperAll("abcdefghijklmnopqrstuvwxyz#");
      alphabetList := letters;
      selectedLetter := letters[0];
      pending, scrolls, callbacks, warnings := [], [], [], 0;
      new;
      AlphabetListExact();
    }

    /**
     * A press on marker `selectedItem`: scan the data for the first item
     * whose key is that letter; if there is one, scroll to it, queue the
     * selection and call the `onPressLetter` prop at once.
     */
    method OnPressLetter(props: Props, selectedItem: char)
      requires Valid() && selectedItem in alphabetList && PropsDefined(props)
      modifies this
      ensures Valid() && State() == Press(old(State()), props, selectedItem)
    {
      var mf := props.matchFieldName;
      var matchedIndex := MatchIndex(props.data, mf, selectedItem);
      warnings := warnings + |PressWarnings(props.data, mf, selectedItem)|;
      if matchedIndex == -1 {
        return;
      }
      scrolls := scrolls + [ScrollCommand(matchedIndex, PressViewPosition, true)];
      pending := pending + [selectedItem];
      if props.hasOnPressLetter {
        callbacks := callbacks + [selectedItem];
      }
      IsMarkerIff(selectedItem);
    }

    /**
     * The main list reports new visible items: queue the top item's letter
     * when it is a marker other than the current selection.
     */
    method OnViewableItemsChanged(props: Props, viewableItems: seq<ViewToken>)
      requires Valid() && TopDefined(props, viewableItems)
      modifies this
      ensures Valid() && State() == Visible(old(State()), props, viewableItems)
    {
      if |viewableItems| == 0 {
        return;
      }
      var key := KeyOf(viewableItems[0].item, props.matchFieldName);
      if key.None? {
        warnings := warnings + 1;
        return;
      }
      var letter := key.value;
      var matchedIndex := FindIndex(alphabetList, (m: char) => m == letter);
      IsMarkerIff(letter);
      if matchedIndex > -1 && letter != selectedLetter {
        pending := pending + [letter];
      }
    }

    /** The interactions settle: the queued updates run in the order they were queued. */
    method Settle()
      requires Valid()
      modifies this
      ensures Valid() && State() == Selection.Settle(old(State()))
    {
      ghost var final := ApplyAll(selectedLetter, pending);
      SettleKeepsInv(State());
      while pending != []
        invariant ApplyAll(selectedLetter, pending) == final
        invariant scrolls == old(scrolls) && callbacks == old(callbacks) && warnings == old(warnings)
        decreases |pending|
      {
        selectedLetter := pending[0];
        pending := pending[1..];
      }
    }

    /** setAlphabetTextStyle: the selected text styles for the selected letter, the plain ones otherwise. */
    function AlphabetTextStyle(letter: char): (r: seq<StyleRef>)
      reads this
      requires Valid()
      ensures r == [SheetSelectedAlphabetText, PropSelectedAlphabetText] || r == [SheetAlphabetText, PropAlphabetText]
      ensures r[0] == SheetSelectedAlphabetText <==> letter == selectedLetter
      ensures r[0] == SheetSelectedAlphabetText ==> letter in alphabetList
    {
      IsMarkerIff(selectedLetter);
      if IsSelected(State(), letter) then [SheetSelectedAlphabetText, PropSelectedAlphabetText]
      else [SheetAlphabetText, PropAlphabetText]
    }

    /**
     * setAlphabetButtonStyle: the sheet's button style always, followed by the
     * selected override for the selected letter and the plain one otherwise.
     */
    function AlphabetButtonStyle(letter: char): (r: seq<StyleRef>)
      reads this
      requires Valid()
      ensures |r| == 2 && r[0] == SheetAlphabetButton
      ensures r[1] == PropSelectedAlphabetButton || r[1] == PropAlphabetButton
      ensures r[1] == PropSelectedAlphabetButton <==> letter == selectedLetter
      ensures r[1] == PropSelectedAlphabetButton ==> letter in alphabetList
    {
      IsMarkerIff(selectedLetter);
      if IsSelected(State(), letter) then [SheetAlphabetButton, PropSelectedAlphabetButton]
      else [SheetAlphabetButton, PropAlphabetButton]
    }

    /** Exactly one button of the alphabet list is drawn selected, its text and its button alike. */
    lemma OneMarkerDrawnSelected()
      requires Valid()
      ensures exists i ::
        (0 <= i < |alphabetList| && alphabetList[i] == selectedLetter &&
         AlphabetTextStyle(alphabetList[i])[0] == SheetSelectedAlphabetText)
      ensures forall i, j ::
        (0 <= i < |alphabetList| && 0 <= j < |alphabetList| &&
         AlphabetTextStyle(alphabetList[i])[0] == SheetSelectedAlphabetText &&
         AlphabetTextStyle(alphabetList[j])[0] == SheetSelectedAlphabetText) ==> i == j
      ensures forall i :: 0 <= i < |alphabetList| ==>
        (AlphabetButtonStyle(alphabetList[i])[1] == PropSelectedAlphabetButton <==>
         AlphabetTextStyle(alphabetList[i])[0] == SheetSelectedAlphabetText)
    {
      ExactlyOneSelected(State());
    }
  }
}
