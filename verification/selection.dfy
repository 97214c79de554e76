/**
 * The selection state machine of AlphabetFlatList (index.js) as functions on
 * a snapshot of the component: the selected letter, the updates deferred by
 * `InteractionManager.runAfterInteractions` (a FIFO queue of letter
 * assignments), and the outputs issued so far (scroll commands, calls of
 * the `onPressLetter` callback, warnings).
 */
module Selection {
  import opened Keys
  import opened Markers

  /** `scrollToIndex({animated, index, viewPosition})` sent to the main list. */
  datatype ScrollCommand = ScrollCommand(index: nat, viewPosition: real, animated: bool)

  /** The props read by the handlers; `hasOnPressLetter` says whether the callback is given. */
  datatype Props = Props(data: seq<Item>, matchFieldName: MatchField, hasOnPressLetter: bool)

  /** One entry of `viewableItems`, as reported by the main list. */
  datatype ViewToken = ViewToken(item: Item, index: nat)

  datatype Snapshot = Snapshot(
    selectedLetter: char,
    pending: seq<char>,
    scrolls: seq<ScrollCommand>,
    callbacks: seq<char>,
    warnings: nat)

  /** The alignment fraction onPressLetter scrolls with. */
  const PressViewPosition: real := 0.1

  /**
   * The state right after construction: the first marker, `A`, is selected,
   * nothing is queued and nothing has been issued.
   */
  function Initial(): (r: Snapshot)
    ensures r.selectedLetter == 'A' && Inv(r)
    ensures r.pending == [] && r.scrolls == [] && r.callbacks == [] && r.warnings == 0
  {
    AlphabetListExact();
    Snapshot(AlphabetList()[0], [], [], [], 0)
  }

  /** The selection and every queued assignment are markers. */
  predicate Inv(s: Snapshot)
  {
    MarkerLetter(s.selectedLetter) && forall i :: 0 <= i < |s.pending| ==> MarkerLetter(s.pending[i])
  }

  predicate PropsDefined(props: Props)
  {
    AllDefined(props.data, props.matchFieldName)
  }

  /** The top visible item, when there is one, can be read without crashing. */
  predicate TopDefined(props: Props, viewable: seq<ViewToken>)
  {
    |viewable| > 0 ==> KeySourceDefined(viewable[0].item, props.matchFieldName)
  }

  /**
   * onPressLetter: find the first matching item; on no match do nothing
   * more; otherwise scroll to it, defer the selection, call the callback.
   */
  function Press(s: Snapshot, props: Props, letter: char): (r: Snapshot)
    requires PropsDefined(props)
    ensures r.selectedLetter == s.selectedLetter
    ensures r.pending == s.pending || r.pending == s.pending + [letter]
    ensures r.pending != s.pending <==> MatchIndex(props.data, props.matchFieldName, letter) != -1
    ensures r.warnings >= s.warnings
  {
    var mf := props.matchFieldName;
    var matchedIndex := MatchIndex(props.data, mf, letter);
    var warned := s.(warnings := s.warnings + |PressWarnings(props.data, mf, letter)|);
    if matchedIndex == -1 then warned
    else
      warned.(
        scrolls := s.scrolls + [ScrollCommand(matchedIndex, PressViewPosition, true)],
        pending := s.pending + [letter],
        callbacks := if props.hasOnPressLetter then s.callbacks + [letter] else s.callbacks)
  }

  /**
   * onViewableItemsChanged: derive the top item's letter and defer it as
   * the selection when it is a marker other than the current selection.
   */
  function Visible(s: Snapshot, props: Props, viewable: seq<ViewToken>): (r: Snapshot)
    requires TopDefined(props, viewable)
    ensures r.selectedLetter == s.selectedLetter && r.scrolls == s.scrolls && r.callbacks == s.callbacks
    ensures r.pending == s.pending ||
      (|r.pending| == |s.pending| + 1 && r.pending[..|s.pending|] == s.pending &&
       IsMarker(r.pending[|s.pending|]) && r.pending[|s.pending|] != s.selectedLetter)
  {
    if |viewable| == 0 then s
    else
      match KeyOf(viewable[0].item, props.matchFieldName)
      case None => s.(warnings := s.warnings + 1)
      case Some(letter) =>
        if IsMarker(letter) && letter != s.selectedLetter then s.(pending := s.pending + [letter])
        else s
  }

  /** Runs the queued assignments to `selectedLetter` in order, starting from `selected`. */
  function ApplyAll(selected: char, queue: seq<char>): char
    decreases |queue|
  {
    if queue == [] then selected else ApplyAll(queue[0], queue[1..])
  }

  /** The interactions settle: every deferred update runs, and the queue is empty. */
  function Settle(s: Snapshot): (r: Snapshot)
    ensures r.pending == [] && r.scrolls == s.scrolls && r.callbacks == s.callbacks && r.warnings == s.warnings
    ensures r.selectedLetter == if s.pending == [] then s.selectedLetter else s.pending[|s.pending| - 1]
  {
    SettleSelectsLast(s.selectedLetter, s.pending);
    s.(selectedLetter := ApplyAll(s.selectedLetter, s.pending), pending := [])
  }

  /** The condition `this.state.selectedLetter === letter` of both style setters. */
  predicate IsSelected(s: Snapshot, marker: char)
  {
    s.selectedLetter == marker
  }

  // ---------------------------------------------------------------------
  // Properties
  // ---------------------------------------------------------------------

  /** Settling leaves the last queued letter selected, or keeps the selection when nothing is queued. */
  lemma {:induction false} SettleSelectsLast(selected: char, queue: seq<char>)
    ensures ApplyAll(selected, queue) == if queue == [] then selected else queue[|queue| - 1]
    ensures ApplyAll(selected, queue) == selected || ApplyAll(selected, queue) in queue
    decreases |queue|
  {
    if queue != [] {
      SettleSelectsLast(queue[0], queue[1..]);
    }
  }

  /** A press that matches nothing issues no scroll, queues nothing and calls nobody. */
  lemma PressWithoutMatch(s: Snapshot, props: Props, letter: char)
    requires PropsDefined(props)
    requires forall j :: 0 <= j < |props.data| ==> KeyOf(props.data[j], props.matchFieldName) != Some(letter)
    ensures Press(s, props, letter).(warnings := s.warnings) == s
    ensures Press(s, props, letter).warnings == s.warnings + |PressWarnings(props.data, props.matchFieldName, letter)|
    ensures props.data == [] ==> Press(s, props, letter) == s
  {
  }

  /**
   * A press whose first match is item `k` issues exactly one scroll to `k`
   * at 0.1 animated, queues the letter and calls the callback once, and
   * leaves the selection alone until the interactions settle, after which
   * the pressed letter is selected.
   */
  lemma PressWithMatch(s: Snapshot, props: Props, letter: char, k: nat)
    requires PropsDefined(props)
    requires k < |props.data| && KeyOf(props.data[k], props.matchFieldName) == Some(letter)
    requires forall j :: 0 <= j < k ==> KeyOf(props.data[j], props.matchFieldName) != Some(letter)
    ensures Press(s, props, letter).scrolls == s.scrolls + [ScrollCommand(k, 0.1, true)]
    ensures Press(s, props, letter).pending == s.pending + [letter]
    ensures Press(s, props, letter).callbacks == if props.hasOnPressLetter then s.callbacks + [letter] else s.callbacks
    ensures Press(s, props, letter).selectedLetter == s.selectedLetter
    ensures Press(s, props, letter).warnings == s.warnings + |PressWarnings(props.data, props.matchFieldName, letter)|
    ensures Settle(Press(s, props, letter)).selectedLetter == letter
  {
    var q := s.pending + [letter];
    SettleSelectsLast(s.selectedLetter, q);
  }

  /**
   * An item lacking the configured field never matches; when it comes
   * before the first match at `j`, it is warned about and the scan still
   * reaches `j`.
   */
  lemma MissingFieldSkipped(s: Snapshot, props: Props, letter: char, k: nat, j: nat)
    requires PropsDefined(props)
    requires k < j < |props.data| && KeyOf(props.data[k], props.matchFieldName).None?
    requires KeyOf(props.data[j], props.matchFieldName) == Some(letter)
    requires forall i :: 0 <= i < j ==> KeyOf(props.data[i], props.matchFieldName) != Some(letter)
    ensures MatchIndex(props.data, props.matchFieldName, letter) == j
    ensures k in PressWarnings(props.data, props.matchFieldName, letter)
    ensures Press(s, props, letter).warnings > s.warnings
    ensures Press(s, props, letter).scrolls == s.scrolls + [ScrollCommand(j, PressViewPosition, true)]
  {
  }

  /** A visibility event never scrolls, never calls the callback, and never selects directly. */
  lemma VisibleOnlyQueues(s: Snapshot, props: Props, viewable: seq<ViewToken>)
    requires TopDefined(props, viewable)
    ensures Visible(s, props, viewable).scrolls == s.scrolls
    ensures Visible(s, props, viewable).callbacks == s.callbacks
    ensures Visible(s, props, viewable).selectedLetter == s.selectedLetter
    ensures Visible(s, props, viewable).warnings ==
      if |viewable| > 0 && KeyOf(viewable[0].item, props.matchFieldName).None? then s.warnings + 1 else s.warnings
  {
  }

  /**
   * A visibility event changes neither the selection nor the queue when
   * nothing is visible, the top item lacks the field, its letter is not a
   * marker, or its letter is already selected; otherwise it queues the letter.
   */
  lemma VisibleQueuesIff(s: Snapshot, props: Props, viewable: seq<ViewToken>)
    requires TopDefined(props, viewable)
    ensures var t := Visible(s, props, viewable);
      t.pending == s.pending || t.pending == s.pending + [KeyOf(viewable[0].item, props.matchFieldName).value]
    ensures var t := Visible(s, props, viewable);
      t.pending != s.pending <==>
        |viewable| > 0 &&
        KeyOf(viewable[0].item, props.matchFieldName).Some? &&
        IsMarker(KeyOf(viewable[0].item, props.matchFieldName).value) &&
        KeyOf(viewable[0].item, props.matchFieldName).value != s.selectedLetter
  {
  }

  /** A visibility event that queues a letter leaves that letter selected once the interactions settle. */
  lemma VisibleThenSettle(s: Snapshot, props: Props, viewable: seq<ViewToken>, letter: char)
    requires TopDefined(props, viewable) && |viewable| > 0
    requires KeyOf(viewable[0].item, props.matchFieldName) == Some(letter)
    requires MarkerLetter(letter) && letter != s.selectedLetter
    ensures Settle(Visible(s, props, viewable)).selectedLetter == letter
  {
    IsMarkerIff(letter);
    SettleSelectsLast(s.selectedLetter, s.pending + [letter]);
  }

  /** A press of a marker keeps the selection and the queue within the marker list. */
  lemma PressKeepsInv(s: Snapshot, props: Props, letter: char)
    requires Inv(s) && PropsDefined(props) && MarkerLetter(letter)
    ensures Inv(Press(s, props, letter))
  {
  }

  /** A visibility event queues only markers. */
  lemma VisibleKeepsInv(s: Snapshot, props: Props, viewable: seq<ViewToken>)
    requires Inv(s) && TopDefined(props, viewable)
    ensures Inv(Visible(s, props, viewable))
  {
    if |viewable| > 0 && KeyOf(viewable[0].item, props.matchFieldName).Some? {
      var letter := KeyOf(viewable[0].item, props.matchFieldName).value;
      var t := Visible(s, props, viewable);
      IsMarkerIff(letter);
      assert t.pending == s.pending || (IsMarker(letter) && t.pending == s.pending + [letter]);
    }
  }

  /** Settling selects a queued marker or keeps the current one. */
  lemma SettleKeepsInv(s: Snapshot)
    requires Inv(s)
    ensures Inv(Settle(s))
  {
    SettleSelectsLast(s.selectedLetter, s.pending);
  }

  /** Exactly one marker is drawn with the selected style. */
  lemma ExactlyOneSelected(s: Snapshot)
    requires Inv(s)
    ensures exists i :: 0 <= i < |AlphabetList()| && IsSelected(s, AlphabetList()[i])
    ensures forall i, j ::
      (0 <= i < |AlphabetList()| && 0 <= j < |AlphabetList()| &&
       IsSelected(s, AlphabetList()[i]) && IsSelected(s, AlphabetList()[j])) ==> i == j
  {
    IsMarkerIff(s.selectedLetter);
    AlphabetListDistinct();
  }

  /**
   * Press, settle, then the scrolled-to item shows up on top: the equality
   * guard makes the visibility event a no-op, so the pressed letter stays.
   */
  lemma PressSettleVisibleStable(s: Snapshot, props: Props, letter: char, viewable: seq<ViewToken>)
    requires PropsDefined(props) && MatchIndex(props.data, props.matchFieldName, letter) != -1
    requires |viewable| > 0 && viewable[0].item == props.data[MatchIndex(props.data, props.matchFieldName, letter)]
    ensures var t := Settle(Press(s, props, letter));
      t.selectedLetter == letter &&
      Visible(t, props, viewable).selectedLetter == letter &&
      Visible(t, props, viewable).pending == t.pending &&
      Settle(Visible(t, props, viewable)).selectedLetter == letter
  {
    var k := MatchIndex(props.data, props.matchFieldName, letter);
    PressWithMatch(s, props, letter, k);
  }

  /**
   * The equality guard compares with the settled selection only: a visibility
   * event that arrives between a press and the settle, showing a letter other
   * than the current selection, is queued after the pressed letter and wins.
   */
  lemma VisibleDuringScrollOverridesPress(s: Snapshot, props: Props, letter: char, viewable: seq<ViewToken>, other: char)
    requires PropsDefined(props) && MatchIndex(props.data, props.matchFieldName, letter) != -1
    requires TopDefined(props, viewable) && |viewable| > 0
    requires KeyOf(viewable[0].item, props.matchFieldName) == Some(other)
    requires MarkerLetter(other) && other != s.selectedLetter
    ensures Settle(Visible(Press(s, props, letter), props, viewable)).selectedLetter == other
  {
    IsMarkerIff(other);
    var k := MatchIndex(props.data, props.matchFieldName, letter);
    PressWithMatch(s, props, letter, k);
    SettleSelectsLast(s.selectedLetter, s.pending + [letter] + [other]);
  }

  /**
   * `#` is no catch-all: an item whose key source (the item itself, or its
   * configured field) starts with a digit derives that digit, which no
   * marker equals; no press matches it, and a visibility event with it on
   * top leaves the state as it was.
   */
  lemma DigitItemMatchesNoMarker(s: Snapshot, props: Props, item: Item, marker: char, index: nat, rest: seq<ViewToken>)
    requires KeySourceDefined(item, props.matchFieldName) && KeySource(item, props.matchFieldName).Some?
    requires var src := KeySource(item, props.matchFieldName).value; '0' <= src[0] <= '9'
    requires MarkerLetter(marker)
    ensures KeyOf(item, props.matchFieldName) == Some(KeySource(item, props.matchFieldName).value[0])
    ensures !IsMarker(KeySource(item, props.matchFieldName).value[0])
    ensures !Matches(item, props.matchFieldName, marker)
    ensures Visible(s, props, [ViewToken(item, index)] + rest) == s
  {
    IsMarkerIff(KeySource(item, props.matchFieldName).value[0]);
  }

  /** Only items whose key source starts with `#` derive the `#` key. */
  lemma HashKeyIff(item: Item, mf: MatchField)
    requires KeySourceDefined(item, mf) && KeySource(item, mf).Some?
    ensures KeyOf(item, mf) == Some('#') <==> KeySource(item, mf).value[0] == '#'
  {
  }

  /**
   * Two items whose key sources start with a lower-case letter and with its
   * upper-case form derive the same key, with or without a field name, so
   * matching ignores case.
   */
  lemma KeyIgnoresCase(item: Item, item': Item, mf: MatchField, c: char)
    requires KeySourceDefined(item, mf) && KeySource(item, mf).Some? && KeySource(item, mf).value[0] == c
    requires KeySourceDefined(item', mf) && KeySource(item', mf).Some? && KeySource(item', mf).value[0] == Upper(c)
    requires IsLower(c)
    ensures KeyOf(item, mf) == KeyOf(item', mf) == Some(Upper(c))
    ensures forall letter :: Matches(item, mf, letter) <==> Matches(item', mf, letter)
  {
  }

  // ---------------------------------------------------------------------
  // Event traces
  // ---------------------------------------------------------------------

  /** The inputs the component reacts to: a button press, a visibility report, a settle. */
  datatype Event =
    | PressEvent(props: Props, letter: char)
    | VisibleEvent(props: Props, viewable: seq<ViewToken>)
    | SettleEvent

  /** Each button is bound to its own marker, and the items read do not crash. */
  predicate EventDefined(e: Event)
  {
    match e
    case PressEvent(props, letter) => PropsDefined(props) && MarkerLetter(letter)
    case VisibleEvent(props, viewable) => TopDefined(props, viewable)
    case SettleEvent => true
  }

  predicate EventsDefined(events: seq<Event>)
  {
    forall i :: 0 <= i < |events| ==> EventDefined(events[i])
  }

  function Step(s: Snapshot, e: Event): Snapshot
    requires EventDefined(e)
  {
    match e
    case PressEvent(props, letter) => Press(s, props, letter)
    case VisibleEvent(props, viewable) => Visible(s, props, viewable)
    case SettleEvent => Settle(s)
  }

  /** The state after handling `events` in order. */
  function Run(s: Snapshot, events: seq<Event>): Snapshot
    requires EventsDefined(events)
    decreases |events|
  {
    if events == [] then s else Run(Step(s, events[0]), events[1..])
  }

  function PressCount(events: seq<Event>): nat
    decreases |events|
  {
    if events == [] then 0
    else (if events[0].PressEvent? then 1 else 0) + PressCount(events[1..])
  }

  /** Whatever events arrive, the selection and the queued letters stay within the marker list. */
  lemma {:induction false} RunKeepsInv(s: Snapshot, events: seq<Event>)
    requires Inv(s) && EventsDefined(events)
    ensures Inv(Run(s, events))
    decreases |events|
  {
    if events != [] {
      var e := events[0];
      match e {
        case PressEvent(props, letter) => PressKeepsInv(s, props, letter);
        case VisibleEvent(props, viewable) => VisibleKeepsInv(s, props, viewable);
        case SettleEvent => SettleKeepsInv(s);
      }
      RunKeepsInv(Step(s, e), events[1..]);
    }
  }

  /**
   * Only presses scroll or call the callback: over any trace, the issued
   * commands and calls only grow, by at most one of each per press.
   */
  lemma {:induction false} OnlyPressesScroll(s: Snapshot, events: seq<Event>)
    requires EventsDefined(events)
    ensures var t := Run(s, events);
      |s.scrolls| <= |t.scrolls| <= |s.scrolls| + PressCount(events) &&
      t.scrolls[..|s.scrolls|] == s.scrolls &&
      |s.callbacks| <= |t.callbacks| <= |s.callbacks| + PressCount(events) &&
      t.callbacks[..|s.callbacks|] == s.callbacks
    decreases |events|
  {
    if events != [] {
      var t1 := Step(s, events[0]);
      assert t1.scrolls[..|s.scrolls|] == s.scrolls;
      assert t1.callbacks[..|s.callbacks|] == s.callbacks;
      OnlyPressesScroll(t1, events[1..]);
      var t := Run(t1, events[1..]);
      assert t.scrolls[..|s.scrolls|] == t.scrolls[..|t1.scrolls|][..|s.scrolls|];
      assert t.callbacks[..|s.callbacks|] == t.callbacks[..|t1.callbacks|][..|s.callbacks|];
    }
  }

  /** In every state reachable from construction, exactly one marker is drawn selected. */
  lemma ReachableOneSelected(events: seq<Event>)
    requires EventsDefined(events)
    ensures var t := Run(Initial(), events);
      exists i :: 0 <= i < |AlphabetList()| && IsSelected(t, AlphabetList()[i])
    ensures var t := Run(Initial(), events);
      forall i, j ::
        (0 <= i < |AlphabetList()| && 0 <= j < |AlphabetList()| &&
         IsSelected(t, AlphabetList()[i]) && IsSelected(t, AlphabetList()[j])) ==> i == j
  {
    RunKeepsInv(Initial(), events);
    ExactlyOneSelected(Run(Initial(), events));
  }

  // ---------------------------------------------------------------------
  // Worked scenarios
  // ---------------------------------------------------------------------

  /** Pressing `B` over Apple, Banana, Cherry scrolls to index 1 and selects `B` after settling. */
  lemma PressScenario()
    ensures var props := Props([Str("Apple"), Str("Banana"), Str("Cherry")], NoMatchField, false);
      var t := Press(Initial(), props, 'B');
      t.scrolls == [ScrollCommand(1, 0.1, true)] && t.selectedLetter == 'A' &&
      Settle(t).selectedLetter == 'B'
  {
    var props := Props([Str("Apple"), Str("Banana"), Str("Cherry")], NoMatchField, false);
    assert KeyOf(props.data[0], NoMatchField) == Some('A');
    PressWithMatch(Initial(), props, 'B', 1);
  }

  /** Cherry on top while `A` is selected queues `C`, selected after settling, with no scroll issued. */
  lemma VisibleScenario()
    ensures var props := Props([Str("Apple"), Str("Banana"), Str("Cherry")], NoMatchField, false);
      var t := Visible(Initial(), props, [ViewToken(Str("Cherry"), 2)]);
      t.pending == ['C'] && t.scrolls == [] && Settle(t).selectedLetter == 'C'
  {
    var props := Props([Str("Apple"), Str("Banana"), Str("Cherry")], NoMatchField, false);
    VisibleThenSettle(Initial(), props, [ViewToken(Str("Cherry"), 2)], 'C');
  }

  /** With `matchFieldName` "name", an item without that field is warned about and never matches. */
  lemma MissingFieldScenario()
    ensures var props := Props([Obj(map["name" := "Apple"])], MatchField("name"), false);
      Press(Initial(), props, 'A').scrolls == [ScrollCommand(0, 0.1, true)]
    ensures var props := Props([Obj(map[])], MatchField("name"), false);
      Press(Initial(), props, 'A') == Initial().(warnings := 1)
  {
    var props := Props([Obj(map["name" := "Apple"])], MatchField("name"), false);
    PressWithMatch(Initial(), props, 'A', 0);
    var props' := Props([Obj(map[])], MatchField("name"), false);
    PressWithoutMatch(Initial(), props', 'A');
    assert PressWarnings(props'.data, props'.matchFieldName, 'A') == [0] by {
      var w := PressWarnings(props'.data, props'.matchFieldName, 'A');
      assert 0 in w;
      assert forall i :: 0 <= i < |w| ==> w[i] == 0 by {
        forall i | 0 <= i < |w| ensures w[i] == 0 { assert w[i] in w; }
      }
    }
  }
}
