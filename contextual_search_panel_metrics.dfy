/** The flag bookkeeping of ContextualSearchPanelMetrics.java: the panel's
    state transitions decide when a contextual search starts, ends or is
    chained, and the per-search flags are set and reset accordingly. Only the
    first-state entry/exit and user-action events are recorded among the UMA
    logs; clock readings (System.nanoTime) are parameters. OverlayPanel.java,
    ContextualSearchUma.java and the heuristics classes are not part of this
    model. */
module ContextualSearchPanelMetrics {
  import opened Common

  datatype PanelState = Undefined | Closed | Peeked | Expanded | Maximized

  /** The reasons this class tests for; every other reason is OtherReason. */
  datatype StateChangeReason = TextSelectTap | TextSelectLongPress | SerpNavigation | BasePageScroll
                             | OtherReason(code: nat)

  datatype BlacklistReason = BlacklistNone | Blacklisted(code: nat)

  /** QuickActionCategory.NONE. */
  const QuickActionNone: int := 0

  /** The state-change events that are logged for sequencing. */
  datatype UmaEvent =
    | FirstStateEntry(from: PanelState, to: PanelState, reason: StateChangeReason)
    | FirstStateExit(from: PanelState, to: PanelState, reason: StateChangeReason)
    | PanelStateUserAction(to: PanelState, reason: StateChangeReason)

  /** isStartingNewContextualSearch: a tap or long-press selection brings the
      panel to the peeking state. */
  predicate IsStartingNewContextualSearch(to: PanelState, reason: StateChangeReason)
  {
    to.Peeked? && (reason.TextSelectTap? || reason.TextSelectLongPress?)
  }

  /** isOngoingContextualSearch: the panel was showing. */
  predicate IsOngoingContextualSearch(from: PanelState)
  {
    !from.Undefined? && !from.Closed?
  }

  /** isEndingContextualSearch: a showing panel closes or a new search starts. */
  predicate IsEndingContextualSearch(from: PanelState, to: PanelState, isStartingSearch: bool)
  {
    IsOngoingContextualSearch(from) && (to.Closed? || isStartingSearch)
  }

  /** A chained search starts while another is showing: it ends that one.
      Neither a search that starts from a closed panel nor a panel that
      closes can start a search and end one at once except by chaining. */
  lemma ChainedSearchEndsPrevious(from: PanelState, to: PanelState, reason: StateChangeReason)
    ensures var starting := IsStartingNewContextualSearch(to, reason);
      var ending := IsEndingContextualSearch(from, to, starting);
      (starting && IsOngoingContextualSearch(from) <==> starting && ending) &&
      (to.Closed? ==> !starting) &&
      (!IsOngoingContextualSearch(from) ==> !ending)
  {
  }

  /** The transition ends the current search. */
  predicate Ending(from: PanelState, to: PanelState, reason: StateChangeReason)
  {
    IsEndingContextualSearch(from, to, IsStartingNewContextualSearch(to, reason))
  }

  /** isFirstExitFromPeeking: the panel leaves the peeking state (or a new
      search restarts it) for the first time in this search. */
  predicate FirstExitFromPeeking(from: PanelState, to: PanelState, reason: StateChangeReason, hasExitedPeeking: bool)
  {
    from.Peeked? && !hasExitedPeeking && (from != to || IsStartingNewContextualSearch(to, reason))
  }

  /** A transition after a SERP navigation is logged as one. */
  function LoggedReason(isSerpNavigation: bool, reason: StateChangeReason): StateChangeReason
  {
    if isSerpNavigation then SerpNavigation else reason
  }

  /** The flags that the panel's own transitions set during one search. */
  datatype PanelFlags = PanelFlags(
    hasExpanded: bool,
    hasMaximized: bool,
    hasExitedPeeking: bool,
    hasExitedExpanded: bool,
    hasExitedMaximized: bool,
    isSerpNavigation: bool,
    wasAnyHeuristicSatisfiedOnPanelShow: bool)

  const ClearedPanel := PanelFlags(false, false, false, false, false, false, false)

  /** The flags and values that the setters record during one search. */
  datatype SearchFlags = SearchFlags(
    didSearchInvolvePromo: bool,
    wasSearchContentViewSeen: bool,
    wasSelectionPartOfUrl: bool,
    wasContextualCardsDataShown: bool,
    wasQuickActionShown: bool,
    quickActionCategory: int,
    wasQuickActionClicked: bool,
    wasSelectionAllCaps: bool,
    didSelectionStartWithCapital: bool,
    panelTriggerTimeFromTapNs: int)

  const ClearedSearch := SearchFlags(false, false, false, false, false, QuickActionNone, false, false, false, 0)

  /** What a new search records about how it was activated, and its
      timers. */
  datatype Activation = Activation(
    wasActivatedByTap: bool,
    blacklistReason: BlacklistReason,
    isSearchPanelFullyPreloaded: bool,
    firstPeekTimeNs: int,
    contentFirstViewTimeNs: int)

  /** The heuristics kept for logging: the results-seen ones are None when
      null and otherwise hold the answer of
      isAnyConditionSatisfiedForAggregrateLogging; the Ranker ones are only
      present or absent. */
  datatype Experiments = Experiments(resultsSeen: Option<bool>, hasRanker: bool)

  /** The metrics object. The fields are grouped by the way
      onPanelStateChanged treats them: the per-search flags it clears when a
      search ends (`panel`, `search`), the activation record a new search
      resets, the heuristics an ending search drops, and the opened-beyond-
      peek timer; the remaining fields carry the Java names without the m
      prefix. */
  class PanelMetrics {
    var panel: PanelFlags
    var search: SearchFlags
    var activation: Activation
    var experiments: Experiments
    var wasPanelOpenedBeyondPeek: bool
    var panelOpenedBeyondPeekTimeNs: int
    var isPromoActive: bool
    var wasIconSpriteAnimated: bool
    var selectionFirstChar: char
    var selectionLength: nat
    var searchRequestStartTimeNs: int
    var log: seq<UmaEvent>

    /** The panel is open beyond peek only with a recorded opening time
        (the Java assert in onPanelStateChanged), given a clock that never
        reads 0. */
    predicate Valid()
      reads this
    {
      wasPanelOpenedBeyondPeek ==> panelOpenedBeyondPeekTimeNs != 0
    }

    /** Java's field defaults: false, 0, null. */
    constructor()
      ensures Valid() && panel == ClearedPanel && search == ClearedSearch && !wasPanelOpenedBeyondPeek
      ensures activation == Activation(false, BlacklistNone, false, 0, 0)
      ensures experiments == Experiments(None, false) && log == []
    {
      panel := ClearedPanel;
      search := ClearedSearch;
      activation := Activation(false, BlacklistNone, false, 0, 0);
      experiments := Experiments(None, false);
      wasPanelOpenedBeyondPeek, panelOpenedBeyondPeekTimeNs := false, 0;
      isPromoActive, wasIconSpriteAnimated := false, false;
      selectionFirstChar := '\0';
      selectionLength := 0;
      searchRequestStartTimeNs := 0;
      log := [];
    }

    /** onPanelStateChanged, step by step as the Java method runs. */
    method OnPanelStateChanged(from: PanelState, to: PanelState, reason: StateChangeReason, now: int)
      requires Valid()
      modifies this`panel, this`search, this`activation, this`experiments, this`log
      modifies this`wasPanelOpenedBeyondPeek, this`panelOpenedBeyondPeekTimeNs
      ensures Valid()
      ensures panel == NextPanel(old(panel), from, to, reason, old(experiments.resultsSeen))
      ensures search == if Ending(from, to, reason) then ClearedSearch else old(search)
      ensures experiments ==
        if Ending(from, to, reason) then EndedExperiments(old(experiments), old(activation.wasActivatedByTap))
        else old(experiments)
      ensures activation == NextActivation(old(activation), old(panel), from, to, reason, now)
      // Leaving the opened panel for a state that hides the content clears the flag and its time.
      ensures old(wasPanelOpenedBeyondPeek) && !to.Expanded? && !to.Maximized? ==>
        !wasPanelOpenedBeyondPeek && panelOpenedBeyondPeekTimeNs == 0
      ensures !(old(wasPanelOpenedBeyondPeek) && !to.Expanded? && !to.Maximized?) ==>
        wasPanelOpenedBeyondPeek == old(wasPanelOpenedBeyondPeek) &&
        panelOpenedBeyondPeekTimeNs == old(panelOpenedBeyondPeekTimeNs)
      // The log gains the first entry and exit events when they apply, then the user action.
      ensures log == old(log) + TransitionEvents(old(panel), from, to, reason)
    {
      var flags := panel;
      BeginTransition(from, to, reason, now);
      var reasonForLogging := LoggedReason(flags.isSerpNavigation, reason);
      LogStateChange(from, to, reasonForLogging, FirstEntry(flags, from, to, reason), FirstExit(flags, from, to, reason));
      RecordTransition(flags, from, to, reason);
    }

    /** The first half of onPanelStateChanged, up to the logging: an ending
        search drops its heuristics, leaving the opened panel stops its
        timer, a new search resets its activation record, and the first view
        of the content starts the loading timer. */
    method BeginTransition(from: PanelState, to: PanelState, reason: StateChangeReason, now: int)
      requires Valid()
      modifies this`panel, this`activation, this`experiments
      modifies this`wasPanelOpenedBeyondPeek, this`panelOpenedBeyondPeekTimeNs
      ensures Valid()
      ensures experiments ==
        if Ending(from, to, reason) then EndedExperiments(old(experiments), old(activation.wasActivatedByTap))
        else old(experiments)
      // The heuristic flag of a chained search is irrelevant: the end of the previous search clears it.
      ensures !Ending(from, to, reason) ==>
        panel == if IsStartingNewContextualSearch(to, reason) then StartedPanel(old(panel), reason, old(experiments.resultsSeen))
                 else old(panel)
      ensures activation == NextActivation(old(activation), old(panel), from, to, reason, now)
      ensures old(wasPanelOpenedBeyondPeek) && !to.Expanded? && !to.Maximized? ==>
        !wasPanelOpenedBeyondPeek && panelOpenedBeyondPeekTimeNs == 0
      ensures !(old(wasPanelOpenedBeyondPeek) && !to.Expanded? && !to.Maximized?) ==>
        wasPanelOpenedBeyondPeek == old(wasPanelOpenedBeyondPeek) &&
        panelOpenedBeyondPeekTimeNs == old(panelOpenedBeyondPeekTimeNs)
    {
      LeavePreviousState(from, to, reason);
      EnterNextState(from, to, reason, now);
    }

    /** An ending search drops its heuristics, and leaving the opened panel
        for a state that hides the content stops its timer. */
    method LeavePreviousState(from: PanelState, to: PanelState, reason: StateChangeReason)
      requires Valid()
      modifies this`experiments, this`wasPanelOpenedBeyondPeek, this`panelOpenedBeyondPeekTimeNs
      ensures Valid()
      ensures experiments ==
        if Ending(from, to, reason) then EndedExperiments(old(experiments), activation.wasActivatedByTap)
        else old(experiments)
      ensures old(wasPanelOpenedBeyondPeek) && !to.Expanded? && !to.Maximized? ==>
        !wasPanelOpenedBeyondPeek && panelOpenedBeyondPeekTimeNs == 0
      ensures !(old(wasPanelOpenedBeyondPeek) && !to.Expanded? && !to.Maximized?) ==>
        wasPanelOpenedBeyondPeek == old(wasPanelOpenedBeyondPeek) &&
        panelOpenedBeyondPeekTimeNs == old(panelOpenedBeyondPeekTimeNs)
    {
      var isStartingSearch := IsStartingNewContextualSearch(to, reason);
      var isEndingSearch := IsEndingContextualSearch(from, to, isStartingSearch);
      var isContentVisible := to.Maximized? || to.Expanded?;
      var isExitingPanelOpenedBeyondPeeked := wasPanelOpenedBeyondPeek && !isContentVisible;
      if isEndingSearch {
        DropExperiments();
      }
      if isExitingPanelOpenedBeyondPeeked {
        panelOpenedBeyondPeekTimeNs := 0;
        wasPanelOpenedBeyondPeek := false;
      }
    }

    /** A new search resets its activation record, and the first view of
        the content starts the loading timer. */
    method EnterNextState(from: PanelState, to: PanelState, reason: StateChangeReason, now: int)
      modifies this`panel, this`activation
      ensures panel ==
        if IsStartingNewContextualSearch(to, reason) then StartedPanel(old(panel), reason, experiments.resultsSeen)
        else old(panel)
      ensures activation == NextActivation(old(activation), old(panel), from, to, reason, now)
    {
      var isStartingSearch := IsStartingNewContextualSearch(to, reason);
      var isFirstSearchView := FirstExitFromPeeking(from, to, reason, panel.hasExitedPeeking) && !to.Closed?;
      if isStartingSearch {
        StartSearch(reason, now);
      }
      if isFirstSearchView {
        OnSearchPanelFirstView(now);
      }
    }

    /** The end of onPanelStateChanged: the first exit, the open state
        reached and a SERP navigation are recorded, and an ending search
        clears every per-search flag. */
    method RecordTransition(flags: PanelFlags, from: PanelState, to: PanelState, reason: StateChangeReason)
      modifies this`panel, this`search
      ensures panel ==
        if Ending(from, to, reason) then ClearedPanel
        else RecordStateFlags(old(panel), to, reason, FirstExitFromPeeking(from, to, reason, flags.hasExitedPeeking),
                              from.Expanded? && !flags.hasExitedExpanded && from != to,
                              from.Maximized? && !flags.hasExitedMaximized && from != to)
      ensures search == if Ending(from, to, reason) then ClearedSearch else old(search)
    {
      var isStartingSearch := IsStartingNewContextualSearch(to, reason);
      var isEndingSearch := IsEndingContextualSearch(from, to, isStartingSearch);
      var isSameState := from == to;
      var isFirstExitFromPeeking := from.Peeked? && !flags.hasExitedPeeking && (!isSameState || isStartingSearch);
      var isFirstExitFromExpanded := from.Expanded? && !flags.hasExitedExpanded && !isSameState;
      var isFirstExitFromMaximized := from.Maximized? && !flags.hasExitedMaximized && !isSameState;
      panel := RecordStateFlags(panel, to, reason, isFirstExitFromPeeking, isFirstExitFromExpanded,
                                isFirstExitFromMaximized);
      if isEndingSearch {
        panel := ClearedPanel;
        search := ClearedSearch;
      }
    }

    /** The end of a search: the results-seen heuristics are dropped, and
        so are the Ranker heuristics of a tap search. */
    method DropExperiments()
      modifies this`experiments
      ensures experiments == EndedExperiments(old(experiments), activation.wasActivatedByTap)
    {
      if experiments.resultsSeen.Some? {
        experiments := experiments.(resultsSeen := None);
      }
      if activation.wasActivatedByTap && experiments.hasRanker {
        experiments := experiments.(hasRanker := false);
      }
    }

    /** The start of a new search: its timers, preload and activation record
        are reset, and a tap search records whether a heuristic held. */
    method StartSearch(reason: StateChangeReason, now: int)
      modifies this`activation, this`panel
      ensures activation == Activation(reason.TextSelectTap?, BlacklistNone, false, now, 0)
      ensures panel == StartedPanel(old(panel), reason, experiments.resultsSeen)
    {
      activation := activation.(firstPeekTimeNs := now);
      activation := activation.(contentFirstViewTimeNs := 0);
      activation := activation.(isSearchPanelFullyPreloaded := false);
      activation := activation.(wasActivatedByTap := reason.TextSelectTap?);
      activation := activation.(blacklistReason := BlacklistNone);
      if activation.wasActivatedByTap && experiments.resultsSeen.Some? {
        panel := panel.(wasAnyHeuristicSatisfiedOnPanelShow := experiments.resultsSeen.value);
      } else {
        panel := panel.(wasAnyHeuristicSatisfiedOnPanelShow := false);
      }
    }

    /** onSearchPanelFirstView: a panel that is not fully preloaded starts
        its loading timer. */
    method OnSearchPanelFirstView(now: int)
      modifies this`activation
      ensures activation == if old(activation).isSearchPanelFullyPreloaded then old(activation)
                            else old(activation).(contentFirstViewTimeNs := now)
    {
      if !activation.isSearchPanelFullyPreloaded {
        activation := activation.(contentFirstViewTimeNs := now);
      }
    }

    /** logFirstStateEntry, logFirstStateExit and logPanelStateUserAction. */
    method LogStateChange(from: PanelState, to: PanelState, reasonForLogging: StateChangeReason,
                          firstEntry: bool, firstExit: bool)
      modifies this`log
      ensures log == old(log) + Events(from, to, reasonForLogging, firstEntry, firstExit)
    {
      if firstEntry {
        log := log + [FirstStateEntry(from, to, reasonForLogging)];
      }
      if firstExit {
        log := log + [FirstStateExit(from, to, reasonForLogging)];
      }
      log := log + [PanelStateUserAction(to, reasonForLogging)];
    }

    method SetBlacklistReason(reason: BlacklistReason)
      modifies this`activation
      ensures activation == old(activation).(blacklistReason := reason)
    {
      activation := activation.(blacklistReason := reason);
    }

    method SetDidSearchInvolvePromo()
      modifies this`search
      ensures search == old(search).(didSearchInvolvePromo := true)
    {
      search := search.(didSearchInvolvePromo := true);
    }

    /** setWasSearchContentViewSeen: the panel is now open beyond peek, from
        this clock reading. */
    method SetWasSearchContentViewSeen(now: int)
      requires now != 0
      modifies this`search, this`wasPanelOpenedBeyondPeek, this`panelOpenedBeyondPeekTimeNs
      ensures Valid()
      ensures search == old(search).(wasSearchContentViewSeen := true)
      ensures wasPanelOpenedBeyondPeek && panelOpenedBeyondPeekTimeNs == now
    {
      search := search.(wasSearchContentViewSeen := true);
      wasPanelOpenedBeyondPeek := true;
      panelOpenedBeyondPeekTimeNs := now;
    }

    method SetIsPromoActive(shown: bool)
      modifies this`isPromoActive
      ensures isPromoActive == shown
    {
      isPromoActive := shown;
    }

    method SetWasIconSpriteAnimated(animated: bool)
      modifies this`wasIconSpriteAnimated
      ensures wasIconSpriteAnimated == animated
    {
      wasIconSpriteAnimated := animated;
    }

    method SetWasSelectionPartOfUrl(wasPartOfUrl: bool)
      modifies this`search
      ensures search == old(search).(wasSelectionPartOfUrl := wasPartOfUrl)
    {
      search := search.(wasSelectionPartOfUrl := wasPartOfUrl);
    }

    method SetWasContextualCardsDataShown(shown: bool)
      modifies this`search
      ensures search == old(search).(wasContextualCardsDataShown := shown)
    {
      search := search.(wasContextualCardsDataShown := shown);
    }

    /** setWasQuickActionShown: the category is recorded only for a shown
        quick action. */
    method SetWasQuickActionShown(shown: bool, category: int)
      modifies this`search
      ensures search == if shown then old(search).(wasQuickActionShown := true, quickActionCategory := category)
                        else old(search).(wasQuickActionShown := false)
    {
      search := search.(wasQuickActionShown := shown);
      if search.wasQuickActionShown {
        search := search.(quickActionCategory := category);
      }
    }

    method SetWasQuickActionClicked()
      modifies this`search
      ensures search == old(search).(wasQuickActionClicked := true)
    {
      search := search.(wasQuickActionClicked := true);
    }

    method OnPanelTriggeredFromTap(now: int)
      modifies this`search
      ensures search == old(search).(panelTriggerTimeFromTapNs := now)
    {
      search := search.(panelTriggerTimeFromTapNs := now);
    }

    method OnSearchRequestStarted(now: int)
      modifies this`searchRequestStartTimeNs
      ensures searchRequestStartTimeNs == now
    {
      searchRequestStartTimeNs := now;
    }

    /** onSearchResultsLoaded: the panel counts as fully preloaded. */
    method OnSearchResultsLoaded(wasPrefetch: bool)
      modifies this`activation
      ensures activation == old(activation).(isSearchPanelFullyPreloaded := true)
    {
      activation := activation.(isSearchPanelFullyPreloaded := true);
    }

    method SetResultsSeenExperiments(resultsSeen: Option<bool>)
      modifies this`experiments
      ensures experiments == old(experiments).(resultsSeen := resultsSeen)
    {
      experiments := experiments.(resultsSeen := resultsSeen);
    }

    method SetRankerLogExperiments(present: bool)
      modifies this`experiments
      ensures experiments == old(experiments).(hasRanker := present)
    {
      experiments := experiments.(hasRanker := present);
    }

    /** onSelectionEstablished with the case mappings of the default locale
        as parameters. An empty selection makes charAt(0) throw after the
        length and the all-caps flag are stored: ok is false and the first
        character and the capital flag are left as they were. */
    method OnSelectionEstablished(selection: string, upper: char -> char, lower: char -> char) returns (ok: bool)
      modifies this`selectionLength, this`selectionFirstChar, this`search
      ensures ok <==> |selection| > 0
      ensures selectionLength == |selection|
      ensures search.wasSelectionAllCaps <==> SelectionAllCaps(selection, upper, lower)
      ensures ok ==> (selectionFirstChar == selection[0] &&
        (search.didSelectionStartWithCapital <==> SelectionAllCaps([selection[0]], upper, lower)))
      ensures !ok ==> (selectionFirstChar == old(selectionFirstChar) &&
        search.didSelectionStartWithCapital == old(search.didSelectionStartWithCapital))
      ensures search == old(search).(wasSelectionAllCaps := search.wasSelectionAllCaps,
                                     didSelectionStartWithCapital := search.didSelectionStartWithCapital)
    {
      selectionLength := |selection|;
      search := search.(wasSelectionAllCaps := SelectionAllCaps(selection, upper, lower));
      if |selection| == 0 {
        return false;
      }
      selectionFirstChar := selection[0];
      var firstChar := [selectionFirstChar];
      search := search.(didSelectionStartWithCapital := SelectionAllCaps(firstChar, upper, lower));
      ok := true;
    }
  }

  /** The heuristics an ending search leaves: the results-seen ones are
      always dropped, the Ranker ones only by a tap search. */
  function EndedExperiments(e: Experiments, wasActivatedByTap: bool): (r: Experiments)
    ensures r.resultsSeen.None?
    ensures r.hasRanker <==> e.hasRanker && !wasActivatedByTap
  {
    var dropped := e.(resultsSeen := None);
    if wasActivatedByTap then dropped.(hasRanker := false) else dropped
  }

  /** The activation record after a transition: a new search resets it
      (activated by tap or not, no blacklist reason, not preloaded, peeked
      now), and the first view of the content starts the loading timer
      unless the panel is preloaded. */
  function NextActivation(a: Activation, p: PanelFlags, from: PanelState, to: PanelState,
                          reason: StateChangeReason, now: int): (r: Activation)
    ensures IsStartingNewContextualSearch(to, reason) ==>
      r.wasActivatedByTap == (reason.TextSelectTap?) && r.blacklistReason == BlacklistNone &&
      !r.isSearchPanelFullyPreloaded && r.firstPeekTimeNs == now
    ensures !IsStartingNewContextualSearch(to, reason) ==>
      r.wasActivatedByTap == a.wasActivatedByTap && r.blacklistReason == a.blacklistReason &&
      r.isSearchPanelFullyPreloaded == a.isSearchPanelFullyPreloaded && r.firstPeekTimeNs == a.firstPeekTimeNs
    // The loading timer starts at the first view of a panel not preloaded; a new search restarts it.
    ensures FirstExitFromPeeking(from, to, reason, p.hasExitedPeeking) && !to.Closed? &&
            (IsStartingNewContextualSearch(to, reason) || !a.isSearchPanelFullyPreloaded)
      ==> r.contentFirstViewTimeNs == now
    ensures !(FirstExitFromPeeking(from, to, reason, p.hasExitedPeeking) && !to.Closed?) &&
            IsStartingNewContextualSearch(to, reason)
      ==> r.contentFirstViewTimeNs == 0
    ensures !IsStartingNewContextualSearch(to, reason) &&
            !(FirstExitFromPeeking(from, to, reason, p.hasExitedPeeking) && !to.Closed? &&
              !a.isSearchPanelFullyPreloaded)
      ==> r.contentFirstViewTimeNs == a.contentFirstViewTimeNs
  {
    var started :=
      if IsStartingNewContextualSearch(to, reason) then Activation(reason.TextSelectTap?, BlacklistNone, false, now, 0)
      else a;
    if FirstExitFromPeeking(from, to, reason, p.hasExitedPeeking) && !to.Closed? &&
       !started.isSearchPanelFullyPreloaded
    then started.(contentFirstViewTimeNs := now)
    else started
  }

  /** The heuristic flag a starting search records: only a tap with a
      satisfied results-seen heuristic sets it. */
  function StartedPanel(p: PanelFlags, reason: StateChangeReason, resultsSeenExperiments: Option<bool>)
    : (r: PanelFlags)
    ensures r.wasAnyHeuristicSatisfiedOnPanelShow <==> reason.TextSelectTap? && resultsSeenExperiments == Some(true)
    ensures r == p.(wasAnyHeuristicSatisfiedOnPanelShow := r.wasAnyHeuristicSatisfiedOnPanelShow)
  {
    if reason.TextSelectTap? && resultsSeenExperiments.Some? then
      p.(wasAnyHeuristicSatisfiedOnPanelShow := resultsSeenExperiments.value)
    else p.(wasAnyHeuristicSatisfiedOnPanelShow := false)
  }

  /** The first exit from a state, the open states reached and a SERP
      navigation are remembered; a flag once set stays set. */
  function RecordStateFlags(p: PanelFlags, to: PanelState, reason: StateChangeReason,
                            firstExitFromPeeking: bool, firstExitFromExpanded: bool,
                            firstExitFromMaximized: bool): (r: PanelFlags)
    requires !(firstExitFromPeeking && firstExitFromExpanded) && !(firstExitFromPeeking && firstExitFromMaximized)
    requires !(firstExitFromExpanded && firstExitFromMaximized)
    ensures r.hasExpanded == (p.hasExpanded || to.Expanded?)
    ensures r.hasMaximized == (p.hasMaximized || to.Maximized?)
    ensures r.hasExitedPeeking == (p.hasExitedPeeking || firstExitFromPeeking)
    ensures r.hasExitedExpanded == (p.hasExitedExpanded || firstExitFromExpanded)
    ensures r.hasExitedMaximized == (p.hasExitedMaximized || firstExitFromMaximized)
    ensures r.isSerpNavigation == (p.isSerpNavigation || reason.SerpNavigation?)
    ensures r.wasAnyHeuristicSatisfiedOnPanelShow == p.wasAnyHeuristicSatisfiedOnPanelShow
  {
    var exited :=
      if firstExitFromPeeking then p.(hasExitedPeeking := true)
      else if firstExitFromExpanded then p.(hasExitedExpanded := true)
      else if firstExitFromMaximized then p.(hasExitedMaximized := true)
      else p;
    var reached :=
      if to.Expanded? then exited.(hasExpanded := true)
      else if to.Maximized? then exited.(hasMaximized := true)
      else exited;
    if reason.SerpNavigation? then reached.(isSerpNavigation := true) else reached
  }

  /** The panel flags after a transition: a search that ends clears them
      all; otherwise the first exits, the open states reached and a SERP
      navigation are recorded, and a new search records whether a tap met a
      results-seen heuristic. */
  function NextPanel(p: PanelFlags, from: PanelState, to: PanelState, reason: StateChangeReason,
                     resultsSeenExperiments: Option<bool>): PanelFlags
  {
    var started :=
      if IsStartingNewContextualSearch(to, reason) then StartedPanel(p, reason, resultsSeenExperiments) else p;
    var recorded := RecordStateFlags(started, to, reason, FirstExitFromPeeking(from, to, reason, p.hasExitedPeeking),
                                     from.Expanded? && !p.hasExitedExpanded && from != to,
                                     from.Maximized? && !p.hasExitedMaximized && from != to);
    if Ending(from, to, reason) then ClearedPanel else recorded
  }


  /** The condition for logFirstStateEntry: a search starts or ends, or
      the panel reaches an open state for the first time in this search. */
  predicate FirstEntry(p: PanelFlags, from: PanelState, to: PanelState, reason: StateChangeReason)
  {
    IsStartingNewContextualSearch(to, reason) || Ending(from, to, reason) ||
    (!p.hasExpanded && to.Expanded?) || (!p.hasMaximized && to.Maximized?)
  }

  /** The condition for logFirstStateExit: a search starts that is not
      chained (an exit from the closed or undefined state), or the panel
      leaves a state for the first time in this search. */
  predicate FirstExit(p: PanelFlags, from: PanelState, to: PanelState, reason: StateChangeReason)
  {
    (IsStartingNewContextualSearch(to, reason) && !IsOngoingContextualSearch(from)) ||
    FirstExitFromPeeking(from, to, reason, p.hasExitedPeeking) ||
    (from.Expanded? && !p.hasExitedExpanded && from != to) ||
    (from.Maximized? && !p.hasExitedMaximized && from != to)
  }

  /** A search that ends clears the panel flags; otherwise reaching an
      open state and a SERP navigation are remembered. */
  lemma NextPanelRemembers(p: PanelFlags, from: PanelState, to: PanelState, reason: StateChangeReason,
                           resultsSeenExperiments: Option<bool>)
    ensures Ending(from, to, reason) ==> NextPanel(p, from, to, reason, resultsSeenExperiments) == ClearedPanel
    ensures var r := NextPanel(p, from, to, reason, resultsSeenExperiments);
      !Ending(from, to, reason) ==>
        (r.hasExpanded <==> p.hasExpanded || to.Expanded?) &&
        (r.hasMaximized <==> p.hasMaximized || to.Maximized?) &&
        (r.isSerpNavigation <==> p.isSerpNavigation || reason.SerpNavigation?)
  {
  }

  /** Within a search, an exited flag records that its state was left, and
      nothing else sets it. */
  lemma NextPanelExits(p: PanelFlags, from: PanelState, to: PanelState, reason: StateChangeReason,
                       resultsSeenExperiments: Option<bool>)
    ensures var r := NextPanel(p, from, to, reason, resultsSeenExperiments);
      !Ending(from, to, reason) ==>
        (r.hasExitedPeeking <==> p.hasExitedPeeking || (from.Peeked? && from != to)) &&
        (r.hasExitedExpanded <==> p.hasExitedExpanded || (from.Expanded? && from != to)) &&
        (r.hasExitedMaximized <==> p.hasExitedMaximized || (from.Maximized? && from != to))
  {
  }

  /** Only a tap that starts a search with a satisfied results-seen
      heuristic sets the heuristic flag; other transitions within a search
      keep it. */
  lemma NextPanelHeuristic(p: PanelFlags, from: PanelState, to: PanelState, reason: StateChangeReason,
                           resultsSeenExperiments: Option<bool>)
    ensures var r := NextPanel(p, from, to, reason, resultsSeenExperiments);
      !Ending(from, to, reason) && IsStartingNewContextualSearch(to, reason) ==>
        (r.wasAnyHeuristicSatisfiedOnPanelShow <==> reason.TextSelectTap? && resultsSeenExperiments == Some(true))
    ensures var r := NextPanel(p, from, to, reason, resultsSeenExperiments);
      !Ending(from, to, reason) && !IsStartingNewContextualSearch(to, reason) ==>
        r.wasAnyHeuristicSatisfiedOnPanelShow == p.wasAnyHeuristicSatisfiedOnPanelShow
  {
  }

  /** The events logged in order: the first entry, the first exit, and
      always the user action. */
  function Events(from: PanelState, to: PanelState, reasonForLogging: StateChangeReason,
                  firstEntry: bool, firstExit: bool): (events: seq<UmaEvent>)
    ensures 1 <= |events| <= 3
    ensures events[|events| - 1] == PanelStateUserAction(to, reasonForLogging)
    ensures firstEntry ==> events[0] == FirstStateEntry(from, to, reasonForLogging)
    ensures firstEntry && firstExit ==> |events| == 3 && events[1] == FirstStateExit(from, to, reasonForLogging)
    ensures !firstEntry && firstExit ==> |events| == 2 && events[0] == FirstStateExit(from, to, reasonForLogging)
    ensures !firstEntry && !firstExit ==> |events| == 1
  {
    (if firstEntry then [FirstStateEntry(from, to, reasonForLogging)] else []) +
    (if firstExit then [FirstStateExit(from, to, reasonForLogging)] else []) +
    [PanelStateUserAction(to, reasonForLogging)]
  }

  /** The events logged for a transition. A SERP navigation earlier in the
      search is logged as the reason. */
  function TransitionEvents(p: PanelFlags, from: PanelState, to: PanelState, reason: StateChangeReason)
    : (events: seq<UmaEvent>)
    ensures 1 <= |events| <= 3
    ensures events[|events| - 1] == PanelStateUserAction(to, LoggedReason(p.isSerpNavigation, reason))
    // A search that starts or ends logs the entry into its new state.
    ensures IsStartingNewContextualSearch(to, reason) || Ending(from, to, reason) ==>
      events[0] == FirstStateEntry(from, to, LoggedReason(p.isSerpNavigation, reason))
    // A search that starts from a closed panel logs both the entry and the exit.
    ensures IsStartingNewContextualSearch(to, reason) && !IsOngoingContextualSearch(from) ==>
      |events| == 3 && events[1] == FirstStateExit(from, to, LoggedReason(p.isSerpNavigation, reason))
    // Moving within a search that already reached and left every state logs only the user action.
    ensures !IsStartingNewContextualSearch(to, reason) && !Ending(from, to, reason) &&
            p.hasExpanded && p.hasMaximized && p.hasExitedPeeking && p.hasExitedExpanded &&
            p.hasExitedMaximized
      ==> |events| == 1
  {
    Events(from, to, LoggedReason(p.isSerpNavigation, reason), FirstEntry(p, from, to, reason),
           FirstExit(p, from, to, reason))
  }

  /** A per-character case mapping applied to a string. */
  function Map(s: string, f: char -> char): (r: string)
    ensures |r| == |s| && forall i :: 0 <= i < |s| ==> r[i] == f(s[i])
  {
    if |s| == 0 then [] else Map(s[..|s| - 1], f) + [f(s[|s| - 1])]
  }

  /** The selection reads the same upper-cased and differs lower-cased: it
      has letters and all of them are capitals. */
  predicate SelectionAllCaps(s: string, upper: char -> char, lower: char -> char)
  {
    Map(s, upper) == s && Map(s, lower) != s
  }

  /** All caps means some character is changed by lower-casing while no
      character is changed by upper-casing. */
  lemma AllCapsCharacterwise(s: string, upper: char -> char, lower: char -> char)
    ensures SelectionAllCaps(s, upper, lower) <==>
      (forall i :: 0 <= i < |s| ==> upper(s[i]) == s[i]) && (exists i :: 0 <= i < |s| && lower(s[i]) != s[i])
  {
    if SelectionAllCaps(s, upper, lower) {
      var m := Map(s, lower);
      assert m != s;
      assert |m| == |s|;
      var i :| 0 <= i < |s| && m[i] != s[i];
    }
    if (forall i :: 0 <= i < |s| ==> upper(s[i]) == s[i]) && (exists i :: 0 <= i < |s| && lower(s[i]) != s[i]) {
      assert Map(s, upper) == s;
      var i :| 0 <= i < |s| && lower(s[i]) != s[i];
      assert Map(s, lower)[i] != s[i];
    }
  }
}
