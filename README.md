# Verified model of Chromium core components

This project models, in Dafny, thirty small pieces of the Chromium code base
and proves what their code promises. Each source file is one Dafny module in a
file of its own; `common.dfy` holds the shared `Option` type and integer
helpers (Java/C++ truncating division, `Math.round`, 32-bit bounds).

- **Camera2 capture engine** (`camera2.dfy`, VideoCaptureCamera2.java): a class
  holding the lifecycle state, the device flag, the negotiated format and the
  photo settings. The hardware callbacks are methods callable in any order, and
  everything reported to the native layer goes to an event log. Proved: closest
  size and nearest white-balance preset, frame-rate unit normalisation, the
  request keys written from the settings, zoom crop and area-of-interest
  geometry, the `setPhotoOptions` rules, preview-frame validation, and the
  invariant that every finished photo request answers its callback id exactly once.
- **Input and events**: touch-action filtering (`touch_action_filter.dfy`),
  accelerators from keyboard events (`accelerator_util.dfy`).
- **Parsers and decoders**: the legacy `<font size>` parser
  (`html_font_element.dfy`), the SVG path byte-stream reader
  (`svg_path_byte_stream_source.dfy`) and normaliser (`svg_path_parser.dfy`),
  the GIF row writer and repetition-count rule (`gif_image_decoder.dfy`).
- **Data structures**: the geolocation watcher two-way map, the font-service
  path table, the shared-context query FIFO, document-marker type sets, grid
  spans, array-buffer ownership with its 32-bit size check, `content` list
  cloning, gradient stops, the inspector's undoable DOM edit actions over an
  abstract DOM (`dom_editor.dfy`), and the LayoutNG line builder's offset and
  break bookkeeping.
- **Mapping tables with round trips**: CSS keyword to enum conversions, shelf
  mojom traits, preference value states, wallpaper sources, `ContentId`
  ordering, text rotation transforms, GPU workaround names.
- **Small state machines**: the tether keep-alive scheduler, the HTTP to HTTPS
  password migrator, client-hint preferences, contextual-search panel metrics,
  GPU workarounds from command-line switches, the wallpaper window
  minimise/restore manager, and CSS property enumeration in the build script
  (`css_properties.dfy`).

Platform services (cameras, image readers, fetchers, timers,
string-to-number conversion, ICU bidi levels, arc trigonometry) appear as
parameters or abstract values. Each class method states its whole new state,
and the lemmas beside it prove what the source promises of that state.

## Model

| member | source | states |
|---|---|---|
| AcceleratorUtil.GetModifiers | ui/content_accelerators/accelerator_util.cc:16-34 | Shift, Control and Alt each set their own flag exactly when the web modifier is present; Meta sets the command flag exactly on Mac and ChromeOS; the repeat flag is set exactly for a repeated Aura event; no other flag is ever set |
| AcceleratorUtil.ModifiersRoundTrip | ui/content_accelerators/accelerator_util.cc:16-34 | reading the flags back gives exactly the web modifiers the build maps (Shift, Control, Alt, and Meta only on Mac and ChromeOS); every other web bit is dropped |
| AcceleratorUtil.GetAccelerator | ui/content_accelerators/accelerator_util.cc:38-46 | the accelerator keeps the Windows key code, carries the translated modifiers, and is in the released state exactly for a key-up event |
| AcceleratorUtil.AcceleratorIgnoresTypeButKeyUp | ui/content_accelerators/accelerator_util.cc:38-46 | changing only the event type changes the accelerator exactly when it changes whether the event is a key-up |
| ClientHints.ClientHintsPreferences.constructor | third_party/WebKit/Source/platform/loader/fetch/ClientHintsPreferences.cpp:12-15 | a new preference set sends none of the three hints |
| ClientHints.ClientHintsPreferences.UpdateFrom | third_party/WebKit/Source/platform/loader/fetch/ClientHintsPreferences.cpp:17-22 | all three preferences become those of the other set (read before the update, so copying from itself changes nothing) |
| ClientHints.ClientHintsPreferences.UpdateFromAcceptClientHintsHeader | third_party/WebKit/Source/platform/loader/fetch/ClientHintsPreferences.cpp:24-49 | with the feature off or an empty header nothing changes; otherwise each of "dpr", "width" and "viewport-width" in the header turns its own preference on and is counted once on the context when there is one; no preference is ever turned off |
| ContentDataModel.ContentData.constructor | third_party/WebKit/Source/core/style/ContentData.cpp:37-51 | a node holds the given item and is not linked to anything |
| ContentDataModel.ContentData.SetNext | third_party/WebKit/Source/core/style/ContentData.cpp:60 | the node's next becomes the given node; its item is untouched |
| ContentDataModel.ContentData.CloneInternal | third_party/WebKit/Source/core/style/ContentData.cpp:54 | a fresh, unlinked node carrying the same item |
| ContentDataModel.ContentData.Clone | third_party/WebKit/Source/core/style/ContentData.cpp:53-65 | the copy is a well-formed list of fresh nodes whose items are those of the original list in the same order, and the original list is unchanged |
| ContentDataModel.CreateImage | third_party/WebKit/Source/core/style/ContentData.cpp:37-39 | a fresh one-node list holding the image item |
| ContentDataModel.CreateText | third_party/WebKit/Source/core/style/ContentData.cpp:41-43 | a fresh one-node list holding the text item |
| ContentDataModel.CreateCounter | third_party/WebKit/Source/core/style/ContentData.cpp:45-47 | a fresh one-node list holding the counter item |
| ContentDataModel.CreateQuote | third_party/WebKit/Source/core/style/ContentData.cpp:49-51 | a fresh one-node list holding the quote item |
| CssFontFaceSrc.IsSupportedFormat | third_party/WebKit/Source/core/css/CSSFontFaceSrcValue.cpp:45-56 | with a format hint the platform's format list decides; without one, data: URLs are always loaded and other URLs exactly when they do not end in ".eot", both compared ignoring ASCII case |
| CssFontFaceSrc.SupportedFormatIgnoresCase | third_party/WebKit/Source/core/css/CSSFontFaceSrcValue.cpp:45-56 | ".EOT" URLs are refused like ".eot", "DATA:" URLs are accepted like "data:", and an ordinary URL is accepted |
| CssFontFaceSrc.SupportedFormatDependsOnlyOnLowerCase | third_party/WebKit/Source/core/css/CSSFontFaceSrcValue.cpp:45-56 | without a format hint, two URLs equal up to ASCII case get the same verdict |
| CssFontFaceSrc.SerializeUri | third_party/WebKit/Source/core/css/CSSFontFaceSrcValue.cpp:65 | serializeURI: url( followed by the serialized string and a closing parenthesis; CustomCssText proves a remote source's text starts with url( |
| CssFontFaceSrc.CustomCssText | third_party/WebKit/Source/core/css/CSSFontFaceSrcValue.cpp:58-73 | the text starts with local( for local sources and url( otherwise, and ends with " format(…)" exactly when there is a format hint |
| CssFontFaceSrc.SrcValueEquals | third_party/WebKit/Source/core/css/CSSFontFaceSrcValue.cpp:126-130 | equals compares locality, format and both resource strings; EqualSourcesSerializeAlike proves it is equality of entries |
| CssFontFaceSrc.EqualSourcesSerializeAlike | third_party/WebKit/Source/core/css/CSSFontFaceSrcValue.cpp:126-130 | equals holds exactly when all four parts agree, and equal sources serialize to the same text |
| CssFontFaceSrc.IsLocalFile | third_party/WebKit/Source/core/css/CSSFontFaceSrcValue.cpp:83 | KURL::isLocalFile: the URL's scheme is file, compared without ASCII case; WithCrossOriginAccessControl proves such requests get no access control |
| CssFontFaceSrc.WithCrossOriginAccessControl | third_party/WebKit/Source/core/css/CSSFontFaceSrcValue.cpp:79-88 | local file URLs are left without access control; any other request gets CORS on behalf of the document's origin, and nothing else about the request changes |
| CssFontFaceSrc.CssFontFaceSrcValue.constructor | third_party/WebKit/Source/core/css/CSSFontFaceSrcValue.cpp:91 | a new source has fetched nothing, issued no request and replayed nothing, so its first fetch takes the branch for an unset m_fetched (the constructor itself is in CSSFontFaceSrcValue.h, which is not part of this model) |
| CssFontFaceSrc.CssFontFaceSrcValue.Fetch | third_party/WebKit/Source/core/css/CSSFontFaceSrcValue.cpp:90-124 | the first call issues exactly one request (cache-aware when enabled, with the CSP flag and cross-origin control) and remembers the fetcher's resource; once one is remembered, later calls return it, issue no request and replay it to the inspector once each |
| CssFontFaceSrc.CssFontFaceSrcValue.HasFailedOrCanceledSubresources | third_party/WebKit/Source/core/css/CSSFontFaceSrcValue.cpp:75-77 | a resource was fetched and its load failed or was canceled (the resource's own state is a parameter); the constructor's and Fetch's contracts give when a resource is held |
| ContextualSearchPanelMetrics.IsStartingNewContextualSearch | chrome/android/java/src/org/chromium/chrome/browser/compositor/bottombar/contextualsearch/ContextualSearchPanelMetrics.java:461-465 | a search starts when a tap or long-press selection brings the panel to the peeking state; ChainedSearchEndsPrevious proves no closing transition starts one |
| ContextualSearchPanelMetrics.IsEndingContextualSearch | chrome/android/java/src/org/chromium/chrome/browser/compositor/bottombar/contextualsearch/ContextualSearchPanelMetrics.java:474-478 | a search ends when the panel was showing and either closes or a new search starts; ChainedSearchEndsPrevious proves a starting search ends one exactly when one was going on |
| ContextualSearchPanelMetrics.IsOngoingContextualSearch | chrome/android/java/src/org/chromium/chrome/browser/compositor/bottombar/contextualsearch/ContextualSearchPanelMetrics.java:484-486 | a search is going on unless the panel was undefined or closed; ChainedSearchEndsPrevious proves nothing ends without one |
| ContextualSearchPanelMetrics.ChainedSearchEndsPrevious | chrome/android/java/src/org/chromium/chrome/browser/compositor/bottombar/contextualsearch/ContextualSearchPanelMetrics.java:92-94 | a starting search ends the current one exactly when the panel was showing (a chained search); a transition to closed never starts a search; a panel that was not showing ends nothing |
| ContextualSearchPanelMetrics.PanelMetrics.constructor | chrome/android/java/src/org/chromium/chrome/browser/compositor/bottombar/contextualsearch/ContextualSearchPanelMetrics.java:28-73 | every flag false, every time and count 0, no blacklist reason, no heuristics, nothing logged |
| ContextualSearchPanelMetrics.PanelMetrics.OnPanelStateChanged | chrome/android/java/src/org/chromium/chrome/browser/compositor/bottombar/contextualsearch/ContextualSearchPanelMetrics.java:88-276 | keeps the opened-beyond-peek invariant (the Java assert); the panel flags follow NextPanel, the activation record NextActivation; an ending search clears every per-search flag and drops its heuristics; leaving the opened panel for a hidden state stops its timer; the log gains exactly TransitionEvents |
| ContextualSearchPanelMetrics.PanelMetrics.BeginTransition | chrome/android/java/src/org/chromium/chrome/browser/compositor/bottombar/contextualsearch/ContextualSearchPanelMetrics.java:120-212 | the part before the logging: an ending search drops its heuristics, leaving the opened panel clears its flag and time, a new search resets its activation record and heuristic flag, and the first view starts the loading timer |
| ContextualSearchPanelMetrics.PanelMetrics.LeavePreviousState | chrome/android/java/src/org/chromium/chrome/browser/compositor/bottombar/contextualsearch/ContextualSearchPanelMetrics.java:163-195 | an ending search drops its heuristics; leaving the opened panel for a state that hides the content clears the flag and its time, otherwise both are kept |
| ContextualSearchPanelMetrics.PanelMetrics.EnterNextState | chrome/android/java/src/org/chromium/chrome/browser/compositor/bottombar/contextualsearch/ContextualSearchPanelMetrics.java:197-212 | a starting search resets the activation record; the first exit from peeking to a visible state starts the loading timer |
| ContextualSearchPanelMetrics.PanelMetrics.RecordTransition | chrome/android/java/src/org/chromium/chrome/browser/compositor/bottombar/contextualsearch/ContextualSearchPanelMetrics.java:237-275 | the first exits, the open states reached and a SERP navigation are recorded, and an ending search clears every panel and search flag |
| ContextualSearchPanelMetrics.PanelMetrics.DropExperiments | chrome/android/java/src/org/chromium/chrome/browser/compositor/bottombar/contextualsearch/ContextualSearchPanelMetrics.java:163-181 | the results-seen heuristics are always dropped; the Ranker ones only when the search was activated by a tap |
| ContextualSearchPanelMetrics.PanelMetrics.StartSearch | chrome/android/java/src/org/chromium/chrome/browser/compositor/bottombar/contextualsearch/ContextualSearchPanelMetrics.java:197-209 | the peek time is now, the view time 0, not preloaded, activated by tap exactly for a tap reason, no blacklist reason, and the heuristic flag holds exactly for a tap with satisfied results-seen heuristics |
| ContextualSearchPanelMetrics.PanelMetrics.OnSearchPanelFirstView | chrome/android/java/src/org/chromium/chrome/browser/compositor/bottombar/contextualsearch/ContextualSearchPanelMetrics.java:445-453 | a fully preloaded panel keeps its record; otherwise the content view time becomes now |
| ContextualSearchPanelMetrics.PanelMetrics.LogStateChange | chrome/android/java/src/org/chromium/chrome/browser/compositor/bottombar/contextualsearch/ContextualSearchPanelMetrics.java:220-234 | the log gains the first-entry event when it applies, then the first-exit event when it applies, then the user action |
| ContextualSearchPanelMetrics.PanelMetrics.SetBlacklistReason | chrome/android/java/src/org/chromium/chrome/browser/compositor/bottombar/contextualsearch/ContextualSearchPanelMetrics.java:282-284 | only the blacklist reason changes, to the given one |
| ContextualSearchPanelMetrics.PanelMetrics.SetDidSearchInvolvePromo | chrome/android/java/src/org/chromium/chrome/browser/compositor/bottombar/contextualsearch/ContextualSearchPanelMetrics.java:289-291 | only the promo flag changes, to true |
| ContextualSearchPanelMetrics.PanelMetrics.SetWasSearchContentViewSeen | chrome/android/java/src/org/chromium/chrome/browser/compositor/bottombar/contextualsearch/ContextualSearchPanelMetrics.java:296-300 | the content-seen flag and the opened-beyond-peek flag are set and the opening time is now, keeping the invariant |
| ContextualSearchPanelMetrics.PanelMetrics.SetIsPromoActive | chrome/android/java/src/org/chromium/chrome/browser/compositor/bottombar/contextualsearch/ContextualSearchPanelMetrics.java:305-307 | the promo-active flag becomes the given value |
| ContextualSearchPanelMetrics.PanelMetrics.SetWasIconSpriteAnimated | chrome/android/java/src/org/chromium/chrome/browser/compositor/bottombar/contextualsearch/ContextualSearchPanelMetrics.java:312-314 | the icon-sprite flag becomes the given value |
| ContextualSearchPanelMetrics.PanelMetrics.SetWasSelectionPartOfUrl | chrome/android/java/src/org/chromium/chrome/browser/compositor/bottombar/contextualsearch/ContextualSearchPanelMetrics.java:319-321 | only the part-of-URL flag changes, to the given value |
| ContextualSearchPanelMetrics.PanelMetrics.SetWasContextualCardsDataShown | chrome/android/java/src/org/chromium/chrome/browser/compositor/bottombar/contextualsearch/ContextualSearchPanelMetrics.java:327-329 | only the cards-shown flag changes, to the given value |
| ContextualSearchPanelMetrics.PanelMetrics.SetWasQuickActionShown | chrome/android/java/src/org/chromium/chrome/browser/compositor/bottombar/contextualsearch/ContextualSearchPanelMetrics.java:335-338 | the shown flag becomes the given value; the category is recorded only when shown |
| ContextualSearchPanelMetrics.PanelMetrics.SetWasQuickActionClicked | chrome/android/java/src/org/chromium/chrome/browser/compositor/bottombar/contextualsearch/ContextualSearchPanelMetrics.java:343-345 | only the clicked flag changes, to true |
| ContextualSearchPanelMetrics.PanelMetrics.OnPanelTriggeredFromTap | chrome/android/java/src/org/chromium/chrome/browser/compositor/bottombar/contextualsearch/ContextualSearchPanelMetrics.java:350-352 | only the trigger time changes, to now |
| ContextualSearchPanelMetrics.PanelMetrics.OnSearchRequestStarted | chrome/android/java/src/org/chromium/chrome/browser/compositor/bottombar/contextualsearch/ContextualSearchPanelMetrics.java:385-387 | the request start time becomes now |
| ContextualSearchPanelMetrics.PanelMetrics.OnSearchResultsLoaded | chrome/android/java/src/org/chromium/chrome/browser/compositor/bottombar/contextualsearch/ContextualSearchPanelMetrics.java:402-413 | only the fully-preloaded flag changes, to true |
| ContextualSearchPanelMetrics.PanelMetrics.SetResultsSeenExperiments | chrome/android/java/src/org/chromium/chrome/browser/compositor/bottombar/contextualsearch/ContextualSearchPanelMetrics.java:429-431 | only the results-seen heuristics change, to the given ones |
| ContextualSearchPanelMetrics.PanelMetrics.SetRankerLogExperiments | chrome/android/java/src/org/chromium/chrome/browser/compositor/bottombar/contextualsearch/ContextualSearchPanelMetrics.java:438-440 | only the Ranker heuristics change, to the given presence |
| ContextualSearchPanelMetrics.PanelMetrics.OnSelectionEstablished | chrome/android/java/src/org/chromium/chrome/browser/compositor/bottombar/contextualsearch/ContextualSearchPanelMetrics.java:357-368 | the length is stored; the all-caps flag holds exactly when upper-casing keeps the selection and lower-casing changes it; the first character and the capital flag are set the same way for a non-empty selection, and an empty one fails at charAt(0) leaving them |
| ContextualSearchPanelMetrics.EndedExperiments | chrome/android/java/src/org/chromium/chrome/browser/compositor/bottombar/contextualsearch/ContextualSearchPanelMetrics.java:163-181 | after an ending search no results-seen heuristics remain, and the Ranker ones remain exactly when present and the search was not activated by tap |
| ContextualSearchPanelMetrics.NextActivation | chrome/android/java/src/org/chromium/chrome/browser/compositor/bottombar/contextualsearch/ContextualSearchPanelMetrics.java:197-212 | a starting search gets a fresh record with the peek time now; otherwise only the first exit from peeking to a visible state, when not preloaded, sets the content view time |
| ContextualSearchPanelMetrics.StartedPanel | chrome/android/java/src/org/chromium/chrome/browser/compositor/bottombar/contextualsearch/ContextualSearchPanelMetrics.java:203-208 | the heuristic flag holds exactly for a tap with satisfied results-seen heuristics, and no other panel flag changes |
| ContextualSearchPanelMetrics.RecordStateFlags | chrome/android/java/src/org/chromium/chrome/browser/compositor/bottombar/contextualsearch/ContextualSearchPanelMetrics.java:237-252 | each has-flag and exited-flag becomes its old value or the event that sets it, and the heuristic flag is kept |
| ContextualSearchPanelMetrics.FirstExitFromPeeking | chrome/android/java/src/org/chromium/chrome/browser/compositor/bottombar/contextualsearch/ContextualSearchPanelMetrics.java:96-97 | the panel leaves the peeking state, or a new search restarts it, for the first time in this search; NextPanelExits proves the exited-peeking flag follows it |
| ContextualSearchPanelMetrics.NextPanel | chrome/android/java/src/org/chromium/chrome/browser/compositor/bottombar/contextualsearch/ContextualSearchPanelMetrics.java:236-275 | the panel flags after a transition: cleared when the search ends, otherwise with the first exits, the open states reached and a SERP navigation recorded; NextPanelRemembers, NextPanelExits and NextPanelHeuristic state each part |
| ContextualSearchPanelMetrics.NextPanelRemembers | chrome/android/java/src/org/chromium/chrome/browser/compositor/bottombar/contextualsearch/ContextualSearchPanelMetrics.java:245-275 | an ending search clears all panel flags; otherwise reaching expanded or maximized and a SERP navigation are remembered, and nothing else sets them |
| ContextualSearchPanelMetrics.NextPanelExits | chrome/android/java/src/org/chromium/chrome/browser/compositor/bottombar/contextualsearch/ContextualSearchPanelMetrics.java:96-101 | within a search, each exited flag becomes set exactly when its state is left (or was already set) |
| ContextualSearchPanelMetrics.NextPanelHeuristic | chrome/android/java/src/org/chromium/chrome/browser/compositor/bottombar/contextualsearch/ContextualSearchPanelMetrics.java:197-209 | only a tap that starts a search with satisfied heuristics sets the heuristic flag; other transitions within a search keep it |
| ContextualSearchPanelMetrics.Events | chrome/android/java/src/org/chromium/chrome/browser/compositor/bottombar/contextualsearch/ContextualSearchPanelMetrics.java:222-234 | one to three events, in the order first entry, first exit, user action, with the user action always last |
| ContextualSearchPanelMetrics.LoggedReason | chrome/android/java/src/org/chromium/chrome/browser/compositor/bottombar/contextualsearch/ContextualSearchPanelMetrics.java:220-221 | after a SERP navigation the transition is logged as SERP_NAVIGATION, otherwise with its own reason; TransitionEvents proves the user action carries it |
| ContextualSearchPanelMetrics.FirstEntry | chrome/android/java/src/org/chromium/chrome/browser/compositor/bottombar/contextualsearch/ContextualSearchPanelMetrics.java:222-226 | a first state entry is logged when a search starts or ends or an open state is reached for the first time; TransitionEvents states the resulting log |
| ContextualSearchPanelMetrics.FirstExit | chrome/android/java/src/org/chromium/chrome/browser/compositor/bottombar/contextualsearch/ContextualSearchPanelMetrics.java:229-232 | a first state exit is logged when an unchained search starts or a state is left for the first time; TransitionEvents states the resulting log |
| ContextualSearchPanelMetrics.TransitionEvents | chrome/android/java/src/org/chromium/chrome/browser/compositor/bottombar/contextualsearch/ContextualSearchPanelMetrics.java:220-234 | the user action is always logged last with the SERP reason when earlier navigated; a search that starts or ends logs the entry first; a search starting from a closed panel logs entry and exit; a move within a search that has seen every state logs only the action |
| ContextualSearchPanelMetrics.SelectionAllCaps | chrome/android/java/src/org/chromium/chrome/browser/compositor/bottombar/contextualsearch/ContextualSearchPanelMetrics.java:361-362 | the selection equals its upper-cased form and differs from its lower-cased form; AllCapsCharacterwise restates this character by character |
| ContextualSearchPanelMetrics.AllCapsCharacterwise | chrome/android/java/src/org/chromium/chrome/browser/compositor/bottombar/contextualsearch/ContextualSearchPanelMetrics.java:361-362 | all caps holds exactly when no character changes upper-cased and some character changes lower-cased |
| CssMappings.CSSReflectionDirectionKeyword | third_party/WebKit/Source/core/css/CSSPrimitiveValueMappings.h:110-125 | the keyword each CSSReflectionDirection value is written as, one keyword per value; CSSReflectionDirectionRoundTrip proves that converting it back gives the value |
| CssMappings.CSSReflectionDirectionFromKeyword | third_party/WebKit/Source/core/css/CSSPrimitiveValueMappings.h:128-144 | the CSSReflectionDirection value a keyword converts to, ReflectionBelow for every keyword the switch does not list; CSSReflectionDirectionKeywordRoundTrip and CSSReflectionDirectionFallback state both cases |
| CssMappings.CSSReflectionDirectionRoundTrip | third_party/WebKit/Source/core/css/CSSPrimitiveValueMappings.h:110-144 | converting the keyword a value is written as gives that value back |
| CssMappings.CSSReflectionDirectionFallback | third_party/WebKit/Source/core/css/CSSPrimitiveValueMappings.h:128-144 | every keyword the conversion does not recognise gives ReflectionBelow |
| CssMappings.CSSReflectionDirectionKeywordRoundTrip | third_party/WebKit/Source/core/css/CSSPrimitiveValueMappings.h:110-144 | a keyword the serialisation writes converts to a value that is written as that same keyword |
| CssMappings.CSSReflectionDirectionMapping | third_party/WebKit/Source/core/css/CSSPrimitiveValueMappings.h:110-144 | the round trip both ways, the fallback and the aliases together |
| CssMappings.ColumnFillKeyword | third_party/WebKit/Source/core/css/CSSPrimitiveValueMappings.h:147-157 | the keyword each ColumnFill value is written as, one keyword per value; ColumnFillRoundTrip proves that converting it back gives the value |
| CssMappings.ColumnFillFromKeyword | third_party/WebKit/Source/core/css/CSSPrimitiveValueMappings.h:160-167 | the ColumnFill value a keyword converts to, ColumnFillBalance for every keyword the switch does not list; ColumnFillKeywordRoundTrip and ColumnFillFallback state both cases |
| CssMappings.ColumnFillRoundTrip | third_party/WebKit/Source/core/css/CSSPrimitiveValueMappings.h:147-167 | converting the keyword a value is written as gives that value back |
| CssMappings.ColumnFillFallback | third_party/WebKit/Source/core/css/CSSPrimitiveValueMappings.h:160-167 | every keyword the conversion does not recognise gives ColumnFillBalance |
| CssMappings.ColumnFillKeywordRoundTrip | third_party/WebKit/Source/core/css/CSSPrimitiveValueMappings.h:147-167 | a keyword the serialisation writes converts to a value that is written as that same keyword |
| CssMappings.ColumnFillMapping | third_party/WebKit/Source/core/css/CSSPrimitiveValueMappings.h:147-167 | the round trip both ways, the fallback and the aliases together |
| CssMappings.EFillBoxKeyword | third_party/WebKit/Source/core/css/CSSPrimitiveValueMappings.h:556-572 | the keyword each EFillBox value is written as, one keyword per value; EFillBoxRoundTrip proves that converting it back gives the value |
| CssMappings.EFillBoxFromKeyword | third_party/WebKit/Source/core/css/CSSPrimitiveValueMappings.h:575-594 | the EFillBox value a keyword converts to, BorderFillBox for every keyword the switch does not list; EFillBoxKeywordRoundTrip and EFillBoxFallback state both cases |
| CssMappings.EFillBoxRoundTrip | third_party/WebKit/Source/core/css/CSSPrimitiveValueMappings.h:556-594 | converting the keyword a value is written as gives that value back |
| CssMappings.EFillBoxFallback | third_party/WebKit/Source/core/css/CSSPrimitiveValueMappings.h:575-594 | every keyword the conversion does not recognise gives BorderFillBox |
| CssMappings.EFillBoxKeywordRoundTrip | third_party/WebKit/Source/core/css/CSSPrimitiveValueMappings.h:556-594 | a keyword the serialisation writes converts to a value that is written as that same keyword |
| CssMappings.EFillBoxAliases | third_party/WebKit/Source/core/css/CSSPrimitiveValueMappings.h:575-594 | the old keywords border, padding and content convert to the same boxes as border-box, padding-box and content-box, which are what is written back |
| CssMappings.EFillBoxMapping | third_party/WebKit/Source/core/css/CSSPrimitiveValueMappings.h:556-594 | the round trip both ways, the fallback and the aliases together |
| CssMappings.EFillRepeatKeyword | third_party/WebKit/Source/core/css/CSSPrimitiveValueMappings.h:597-613 | the keyword each EFillRepeat value is written as, one keyword per value; EFillRepeatRoundTrip proves that converting it back gives the value |
| CssMappings.EFillRepeatFromKeyword | third_party/WebKit/Source/core/css/CSSPrimitiveValueMappings.h:616-632 | the EFillRepeat value a keyword converts to, RepeatFill for every keyword the switch does not list; EFillRepeatKeywordRoundTrip and EFillRepeatFallback state both cases |
| CssMappings.EFillRepeatRoundTrip | third_party/WebKit/Source/core/css/CSSPrimitiveValueMappings.h:597-632 | converting the keyword a value is written as gives that value back |
| CssMappings.EFillRepeatFallback | third_party/WebKit/Source/core/css/CSSPrimitiveValueMappings.h:616-632 | every keyword the conversion does not recognise gives RepeatFill |
| CssMappings.EFillRepeatKeywordRoundTrip | third_party/WebKit/Source/core/css/CSSPrimitiveValueMappings.h:597-632 | a keyword the serialisation writes converts to a value that is written as that same keyword |
| CssMappings.EFillRepeatMapping | third_party/WebKit/Source/core/css/CSSPrimitiveValueMappings.h:597-632 | the round trip both ways, the fallback and the aliases together |
| CssMappings.EBoxOrientKeyword | third_party/WebKit/Source/core/css/CSSPrimitiveValueMappings.h:838-848 | the keyword each EBoxOrient value is written as, one keyword per value; EBoxOrientRoundTrip proves that converting it back gives the value |
| CssMappings.EBoxOrientFromKeyword | third_party/WebKit/Source/core/css/CSSPrimitiveValueMappings.h:851-865 | the EBoxOrient value a keyword converts to, Horizontal for every keyword the switch does not list; EBoxOrientKeywordRoundTrip and EBoxOrientFallback state both cases |
| CssMappings.EBoxOrientRoundTrip | third_party/WebKit/Source/core/css/CSSPrimitiveValueMappings.h:838-865 | converting the keyword a value is written as gives that value back |
| CssMappings.EBoxOrientFallback | third_party/WebKit/Source/core/css/CSSPrimitiveValueMappings.h:851-865 | every keyword the conversion does not recognise gives Horizontal |
| CssMappings.EBoxOrientKeywordRoundTrip | third_party/WebKit/Source/core/css/CSSPrimitiveValueMappings.h:838-865 | a keyword the serialisation writes converts to a value that is written as that same keyword |
| CssMappings.EBoxOrientAliases | third_party/WebKit/Source/core/css/CSSPrimitiveValueMappings.h:851-865 | inline-axis converts to horizontal and block-axis to vertical, the keywords written back |
| CssMappings.EBoxOrientMapping | third_party/WebKit/Source/core/css/CSSPrimitiveValueMappings.h:838-865 | the round trip both ways, the fallback and the aliases together |
| CssMappings.ECursorKeyword | third_party/WebKit/Source/core/css/CSSPrimitiveValueMappings.h:868-980 | the keyword each ECursor value is written as, one keyword per value; ECursorRoundTrip proves that converting it back gives the value |
| CssMappings.ECursorFromKeyword | third_party/WebKit/Source/core/css/CSSPrimitiveValueMappings.h:983-1063 | the ECursor value a keyword converts to, CursorAuto for every keyword the switch does not list; ECursorKeywordRoundTrip and ECursorFallback state both cases |
| CssMappings.ECursorRoundTrip | third_party/WebKit/Source/core/css/CSSPrimitiveValueMappings.h:868-1063 | converting the keyword a value is written as gives that value back |
| CssMappings.ECursorFallback | third_party/WebKit/Source/core/css/CSSPrimitiveValueMappings.h:983-1063 | every keyword the conversion does not recognise gives CursorAuto |
| CssMappings.ECursorKeywordRoundTrip | third_party/WebKit/Source/core/css/CSSPrimitiveValueMappings.h:868-1063 | a keyword the serialisation writes converts to a value that is written as that same keyword |
| CssMappings.ECursorAliases | third_party/WebKit/Source/core/css/CSSPrimitiveValueMappings.h:983-1063 | -webkit-zoom-in and -webkit-zoom-out convert to the zoom cursors, written back as zoom-in and zoom-out |
| CssMappings.ECursorMapping | third_party/WebKit/Source/core/css/CSSPrimitiveValueMappings.h:868-1063 | the round trip both ways, the fallback and the aliases together |
| CssMappings.EDisplayKeyword | third_party/WebKit/Source/core/css/CSSPrimitiveValueMappings.h:1066-1139 | the keyword each EDisplay value is written as, one keyword per value; EDisplayRoundTrip proves that converting it back gives the value |
| CssMappings.EDisplayFromKeyword | third_party/WebKit/Source/core/css/CSSPrimitiveValueMappings.h:1142-1197 | the EDisplay value a keyword converts to, DisplayNone for every keyword the switch does not list; EDisplayKeywordRoundTrip and EDisplayFallback state both cases |
| CssMappings.EDisplayRoundTrip | third_party/WebKit/Source/core/css/CSSPrimitiveValueMappings.h:1066-1197 | converting the keyword a value is written as gives that value back |
| CssMappings.EDisplayFallback | third_party/WebKit/Source/core/css/CSSPrimitiveValueMappings.h:1142-1197 | every keyword the conversion does not recognise gives DisplayNone |
| CssMappings.EDisplayKeywordRoundTrip | third_party/WebKit/Source/core/css/CSSPrimitiveValueMappings.h:1066-1197 | a keyword the serialisation writes converts to a value that is written as that same keyword |
| CssMappings.EDisplayAliases | third_party/WebKit/Source/core/css/CSSPrimitiveValueMappings.h:1142-1197 | -webkit-flex and -webkit-inline-flex convert to flex and inline-flex, written back without the prefix |
| CssMappings.EDisplayMapping | third_party/WebKit/Source/core/css/CSSPrimitiveValueMappings.h:1066-1197 | the round trip both ways, the fallback and the aliases together |
| CssMappings.EFloatKeyword | third_party/WebKit/Source/core/css/CSSPrimitiveValueMappings.h:1271-1284 | the keyword each EFloat value is written as, one keyword per value; EFloatRoundTrip proves that converting it back gives the value |
| CssMappings.EFloatFromKeyword | third_party/WebKit/Source/core/css/CSSPrimitiveValueMappings.h:1287-1301 | the EFloat value a keyword converts to, FloatNone for every keyword the switch does not list; EFloatKeywordRoundTrip and EFloatFallback state both cases |
| CssMappings.EFloatRoundTrip | third_party/WebKit/Source/core/css/CSSPrimitiveValueMappings.h:1271-1301 | converting the keyword a value is written as gives that value back |
| CssMappings.EFloatFallback | third_party/WebKit/Source/core/css/CSSPrimitiveValueMappings.h:1287-1301 | every keyword the conversion does not recognise gives FloatNone |
| CssMappings.EFloatKeywordRoundTrip | third_party/WebKit/Source/core/css/CSSPrimitiveValueMappings.h:1271-1301 | a keyword the serialisation writes converts to a value that is written as that same keyword |
| CssMappings.EFloatMapping | third_party/WebKit/Source/core/css/CSSPrimitiveValueMappings.h:1271-1301 | the round trip both ways, the fallback and the aliases together |
| CssMappings.EPositionKeyword | third_party/WebKit/Source/core/css/CSSPrimitiveValueMappings.h:1413-1432 | the keyword each EPosition value is written as, one keyword per value; EPositionRoundTrip proves that converting it back gives the value |
| CssMappings.EPositionFromKeyword | third_party/WebKit/Source/core/css/CSSPrimitiveValueMappings.h:1435-1453 | the EPosition value a keyword converts to, PositionStatic for every keyword the switch does not list; EPositionKeywordRoundTrip and EPositionFallback state both cases |
| CssMappings.EPositionRoundTrip | third_party/WebKit/Source/core/css/CSSPrimitiveValueMappings.h:1413-1453 | converting the keyword a value is written as gives that value back |
| CssMappings.EPositionFallback | third_party/WebKit/Source/core/css/CSSPrimitiveValueMappings.h:1435-1453 | every keyword the conversion does not recognise gives PositionStatic |
| CssMappings.EPositionKeywordRoundTrip | third_party/WebKit/Source/core/css/CSSPrimitiveValueMappings.h:1413-1453 | a keyword the serialisation writes converts to a value that is written as that same keyword |
| CssMappings.EPositionMapping | third_party/WebKit/Source/core/css/CSSPrimitiveValueMappings.h:1413-1453 | the round trip both ways, the fallback and the aliases together |
| CssMappings.EResizeKeyword | third_party/WebKit/Source/core/css/CSSPrimitiveValueMappings.h:1456-1472 | the keyword each EResize value is written as, one keyword per value; EResizeRoundTrip proves that converting it back gives the value |
| CssMappings.EResizeFromKeyword | third_party/WebKit/Source/core/css/CSSPrimitiveValueMappings.h:1475-1495 | the EResize value a keyword converts to, ResizeNone for every keyword the switch does not list; EResizeKeywordRoundTrip and EResizeFallback state both cases |
| CssMappings.EResizeRoundTrip | third_party/WebKit/Source/core/css/CSSPrimitiveValueMappings.h:1456-1495 | converting the keyword a value is written as gives that value back |
| CssMappings.EResizeFallback | third_party/WebKit/Source/core/css/CSSPrimitiveValueMappings.h:1475-1495 | every keyword the conversion does not recognise gives ResizeNone |
| CssMappings.EResizeKeywordRoundTrip | third_party/WebKit/Source/core/css/CSSPrimitiveValueMappings.h:1456-1495 | a keyword the serialisation writes converts to a value that is written as that same keyword |
| CssMappings.EResizeAliases | third_party/WebKit/Source/core/css/CSSPrimitiveValueMappings.h:1475-1495 | auto converts to none, which is written back as none |
| CssMappings.EResizeMapping | third_party/WebKit/Source/core/css/CSSPrimitiveValueMappings.h:1456-1495 | the round trip both ways, the fallback and the aliases together |
| CssMappings.EUserSelectKeyword | third_party/WebKit/Source/core/css/CSSPrimitiveValueMappings.h:1812-1825 | the keyword each EUserSelect value is written as, one keyword per value; EUserSelectRoundTrip proves that converting it back gives the value |
| CssMappings.EUserSelectFromKeyword | third_party/WebKit/Source/core/css/CSSPrimitiveValueMappings.h:1828-1844 | the EUserSelect value a keyword converts to, SelectText for every keyword the switch does not list; EUserSelectKeywordRoundTrip and EUserSelectFallback state both cases |
| CssMappings.EUserSelectRoundTrip | third_party/WebKit/Source/core/css/CSSPrimitiveValueMappings.h:1812-1844 | converting the keyword a value is written as gives that value back |
| CssMappings.EUserSelectFallback | third_party/WebKit/Source/core/css/CSSPrimitiveValueMappings.h:1828-1844 | every keyword the conversion does not recognise gives SelectText |
| CssMappings.EUserSelectKeywordRoundTrip | third_party/WebKit/Source/core/css/CSSPrimitiveValueMappings.h:1812-1844 | a keyword the serialisation writes converts to a value that is written as that same keyword |
| CssMappings.EUserSelectAliases | third_party/WebKit/Source/core/css/CSSPrimitiveValueMappings.h:1828-1844 | auto converts to text, which is written back as text |
| CssMappings.EUserSelectMapping | third_party/WebKit/Source/core/css/CSSPrimitiveValueMappings.h:1812-1844 | the round trip both ways, the fallback and the aliases together |
| CssMappings.WebBlendModeKeyword | third_party/WebKit/Source/core/css/CSSPrimitiveValueMappings.h:2627-2679 | the keyword each WebBlendMode value is written as, one keyword per value; WebBlendModeRoundTrip proves that converting it back gives the value |
| CssMappings.WebBlendModeFromKeyword | third_party/WebKit/Source/core/css/CSSPrimitiveValueMappings.h:2682-2722 | the WebBlendMode value a keyword converts to, WebBlendModeNormal for every keyword the switch does not list; WebBlendModeKeywordRoundTrip and WebBlendModeFallback state both cases |
| CssMappings.WebBlendModeRoundTrip | third_party/WebKit/Source/core/css/CSSPrimitiveValueMappings.h:2627-2722 | converting the keyword a value is written as gives that value back |
| CssMappings.WebBlendModeFallback | third_party/WebKit/Source/core/css/CSSPrimitiveValueMappings.h:2682-2722 | every keyword the conversion does not recognise gives WebBlendModeNormal |
| CssMappings.WebBlendModeKeywordRoundTrip | third_party/WebKit/Source/core/css/CSSPrimitiveValueMappings.h:2627-2722 | a keyword the serialisation writes converts to a value that is written as that same keyword |
| CssMappings.WebBlendModeMapping | third_party/WebKit/Source/core/css/CSSPrimitiveValueMappings.h:2627-2722 | the round trip both ways, the fallback and the aliases together |
| CssMappings.LineCapKeyword | third_party/WebKit/Source/core/css/CSSPrimitiveValueMappings.h:2725-2738 | the keyword each LineCap value is written as, one keyword per value; LineCapRoundTrip proves that converting it back gives the value |
| CssMappings.LineCapFromKeyword | third_party/WebKit/Source/core/css/CSSPrimitiveValueMappings.h:2741-2755 | the LineCap value a keyword converts to, ButtCap for every keyword the switch does not list; LineCapKeywordRoundTrip and LineCapFallback state both cases |
| CssMappings.LineCapRoundTrip | third_party/WebKit/Source/core/css/CSSPrimitiveValueMappings.h:2725-2755 | converting the keyword a value is written as gives that value back |
| CssMappings.LineCapFallback | third_party/WebKit/Source/core/css/CSSPrimitiveValueMappings.h:2741-2755 | every keyword the conversion does not recognise gives ButtCap |
| CssMappings.LineCapKeywordRoundTrip | third_party/WebKit/Source/core/css/CSSPrimitiveValueMappings.h:2725-2755 | a keyword the serialisation writes converts to a value that is written as that same keyword |
| CssMappings.LineCapMapping | third_party/WebKit/Source/core/css/CSSPrimitiveValueMappings.h:2725-2755 | the round trip both ways, the fallback and the aliases together |
| CssMappings.LineJoinKeyword | third_party/WebKit/Source/core/css/CSSPrimitiveValueMappings.h:2758-2771 | the keyword each LineJoin value is written as, one keyword per value; LineJoinRoundTrip proves that converting it back gives the value |
| CssMappings.LineJoinFromKeyword | third_party/WebKit/Source/core/css/CSSPrimitiveValueMappings.h:2774-2788 | the LineJoin value a keyword converts to, MiterJoin for every keyword the switch does not list; LineJoinKeywordRoundTrip and LineJoinFallback state both cases |
| CssMappings.LineJoinRoundTrip | third_party/WebKit/Source/core/css/CSSPrimitiveValueMappings.h:2758-2788 | converting the keyword a value is written as gives that value back |
| CssMappings.LineJoinFallback | third_party/WebKit/Source/core/css/CSSPrimitiveValueMappings.h:2774-2788 | every keyword the conversion does not recognise gives MiterJoin |
| CssMappings.LineJoinKeywordRoundTrip | third_party/WebKit/Source/core/css/CSSPrimitiveValueMappings.h:2758-2788 | a keyword the serialisation writes converts to a value that is written as that same keyword |
| CssMappings.LineJoinMapping | third_party/WebKit/Source/core/css/CSSPrimitiveValueMappings.h:2758-2788 | the round trip both ways, the fallback and the aliases together |
| CssMappings.WindRuleKeyword | third_party/WebKit/Source/core/css/CSSPrimitiveValueMappings.h:2791-2801 | the keyword each WindRule value is written as, one keyword per value; WindRuleRoundTrip proves that converting it back gives the value |
| CssMappings.WindRuleFromKeyword | third_party/WebKit/Source/core/css/CSSPrimitiveValueMappings.h:2804-2816 | the WindRule value a keyword converts to, RuleNonzero for every keyword the switch does not list; WindRuleKeywordRoundTrip and WindRuleFallback state both cases |
| CssMappings.WindRuleRoundTrip | third_party/WebKit/Source/core/css/CSSPrimitiveValueMappings.h:2791-2816 | converting the keyword a value is written as gives that value back |
| CssMappings.WindRuleFallback | third_party/WebKit/Source/core/css/CSSPrimitiveValueMappings.h:2804-2816 | every keyword the conversion does not recognise gives RuleNonzero |
| CssMappings.WindRuleKeywordRoundTrip | third_party/WebKit/Source/core/css/CSSPrimitiveValueMappings.h:2791-2816 | a keyword the serialisation writes converts to a value that is written as that same keyword |
| CssMappings.WindRuleMapping | third_party/WebKit/Source/core/css/CSSPrimitiveValueMappings.h:2791-2816 | the round trip both ways, the fallback and the aliases together |
| CssMappings.ItemPositionKeyword | third_party/WebKit/Source/core/css/CSSPrimitiveValueMappings.h:3408-3456 | the keyword each ItemPosition value is written as, one keyword per value; ItemPositionRoundTrip proves that converting it back gives the value |
| CssMappings.ItemPositionFromKeyword | third_party/WebKit/Source/core/css/CSSPrimitiveValueMappings.h:3459-3496 | the ItemPosition value a keyword converts to, ItemPositionAuto for every keyword the switch does not list; ItemPositionKeywordRoundTrip and ItemPositionFallback state both cases |
| CssMappings.ItemPositionRoundTrip | third_party/WebKit/Source/core/css/CSSPrimitiveValueMappings.h:3408-3496 | converting the keyword a value is written as gives that value back (every value but ItemPositionAuto) |
| CssMappings.ItemPositionFallback | third_party/WebKit/Source/core/css/CSSPrimitiveValueMappings.h:3459-3496 | every keyword the conversion does not recognise gives ItemPositionAuto |
| CssMappings.ItemPositionKeywordRoundTrip | third_party/WebKit/Source/core/css/CSSPrimitiveValueMappings.h:3408-3496 | a keyword the serialisation writes (for any value but ItemPositionAuto) converts to a value that is written as that same keyword |
| CssMappings.ItemPositionAliases | third_party/WebKit/Source/core/css/CSSPrimitiveValueMappings.h:3459-3496 | auto is written as normal, so it reads back as normal; the auto keyword still converts to auto; first baseline converts to baseline |
| CssMappings.ItemPositionMapping | third_party/WebKit/Source/core/css/CSSPrimitiveValueMappings.h:3408-3496 | the round trip both ways, the fallback and the aliases together; ItemPositionAuto comes back as ItemPositionNormal |
| CssMappings.ContentPositionKeyword | third_party/WebKit/Source/core/css/CSSPrimitiveValueMappings.h:3499-3533 | the keyword each ContentPosition value is written as, one keyword per value; ContentPositionRoundTrip proves that converting it back gives the value |
| CssMappings.ContentPositionFromKeyword | third_party/WebKit/Source/core/css/CSSPrimitiveValueMappings.h:3536-3565 | the ContentPosition value a keyword converts to, ContentPositionNormal for every keyword the switch does not list; ContentPositionKeywordRoundTrip and ContentPositionFallback state both cases |
| CssMappings.ContentPositionRoundTrip | third_party/WebKit/Source/core/css/CSSPrimitiveValueMappings.h:3499-3565 | converting the keyword a value is written as gives that value back |
| CssMappings.ContentPositionFallback | third_party/WebKit/Source/core/css/CSSPrimitiveValueMappings.h:3536-3565 | every keyword the conversion does not recognise gives ContentPositionNormal |
| CssMappings.ContentPositionKeywordRoundTrip | third_party/WebKit/Source/core/css/CSSPrimitiveValueMappings.h:3499-3565 | a keyword the serialisation writes converts to a value that is written as that same keyword |
| CssMappings.ContentPositionAliases | third_party/WebKit/Source/core/css/CSSPrimitiveValueMappings.h:3536-3565 | first baseline converts to baseline, which is written back as baseline |
| CssMappings.ContentPositionMapping | third_party/WebKit/Source/core/css/CSSPrimitiveValueMappings.h:3499-3565 | the round trip both ways, the fallback and the aliases together |
| CssMappings.ContentDistributionTypeKeyword | third_party/WebKit/Source/core/css/CSSPrimitiveValueMappings.h:3568-3588 | the keyword each ContentDistributionType value is written as, one keyword per value; ContentDistributionTypeRoundTrip proves that converting it back gives the value |
| CssMappings.ContentDistributionTypeFromKeyword | third_party/WebKit/Source/core/css/CSSPrimitiveValueMappings.h:3591-3606 | the ContentDistributionType value a keyword converts to, ContentDistributionStretch for every keyword the switch does not list; ContentDistributionTypeKeywordRoundTrip and ContentDistributionTypeFallback state both cases |
| CssMappings.ContentDistributionTypeRoundTrip | third_party/WebKit/Source/core/css/CSSPrimitiveValueMappings.h:3568-3606 | converting the keyword a value is written as gives that value back (every value but ContentDistributionDefault) |
| CssMappings.ContentDistributionTypeFallback | third_party/WebKit/Source/core/css/CSSPrimitiveValueMappings.h:3591-3606 | every keyword the conversion does not recognise gives ContentDistributionStretch |
| CssMappings.ContentDistributionTypeKeywordRoundTrip | third_party/WebKit/Source/core/css/CSSPrimitiveValueMappings.h:3568-3606 | a keyword the serialisation writes (for any value but ContentDistributionDefault) converts to a value that is written as that same keyword |
| CssMappings.ContentDistributionTypeMapping | third_party/WebKit/Source/core/css/CSSPrimitiveValueMappings.h:3568-3606 | the round trip both ways, the fallback and the aliases together; ContentDistributionDefault comes back as ContentDistributionStretch |
| CssMappings.OverflowAlignmentKeyword | third_party/WebKit/Source/core/css/CSSPrimitiveValueMappings.h:3609-3623 | the keyword each OverflowAlignment value is written as, one keyword per value; OverflowAlignmentRoundTrip proves that converting it back gives the value |
| CssMappings.OverflowAlignmentFromKeyword | third_party/WebKit/Source/core/css/CSSPrimitiveValueMappings.h:3626-3637 | the OverflowAlignment value a keyword converts to, OverflowAlignmentUnsafe for every keyword the switch does not list; OverflowAlignmentKeywordRoundTrip and OverflowAlignmentFallback state both cases |
| CssMappings.OverflowAlignmentRoundTrip | third_party/WebKit/Source/core/css/CSSPrimitiveValueMappings.h:3609-3637 | converting the keyword a value is written as gives that value back (every value but OverflowAlignmentDefault) |
| CssMappings.OverflowAlignmentFallback | third_party/WebKit/Source/core/css/CSSPrimitiveValueMappings.h:3626-3637 | every keyword the conversion does not recognise gives OverflowAlignmentUnsafe |
| CssMappings.OverflowAlignmentKeywordRoundTrip | third_party/WebKit/Source/core/css/CSSPrimitiveValueMappings.h:3609-3637 | a keyword the serialisation writes (for any value but OverflowAlignmentDefault) converts to a value that is written as that same keyword |
| CssMappings.OverflowAlignmentMapping | third_party/WebKit/Source/core/css/CSSPrimitiveValueMappings.h:3609-3637 | the round trip both ways, the fallback and the aliases together; OverflowAlignmentDefault comes back as OverflowAlignmentUnsafe |
| CssMappings.TruncateTowardZero | third_party/WebKit/Source/core/css/CSSPrimitiveValueMappings.h:61 | the integer part of a double: the greatest integer not above a non-negative number, the least not below a negative one |
| CssMappings.ClampToRange | third_party/WebKit/Source/core/css/CSSPrimitiveValueMappings.h:59-80 | the result lies in the target range; a number at or beyond a bound gives that bound, one strictly inside is truncated toward zero |
| CssMappings.ConvertToShort | third_party/WebKit/Source/core/css/CSSPrimitiveValueMappings.h:59-62 | the result fits in a short |
| CssMappings.ConvertToUnsignedShort | third_party/WebKit/Source/core/css/CSSPrimitiveValueMappings.h:65-68 | the result fits in an unsigned short |
| CssMappings.ConvertToInt | third_party/WebKit/Source/core/css/CSSPrimitiveValueMappings.h:71-74 | the result fits in an int |
| CssMappings.ConvertToUnsigned | third_party/WebKit/Source/core/css/CSSPrimitiveValueMappings.h:77-80 | the result fits in an unsigned |
| CssMappings.ClampToRangeProperties | third_party/WebKit/Source/core/css/CSSPrimitiveValueMappings.h:59-80 | an integer inside the target range converts to itself, and the conversion never reverses the order of two numbers |
| CssMappings.TruncateMonotone | third_party/WebKit/Source/core/css/CSSPrimitiveValueMappings.h:61 | truncation toward zero keeps the order of two numbers |
| CssMappings.NumericFromLineClamp | third_party/WebKit/Source/core/css/CSSPrimitiveValueMappings.h:89-93 | a percentage clamp becomes a percentage and a line count an integer, holding the same number |
| CssMappings.LineClampFromNumeric | third_party/WebKit/Source/core/css/CSSPrimitiveValueMappings.h:96-105 | integers give line counts and percentages give percentages, the number clamped into int; any other unit is the unreachable branch |
| CssMappings.LineClampRoundTrip | third_party/WebKit/Source/core/css/CSSPrimitiveValueMappings.h:89-105 | a line clamp whose value fits in int comes back unchanged from its numeric value |
| CssPropertiesGenerator.KeyLessIsStrictTotalOrder | third_party/WebKit/Source/build/scripts/css_properties.py:24-31 | the tuple order of sorting keys is irreflexive, transitive, asymmetric and total, so the sort is well defined |
| CssPropertiesGenerator.PriorityNumber | third_party/WebKit/Source/build/scripts/css_properties.py:19-20 | exactly Animation, High and Low have a priority number, each below 3; any other priority is a KeyError |
| CssPropertiesGenerator.PriorityOrder | third_party/WebKit/Source/build/scripts/css_properties.py:19-24 | Animation properties sort before High ones and High before Low, whatever their names |
| CssPropertiesGenerator.FirstIndex | third_party/WebKit/Source/build/scripts/css_properties.py:17-20 | the first entry a failing check holds for, or the length when none does; no entry before it fails |
| CssPropertiesGenerator.Keyed | third_party/WebKit/Source/build/scripts/css_properties.py:17-24 | each entry gets its own sorting key and nothing else changes, in order |
| CssPropertiesGenerator.DistinctIffSetAsLarge | third_party/WebKit/Source/build/scripts/css_properties.py:27-28 | the collision test len(keys) == len(set(keys)) holds exactly when no two keys are equal |
| CssPropertiesGenerator.InsertPermutes | third_party/WebKit/Source/build/scripts/css_properties.py:31 | inserting into the sorted list adds exactly that entry |
| CssPropertiesGenerator.SortPermutes | third_party/WebKit/Source/build/scripts/css_properties.py:31 | sorting rearranges the entries: the result has the same entries with the same multiplicities |
| CssPropertiesGenerator.InsertAscending | third_party/WebKit/Source/build/scripts/css_properties.py:31 | inserting an entry whose key is new into a strictly ascending list keeps it strictly ascending |
| CssPropertiesGenerator.InsertInFront | third_party/WebKit/Source/build/scripts/css_properties.py:31 | an entry whose key is below the head's can head a strictly ascending list |
| CssPropertiesGenerator.InsertBehind | third_party/WebKit/Source/build/scripts/css_properties.py:31 | an entry whose key is above the head's goes into the rest without breaking the order |
| CssPropertiesGenerator.SortAscending | third_party/WebKit/Source/build/scripts/css_properties.py:26-31 | with distinct keys (which the collision check ensures) the sorted list is strictly ascending |
| CssPropertiesGenerator.Filter | third_party/WebKit/Source/build/scripts/css_properties.py:33-34 | the kept entries are at most as many as the list |
| CssPropertiesGenerator.FilterKeeps | third_party/WebKit/Source/build/scripts/css_properties.py:33-34 | each kept entry is from the list and is an alias exactly when aliases are asked for |
| CssPropertiesGenerator.FilterPartitions | third_party/WebKit/Source/build/scripts/css_properties.py:33-34 | the aliases and the other entries together are the whole list, with multiplicities |
| CssPropertiesGenerator.FilterAscending | third_party/WebKit/Source/build/scripts/css_properties.py:33-34 | splitting keeps each part in ascending key order |
| CssPropertiesGenerator.Numbered | third_party/WebKit/Source/build/scripts/css_properties.py:49-54 | each property gets its id, camel-case names, enum value 3 plus its offset and internal flag, in order |
| CssPropertiesGenerator.ByIdDomain | third_party/WebKit/Source/build/scripts/css_properties.py:57 | the dictionary holds exactly the property ids of the list |
| CssPropertiesGenerator.ByIdValue | third_party/WebKit/Source/build/scripts/css_properties.py:57 | each id maps to the last entry of the list that has it |
| CssPropertiesGenerator.MissingTarget | third_party/WebKit/Source/build/scripts/css_properties.py:63-65 | an alias lacks a target exactly when the id its alias_for names is not in the dictionary |
| CssPropertiesGenerator.Resolved | third_party/WebKit/Source/build/scripts/css_properties.py:62-76 | each alias becomes its target's copy with the alias's own name, ids and names and an enum value 512 above the target's |
| CssPropertiesGenerator.GeneratedPropertiesSortedAndNumbered | third_party/WebKit/Source/build/scripts/css_properties.py:17-57 | on success the properties are strictly sorted by key, hold no alias, are each a property or descriptor, are under 512 and are numbered 3, 4, … in order |
| CssPropertiesGenerator.GeneratedStages | third_party/WebKit/Source/build/scripts/css_properties.py:17-77 | on success every priority was known, the keys were distinct, the list is the sort split, checked and numbered, the dictionary is built from it, no two aliases share a target, every target exists and the aliases are resolved |
| CssPropertiesGenerator.SortedPropertiesAscending | third_party/WebKit/Source/build/scripts/css_properties.py:31-34 | with distinct keys, the sorted non-alias entries are strictly ascending and hold no alias |
| CssPropertiesGenerator.NumberedKeepsOrder | third_party/WebKit/Source/build/scripts/css_properties.py:44-54 | numbering keeps the order and the kind of each entry and gives consecutive values from 3 |
| CssPropertiesGenerator.GeneratedAliasesResolved | third_party/WebKit/Source/build/scripts/css_properties.py:59-77 | on success no two aliases name the same property, and each alias is the copy of a listed property numbered 512 above it, above every property |
| CssPropertiesGenerator.GeneratedIsPermutation | third_party/WebKit/Source/build/scripts/css_properties.py:17-77 | every input entry comes out exactly once, by name, among the properties and aliases |
| CssPropertiesGenerator.StagesKeepNames | third_party/WebKit/Source/build/scripts/css_properties.py:31-77 | the sort, the split, the numbering and the alias resolution only rearrange the entries and keep their names |
| CssPropertiesGenerator.NamesPermute | third_party/WebKit/Source/build/scripts/css_properties.py:31 | rearranging a list rearranges its names |
| CssPropertiesGenerator.DashedTwinsCollide | third_party/WebKit/Source/build/scripts/css_properties.py:21-30 | "-foo" and "foo" with one priority share a sorting key, so the generator refuses the pair |
| CssPropertiesGenerator.CssProperties.constructor | third_party/WebKit/Source/build/scripts/css_properties.py:11-14 | a new generator has no properties and no aliases |
| CssPropertiesGenerator.CssProperties.Load | third_party/WebKit/Source/build/scripts/css_properties.py:11-77 | no failure exactly when Generate succeeds, the same failure otherwise, and then the fields hold the dictionary, the resolved aliases and the properties followed by the aliases |
| CssPropertiesGenerator.AssignSortingKeys | third_party/WebKit/Source/build/scripts/css_properties.py:17-24 | fails exactly at the first entry with an unknown priority, naming it; otherwise every entry has its sorting key |
| CssPropertiesGenerator.FindNeitherPropertyNorDescriptor | third_party/WebKit/Source/build/scripts/css_properties.py:44-47 | the first entry that is neither a property nor a descriptor, or the length when there is none |
| CssPropertiesGenerator.AssignEnumValues | third_party/WebKit/Source/build/scripts/css_properties.py:49-54 | the numbered list, as Numbered describes it |
| CssPropertiesGenerator.ResolveAliases | third_party/WebKit/Source/build/scripts/css_properties.py:62-76 | fails exactly at the first alias whose target is missing, naming its alias_for; otherwise the resolved list |
| ArrayBufferContentsModel.Mul32 | third_party/WebKit/Source/wtf/typed_arrays/ArrayBufferContents.cpp:61 | the 32-bit product: below 2^32, the true product when that fits, and smaller than it when it does not |
| ArrayBufferContentsModel.MulDivCancel | third_party/WebKit/Source/wtf/typed_arrays/ArrayBufferContents.cpp:63 | dividing a product by one of its non-zero factors gives the other factor |
| ArrayBufferContentsModel.DivTimesDivisorAtMost | third_party/WebKit/Source/wtf/typed_arrays/ArrayBufferContents.cpp:63 | the divisor times the quotient never exceeds the dividend |
| ArrayBufferContentsModel.TotalSizeOverflows | third_party/WebKit/Source/wtf/typed_arrays/ArrayBufferContents.cpp:61-63 | the guard as written: a non-zero element count whose 32-bit total divided by the count misses the element size; OverflowTestIsExact proves this is exactly a true product of 2^32 or more |
| ArrayBufferContentsModel.OverflowTestIsExact | third_party/WebKit/Source/wtf/typed_arrays/ArrayBufferContents.cpp:60-66 | the division test rejects exactly the element counts and sizes whose true product does not fit in 32 bits |
| ArrayBufferContentsModel.AllocateMemory | third_party/WebKit/Source/wtf/typed_arrays/ArrayBufferContents.cpp:110-135 | null exactly when the allocator refuses; otherwise a fresh buffer of the requested size, all zero under ZeroInitialize |
| ArrayBufferContentsModel.DataHolder.Contents | third_party/WebKit/Source/wtf/typed_arrays/ArrayBufferContents.cpp:137-196 | the holder's bytes, as many as its size, those of its buffer when it has one |
| ArrayBufferContentsModel.DataHolder.constructor | third_party/WebKit/Source/wtf/typed_arrays/ArrayBufferContents.cpp:137-141 | a new holder has no buffer, size 0 and is not shared |
| ArrayBufferContentsModel.DataHolder.IsEmpty | third_party/WebKit/Source/wtf/typed_arrays/ArrayBufferContents.cpp:155-156 | the holder has no buffer and size 0, what AllocateNew, Adopt and CopyMemoryFrom require as the source's DCHECKs do; the constructor, Release and a failed allocation prove it |
| ArrayBufferContentsModel.DataHolder.AllocateNew | third_party/WebKit/Source/wtf/typed_arrays/ArrayBufferContents.cpp:152-167 | the holder gets a fresh buffer exactly when the allocation succeeds, and only then takes the size and sharing type; zero-initialised contents are all zero; a refused allocation leaves it empty |
| ArrayBufferContentsModel.DataHolder.Adopt | third_party/WebKit/Source/wtf/typed_arrays/ArrayBufferContents.cpp:169-181 | the holder owns the given buffer with the given size and sharing type |
| ArrayBufferContentsModel.DataHolder.CopyMemoryFrom | third_party/WebKit/Source/wtf/typed_arrays/ArrayBufferContents.cpp:183-196 | on success a fresh buffer with the source's size and the same bytes; on failure the holder stays empty; the sharing type is untouched |
| ArrayBufferContentsModel.DataHolder.Release | third_party/WebKit/Source/wtf/typed_arrays/ArrayBufferContents.cpp:143-150 | after destruction the holder has no buffer, size 0 and is not shared |
| ArrayBufferContentsModel.ArrayBufferContents.constructor | third_party/WebKit/Source/wtf/typed_arrays/ArrayBufferContents.cpp:51-52 | a fresh, empty, unshared holder |
| ArrayBufferContentsModel.ArrayBufferContents.Sized | third_party/WebKit/Source/wtf/typed_arrays/ArrayBufferContents.cpp:54-69 | a total that does not fit in 32 bits leaves the holder empty; otherwise the holder has a buffer of that total size and the sharing type exactly when allocation succeeds, zeroed under ZeroInitialize |
| ArrayBufferContentsModel.ArrayBufferContents.FromHandle | third_party/WebKit/Source/wtf/typed_arrays/ArrayBufferContents.cpp:71-84 | a non-null handle is adopted with the given size and sharing type; a null one gives a zero-sized buffer |
| ArrayBufferContentsModel.ArrayBufferContents.Neuter | third_party/WebKit/Source/wtf/typed_arrays/ArrayBufferContents.cpp:88-90 | the contents no longer refer to a holder |
| ArrayBufferContentsModel.ArrayBufferContents.IsShared | third_party/WebKit/Source/wtf/typed_arrays/ArrayBufferContents.cpp:93 | the sharing type of the holder; Transfer requires it false and ShareWith requires it true, as their DCHECKs do (the definition is in ArrayBufferContents.h, which is not part of this model) |
| ArrayBufferContentsModel.ArrayBufferContents.Transfer | third_party/WebKit/Source/wtf/typed_arrays/ArrayBufferContents.cpp:92-97 | the other contents take this holder and this one is neutered |
| ArrayBufferContentsModel.ArrayBufferContents.ShareWith | third_party/WebKit/Source/wtf/typed_arrays/ArrayBufferContents.cpp:99-103 | the other contents refer to this same holder, which this one keeps |
| ArrayBufferContentsModel.ArrayBufferContents.CopyTo | third_party/WebKit/Source/wtf/typed_arrays/ArrayBufferContents.cpp:105-108 | the other holder receives a byte-for-byte copy with the same size, or stays empty when allocation fails |
| DocumentMarkers.Index | third_party/WebKit/Source/core/editing/markers/DocumentMarker.h:43-49 | each type's index is below MarkerTypeIndexesCount |
| DocumentMarkers.Bit | third_party/WebKit/Source/core/editing/markers/DocumentMarker.h:51-56 | each type's value is a single bit |
| DocumentMarkers.BitsDisjoint | third_party/WebKit/Source/core/editing/markers/DocumentMarker.h:51-56 | two types share no bit exactly when they differ |
| DocumentMarkers.Types | third_party/WebKit/Source/core/editing/markers/DocumentMarker.h:64 | a type is in a mask's set exactly when the mask contains its bit |
| DocumentMarkers.PredefinedSets | third_party/WebKit/Source/core/editing/markers/DocumentMarker.h:79-92 | AllMarkers holds every type; MisspellingMarkers and SpellCheckClientMarkers hold exactly spelling and grammar |
| DocumentMarkers.AddIsUnion | third_party/WebKit/Source/core/editing/markers/DocumentMarker.h:72 | add makes the set of types the union of both sets |
| DocumentMarkers.RemoveIsDifference | third_party/WebKit/Source/core/editing/markers/DocumentMarker.h:73 | remove makes the set of types the difference of the sets |
| DocumentMarkers.RemoveUndoesAdd | third_party/WebKit/Source/core/editing/markers/DocumentMarker.h:72-73 | removing what was added clears exactly those bits, and gives the old mask back when the two were disjoint |
| DocumentMarkers.MarkerTypes.Contains | third_party/WebKit/Source/core/editing/markers/DocumentMarker.h:64 | contains: the type's bit is set in the mask; Types proves these are exactly the types of the mask's set |
| DocumentMarkers.MarkerTypes.Intersects | third_party/WebKit/Source/core/editing/markers/DocumentMarker.h:65-67 | intersects: the masks share a bit; IntersectsIffSharedType proves that for masks of marker bits this means the sets share a type |
| DocumentMarkers.IntersectsIffSharedType | third_party/WebKit/Source/core/editing/markers/DocumentMarker.h:65-67 | for masks of marker bits, intersects holds exactly when the two sets share a type |
| DocumentMarkers.MarkerTypes.constructor | third_party/WebKit/Source/core/editing/markers/DocumentMarker.h:62 | the set holds the given mask |
| DocumentMarkers.MarkerTypes.Add | third_party/WebKit/Source/core/editing/markers/DocumentMarker.h:72 | the mask gains the other's bits; its types are the union |
| DocumentMarkers.MarkerTypes.Remove | third_party/WebKit/Source/core/editing/markers/DocumentMarker.h:73 | the mask loses the other's bits; its types are the difference |
| DocumentMarkers.DocumentMarker.constructor | third_party/WebKit/Source/core/editing/markers/DocumentMarker.h:94-97 | the marker holds the given type, offsets and details |
| DocumentMarkers.DocumentMarker.SetStartOffset | third_party/WebKit/Source/core/editing/markers/DocumentMarker.h:123 | only the start offset changes, to the given one |
| DocumentMarkers.DocumentMarker.SetEndOffset | third_party/WebKit/Source/core/editing/markers/DocumentMarker.h:124 | only the end offset changes, to the given one |
| DocumentMarkers.DocumentMarker.ClearDetails | third_party/WebKit/Source/core/editing/markers/DocumentMarker.h:119 | only the details change, to none |
| DocumentMarkers.DocumentMarker.Equals | third_party/WebKit/Source/core/editing/markers/DocumentMarker.h:127-130 | DocumentMarker operator==, comparing type and offsets but not details; MarkerEqualityLaws proves it an equivalence on exactly those fields |
| DocumentMarkers.DocumentMarker.NotEquals | third_party/WebKit/Source/core/editing/markers/DocumentMarker.h:132 | DocumentMarker operator!=; MarkerEqualityLaws proves it is the negation of equality |
| DocumentMarkers.MarkerEqualityLaws | third_party/WebKit/Source/core/editing/markers/DocumentMarker.h:127-132 | marker equality is reflexive, symmetric and transitive, compares exactly type and offsets, and != is its negation |
| DocumentMarkers.ClearDetailsKeepsEquality | third_party/WebKit/Source/core/editing/markers/DocumentMarker.h:119-130 | dropping a marker's details never changes an equality verdict |
| DomTree.ParentNode | third_party/WebKit/Source/core/inspector/DOMEditor.cpp:97 | a node has a parent exactly when it is attached, and it is the recorded one |
| DomTree.NextSibling | third_party/WebKit/Source/core/inspector/DOMEditor.cpp:58 | a detached node has no next sibling |
| DomTree.PreviousSibling | third_party/WebKit/Source/core/inspector/DOMEditor.cpp:58 | a detached node has no previous sibling |
| DomTree.GetAttribute | third_party/WebKit/Source/core/inspector/DOMEditor.cpp:150 | the attribute's value when the element has it, null otherwise |
| DomTree.NodeValue | third_party/WebKit/Source/core/inspector/DOMEditor.cpp:359 | the data of a character-data node |
| DomTree.Detach | third_party/WebKit/Source/core/inspector/DOMEditor.cpp:69 | the node leaves its parent's child list and has no parent; attributes, values and the set of containers are unchanged; a detached node changes nothing |
| DomTree.RemoveChildOutcome | third_party/WebKit/Source/core/inspector/DOMEditor.cpp:69 | NotFoundError exactly when the node is not a child of the given parent; otherwise the node is detached |
| DomTree.SetAttributeOutcome | third_party/WebKit/Source/core/inspector/DOMEditor.cpp:155 | InvalidCharacterError exactly for an invalid name; otherwise the named attribute of an element becomes the value, every other attribute and the tree are unchanged |
| DomTree.WithoutAttribute | third_party/WebKit/Source/core/inspector/DOMEditor.cpp:160 | the named attribute is gone and every other attribute and the tree are unchanged |
| DomTree.WithNodeValue | third_party/WebKit/Source/core/inspector/DOMEditor.cpp:364 | the data of a character-data node becomes the value and no other node's value changes |
| DomTree.InclusiveAncestorExact | third_party/WebKit/Source/core/inspector/DOMEditor.cpp:103-105 | on acyclic parent links the ancestor walk finds a node exactly when it lies some number of parent steps up |
| DomTree.AncestorWithinTransitive | third_party/WebKit/Source/core/inspector/DOMEditor.cpp:103-105 | ancestry composes: the ancestor of an ancestor is an ancestor, within the summed number of steps |
| DomTree.InsertKeepsAcyclic | third_party/WebKit/Source/core/inspector/DOMEditor.cpp:103-105 | hanging a detached node under a parent it is no ancestor of keeps the parent links acyclic |
| DomTree.InsertingAncestorThrows | third_party/WebKit/Source/core/inspector/DOMEditor.cpp:103-105 | a parent's own parent is its ancestor; inserting the parent or an ancestor of it, or putting one in place of a child, throws a HierarchyRequestError |
| DomTree.InsertBeforeKeepsAcyclic | third_party/WebKit/Source/core/inspector/DOMEditor.cpp:103-105 | insertBefore, thrown or not, keeps the parent links acyclic |
| DomTree.ReplaceChildKeepsAcyclic | third_party/WebKit/Source/core/inspector/DOMEditor.cpp:322-334 | replaceChild, thrown or not, keeps the parent links acyclic |
| DomTree.DetachedNotAboveOldParent | third_party/WebKit/Source/core/inspector/DOMEditor.cpp:62-66 | a node detached from an acyclic tree is no ancestor of its old parent, so undo may put it back |
| DomTree.ReplacedNotAboveParent | third_party/WebKit/Source/core/inspector/DOMEditor.cpp:326-329 | after a replaceChild with a detached new node the old node is no ancestor of the parent, so undo's reverse replaceChild passes the hierarchy check |
| DomTree.DetachPreservesWellFormed | third_party/WebKit/Source/core/inspector/DOMEditor.cpp:69 | detaching a node keeps parent links and child lists consistent and the parent links acyclic |
| DomTree.InsertDetached | third_party/WebKit/Source/core/inspector/DOMEditor.cpp:103-104 | a detached node that is not the container or one of its ancestors, inserted before a child of the container (or at the end), lands right before that anchor |
| DomTree.DetachInsertRestores | third_party/WebKit/Source/core/inspector/DOMEditor.cpp:63-64 | putting a detached node back at its old index restores the tree |
| DomTree.NextSiblingAfterDetach | third_party/WebKit/Source/core/inspector/DOMEditor.cpp:58-64 | after detaching, the old next sibling sits at the node's old index (the end for a last child) and is still a child of the parent |
| DomTree.RemoveThenReinsert | third_party/WebKit/Source/core/inspector/DOMEditor.cpp:57-71 | removeChild followed by insertBefore the old next sibling gives back the original tree |
| DomTree.InsertThenRemove | third_party/WebKit/Source/core/inspector/DOMEditor.cpp:103-109 | inserting a detached node and then removing it gives back the original tree |
| DomTree.ReplaceThenSwapBack | third_party/WebKit/Source/core/inspector/DOMEditor.cpp:326-333 | a replaceChild with a detached new node is undone by the reverse replaceChild |
| DomTree.SwappedList | third_party/WebKit/Source/core/inspector/DOMEditor.cpp:326-333 | the new node sits at the old node's index, as its first occurrence, and writing the old node back there gives the old child list |
| DomEditor.ToResponse | third_party/WebKit/Source/core/inspector/DOMEditor.cpp:450-456 | OK exactly when nothing was thrown; otherwise an error with the exception's name and message |
| DomEditor.RemoveChildAction.constructor | third_party/WebKit/Source/core/inspector/DOMEditor.cpp:50-55 | the action names the parent and node and has no anchor yet |
| DomEditor.RemoveChildAction.Perform | third_party/WebKit/Source/core/inspector/DOMEditor.cpp:57-60 | records the node's next sibling as anchor, then removes the node; success exactly when nothing was thrown |
| DomEditor.RemoveChildAction.Undo | third_party/WebKit/Source/core/inspector/DOMEditor.cpp:62-66 | inserts the node back before the recorded anchor; success exactly when nothing was thrown |
| DomEditor.RemoveChildAction.Redo | third_party/WebKit/Source/core/inspector/DOMEditor.cpp:68-71 | removes the node again; success exactly when nothing was thrown |
| DomEditor.InsertBeforeAction.constructor | third_party/WebKit/Source/core/inspector/DOMEditor.cpp:88-94 | the action names parent, node and anchor and has no nested removal |
| DomEditor.InsertBeforeAction.Perform | third_party/WebKit/Source/core/inspector/DOMEditor.cpp:96-106 | a node that has a parent is first removed through a fresh nested removal recording its old place; a failed removal stops it; then the node is inserted before the anchor, and a HierarchyRequestError when it is the parent or one of its ancestors leaves it detached |
| DomEditor.InsertBeforeAction.Undo | third_party/WebKit/Source/core/inspector/DOMEditor.cpp:108-115 | removes the node from the parent; stops on failure; then the nested removal, if any, is undone |
| DomEditor.InsertBeforeAction.Redo | third_party/WebKit/Source/core/inspector/DOMEditor.cpp:117-123 | repeats the nested removal (stopping on failure) and the insertion |
| DomEditor.RemoveAttributeAction.constructor | third_party/WebKit/Source/core/inspector/DOMEditor.cpp:142-147 | the action names the element and attribute and has no recorded value |
| DomEditor.RemoveAttributeAction.Perform | third_party/WebKit/Source/core/inspector/DOMEditor.cpp:149-152 | records the attribute's value (null when absent) and removes it, always succeeding |
| DomEditor.RemoveAttributeAction.Undo | third_party/WebKit/Source/core/inspector/DOMEditor.cpp:154-157 | sets the recorded value back and reports success even when that threw |
| DomEditor.RemoveAttributeAction.Redo | third_party/WebKit/Source/core/inspector/DOMEditor.cpp:159-162 | removes the attribute again, always succeeding |
| DomEditor.SetAttributeAction.constructor | third_party/WebKit/Source/core/inspector/DOMEditor.cpp:177-186 | the action names element, attribute and value and has not recorded an old value |
| DomEditor.SetAttributeAction.Perform | third_party/WebKit/Source/core/inspector/DOMEditor.cpp:188-194 | records whether the attribute existed and its old value, then sets the new value, reporting success even when that threw |
| DomEditor.SetAttributeAction.Undo | third_party/WebKit/Source/core/inspector/DOMEditor.cpp:196-202 | puts the old value back, or removes the attribute when it did not exist |
| DomEditor.SetAttributeAction.Redo | third_party/WebKit/Source/core/inspector/DOMEditor.cpp:204-207 | sets the new value again, reporting success even when that threw |
| DomEditor.ReplaceWholeTextAction.constructor | third_party/WebKit/Source/core/inspector/DOMEditor.cpp:275-281 | the action names the text node and the new text |
| DomEditor.ReplaceWholeTextAction.Perform | third_party/WebKit/Source/core/inspector/DOMEditor.cpp:283-286 | records the old text and writes the new one |
| DomEditor.ReplaceWholeTextAction.Undo | third_party/WebKit/Source/core/inspector/DOMEditor.cpp:288-291 | writes the old text back |
| DomEditor.ReplaceWholeTextAction.Redo | third_party/WebKit/Source/core/inspector/DOMEditor.cpp:293-296 | writes the new text again |
| DomEditor.ReplaceChildNodeAction.constructor | third_party/WebKit/Source/core/inspector/DOMEditor.cpp:311-320 | the action names the parent and the two nodes |
| DomEditor.ReplaceChildNodeAction.Perform | third_party/WebKit/Source/core/inspector/DOMEditor.cpp:322-324 | replaces the old node by the new one, throwing a HierarchyRequestError when the new node is the parent or one of its ancestors; success exactly when nothing was thrown |
| DomEditor.ReplaceChildNodeAction.Undo | third_party/WebKit/Source/core/inspector/DOMEditor.cpp:326-329 | replaces the new node by the old one |
| DomEditor.ReplaceChildNodeAction.Redo | third_party/WebKit/Source/core/inspector/DOMEditor.cpp:331-334 | replaces the old node by the new one again |
| DomEditor.SetNodeValueAction.constructor | third_party/WebKit/Source/core/inspector/DOMEditor.cpp:351-356 | the action names the node and the new value |
| DomEditor.SetNodeValueAction.Perform | third_party/WebKit/Source/core/inspector/DOMEditor.cpp:358-361 | records the old value and writes the new one |
| DomEditor.SetNodeValueAction.Undo | third_party/WebKit/Source/core/inspector/DOMEditor.cpp:363-366 | writes the old value back |
| DomEditor.SetNodeValueAction.Redo | third_party/WebKit/Source/core/inspector/DOMEditor.cpp:368-371 | writes the new value again |
| DomEditor.RemoveChildUndoRedo | third_party/WebKit/Source/core/inspector/DOMEditor.cpp:57-71 | after a successful removal, undo restores the original tree and redo removes the node again with the same result |
| DomEditor.InsertBeforeUndoRedo | third_party/WebKit/Source/core/inspector/DOMEditor.cpp:96-123 | after a successful insertion, undo's removal gives the tree with the node detached, the nested undo gives back the original tree, and redo repeats perform's steps |
| DomEditor.InsertBeforeFailureKeepsRemoval | third_party/WebKit/Source/core/inspector/DOMEditor.cpp:96-106 | when the insertion fails after the node was taken from its parent, the tree is not restored although the action reports failure |
| DomEditor.SetAttributeUndoRedo | third_party/WebKit/Source/core/inspector/DOMEditor.cpp:188-207 | undo restores the attribute map whether the attribute existed or not (and when the name was refused), and redo sets the value again |
| DomEditor.RemoveAttributeUndoRedo | third_party/WebKit/Source/core/inspector/DOMEditor.cpp:149-162 | for a valid name or an absent attribute, undo restores the tree and redo removes the attribute again |
| DomEditor.RemoveAttributeUndoLosesBadName | third_party/WebKit/Source/core/inspector/DOMEditor.cpp:154-157 | an attribute whose name setAttribute refuses is not brought back by undo, which still reports success |
| DomEditor.NodeValueUndoRedo | third_party/WebKit/Source/core/inspector/DOMEditor.cpp:283-371 | writing the recorded old value back restores the tree, and redo writes the new value again |
| DomEditor.ReplaceChildUndoRedo | third_party/WebKit/Source/core/inspector/DOMEditor.cpp:322-334 | with a new node that had no parent, undo swaps the nodes back and redo swaps them again |
| DomEditor.ReplaceChildUndoDropsMovedNode | third_party/WebKit/Source/core/inspector/DOMEditor.cpp:326-329 | a new node taken from the same parent is not put back by undo: replacing child 2 of [1, 2] by child 1 leaves [1], and undo leaves [2] |
| DomEditor.InsertAncestorUnderDescendantFails | third_party/WebKit/Source/core/inspector/DOMEditor.cpp:96-106 | in the tree 1 → 2, inserting 1 into 2 throws a HierarchyRequestError, leaves the tree unchanged and yields an error response |
| DomEditor.AttributeNameExamples | third_party/WebKit/Source/core/inspector/DOMEditor.cpp:204-207 | setAttribute refuses "1abc", whose first character is a digit, and accepts "data-x.1" |
| DomEditor.InsertBefore | third_party/WebKit/Source/core/inspector/DOMEditor.cpp:458-464 | performs the insertion (refused for the parent or one of its ancestors) with a fresh exception state; the response is OK exactly when it succeeded |
| DomEditor.RemoveChild | third_party/WebKit/Source/core/inspector/DOMEditor.cpp:466-470 | performs the removal; the response is OK exactly when it succeeded |
| DomEditor.SetAttribute | third_party/WebKit/Source/core/inspector/DOMEditor.cpp:472-478 | sets the attribute; the response is OK exactly when the name is valid |
| DomEditor.RemoveAttribute | third_party/WebKit/Source/core/inspector/DOMEditor.cpp:480-484 | removes the attribute; the response is always OK |
| DomEditor.ReplaceWholeText | third_party/WebKit/Source/core/inspector/DOMEditor.cpp:494-498 | replaces the text; the response is always OK |
| DomEditor.ReplaceChild | third_party/WebKit/Source/core/inspector/DOMEditor.cpp:435-441 | performs the replacement (refused for the parent or one of its ancestors) into the caller's exception state; success exactly when nothing was thrown |
| DomEditor.SetNodeValue | third_party/WebKit/Source/core/inspector/DOMEditor.cpp:443-448 | writes the value and always succeeds |
| FontService.GetFileForPath | components/font_service/font_service_app.cc:31-38 | an open file exactly when the path is non-empty and opening succeeds, on that path |
| FontService.FontServiceApp.constructor | components/font_service/font_service_app.cc:44 | the path table starts empty |
| FontService.FontServiceApp.FindOrAddPath | components/font_service/font_service_app.cc:115-123 | the index of the first equal entry, leaving the table alone; otherwise the path is appended and its index is the old size; the table never holds a path twice |
| FontService.FontServiceApp.OpenStream | components/font_service/font_service_app.cc:105-113 | an id outside the table gives an invalid file; an open file exactly for an id inside it whose path is non-empty and opens, on that path |
| FontService.FontServiceApp.MatchFamilyName | components/font_service/font_service_app.cc:64-103 | a failed match gives no identity, an empty family, the default style and leaves the table; a successful one gives the matched family and style and an identity whose id is the first index of the matched path, the table unchanged when the path was already there and otherwise grown by exactly that path at the end |
| FontService.MatchThenOpen | components/font_service/font_service_app.cc:88-113 | opening the id handed out for a non-empty path opens that very path |
| Geolocation.GeolocationWatchers.constructor | third_party/WebKit/Source/modules/geolocation/GeolocationWatchers.cpp:10-15 | both maps start empty |
| Geolocation.GeolocationWatchers.Add | third_party/WebKit/Source/modules/geolocation/GeolocationWatchers.cpp:17-23 | refused, changing nothing, exactly when the id is already present; otherwise the id maps to the notifier and the notifier to the id |
| Geolocation.GeolocationWatchers.Find | third_party/WebKit/Source/modules/geolocation/GeolocationWatchers.cpp:25-31 | the stored notifier exactly when the id is present, null otherwise |
| Geolocation.GeolocationWatchers.RemoveId | third_party/WebKit/Source/modules/geolocation/GeolocationWatchers.cpp:33-40 | an absent id changes nothing; otherwise the id and its notifier's reverse entry are dropped |
| Geolocation.GeolocationWatchers.RemoveNotifier | third_party/WebKit/Source/modules/geolocation/GeolocationWatchers.cpp:42-48 | an unrecorded notifier changes nothing; otherwise its recorded id and its reverse entry are dropped |
| Geolocation.GeolocationWatchers.Contains | third_party/WebKit/Source/modules/geolocation/GeolocationWatchers.cpp:50-52 | true exactly when the notifier has a reverse entry |
| Geolocation.GeolocationWatchers.Clear | third_party/WebKit/Source/modules/geolocation/GeolocationWatchers.cpp:54-57 | both maps become empty |
| Geolocation.GeolocationWatchers.IsEmpty | third_party/WebKit/Source/modules/geolocation/GeolocationWatchers.cpp:59-61 | true exactly when no id is watched, and then no notifier is recorded either |
| Geolocation.EmptyForwardEmptiesReverse | third_party/WebKit/Source/modules/geolocation/GeolocationWatchers.cpp:59-61 | a reverse map whose entries all point into an empty forward map is empty |
| Geolocation.AddThenRemoveRestores | third_party/WebKit/Source/modules/geolocation/GeolocationWatchers.cpp:17-40 | adding a fresh id for a fresh notifier and then removing the id restores both maps |
| Geolocation.SharedNotifierLosesReverseEntry | third_party/WebKit/Source/modules/geolocation/GeolocationWatchers.cpp:17-52 | adding one notifier under ids 1 and 2 and removing id 1 leaves id 2 watched while contains answers false |
| Gif.SingleImageNeverAnimates | third_party/WebKit/Source/platform/image-decoders/gif/GIFImageDecoder.cpp:73-74 | complete data holding a single image never animates, whatever loop count was seen |
| Gif.FailureLoopsOnce | third_party/WebKit/Source/platform/image-decoders/gif/GIFImageDecoder.cpp:75-76 | a failure, or a reader with no images, loops once even after a loop count was seen, unless the single-image rule applies |
| Gif.CachedValueKept | third_party/WebKit/Source/platform/image-decoders/gif/GIFImageDecoder.cpp:77-79 | with no reader, or one that has seen no loop count, the cached value is kept |
| Gif.RepetitionRuleIdempotent | third_party/WebKit/Source/platform/image-decoders/gif/GIFImageDecoder.cpp:48-80 | asking twice gives the same answer as asking once |
| Gif.RowWindow | third_party/WebKit/Source/platform/image-decoders/gif/GIFImageDecoder.cpp:112-118 | the written window lies inside the image and is no wider than the row |
| Gif.SingleRowWithoutRepeat | third_party/WebKit/Source/platform/image-decoders/gif/GIFImageDecoder.cpp:116-121 | with a repeat count of one, a non-empty window is exactly one row high |
| Gif.SawNonOpaqueStep | third_party/WebKit/Source/platform/image-decoders/gif/GIFImageDecoder.cpp:154-173 | scanning one more index adds exactly whether that index is transparent or outside the table |
| Gif.GIFImageDecoder.constructor | third_party/WebKit/Source/platform/image-decoders/gif/GIFImageDecoder.cpp:35-39 | no reader, not failed, no frames, and the repetition count starts at loop-once |
| Gif.GIFImageDecoder.RepetitionCount | third_party/WebKit/Source/platform/image-decoders/gif/GIFImageDecoder.cpp:48-80 | returns the cached count after updating it by the priority rule: single complete image, then failure or no images, then a seen loop count |
| Gif.GIFImageDecoder.FrameIsCompleteAtIndex | third_party/WebKit/Source/platform/image-decoders/gif/GIFImageDecoder.cpp:82-85 | a frame can be complete only when a reader exists and has parsed that frame |
| Gif.GIFImageDecoder.FrameDurationAtIndex | third_party/WebKit/Source/platform/image-decoders/gif/GIFImageDecoder.cpp:87-92 | the frame's delay when a reader has the frame with its header defined; 0 otherwise |
| Gif.GIFImageDecoder.DecodeFrameCount | third_party/WebKit/Source/platform/image-decoders/gif/GIFImageDecoder.cpp:212-219 | a decoder that already failed stays failed; a failed parse destroys the reader; the count is the cached frame count after a failure and the reader's image count otherwise |
| Gif.GIFImageDecoder.WriteRowWithTransparency | third_party/WebKit/Source/platform/image-decoders/gif/GIFImageDecoder.cpp:154-165 | exactly the pixels of the row's span change: opaque indexes take their table colour and the others become 0; alpha is seen exactly when some index was not opaque |
| Gif.GIFImageDecoder.WriteRowKeepingTransparent | third_party/WebKit/Source/platform/image-decoders/gif/GIFImageDecoder.cpp:165-174 | exactly the opaque indexes' pixels change, to their table colour; the others keep their colour; alpha is seen exactly when some index was not opaque |
| Gif.CopyRowNTimes | third_party/WebKit/Source/platform/image-decoders/gif/GIFImageDecoder.cpp:177-178 | every row below the first up to the window's end takes the first row's pixels in the window's columns; nothing else changes |
| Gif.GIFImageDecoder.OnInitFrameBuffer | third_party/WebKit/Source/platform/image-decoders/gif/GIFImageDecoder.cpp:272-274 | a frame just set up starts with the saw-alpha flag clear |
| Gif.GIFImageDecoder.CanReusePreviousFrameBuffer | third_party/WebKit/Source/platform/image-decoders/gif/GIFImageDecoder.cpp:276-280 | a frame's buffer can be reused for the next frame unless the frame is disposed by restoring the previous one; its precondition is the source's DCHECK that the index is in the cache |
| Gif.HaveDecodedRow | third_party/WebKit/Source/platform/image-decoders/gif/GIFImageDecoder.cpp:99-182 | an empty window or colour table changes nothing and succeeds; a failed frame initialisation fails; otherwise the window's rows take the decoded row, pixels-changed is set, and saw-alpha holds exactly when the row has a transparent or out-of-table index or the flag was already set and not cleared by setting up a fresh frame |
| GpuDriverBugList.TypeToString | gpu/config/gpu_driver_bug_list.cc:49-55 | a type inside the table gives its table name, any type beyond the table gives "unknown" |
| GpuDriverBugList.TypeToStringInjective | gpu/config/gpu_driver_bug_list.cc:49-55 | with distinct table names none of which is "unknown", equal names mean equal types (both directions) |
| GpuDriverBugList.WithCombinedSwitch | gpu/config/gpu_driver_bug_list.cc:63-69 | the set parsed from the combined workarounds switch is added exactly when that switch is present; otherwise the set is unchanged |
| GpuDriverBugList.AppendWorkaroundsFromCommandLine | gpu/config/gpu_driver_bug_list.cc:58-95 | the result is the combined switch's union followed by one table-order turn per workaround switch |
| GpuDriverBugList.NoSwitchesNoChange | gpu/config/gpu_driver_bug_list.cc:71-94 | with no per-workaround switch on the command line the loop leaves the set unchanged |
| GpuDriverBugList.CombinedSwitchOnly | gpu/config/gpu_driver_bug_list.cc:58-95 | with no switch at all the operation is the identity; with only the combined switch it is a union with the parsed set |
| GpuDriverBugList.StepAddsOnlyItsType | gpu/config/gpu_driver_bug_list.cc:72-92 | one turn of the loop never adds a type other than the one it is for |
| GpuDriverBugList.DisabledIsAbsent | gpu/config/gpu_driver_bug_list.cc:74-77 | a workaround whose switch is "0" is absent afterwards, whatever came before |
| GpuDriverBugList.EnabledIsPresent | gpu/config/gpu_driver_bug_list.cc:79-92 | an enabled workaround other than the two GPU-forcing ones is present afterwards |
| GpuDriverBugList.UnswitchedKeepsMembership | gpu/config/gpu_driver_bug_list.cc:71-94 | a type with no switch of its own, other than the two GPU-forcing ones, is present afterwards exactly when it was before |
| GpuDriverBugList.ForceDiscreteExcludesIntegrated | gpu/config/gpu_driver_bug_list.cc:80-84 | forcing the discrete GPU without forcing the integrated one leaves the discrete choice in and the integrated one out |
| GpuDriverBugList.ForceIntegratedExcludesDiscrete | gpu/config/gpu_driver_bug_list.cc:85-88 | forcing the integrated GPU without forcing the discrete one leaves the integrated choice in and the discrete one out |
| GpuDriverBugList.AppendAllWorkaroundsAsWritten | gpu/config/gpu_driver_bug_list.cc:97-106 | as written: the existing entries, then one null entry per workaround from the resize, then every name |
| GpuDriverBugList.AppendAllWorkarounds | gpu/config/gpu_driver_bug_list.cc:97-106 | as intended: the existing entries followed by each table name once, in table order |
| GpuDriverBugList.AppendAllWorkaroundsAddsNulls | gpu/config/gpu_driver_bug_list.cc:100-101 | with any workaround in the table, the written version puts a null where the intended one puts the first name, so the two differ |
| Grid.ClampTo | third_party/WebKit/Source/core/style/GridArea.h:149-150 | the result lies in [lo, hi], equals the value when it already does, and is the nearer bound otherwise |
| Grid.MakeSpan | third_party/WebKit/Source/core/style/GridArea.h:140-151 | a built span's start line lies in [-1000, 999], its end line in [-999, 1000], and it keeps its type |
| Grid.UntranslatedDefiniteGridSpan | third_party/WebKit/Source/core/style/GridArea.h:57-59 | the span is untranslated-definite and keeps every line already within the grid bounds |
| Grid.TranslatedDefiniteGridSpan | third_party/WebKit/Source/core/style/GridArea.h:61-63 | the span is translated-definite and keeps every line already within the grid bounds |
| Grid.IndefiniteGridSpan | third_party/WebKit/Source/core/style/GridArea.h:65 | the indefinite span runs from line 0 to line 1 |
| Grid.ClampingKeepsOrder | third_party/WebKit/Source/core/style/GridArea.h:140-151 | clamping a span built from start < end keeps start < end, and lines already inside the limits are kept unchanged |
| Grid.IntegerSpan | third_party/WebKit/Source/core/style/GridArea.h:72-76 | a translated span with end > start covers a positive number of tracks that takes the start line to the end line |
| Grid.TranslatedSpanIsPositive | third_party/WebKit/Source/core/style/GridArea.h:61-63 | a translated span built from start < end covers at least one track |
| Grid.Translate | third_party/WebKit/Source/core/style/GridArea.h:126-135 | translation makes the span translated-definite, moves both lines by the offset and keeps its length |
| Grid.LineRange | third_party/WebKit/Source/core/style/GridArea.h:100-120 | the lines from a up to but excluding b, each in its place |
| Grid.VisitLines | third_party/WebKit/Source/core/style/GridArea.h:100-120 | iterating from begin() to end() visits exactly the lines of the span, integerSpan() of them, in increasing order |
| Grid.DefaultGridArea | third_party/WebKit/Source/core/style/GridArea.h:163-166 | the default area is indefinite in both directions, with equal row and column spans |
| Grid.SpanEquals | third_party/WebKit/Source/core/style/GridArea.h:67-70 | GridSpan operator==, comparing type and both lines; EqualityIsValueEquality proves it holds exactly for equal spans |
| Grid.AreaEquals | third_party/WebKit/Source/core/style/GridArea.h:170-172 | GridArea operator==, comparing the column and row spans; EqualityIsValueEquality proves it holds exactly for equal areas |
| Grid.AreaDiffers | third_party/WebKit/Source/core/style/GridArea.h:174 | GridArea operator!=; EqualityIsValueEquality proves it is the negation of equality |
| Grid.EqualityIsValueEquality | third_party/WebKit/Source/core/style/GridArea.h:67-70 | span and area operator== hold exactly when the values are equal, and operator!= is its negation |
| FontSize.SkipSpaces | third_party/WebKit/Source/core/html/HTMLFontElement.cpp:56-60 | the skip ends after a run of HTML spaces, at the end of the input or at the first non-space |
| FontSize.SkipDigits | third_party/WebKit/Source/core/html/HTMLFontElement.cpp:87-91 | the digit collection ends after a run of ASCII digits, at the end of the input or at the first non-digit |
| FontSize.ToIntStrict | third_party/WebKit/Source/core/html/HTMLFontElement.cpp:98-103 | the converted digit run is a non-negative value that fits in a 32-bit int |
| Common.Wrap32 | third_party/WebKit/Source/core/html/HTMLFontElement.cpp:106-109 | the int arithmetic result lies in the 32-bit range, and equals the mathematical value when it fits |
| Common.Wrap32Congruent | third_party/WebKit/Source/core/html/HTMLFontElement.cpp:106-109 | the wrapped int is congruent to the mathematical result modulo 2^32 |
| FontSize.ClampSize | third_party/WebKit/Source/core/html/HTMLFontElement.cpp:111-117 | the clamped size lies in [1, 7] and a size already in that range is kept |
| FontSize.DigitStart | third_party/WebKit/Source/core/html/HTMLFontElement.cpp:70-82 | the digits start at the first non-space, or one past it when that is a sign |
| FontSize.ParseFontSizeSpec | third_party/WebKit/Source/core/html/HTMLFontElement.cpp:47-131 | every successful parse yields a size in [1, 7] |
| FontSize.ParseFrom | third_party/WebKit/Source/core/html/HTMLFontElement.cpp:62-121 | the steps after the leading spaces yield, on success, a size in [1, 7] |
| FontSize.SkipLeadingSpaces | third_party/WebKit/Source/core/html/HTMLFontElement.cpp:55-60 | the space-skipping loop stops where the run of leading HTML spaces ends |
| FontSize.CollectDigits | third_party/WebKit/Source/core/html/HTMLFontElement.cpp:84-91 | the digit loop collects exactly the digit run that starts after the sign and stops at its end |
| FontSize.ParseFontSize | third_party/WebKit/Source/core/html/HTMLFontElement.cpp:47-131 | the imperative parser succeeds exactly when the rules give a size, and then returns that size, in [1, 7] |
| FontSize.ParseFailsExactly | third_party/WebKit/Source/core/html/HTMLFontElement.cpp:63-125 | parsing fails exactly on an empty or all-space input, or where no ASCII digit follows the spaces and the optional sign |
| FontSize.LeadingSpacesIgnored | third_party/WebKit/Source/core/html/HTMLFontElement.cpp:55-60 | prefixing any run of HTML spaces does not change the result |
| FontSize.ParsePlusAfterSpaces | third_party/WebKit/Source/core/html/HTMLFontElement.cpp:68-107 | a plus sign after leading spaces is relative to 3: "  +2" gives 5 |
| FontSize.ParseMinus | third_party/WebKit/Source/core/html/HTMLFontElement.cpp:75-109 | a minus sign gives 3 minus the value: "-1" gives 2 |
| FontSize.ParseClamped | third_party/WebKit/Source/core/html/HTMLFontElement.cpp:111-113 | an absolute size above 7 is clamped to 7 |
| FontSize.ParseTrailingIgnored | third_party/WebKit/Source/core/html/HTMLFontElement.cpp:87-91 | characters after the digits are ignored: "3px" gives 3 |
| FontSize.ParseSpaceAfterSign | third_party/WebKit/Source/core/html/HTMLFontElement.cpp:87-95 | a space between the sign and the digits leaves no digits, so parsing fails |
| FontSize.LegacyFontSize | third_party/WebKit/Source/core/html/HTMLFontElement.cpp:45-121 | the standard's rules, on mathematical integers, yield on success a size in [1, 7] |
| FontSize.AgreesWithoutOverflow | third_party/WebKit/Source/core/html/HTMLFontElement.cpp:98-109 | whenever the digit run's value is at most 2^31 - 4 the source's parser and the standard's rules agree on every input |
| FontSize.RelativePlusMonotone | third_party/WebKit/Source/core/html/HTMLFontElement.cpp:106-117 | under the standard, a larger "+N" never gives a smaller size |
| FontSize.PlusOverflowCounterexample | third_party/WebKit/Source/core/html/HTMLFontElement.cpp:106-107 | "+2147483647": the source wraps value += 3 to a negative number and gives 1 where the standard gives 7 |
| FontSize.DigitOverflowCounterexample | third_party/WebKit/Source/core/html/HTMLFontElement.cpp:98-103 | "99999999999": the strict conversion overflows to 0 and the source gives 1 where the standard gives 7 |
| FontSize.SizeForKeyword | third_party/WebKit/Source/core/html/HTMLFontElement.cpp:152-174 | each of the seven keywords stands for a size in [1, 7] |
| FontSize.KeywordRoundTrip | third_party/WebKit/Source/core/html/HTMLFontElement.cpp:152-174 | sizes 1..7 and the seven keywords correspond one to one, in both directions |
| FontSize.CssValueFromFontSizeNumber | third_party/WebKit/Source/core/html/HTMLFontElement.cpp:146-179 | there is no keyword exactly when parsing fails, and otherwise the keyword stands for the parsed size |
| HttpPasswordMigration.WithScheme | components/password_manager/core/browser/http_password_migrator.cc:85-87 | replacing the scheme keeps host and path, and the re-canonicalised URL drops a port equal to the new scheme's default, keeping any other port |
| HttpPasswordMigration.DefaultPort | components/password_manager/core/browser/http_password_migrator.cc:85-87 | the port GURL canonicalisation drops for a scheme: 80 for HTTP, 443 for HTTPS, none for another scheme; WithSchemeCanonical uses it |
| HttpPasswordMigration.Spec | components/password_manager/core/browser/http_password_migrator.cc:88 | the spec of a URL: scheme, "://", host, the port after a colon when there is one, and the rest; DefaultPortDropped and OtherPortKept evaluate it |
| HttpPasswordMigration.WithSchemeCanonical | components/password_manager/core/browser/http_password_migrator.cc:85-87 | the URL with its scheme replaced never names the new scheme's default port, and replacing the same scheme again changes nothing |
| HttpPasswordMigration.DefaultPortDropped | components/password_manager/core/browser/http_password_migrator.cc:85-88 | http://example.com:443/login becomes https://example.com/login |
| HttpPasswordMigration.OtherPortKept | components/password_manager/core/browser/http_password_migrator.cc:85-88 | http://example.com:8080/ becomes https://example.com:8080/, the non-default port kept |
| HttpPasswordMigration.Ignored | components/password_manager/core/browser/http_password_migrator.cc:72-76 | affiliation-based (Android) and public-suffix matches are not migrated; Migratable proves the surviving forms are exactly the others |
| HttpPasswordMigration.Migratable | components/password_manager/core/browser/http_password_migrator.cc:71-78 | the surviving forms are exactly the stored ones that are neither affiliation-based nor public-suffix matches |
| HttpPasswordMigration.MigratedForm | components/password_manager/core/browser/http_password_migrator.cc:83-95 | the HTTPS form has the origin with its scheme replaced (a port 443 dropped), that origin's spec as signon realm, the old action only when that is already HTTPS (the new origin otherwise), empty form data, no generation signal, zero-click allowed, and every other field copied |
| HttpPasswordMigration.MigratedForms | components/password_manager/core/browser/http_password_migrator.cc:82-101 | each form of the list is replaced by its HTTPS version, in order |
| HttpPasswordMigration.MigrationIdempotent | components/password_manager/core/browser/http_password_migrator.cc:83-95 | migrating an already migrated form gives it back unchanged |
| HttpPasswordMigration.MigratedRealm | components/password_manager/core/browser/http_password_migrator.cc:85-92 | the signon realm is https:// with the host, the port unless it was 443 or none, and the path; an action replaced by the origin never names port 443 |
| HttpPasswordMigration.HttpPasswordMigrator.constructor | components/password_manager/core/browser/http_password_migrator.cc:31-47 | both queries are issued and neither answer has arrived; nothing has been added, removed or delivered |
| HttpPasswordMigration.HttpPasswordMigrator.OnGetPasswordStoreResults | components/password_manager/core/browser/http_password_migrator.cc:51-59 | the credentials are stored and processed exactly when the HSTS verdict has already arrived; otherwise nothing else changes |
| HttpPasswordMigration.HttpPasswordMigrator.OnHstsQueryResult | components/password_manager/core/browser/http_password_migrator.cc:61-68 | the mode becomes MOVE for an HSTS host and COPY otherwise; the credentials are processed exactly when they have already arrived |
| HttpPasswordMigration.HttpPasswordMigrator.ProcessPasswordStoreResults | components/password_manager/core/browser/http_password_migrator.cc:70-114 | every migratable form is added as HTTPS, the HTTP originals are removed only when moving, and the migrated forms go to the consumer when there is one |
| HttpPasswordMigration.HttpPasswordMigrator.MigrateEach | components/password_manager/core/browser/http_password_migrator.cc:82-101 | the loop adds the HTTPS version of every form in order, removes the originals only in MOVE mode, and leaves the list holding the HTTPS versions |
| HttpPasswordMigration.HttpPasswordMigrator.MigrateAt | components/password_manager/core/browser/http_password_migrator.cc:83-100 | one turn of the loop: entry i becomes its HTTPS form, that form is added, and the original is removed only in MOVE mode |
| HttpPasswordMigration.MigrateStep | components/password_manager/core/browser/http_password_migrator.cc:100 | replacing entry i of the half-migrated list moves the migrated boundary one form further |
| KeepAlive.KeepAliveScheduler.constructor | chromeos/components/tether/keep_alive_scheduler.cc:16-30 | a new scheduler has no host, no pending operation, a stopped timer and has started nothing |
| KeepAlive.KeepAliveScheduler.OnActiveHostChanged | chromeos/components/tether/keep_alive_scheduler.cc:36-59 | a disconnect forgets the host and the operation and stops the timer; a connection stores the host, starts the four-minute timer and tickles at once; connecting changes nothing; the timer never runs without a host |
| KeepAlive.KeepAliveScheduler.OnOperationFinished | chromeos/components/tether/keep_alive_scheduler.cc:61-64 | the pending operation is dropped and the invariant is kept |
| KeepAlive.KeepAliveScheduler.SendKeepAliveTickle | chromeos/components/tether/keep_alive_scheduler.cc:66-73 | a new operation for the stored host is created, initialized and becomes the pending one |
| KeepAlive.KeepAliveScheduler.OnTimerFired | chromeos/components/tether/keep_alive_scheduler.cc:53-56 | each timer tick starts one more operation, always for the stored host |
| NgLineBuilder.WidthSplit | third_party/WebKit/Source/core/layout/ng/ng_line_builder.cc:130-144 | the inline size of a range of text is the sum of the sizes of its two halves |
| NgLineBuilder.ChunksCoverText | third_party/WebKit/Source/core/layout/ng/ng_line_builder.cc:189-199 | the chunks of a line are contiguous: together they measure exactly the text from the line start to the end of the last chunk |
| NgLineBuilder.PermuteKeepsElements | third_party/WebKit/Source/core/layout/ng/ng_line_builder.cc:243-252 | reordering the chunks by a visual order that lists each index once keeps exactly the same chunks |
| NgLineBuilder.MetricsFor | third_party/WebKit/Source/core/layout/ng/ng_line_builder.cc:384-397 | the metrics keep the font's ascent and descent, add up to the line height, and put half the leading, floored to a whole pixel, above the ascent |
| NgLineBuilder.LineBoxData.constructor | third_party/WebKit/Source/core/layout/ng/ng_line_builder.cc:263-264 | a new line box starts with all four maxima at zero |
| NgLineBuilder.LineBoxData.UpdateMaxAscentAndDescent | third_party/WebKit/Source/core/layout/ng/ng_line_builder.cc:399-407 | each maximum becomes the larger of itself and the item's metric, so it never decreases and bounds the item afterwards |
| NgLineBuilder.NGLineBuilder.constructor | third_party/WebKit/Source/core/layout/ng/ng_line_builder.cc:24-39 | a new builder holds the paragraph's items, has no lines and an empty line starting at the first item |
| NgLineBuilder.NGLineBuilder.CanFitOnLine | third_party/WebKit/Source/core/layout/ng/ng_line_builder.cc:41-46 | the line fits when the opportunity's size is indefinite or at least the end position; SetStart proves an empty line fits exactly when that size is indefinite or not negative |
| NgLineBuilder.NGLineBuilder.HasItems | third_party/WebKit/Source/core/layout/ng/ng_line_builder.cc:48-50 | the line has items when the start and end offsets differ; ItemsAroundBreakOpportunity proves that is when items lie before or after the last break opportunity |
| NgLineBuilder.NGLineBuilder.HasBreakOpportunity | third_party/WebKit/Source/core/layout/ng/ng_line_builder.cc:52-54 | a break opportunity lies past the start; SetStart, CreateLineUpToLastBreakOpportunity and CreateLine prove none is left after them |
| NgLineBuilder.NGLineBuilder.HasItemsAfterLastBreakOpportunity | third_party/WebKit/Source/core/layout/ng/ng_line_builder.cc:56-58 | items follow the last break opportunity; SetBreakOpportunity proves none do right after it is set |
| NgLineBuilder.NGLineBuilder.ItemsAroundBreakOpportunity | third_party/WebKit/Source/core/layout/ng/ng_line_builder.cc:48-58 | in a consistent builder the line has items exactly when some lie before the last break opportunity or some follow it |
| NgLineBuilder.NGLineBuilder.FindNextLayoutOpportunity | third_party/WebKit/Source/core/layout/ng/ng_line_builder.cc:461-468 | a non-empty opportunity becomes the current one; an empty one keeps the current opportunity |
| NgLineBuilder.NGLineBuilder.SetStart | third_party/WebKit/Source/core/layout/ng/ng_line_builder.cc:60-68 | start, end and break opportunity move to the same index and offset with both positions zero, so the line is empty and has no break; the invariant is kept |
| NgLineBuilder.NGLineBuilder.SetEndWithInlineSize | third_party/WebKit/Source/core/layout/ng/ng_line_builder.cc:94-118 | the end offset becomes the new offset, stepping into the next item when the end was at the current item's end, and the size is added to the end position; the start, the break opportunity and the lines are unchanged |
| NgLineBuilder.NGLineBuilder.SetEndToItemEnd | third_party/WebKit/Source/core/layout/ng/ng_line_builder.cc:79-86 | one step of the item loop moves the end to the end of the current or next item, keeping the end position equal to the width of the text measured so far |
| NgLineBuilder.NGLineBuilder.SetEndThroughItems | third_party/WebKit/Source/core/layout/ng/ng_line_builder.cc:83-88 | the loop moves the end item by item until the new offset lies in the next item, keeping the end position equal to the measured width |
| NgLineBuilder.NGLineBuilder.SetEnd | third_party/WebKit/Source/core/layout/ng/ng_line_builder.cc:70-92 | extending the line adds exactly the width of the text between the old and new end to the end position, and the end then lies in the item that contains the new offset |
| NgLineBuilder.NGLineBuilder.SetBreakOpportunity | third_party/WebKit/Source/core/layout/ng/ng_line_builder.cc:120-124 | the break opportunity becomes the current end (index, offset and position), so no items follow it; nothing else changes |
| NgLineBuilder.NGLineBuilder.LineItemChunks | third_party/WebKit/Source/core/layout/ng/ng_line_builder.cc:186-199 | one chunk per item from the start to the break opportunity, each starting where the previous ended and ending at its item's end or the break, the last at the break |
| NgLineBuilder.NGLineBuilder.CreateLineUpToLastBreakOpportunity | third_party/WebKit/Source/core/layout/ng/ng_line_builder.cc:183-219 | one line is added holding the chunks up to the break (in visual order when bidi is on); the start moves to the break opportunity and the positions shift back by the break's position |
| NgLineBuilder.NGLineBuilder.CreateLine | third_party/WebKit/Source/core/layout/ng/ng_line_builder.cc:177-181 | a line is made of everything added so far; afterwards the start, the break opportunity and the end coincide, so no items remain |
| NgLineBuilder.BidiReorder | third_party/WebKit/Source/core/layout/ng/ng_line_builder.cc:221-253 | the chunk at each visual position is the chunk at the logical index the visual order names, so the line keeps the same chunks |
| Common.StringLessTrichotomous | components/offline_items_collection/core/offline_item.cc:22-25 | the string ordering std::tie relies on is total: exactly one of a < b, a == b and b < a holds |
| OfflineItems.ContentIdEquals | components/offline_items_collection/core/offline_item.cc:18-20 | ContentId operator==, comparing namespace and id; ContentIdEqualsIsIdentity proves it is identity of identifiers |
| OfflineItems.ContentIdLess | components/offline_items_collection/core/offline_item.cc:22-25 | ContentId operator<, the lexicographic order of (namespace, id); ContentIdLessIsStrictTotalOrder proves it a strict total order agreeing with ContentIdEquals |
| OfflineItems.ContentIdEqualsIsIdentity | components/offline_items_collection/core/offline_item.cc:18-20 | ContentId equality holds exactly when both the namespace and the id agree, that is for equal identifiers |
| OfflineItems.ContentIdLessIsStrictTotalOrder | components/offline_items_collection/core/offline_item.cc:22-25 | operator< is irreflexive, transitive and asymmetric, and any two identifiers are ordered one way or the other unless they are equal |
| OfflineItems.NewOfflineItem | components/offline_items_collection/core/offline_item.cc:27-42 | an item made from an id holds that id, the "other" filter, the complete state, zero sizes and progress, false flags and empty strings, times and URLs |
| OfflineItems.DefaultOfflineItem | components/offline_items_collection/core/offline_item.cc:27-36 | the default item: the item NewOfflineItem builds from an empty identifier, whose contract gives its field values |
| OfflineItems.OfflineItemEquals | components/offline_items_collection/core/offline_item.cc:46-62 | OfflineItem operator==, comparing the id with ContentIdEquals and the other fifteen fields; OfflineItemEqualsIsIdentity proves it is identity of items |
| OfflineItems.OfflineItemEqualsIsIdentity | components/offline_items_collection/core/offline_item.cc:46-62 | item equality compares all sixteen fields, so it holds exactly for equal items; items made from ids are equal exactly when the ids are |
| PreferenceValidation.MapValueState | chrome/browser/safe_browsing/incident_reporting/preference_validation_delegate.cc:29-49 | a primary failure (cleared, changed, untrusted unknown value) is reported as itself; otherwise an external cleared or changed becomes a bypass state; otherwise unknown |
| PreferenceValidation.MapValueStateClassifies | chrome/browser/safe_browsing/incident_reporting/preference_validation_delegate.cc:29-49 | nothing is reported exactly when neither check failed, and a bypass state arises exactly when only the external check failed |
| PreferenceValidation.AtomicValue | chrome/browser/safe_browsing/incident_reporting/preference_validation_delegate.cc:72-77 | a string value is reported as itself, another value as its JSON text when it can be written, and a missing or unwritable value clears the atomic value |
| PreferenceValidation.PreferenceValidationDelegate.constructor | chrome/browser/safe_browsing/incident_reporting/preference_validation_delegate.cc:53-56 | a new delegate has reported nothing |
| PreferenceValidation.PreferenceValidationDelegate.OnAtomicPreferenceValidation | chrome/browser/safe_browsing/incident_reporting/preference_validation_delegate.cc:61-83 | a failed validation appends exactly one incident with the path, the atomic value, the mapped state and the personal flag; a clean one reports nothing |
| PreferenceValidation.PreferenceValidationDelegate.OnSplitPreferenceValidation | chrome/browser/safe_browsing/incident_reporting/preference_validation_delegate.cc:85-117 | a failed validation appends exactly one incident with the path, no atomic value, the mapped state, the personal flag and the externally invalid keys for a bypass, the invalid keys otherwise; a clean one reports nothing |
| SharedContextRateLimiterModel.SharedContextRateLimiter.constructor | third_party/WebKit/Source/platform/graphics/gpu/SharedContextRateLimiter.cpp:22-38 | sync queries are used exactly when the provider exists, its context is healthy and it supports GL_CHROMIUM_sync_query; nothing is pending |
| SharedContextRateLimiterModel.SharedContextRateLimiter.Tick | third_party/WebKit/Source/platform/graphics/gpu/SharedContextRateLimiter.cpp:40-66 | without a healthy context nothing changes; otherwise a query is pushed (0 without sync queries), and once more than the maximum are pending the oldest is deleted, or, without sync queries, all are deleted; never more than the maximum stay pending |
| SharedContextRateLimiterModel.SharedContextRateLimiter.Reset | third_party/WebKit/Source/platform/graphics/gpu/SharedContextRateLimiter.cpp:68-81 | without a provider nothing changes; with a healthy context every pending query is deleted, oldest first; with a lost one they are dropped without any deletion |
| ShelfTraits.ShelfActionToMojom | ash/public/cpp/shelf_struct_traits.h:19-34 | the mojom action each shelf action is sent as, NEW_WINDOW_CREATED going out as WINDOW_CREATED; ShelfActionRoundTrip proves FromMojom undoes it |
| ShelfTraits.ShelfActionFromMojom | ash/public/cpp/shelf_struct_traits.h:36-56 | the shelf action a mojom action reads as, and failure for a value naming no enumerator; ShelfActionRoundTrip proves it fails exactly there and otherwise inverts ToMojom |
| ShelfTraits.ShelfActionRoundTrip | ash/public/cpp/shelf_struct_traits.h:18-57 | FromMojom inverts ToMojom, ToMojom inverts every successful FromMojom, FromMojom fails exactly on an undeclared value, and NEW_WINDOW_CREATED maps to WINDOW_CREATED |
| ShelfTraits.ShelfAlignmentToMojom | ash/public/cpp/shelf_struct_traits.h:61-74 | the mojom alignment each shelf alignment is sent as; ShelfAlignmentRoundTrip proves FromMojom undoes it |
| ShelfTraits.ShelfAlignmentFromMojom | ash/public/cpp/shelf_struct_traits.h:76-94 | the shelf alignment a mojom alignment reads as, and failure for an undeclared value; ShelfAlignmentRoundTrip proves it fails exactly there and otherwise inverts ToMojom |
| ShelfTraits.ShelfAlignmentRoundTrip | ash/public/cpp/shelf_struct_traits.h:60-95 | FromMojom and ToMojom are inverse on the declared alignments and FromMojom fails exactly on an undeclared value |
| ShelfTraits.ShelfAutoHideBehaviorToMojom | ash/public/cpp/shelf_struct_traits.h:100-112 | the mojom behaviour each auto-hide behaviour is sent as; ShelfAutoHideBehaviorRoundTrip proves FromMojom undoes it |
| ShelfTraits.ShelfAutoHideBehaviorFromMojom | ash/public/cpp/shelf_struct_traits.h:114-129 | the auto-hide behaviour a mojom value reads as, and failure for an undeclared value; ShelfAutoHideBehaviorRoundTrip proves it fails exactly there and otherwise inverts ToMojom |
| ShelfTraits.ShelfAutoHideBehaviorRoundTrip | ash/public/cpp/shelf_struct_traits.h:98-130 | FromMojom and ToMojom are inverse on the declared behaviours, FromMojom fails exactly on an undeclared value, and ALWAYS_HIDDEN maps to HIDDEN |
| ShelfTraits.ShelfItemStatusToMojom | ash/public/cpp/shelf_struct_traits.h:134-147 | the mojom status each item status is sent as; ShelfItemStatusRoundTrip proves FromMojom undoes it |
| ShelfTraits.ShelfItemStatusFromMojom | ash/public/cpp/shelf_struct_traits.h:149-167 | the item status a mojom status reads as, and failure for an undeclared value; ShelfItemStatusRoundTrip proves it fails exactly there and otherwise inverts ToMojom |
| ShelfTraits.ShelfItemStatusRoundTrip | ash/public/cpp/shelf_struct_traits.h:133-168 | FromMojom and ToMojom are inverse on the declared statuses and FromMojom fails exactly on an undeclared value |
| ShelfTraits.ShelfItemTypeToMojom | ash/public/cpp/shelf_struct_traits.h:172-191 | the mojom item type each shelf item type is sent as, TYPE_APP_PANEL going out as PANEL; ShelfItemTypeRoundTrip proves FromMojom undoes it |
| ShelfTraits.ShelfItemTypeFromMojom | ash/public/cpp/shelf_struct_traits.h:193-220 | the shelf item type a mojom type reads as, and failure for an undeclared value; ShelfItemTypeRoundTrip proves it fails exactly there and otherwise inverts ToMojom |
| ShelfTraits.ShelfItemTypeRoundTrip | ash/public/cpp/shelf_struct_traits.h:171-221 | FromMojom and ToMojom are inverse on the declared item types, FromMojom fails exactly on an undeclared value, and TYPE_APP_PANEL and TYPE_BROWSER_SHORTCUT map to PANEL and BROWSER |
| ShelfTraits.ShelfLaunchSourceToMojom | ash/public/cpp/shelf_struct_traits.h:225-236 | the mojom launch source each launch source is sent as; ShelfLaunchSourceRoundTrip proves FromMojom undoes it |
| ShelfTraits.ShelfLaunchSourceFromMojom | ash/public/cpp/shelf_struct_traits.h:238-253 | the launch source a mojom value reads as, and failure for an undeclared value; ShelfLaunchSourceRoundTrip proves it fails exactly there and otherwise inverts ToMojom |
| ShelfTraits.ShelfLaunchSourceRoundTrip | ash/public/cpp/shelf_struct_traits.h:224-254 | FromMojom and ToMojom are inverse on the declared launch sources and FromMojom fails exactly on an undeclared value |
| ShelfTraits.WriteShelfItem | ash/public/cpp/shelf_struct_traits.h:256-268 | the fields the StructTraits accessors hand to the serializer, the enums through their EnumTraits; ShelfItemRoundTrip proves the data determines the item |
| ShelfTraits.ReadShelfItem | ash/public/cpp/shelf_struct_traits.h:270 | an item read from serialized data, failing when its type or status is undeclared (the body of Read is in shelf_struct_traits.cc, which is not part of this model); ShelfItemRoundTrip proves it inverts WriteShelfItem |
| ShelfTraits.ShelfItemRoundTrip | ash/public/cpp/shelf_struct_traits.h:255-271 | the accessors pass every field through unchanged: written data reads back as the same item, and different items never write the same data |
| SvgGradient.SpreadMethodKeyword | third_party/WebKit/Source/core/svg/SVGGradientElement.cpp:35-44 | every spread method but the unknown one has a keyword, and it is the one registered for it |
| SvgGradient.ParseSpreadMethod | third_party/WebKit/Source/core/svg/SVGGradientElement.cpp:35-44 | a keyword parses exactly when it is registered, and to the value it is registered for |
| SvgGradient.SpreadMethodRoundTrip | third_party/WebKit/Source/core/svg/SVGGradientElement.cpp:35-44 | the keywords are exactly pad, reflect and repeat, and parsing and serializing are inverse on them in both directions |
| SvgGradient.MonotonicOffset | third_party/WebKit/Source/core/svg/SVGGradientElement.cpp:159-161 | the offset is at most 1, never below a previous offset that is itself at most 1, and unchanged when it already lies between the previous offset and 1 |
| SvgGradient.BuildStops | third_party/WebKit/Source/core/svg/SVGGradientElement.cpp:153-168 | one stop per child in order with the child's colour, each offset pushed up to the previous one and capped at 1, so offsets lie in [0, 1], never decrease, and equal the children's when those already rise within [0, 1] |
| SvgGradient.RecurrenceFacts | third_party/WebKit/Source/core/svg/SVGGradientElement.cpp:156-166 | stops built by the offset recurrence lie in [0, 1], never decrease, and keep offsets that already rise within [0, 1] |
| SvgGradient.GradientAttributes.constructor | third_party/WebKit/Source/core/svg/SVGGradientElement.cpp:123-142 | a fresh attribute collection has no attribute set |
| SvgGradient.GradientAttributes.CollectCommonAttributes | third_party/WebKit/Source/core/svg/SVGGradientElement.cpp:123-142 | every attribute still unset takes the element's value when it has one, stops only when there is at least one <stop> child (then one per child, in order, with the child's colour and its offset pushed up to the previous stop's and capped at 1, so the children's own offsets when they already rise within [0, 1]), and nothing already set is overwritten |
| SvgPathByteStream.DecodeFields | third_party/WebKit/Source/core/svg/SVGPathByteStreamSource.cpp:29-72 | the fields after a command decode to a segment with that command |
| SvgPathByteStream.SVGPathByteStreamSource.constructor | third_party/WebKit/Source/core/svg/SVGPathByteStreamSource.cpp:24-27 | the source reads the given stream from its start |
| SvgPathByteStream.SVGPathByteStreamSource.ReadFloat | third_party/WebKit/Source/core/svg/SVGPathByteStreamSource.cpp:48 | reading a float returns the float at the cursor and moves past it |
| SvgPathByteStream.SVGPathByteStreamSource.ReadFlag | third_party/WebKit/Source/core/svg/SVGPathByteStreamSource.cpp:65-66 | reading a flag returns the flag at the cursor and moves past it |
| SvgPathByteStream.SVGPathByteStreamSource.ReadFloatPoint | third_party/WebKit/Source/core/svg/SVGPathByteStreamSource.cpp:32 | reading a point returns x then y from the next two floats and moves past both |
| SvgPathByteStream.SVGPathByteStreamSource.ReadSegmentType | third_party/WebKit/Source/core/svg/SVGPathByteStreamSource.cpp:27 | reading the command returns the command at the cursor and moves past it |
| SvgPathByteStream.SVGPathByteStreamSource.ParseFallThrough | third_party/WebKit/Source/core/svg/SVGPathByteStreamSource.cpp:30-45 | the fall-through cases read point1 (cubic), point2 (cubic and smooth cubic) and the target, exactly the fields the command's layout lists |
| SvgPathByteStream.SVGPathByteStreamSource.ParseOneCoordinate | third_party/WebKit/Source/core/svg/SVGPathByteStreamSource.cpp:46-53 | horizontal lines read the target's x, vertical lines its y, one float each |
| SvgPathByteStream.SVGPathByteStreamSource.ParseQuadratic | third_party/WebKit/Source/core/svg/SVGPathByteStreamSource.cpp:56-60 | quadratic curves read point1 and then the target |
| SvgPathByteStream.SVGPathByteStreamSource.ParseArc | third_party/WebKit/Source/core/svg/SVGPathByteStreamSource.cpp:61-68 | arcs read the radii, the angle, the large-arc flag, the sweep flag and the target, in that order |
| SvgPathByteStream.SVGPathByteStreamSource.HasMoreData | third_party/WebKit/Source/core/svg/SVGPathByteStreamSource.cpp:25 | the cursor has not reached the end of the stream; ParseSegment proves it at its start, as the DCHECK demands, from its precondition that a whole entry lies at the cursor (the definition is in SVGPathByteStreamSource.h, which is not part of this model) |
| SvgPathByteStream.SVGPathByteStreamSource.ParseSegment | third_party/WebKit/Source/core/svg/SVGPathByteStreamSource.cpp:24-74 | parsing reads the command and exactly the fields it carries, leaves the cursor at the next entry, and decodes those fields |
| SvgPathByteStream.EncodeSegment | third_party/WebKit/Source/core/svg/SVGPathByteStreamSource.cpp:24-74 | an encoded segment is its command followed by as many items as the command's layout lists |
| SvgPathByteStream.DecodeEncode | third_party/WebKit/Source/core/svg/SVGPathByteStreamSource.cpp:24-74 | every encoded canonical segment is a well-formed entry, and parsing it gives the segment back |
| SvgPathByteStream.EncodeDecode | third_party/WebKit/Source/core/svg/SVGPathByteStreamSource.cpp:24-74 | the fields of a well-formed entry decode to a canonical segment that encodes back to the same items |
| SvgPathByteStream.SegmentAtExtends | third_party/WebKit/Source/core/svg/SVGPathByteStreamSource.cpp:24-74 | items after a well-formed entry leave it well formed and its fields unchanged |
| SvgPathByteStream.ParseEncoded | third_party/WebKit/Source/core/svg/SVGPathByteStreamSource.cpp:24-74 | parsing a stream that starts with an encoded segment gives that segment and leaves the cursor at the next entry |
| SvgPath.ReflectedPoint | third_party/WebKit/Source/core/svg/SVGPathParser.cpp:32-36 | the reflected point and the reflected one are symmetric about the reflection centre |
| SvgPath.BlendPoints | third_party/WebKit/Source/core/svg/SVGPathParser.cpp:38-43 | the blended point lies one third of the way from p2 to p1 |
| SvgPath.SVGPathNormalizer.constructor | third_party/WebKit/Source/core/svg/SVGPathParser.cpp:59-167 | a new normaliser starts at the origin with no last command and has emitted nothing |
| SvgPath.SVGPathNormalizer.DecomposeArcToCubic | third_party/WebKit/Source/core/svg/SVGPathParser.cpp:173-277 | decomposition succeeds exactly when the arc is not a straight line and the cubic emission finishes; a line-like arc emits nothing, any other emits its cubics |
| SvgPath.SVGPathNormalizer.NormalizeCubic | third_party/WebKit/Source/core/svg/SVGPathParser.cpp:115-126 | a cubic becomes an absolute cubic whose first control point, for a smooth cubic, is the reflection of the previous control point after a cubic and the current point otherwise; the second control point is saved |
| SvgPath.SVGPathNormalizer.NormalizeQuadratic | third_party/WebKit/Source/core/svg/SVGPathParser.cpp:127-141 | a quadratic (smooth ones first taking the reflected or current point as control) becomes an absolute cubic with control points blended one third towards the quadratic control point, which is saved |
| SvgPath.SVGPathNormalizer.EmitSegment | third_party/WebKit/Source/core/svg/SVGPathParser.cpp:59-167 | the segments emitted and the new state are exactly those of one normalisation step of the segment |
| SvgPath.SVGPathNormalizer.EmitNormalized | third_party/WebKit/Source/core/svg/SVGPathParser.cpp:96-167 | the second switch and the state update give exactly the step's output and state for the absolute segment |
| SvgPath.SVGPathNormalizer.EmitMove | third_party/WebKit/Source/core/svg/SVGPathParser.cpp:99-103 | a move becomes an absolute move and starts a new subpath at its target |
| SvgPath.SVGPathNormalizer.EmitLine | third_party/WebKit/Source/core/svg/SVGPathParser.cpp:104-111 | every line form becomes an absolute line to its target |
| SvgPath.SVGPathNormalizer.EmitClose | third_party/WebKit/Source/core/svg/SVGPathParser.cpp:112-114 | a close-path is emitted as a close-path whose target is the start of the subpath |
| SvgPath.SVGPathNormalizer.EmitCubic | third_party/WebKit/Source/core/svg/SVGPathParser.cpp:115-126 | cubic forms are emitted as in one normalisation step |
| SvgPath.SVGPathNormalizer.EmitQuadratic | third_party/WebKit/Source/core/svg/SVGPathParser.cpp:127-141 | quadratic forms are emitted as in one normalisation step |
| SvgPath.SVGPathNormalizer.EmitArc | third_party/WebKit/Source/core/svg/SVGPathParser.cpp:142-153 | an arc emits its cubics when the decomposition succeeds and a line to its target otherwise |
| SvgPath.SVGPathNormalizer.Finish | third_party/WebKit/Source/core/svg/SVGPathParser.cpp:158-166 | the segment is emitted unless the arc decomposition already did, the current point moves to its target, the control point is reset after a command that is not a curve, and the command is recorded |
| SvgPath.StepEmitsNormalized | third_party/WebKit/Source/core/svg/SVGPathParser.cpp:59-167 | every segment the normaliser emits is an absolute MoveTo, LineTo, cubic CurveTo or ClosePath |
| SvgPath.AbsolutePointsOfAbsolute | third_party/WebKit/Source/core/svg/SVGPathParser.cpp:62-94 | once a relative segment's points are made absolute, treating it as the absolute command changes nothing further |
| SvgPath.SameGroupAsAbsolute | third_party/WebKit/Source/core/svg/SVGPathParser.cpp:96-156 | a relative command and its absolute counterpart are normalised alike, apart from the command recorded as the last one |
| SvgPath.AbsoluteKeepsGroup | third_party/WebKit/Source/core/svg/SVGPathParser.cpp:96-156 | the absolute counterpart of a relative command is in the same case group and is smooth exactly when the relative one is |
| SvgPath.SameGroupSameStep | third_party/WebKit/Source/core/svg/SVGPathParser.cpp:96-156 | two commands of the same case group and smoothness normalise alike, apart from the command recorded |
| SvgPath.RelativeMatchesAbsolute | third_party/WebKit/Source/core/svg/SVGPathParser.cpp:59-167 | a relative segment normalises to the same output and state as the absolute segment whose points are offset by the current point |
| SvgPath.StepMovesToTarget | third_party/WebKit/Source/core/svg/SVGPathParser.cpp:88-161 | after a step the current point is the segment's absolute target; a close-path returns to the subpath start and an absolute move starts a subpath at its target |
| SvgPath.SmoothCubicReflects | third_party/WebKit/Source/core/svg/SVGPathParser.cpp:115-121 | after a cubic, a smooth cubic's first control point mirrors the previous control point through the current point; after anything else it is the current point |
| SvgPath.QuadraticBecomesCubic | third_party/WebKit/Source/core/svg/SVGPathParser.cpp:134-141 | a quadratic becomes a single absolute cubic whose control points lie two thirds of the way from each end point to the quadratic control point, which is kept |
| SvgPath.DegenerateArcIsLine | third_party/WebKit/Source/core/svg/SVGPathParser.cpp:175-186 | an arc with a zero radius, or ending at the current point, becomes a single absolute line to its target |
| SvgPath.ControlPointResetAfterNonCurve | third_party/WebKit/Source/core/svg/SVGPathParser.cpp:163-164 | after a command that is not a curve, the control point is the current point |
| TextPainterModel.Then | third_party/WebKit/Source/core/paint/TextPainter.h:121-143 | the composed transform maps every point as the second transform applied after the first |
| TextPainterModel.Rotation | third_party/WebKit/Source/core/paint/TextPainter.h:121-143 | the clockwise rotation takes the box's bottom-left corner to its top-left one, the counterclockwise one the top-left to the bottom-left, and both are pure quarter turns |
| TextPainterModel.ClockwiseIsQuarterTurn | third_party/WebKit/Source/core/paint/TextPainter.h:121-143 | the clockwise rotation turns every vector by 90 degrees, keeping lengths and angles |
| TextPainterModel.RotationsAreInverse | third_party/WebKit/Source/core/paint/TextPainter.h:121-143 | the clockwise and counterclockwise rotations of a box undo each other in either order, as transforms and point by point |
| TextPainterModel.StyleEquals | third_party/WebKit/Source/core/paint/TextPainter.h:71-76 | Style operator==, comparing the four colours, the stroke width and the shadow; StyleEqualityIsFieldwise proves it holds exactly for equal styles |
| TextPainterModel.StyleNotEquals | third_party/WebKit/Source/core/paint/TextPainter.h:77 | Style operator!=; StyleEqualityIsFieldwise proves it is the negation of equality |
| TextPainterModel.StyleEqualityIsFieldwise | third_party/WebKit/Source/core/paint/TextPainter.h:62-77 | style equality compares all six fields, so it holds exactly for equal styles, is symmetric, and != is its negation |
| TouchFilter.IsYAxisActionDisallowed | content/browser/renderer_host/input/touch_action_filter.cc:20-22 | vertical movement is disallowed when some horizontal pan is allowed and no vertical one; AxisRestrictionsExclusive proves it never holds with the horizontal restriction |
| TouchFilter.IsXAxisActionDisallowed | content/browser/renderer_host/input/touch_action_filter.cc:24-26 | horizontal movement is disallowed when some vertical pan is allowed and no horizontal one; AxisRestrictionsExclusive proves it never holds with the vertical restriction |
| TouchFilter.AxisRestrictionsExclusive | content/browser/renderer_host/input/touch_action_filter.cc:18-26 | the vertical and horizontal restrictions never hold together, so at most one axis is ever zeroed |
| TouchFilter.MinimalConformingAction | content/browser/renderer_host/input/touch_action_filter.cc:189-205 | the minimal conforming action holds only pan flags and is non-empty whenever a hint is non-zero |
| TouchFilter.ShouldSuppressManipulation | content/browser/renderer_host/input/touch_action_filter.cc:172-208 | a scroll with two or more fingers is suppressed exactly when pinch-zoom is not allowed; a one-finger scroll without hints never is |
| TouchFilter.SuppressionByDominantAxis | content/browser/renderer_host/input/touch_action_filter.cc:183-207 | a one-finger scroll with a hint is suppressed exactly when no allowed pan flag matches the direction of travel along a dominant axis |
| TouchFilter.AutoNeverSuppresses | content/browser/renderer_host/input/touch_action_filter.cc:172-208 | with every action allowed nothing is suppressed |
| TouchFilter.RestrictScrollAxis | content/browser/renderer_host/input/touch_action_filter.cc:61-67 | a scroll update loses its delta and velocity on the forbidden axis and is otherwise unchanged |
| TouchFilter.RestrictFlingAxis | content/browser/renderer_host/input/touch_action_filter.cc:77-80 | a fling loses its velocity on the forbidden axis and is otherwise unchanged |
| TouchFilter.TouchActionFilter.constructor | content/browser/renderer_host/input/touch_action_filter.cc:30-34 | a new filter suppresses nothing, drops no tap, allows double taps and allows every action |
| TouchFilter.TouchActionFilter.FilterManipulationEventAndResetState | content/browser/renderer_host/input/touch_action_filter.cc:143-149 | the result is the suppression flag, which is cleared |
| TouchFilter.TouchActionFilter.FilterGestureEvent | content/browser/renderer_host/input/touch_action_filter.cc:36-141 | per gesture kind: non-touchscreen events pass; a scroll begin sets suppression; updates and flings are dropped while suppressed and otherwise lose the forbidden axis, a zero fling becoming a scroll end; double taps and unconfirmed taps become taps when double tap is not allowed; a tap-ending event is dropped once after that; only the named flags change |
| TouchFilter.TouchActionFilter.OnSetTouchAction | content/browser/renderer_host/input/touch_action_filter.cc:151-164 | the allowed action becomes its intersection with the finger's action, so it only ever shrinks |
| TouchFilter.TouchActionFilter.ResetTouchAction | content/browser/renderer_host/input/touch_action_filter.cc:166-170 | every action is allowed again |
| TouchFilter.SetTouchActionOrderIndependent | content/browser/renderer_host/input/touch_action_filter.cc:151-164 | two fingers' actions give the same allowed action whichever arrives first |
| TouchFilter.TapEndingDroppedOnce | content/browser/renderer_host/input/touch_action_filter.cc:108-128 | without double-tap zoom an unconfirmed tap becomes a tap and the following tap is dropped exactly once, the next one passing |
| WallpaperPrivate.GetWallpaperType | chrome/browser/chromeos/extensions/wallpaper_private_api.cc:289-305 | each named source maps to its own user wallpaper type and anything else to ONLINE; WallpaperTypeRoundTrip proves SourceOf inverts it on the named sources |
| WallpaperPrivate.SourceOf | chrome/browser/chromeos/extensions/wallpaper_private_api.cc:289-305 | every user wallpaper type comes from a declared wallpaper source |
| WallpaperPrivate.WallpaperTypeRoundTrip | chrome/browser/chromeos/extensions/wallpaper_private_api.cc:289-305 | each declared source maps to its own wallpaper type and back, every type is reached, and a missing source counts as online |
| WallpaperPrivate.WindowStates.constructor | chrome/browser/chromeos/extensions/wallpaper_private_api.cc:226-233 | the window states start with the given minimized windows |
| WallpaperPrivate.WindowStateManager.constructor | chrome/browser/chromeos/extensions/wallpaper_private_api.cc:207 | a new manager records no windows for any user and observes none |
| WallpaperPrivate.WindowStateManager.BuildWindowListAndMinimizeInactiveForUser | chrome/browser/chromeos/extensions/wallpaper_private_api.cc:211-235 | the user gets an entry (kept if present) to which every window other than the active one and those already minimized is added; those windows are observed and minimized; other users are unchanged |
| WallpaperPrivate.WindowStateManager.RecordAndMinimize | chrome/browser/chromeos/extensions/wallpaper_private_api.cc:229-233 | one window is recorded for the user, observed and minimized |
| WallpaperPrivate.WindowStateManager.RestoreMinimizedWindows | chrome/browser/chromeos/extensions/wallpaper_private_api.cc:237-256 | a user without an entry changes nothing; otherwise the entry is removed, its windows are unminimized, and each stops being observed unless another user still records it |
| WallpaperPrivate.WindowStateManager.RemoveObserverIfUnreferenced | chrome/browser/chromeos/extensions/wallpaper_private_api.cc:258-268 | the window stops being observed exactly when no user records it |
| WallpaperPrivate.WindowStateManager.ForgetWindow | chrome/browser/chromeos/extensions/wallpaper_private_api.cc:270-285 | the window leaves every user's set; the users stay the same |
| WallpaperPrivate.WindowStateManager.OnWindowDestroyed | chrome/browser/chromeos/extensions/wallpaper_private_api.cc:270-277 | a destroyed window leaves every user's set |
| WallpaperPrivate.WindowStateManager.OnWindowStackingChanged | chrome/browser/chromeos/extensions/wallpaper_private_api.cc:279-287 | a window the user interacted with leaves every user's set and is no longer observed |
| WallpaperPrivate.Minimizable | chrome/browser/chromeos/extensions/wallpaper_private_api.cc:223-234 | the windows the loop minimizes: those of the list that are neither active nor minimized already; MinimizableAppend proves the loop builds it window by window |
| WallpaperPrivate.MinimizableAppend | chrome/browser/chromeos/extensions/wallpaper_private_api.cc:223-234 | one more window in the list adds it to the minimized set exactly when it is neither active nor already minimized |
| WallpaperPrivate.WallpaperWindows.constructor | chrome/browser/chromeos/extensions/wallpaper_private_api.cc:170-171 | there is no window state manager at first |
| WallpaperPrivate.WallpaperWindows.MinimizeInactiveWindows | chrome/browser/chromeos/extensions/wallpaper_private_api.cc:173-185 | under mash nothing happens; otherwise a manager exists (the old one if there was one), the user's entry is its previous entry (empty for a new manager) plus the minimizable windows, every other user's entry is kept, exactly those windows become observed and minimized |
| WallpaperPrivate.WallpaperWindows.RestoreWindows | chrome/browser/chromeos/extensions/wallpaper_private_api.cc:187-205 | under mash or without a manager nothing happens; otherwise the user's windows are unminimized, its entry goes while every other entry is kept, a restored window stays observed only if another user still records it, and the manager is deleted exactly when no user is left |
| WallpaperPrivate.RemoveExtension | chrome/browser/chromeos/extensions/wallpaper_private_api.cc:935 | the name without its extension is a prefix of the name, and a name without a dot is kept whole |
| WallpaperPrivate.EndsWith | chrome/browser/chromeos/extensions/wallpaper_private_api.cc:937-938 | base::EndsWith with case-sensitive comparison: the suffix is the string's tail |
| WallpaperPrivate.IsListed | chrome/browser/chromeos/extensions/wallpaper_private_api.cc:935-939 | a file is listed unless its name without extension ends with the small-resolution suffix; OfflineListMembers proves the list holds exactly such files |
| WallpaperPrivate.OfflineList | chrome/browser/chromeos/extensions/wallpaper_private_api.cc:933-940 | the listed base names, in enumeration order and never more than the files; OfflineListMembers and SmallWallpaperLeftOut characterise it |
| WallpaperPrivate.OfflineListMembers | chrome/browser/chromeos/extensions/wallpaper_private_api.cc:933-940 | a file is listed exactly when it is in the directory and its name without extension does not end with the small-resolution suffix |
| WallpaperPrivate.SmallWallpaperLeftOut | chrome/browser/chromeos/extensions/wallpaper_private_api.cc:936-939 | a small-resolution wallpaper is left out while its full-resolution twin is listed |
| WallpaperPrivate.DropExtension | chrome/browser/chromeos/extensions/wallpaper_private_api.cc:935 | removing the extension of "stem.ext" gives the stem |
| WallpaperPrivate.GetList | chrome/browser/chromeos/extensions/wallpaper_private_api.cc:925-946 | without the directory the list is empty; otherwise it is the offline list of its files |
| Camera2.ClosestSize | media/capture/video/android/java/src/org/chromium/media/VideoCaptureCamera2.java:454-471 | the first size of least distance, none for a null array or when no distance is below Integer.MAX_VALUE; FindClosestSizeInArray proves the loop computes it and the ClosestSize lemmas characterise it |
| Camera2.FindClosestSizeInArray | media/capture/video/android/java/src/org/chromium/media/VideoCaptureCamera2.java:454-471 | a null array gives no size; otherwise no size exactly when every distance reaches Integer.MAX_VALUE, else the first entry of least summed per-axis distance (an axis with a non-positive target ignored), the differences, absolute values and sum wrapping as Java ints do |
| Camera2.JavaAbs | media/capture/video/android/java/src/org/chromium/media/VideoCaptureCamera2.java:459-460 | Math.abs of an int is its absolute value, except Integer.MIN_VALUE, which comes back unchanged |
| Camera2.ClosestSizeMissingIffAllFar | media/capture/video/android/java/src/org/chromium/media/VideoCaptureCamera2.java:454-471 | the closest size is missing exactly for a null array or one in which every distance reaches Integer.MAX_VALUE |
| Camera2.ClosestSizeIsFirstNearest | media/capture/video/android/java/src/org/chromium/media/VideoCaptureCamera2.java:454-471 | a closest size is an entry of least distance with no earlier entry that close |
| Camera2.ClosestSizeMissingOnlyWhenEmpty | media/capture/video/android/java/src/org/chromium/media/VideoCaptureCamera2.java:454-471 | for sizes and targets below 2^30 a closest size is missing only for a null or empty array |
| Camera2.ClosestSizeWildcardExample | media/capture/video/android/java/src/org/chromium/media/VideoCaptureCamera2.java:452-460 | a zero width matches on height alone: 0x720 picks 1280x720 over 640x480 |
| Camera2.ClosestWhiteBalance | media/capture/video/android/java/src/org/chromium/media/VideoCaptureCamera2.java:473-484 | the preset of least temperature distance, the first on a tie, and none when no distance is below Integer.MAX_VALUE; GetClosestWhiteBalance proves the loop computes it, WhiteBalanceAlwaysFound that a preset is found |
| Camera2.GetClosestWhiteBalance | media/capture/video/android/java/src/org/chromium/media/VideoCaptureCamera2.java:473-484 | the preset of the first table key nearest the temperature, or none (-1) when every distance reaches Integer.MAX_VALUE |
| Camera2.WhiteBalanceAlwaysFound | media/capture/video/android/java/src/org/chromium/media/VideoCaptureCamera2.java:244-253 | every positive 32-bit temperature has a nearest preset in the seven-entry table |
| Camera2.WhiteBalanceExample | media/capture/video/android/java/src/org/chromium/media/VideoCaptureCamera2.java:244-253 | 3100 K maps to TWILIGHT |
| Camera2.WhiteBalanceTieGoesToLowerKey | media/capture/video/android/java/src/org/chromium/media/VideoCaptureCamera2.java:477-482 | on equal distance the lower key wins (2895 K maps to INCANDESCENT) |
| Camera2.ConfigureCommonCaptureSettings | media/capture/video/android/java/src/org/chromium/media/VideoCaptureCamera2.java:358-443 | the preview request built from the settings, later builder calls overriding earlier ones; FocusKeys, ExposureAndFlashKeys, WhiteBalanceKeys and RegionCropAndIsoKeys give every key, and ModesReadBack proves the modes read back as set |
| Camera2.SetFocusKeys | media/capture/video/android/java/src/org/chromium/media/VideoCaptureCamera2.java:359-372 | the focus step writes only the AF mode and AF trigger keys |
| Camera2.SetExposureKeys | media/capture/video/android/java/src/org/chromium/media/VideoCaptureCamera2.java:377-383 | the exposure step writes only the AE mode and AE target fps range keys |
| Camera2.SetFillLightKeys | media/capture/video/android/java/src/org/chromium/media/VideoCaptureCamera2.java:384-406 | the fill-light step writes only the AE mode and flash mode keys |
| Camera2.SetWhiteBalanceKeys | media/capture/video/android/java/src/org/chromium/media/VideoCaptureCamera2.java:409-428 | the white-balance step writes only the AWB lock and AWB mode keys |
| Camera2.SetRegionKeys | media/capture/video/android/java/src/org/chromium/media/VideoCaptureCamera2.java:430-442 | the last step writes only the three region keys, the crop region and the sensitivity |
| Camera2.ExposureAndFlashKeys | media/capture/video/android/java/src/org/chromium/media/VideoCaptureCamera2.java:374-407 | NONE or FIXED exposure turns AE off and sets no fps range, other modes turn it on with the range; AUTO, FLASH and TORCH fill light override the AE mode; flash mode is OFF or TORCH only for those fill lights; the compensation is always sent |
| Camera2.FocusKeys | media/capture/video/android/java/src/org/chromium/media/VideoCaptureCamera2.java:359-372 | CONTINUOUS and SINGLE_SHOT focus use continuous-picture AF, the trigger is started exactly for SINGLE_SHOT, FIXED turns AF off, other modes set nothing |
| Camera2.WhiteBalanceKeys | media/capture/video/android/java/src/org/chromium/media/VideoCaptureCamera2.java:409-428 | CONTINUOUS is unlocked auto, NONE unlocked off, FIXED locked with the nearest preset for a positive temperature |
| Camera2.RegionCropAndIsoKeys | media/capture/video/android/java/src/org/chromium/media/VideoCaptureCamera2.java:430-442 | the area of interest goes to all three region keys, the crop only when non-empty, the ISO only when positive |
| Camera2.ReportedFocusMode | media/capture/video/android/java/src/org/chromium/media/VideoCaptureCamera2.java:746-761 | the focus mode reported for an autofocus mode: continuous modes as CONTINUOUS, AUTO and MACRO as SINGLE_SHOT, OFF as FIXED, else NONE; ModesReadBack proves a configured mode reads back |
| Camera2.ReportedWhiteBalanceMode | media/capture/video/android/java/src/org/chromium/media/VideoCaptureCamera2.java:783-790 | OFF reads back as NONE, AUTO as CONTINUOUS, any preset as FIXED; ModesReadBack proves a configured mode reads back |
| Camera2.ReportedFillLightMode | media/capture/video/android/java/src/org/chromium/media/VideoCaptureCamera2.java:803-828 | the fill light reported from the auto-exposure and flash modes, auto-exposure overriding the flash key unless it is ON or OFF; ModesReadBack proves a configured fill light reads back |
| Camera2.ReportedColorTemperature | media/capture/video/android/java/src/org/chromium/media/VideoCaptureCamera2.java:794-797 | the table key of a white-balance preset, if it has one; ColorTemperatureReadBackExample evaluates it |
| Camera2.ModesReadBack | media/capture/video/android/java/src/org/chromium/media/VideoCaptureCamera2.java:746-831 | reading the configured request back recovers each fill-light, focus and white-balance mode that reaches the device, SINGLE_SHOT focus reading back as CONTINUOUS |
| Camera2.ColorTemperatureReadBackExample | media/capture/video/android/java/src/org/chromium/media/VideoCaptureCamera2.java:792-798 | a FIXED white balance at 3100 K reads back as the table key 3000 K |
| Camera2.ZoomInset | media/capture/video/android/java/src/org/chromium/media/VideoCaptureCamera2.java:845-847 | the inset fraction of the clamped zoom lies in [0, 1/2) |
| Camera2.ZoomCropRect | media/capture/video/android/java/src/org/chromium/media/VideoCaptureCamera2.java:845-852 | the crop for a non-zero zoom, the sensor inset by the zoom's fraction on every side with rounded coordinates; ZoomCropInsideSensor and ZoomOneIsWholeSensor state where it lies |
| Camera2.ZoomCropInsideSensor | media/capture/video/android/java/src/org/chromium/media/VideoCaptureCamera2.java:845-852 | the zoom crop of a sensor of non-negative size lies inside the sensor with ordered edges |
| Camera2.ZoomOneIsWholeSensor | media/capture/video/android/java/src/org/chromium/media/VideoCaptureCamera2.java:845-852 | a zoom clamped to 1 crops the whole sensor |
| Camera2.VisibleRect | media/capture/video/android/java/src/org/chromium/media/VideoCaptureCamera2.java:881 | a point of interest is relative to the crop when it is non-empty and to the whole sensor otherwise; AreaOfInterestCentred uses it |
| Camera2.InterestCentre | media/capture/video/android/java/src/org/chromium/media/VideoCaptureCamera2.java:882-887 | the point scaled to the visible rectangle, shifted by half the sensor-minus-crop margin when that rectangle is the crop; AreaOfInterestCentred proves the area is centred on it |
| Camera2.AreaOfInterestFor | media/capture/video/android/java/src/org/chromium/media/VideoCaptureCamera2.java:880-893 | the metering rectangle is 1/8 of the visible rectangle in each dimension, has a non-negative origin and the maximum weight |
| Camera2.AreaOfInterestCentred | media/capture/video/android/java/src/org/chromium/media/VideoCaptureCamera2.java:880-893 | the rectangle is centred on the point of interest unless clamped at the sensor's top or left edge |
| Camera2.VideoCaptureCamera2.constructor | media/capture/video/android/java/src/org/chromium/media/VideoCaptureCamera2.java:256-280 | a new engine is STOPPED with no device, empty event log and photo requests, CONTINUOUS modes, fill light OFF, colour temperature -1, no area of interest and an empty crop |
| Camera2.VideoCaptureCamera2.CreatePreviewObjects | media/capture/video/android/java/src/org/chromium/media/VideoCaptureCamera2.java:300-356 | succeeds exactly with a device and no throwing platform call; the preview request is the configured request once the builder exists; with a device one more preview reader, of the capture format's size, is added to those already open |
| Camera2.VideoCaptureCamera2.OnOpened | media/capture/video/android/java/src/org/chromium/media/VideoCaptureCamera2.java:51-58 | the device is kept and the state is CONFIGURING, or STOPPED with an error when the preview objects fail; a preview reader of the capture format's size is added and the preview request is rebuilt from the current settings unless the request builder throws |
| Camera2.VideoCaptureCamera2.OnDisconnected | media/capture/video/android/java/src/org/chromium/media/VideoCaptureCamera2.java:61-65 | the device is dropped and the state is STOPPED, with nothing reported |
| Camera2.VideoCaptureCamera2.OnError | media/capture/video/android/java/src/org/chromium/media/VideoCaptureCamera2.java:68-74 | the device is dropped, the state is STOPPED and one error is reported |
| Camera2.VideoCaptureCamera2.OnPreviewConfigured | media/capture/video/android/java/src/org/chromium/media/VideoCaptureCamera2.java:85-102 | the configured session is kept as the preview session whatever follows; STARTED and "started" are reported exactly when the repeating request is accepted, otherwise state and events are unchanged |
| Camera2.VideoCaptureCamera2.OnPreviewConfigureFailed | media/capture/video/android/java/src/org/chromium/media/VideoCaptureCamera2.java:105-110 | STOPPED with one error reported |
| Camera2.VideoCaptureCamera2.OnPreviewImageAvailable | media/capture/video/android/java/src/org/chromium/media/VideoCaptureCamera2.java:117-145 | no image reports nothing; a non-YUV or non-three-plane image, or one whose size differs from that of the reader that delivered it, reports one error; otherwise one frame of the image's size and timestamp is delivered |
| Camera2.VideoCaptureCamera2.Allocate | media/capture/video/android/java/src/org/chromium/media/VideoCaptureCamera2.java:587-640 | refused while OPENING or CONFIGURING or without a size or fps range; otherwise the closest YUV size with the requested rate and the range chosen for the wrapped frameRate * 1000 among the wrapped normalised ranges, divided back by the unit factor |
| Camera2.VideoCaptureCamera2.StartCapture | media/capture/video/android/java/src/org/chromium/media/VideoCaptureCamera2.java:643-668 | the state becomes OPENING whether or not opening the camera throws, and the result says whether it did not |
| Camera2.VideoCaptureCamera2.StopCapture | media/capture/video/android/java/src/org/chromium/media/VideoCaptureCamera2.java:671-702 | once STARTED or STOPPED: STOPPED returns true unchanged; STARTED without a device returns false; otherwise STOPPED with the crop cleared |
| Camera2.VideoCaptureCamera2.SetPhotoOptions | media/capture/video/android/java/src/org/chromium/media/VideoCaptureCamera2.java:836-914 | each set option replaces its field (zoom as the crop; width, height, ISO and colour temperature as (int) Math.round of the value, the last only under FIXED white balance), the area of interest is cleared or recomputed as the source orders it, and one restart is pending |
| Camera2.VideoCaptureCamera2.ApplyZoomAndModes | media/capture/video/android/java/src/org/chromium/media/VideoCaptureCamera2.java:845-861 | a non-zero zoom sets the crop; each set mode replaces its field; a positive width or height is stored as (int) Math.round of it, wrapped to 32 bits |
| Camera2.VideoCaptureCamera2.ApplyAreaOfInterest | media/capture/video/android/java/src/org/chromium/media/VideoCaptureCamera2.java:863-898 | a new point on a device with metering regions gives its rectangle; otherwise NONE focus or exposure clears it, a zoom clears a non-empty one, else it is kept |
| Camera2.VideoCaptureCamera2.ApplyExposureAndColor | media/capture/video/android/java/src/org/chromium/media/VideoCaptureCamera2.java:900-909 | compensation and a set fill light replace their fields; a positive ISO, and a positive colour temperature under FIXED white balance, are stored as (int) Math.round of the value, wrapped to 32 bits |
| Camera2.VideoCaptureCamera2.RunPendingRestart | media/capture/video/android/java/src/org/chromium/media/VideoCaptureCamera2.java:230-236 | the pending flag is cleared; a pending restart before any preview session was configured throws (mPreviewSession is still null); otherwise a pending restart with a device adds a preview reader and rebuilds the preview request from the current settings unless the builder throws; otherwise both are left alone |
| Common.Round | media/capture/video/android/java/src/org/chromium/media/VideoCaptureCamera2.java:848-852 | Math.round: the nearest integer, a half rounded up |
| Common.RoundToInt | media/capture/video/android/java/src/org/chromium/media/VideoCaptureCamera2.java:860-861 | (int) Math.round of a double: the result is a 32-bit int, equal to the rounded value whenever that fits, the long saturating before its low 32 bits are kept |
| Common.Wrap32Unique | media/capture/video/android/java/src/org/chromium/media/VideoCaptureCamera2.java:860-861 | a 32-bit int congruent to x modulo 2^32 is the wrapped value of x, so huge values wrap without stepping through them |
| Camera2.NarrowedPhotoOptions | media/capture/video/android/java/src/org/chromium/media/VideoCaptureCamera2.java:860-861 | (int) Math.round keeps 4294972296 as 5000, so FIXED white balance picks FLUORESCENT, turns 3e9 into -1294967296, and turns 1e19, saturated to Long.MAX_VALUE, into -1 |
| Camera2.VideoCaptureCamera2.TakePhoto | media/capture/video/android/java/src/org/chromium/media/VideoCaptureCamera2.java:917-974 | accepted exactly with a device, STARTED and no throwing platform call; an accepted call records a request at the closest JPEG size (else the capture size) with the configured settings |
| Camera2.VideoCaptureCamera2.DeliverPhoto | media/capture/video/android/java/src/org/chromium/media/VideoCaptureCamera2.java:216 | the request is finished and its callback id is answered once with the payload |
| Camera2.VideoCaptureCamera2.OnPhotoSessionConfigured | media/capture/video/android/java/src/org/chromium/media/VideoCaptureCamera2.java:159-171 | the capture is submitted; a throwing capture finishes the request with an empty payload |
| Camera2.VideoCaptureCamera2.OnPhotoSessionConfigureFailed | media/capture/video/android/java/src/org/chromium/media/VideoCaptureCamera2.java:174-178 | the request is finished with an empty payload |
| Camera2.VideoCaptureCamera2.OnPhotoImageAvailable | media/capture/video/android/java/src/org/chromium/media/VideoCaptureCamera2.java:204-226 | a missing or non-JPEG image answers with an empty payload; a JPEG answers with its bytes, then the preview restarts: with a device one more preview reader is added and the request rebuilt from the current settings unless the builder throws, an error being reported when the restart fails; a non-JPEG image leaves the preview objects alone |
| Camera2.FpsUnitFactor | media/capture/video/android/java/src/org/chromium/media/VideoCaptureCamera2.java:614-617 | the factor is 1 exactly when the first range's upper bound exceeds 1000, else 1000 |
| Camera2.NormalizeRanges | media/capture/video/android/java/src/org/chromium/media/VideoCaptureCamera2.java:618-621 | the loop builds exactly the list of ranges scaled by the factor |
| Camera2.NormalizedRanges | media/capture/video/android/java/src/org/chromium/media/VideoCaptureCamera2.java:618-621 | each range is scaled by the factor in wrapping 32-bit int arithmetic, order and count kept |
| Camera2.NormalizationAgreesAcrossUnits | media/capture/video/android/java/src/org/chromium/media/VideoCaptureCamera2.java:614-621 | ranges in fps and the same ranges in fps x 1000 normalise alike |
| Camera2.DividingBackRestoresDeviceUnit | media/capture/video/android/java/src/org/chromium/media/VideoCaptureCamera2.java:622-625 | a chosen normalised range divided back by the factor is the device's own range whenever the scaling by 1000 does not overflow an int |
| Camera2.PhotoRequestCompletes | media/capture/video/android/java/src/org/chromium/media/VideoCaptureCamera2.java:150-227 | whichever session callback comes first, each accepted photo request is finished and its callback id answered exactly once, no other id answered |

## Left out

- Camera2: the Android camera, image-reader, handler-thread and JNI objects are abstract; each platform call that may throw becomes a boolean parameter, and what is reported to native code becomes the event log.
- Camera2.VideoCaptureCamera2.StopCapture: the `wait`/`notifyAll` loop is not modelled; the method requires the state it waits for (STARTED or STOPPED).
- Camera2.VideoCaptureCamera2.Allocate: `getClosestFramerateRange` (VideoCapture.java, not part of this model) is a function parameter; the device's sizes and fps ranges are parameters.
- Camera2.VideoCaptureCamera2.SetPhotoOptions: the exposure compensation arrives already divided by the device's step and rounded; the point-of-interest array is at most one point; `float` arithmetic is modelled over reals with `Math.round`.
- Camera2: `getPhotoCapabilities` is modelled only through its mode read-back (focus, white balance, fill light, colour temperature); its zoom and exposure values, `getDeviceSupportedFormats`, `getName`, `getCaptureApiType`, `isLegacyDevice`, `getNumberOfCameras` and `readCapturedData`'s buffer copy are not modelled; the payload is its byte count.
- Camera2: the photo reader's and preview reader's pixel planes, the camera rotation and the frame timestamps' meaning are not modelled.
- GIF decoding proper (GIFImageReader, ImageFrame and ImageAnimation.h are not part of this model): the reader's parse results and frame contexts are inputs; the animation constants follow the header's values.
- Gif.HaveDecodedRow: `initFrameBuffer` (ImageDecoder.cpp, not part of this model) is reduced to its verdict (`initOk`) and to whether it set the frame up just now (`freshFrame`); pixel allocation and the copy from the previous frame are not modelled.
- Floating point: C++ `float` values are modelled as reals in TouchFilter (scroll deltas and velocities), SvgGradient (stop offsets) and TextPainterModel (the stroke width) and NgLineBuilder (the ascent and descent metrics), so rounding and NaN are not modelled.
- TextPainterModel.StyleEqualityIsFieldwise: states that style equality is reflexive, which the source's `operator==` does not give for a NaN stroke width, because NaN is not modelled.
- Contextual search metrics: UMA histogram writes other than the state-change events, the durations taken from `System.nanoTime`, Ranker logging, `writeSelectionFeaturesToRanker`, `onSearchTermResolved` and `onPanelNavigatedToPrefetchedSearch`; locale case mapping is a parameter.
- ArrayBufferContents: PartitionAlloc itself, external-allocation accounting and `freeMemory`; memory is a sequence of bytes.
- DocumentMarker: the constructors for grammar/spelling descriptions and composition underlines beyond the shared fields, `shiftOffsets`, and `MarkerTypes::operator==`.
- GeolocationWatchers: `getNotifiersVector`.
- FontServiceApp: `OnStart`, `OnConnect` and `Create` (service plumbing); font matching and file opening are results given as parameters.
- DOMEditor: `SetOuterHTMLAction`/`setOuterHTML` (DOMPatchSupport), `InspectorHistory` itself, and `wholeText` over adjacent text nodes; the DOM (ContainerNode.cpp, Element.cpp and Text.cpp are not part of this model) is an abstract tree of containers, and exception messages are fixed texts.
- DomTree.InsertBeforeOutcome and DomTree.ReplaceChildOutcome: only the tree-shape checks are modelled (the parent is a container; the node is neither the parent nor one of its ancestors; the anchor or old child is a child of the parent); the node-type checks (a doctype or text node under a document, a second document element) and ancestry through shadow hosts are not.
- DomTree.SetAttributeOutcome: the name test follows `Document::isValidName` for ASCII characters only; every character beyond ASCII is accepted, whereas Blink decides those by Unicode category.
- NGLineBuilder: `PlaceItems`, `CreateFragments`, `CopyFragmentDataToLayoutBlockFlow` and the font metrics themselves are not modelled; inline sizes are integers, without `LayoutUnit`'s 1/64 fixed point and saturation, and the ascent/descent metrics are reals; the bidi visual order from ICU is an input permutation.
- SharedContextRateLimiter: the GL query calls, the wait for a query result and `Finish`; only the queue effects are modelled.
- ContentData: `createLayoutObject`.
- ClientHints.ClientHintsPreferences.UpdateFromAcceptClientHintsHeader: the header's tokenisation (`parseCommaDelimitedHeader`, not part of this model) is an input; the method takes the set of tokens alongside the header value.
- CSSFontFaceSrcValue: `serializeString` is a parameter; KURL parsing is reduced to the "file:" scheme test; the referrer policy and the inspector's URL completion are not modelled.
- css_properties.py: `name_utilities` is replaced by given names; JSON5 loading is not modelled.
- Wallpaper: the mash `NOTIMPLEMENTED` path, the window-observer registration mechanics, `FilePath` double extensions, file reads and writes, and decoding; the small-wallpaper suffix is a parameter.
- AcceleratorUtil: the `EF_*` flag and web modifier values come from headers that are not part of this model and follow their published values.
- CSSPrimitiveValueMappings: only the mapping tables written out in the file are modelled; conversions by enum arithmetic over generated orderings (EBorderStyle, ControlPart) and constructors that leave the identifier unset are not.
- SVGPathNormalizer: the arc-to-cubic trigonometry beyond its early-exit guards is an oracle result, and float rounding is not modelled.
- SVGPathByteStreamSource: the bytes are abstracted to typed items; the `read*` helpers of SVGPathByteStreamSource.h and the path builder are not part of this model.
- ShelfTraits: `StructTraits::Read` and the image accessor are defined in shelf_struct_traits.cc, which is not part of this model.
- HttpPasswordMigration: the metrics logging and the HSTS query helper; the HSTS answer is a callback argument.
- FontSize: `charactersToIntStrict` (StringToNumber.h, not part of this model) is modelled as decimal conversion that fails on 32-bit overflow.

## Findings

| source | as written | input that shows it | evidently intended | confidence | as-written member | corrected member |
|---|---|---|---|---|---|---|
| third_party/WebKit/Source/core/html/HTMLFontElement.cpp:106-107 | a relative "+N" value adds 3 to N in 32-bit `int`, which wraps to a negative value for N near INT_MAX, so the size becomes 1 | "+2147483647" | the size clamps to 7 like every other large relative value | not executed | FontSize.PlusOverflowCounterexample | FontSize.LegacyFontSize |
| third_party/WebKit/Source/core/html/HTMLFontElement.cpp:98-103 | a digit run too long for `int` makes the strict conversion return 0, so the size becomes 1 | "99999999999" | a huge absolute size clamps to 7 | not executed | FontSize.DigitOverflowCounterexample | FontSize.LegacyFontSize |
| gpu/config/gpu_driver_bug_list.cc:100-101 | `resize` instead of `reserve` before appending, so the list starts with that many empty names | any workaround set | the list holds exactly the workaround names | not executed | GpuDriverBugList.AppendAllWorkaroundsAddsNulls | GpuDriverBugList.AppendAllWorkarounds |
