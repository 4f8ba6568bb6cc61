/** Client hints preferences (ClientHintsPreferences.cpp): which of the DPR,
    Width and Viewport-Width request headers a document has opted into
    through its Accept-CH response header. */
module ClientHints {

  /** The use counters of the document the header came from. */
  class ClientHintsContext {
    var dprCount: nat
    var resourceWidthCount: nat
    var viewportWidthCount: nat

    constructor()
      ensures dprCount == 0 && resourceWidthCount == 0 && viewportWidthCount == 0
    {
      dprCount, resourceWidthCount, viewportWidthCount := 0, 0, 0;
    }
  }

  class ClientHintsPreferences {
    var shouldSendDpr: bool
    var shouldSendResourceWidth: bool
    var shouldSendViewportWidth: bool

    /** Nothing is sent until a header asks for it. */
    constructor()
      ensures !shouldSendDpr && !shouldSendResourceWidth && !shouldSendViewportWidth
    {
      shouldSendDpr, shouldSendResourceWidth, shouldSendViewportWidth := false, false, false;
    }

    /** updateFrom: all three preferences copied from `preferences`. */
    method UpdateFrom(preferences: ClientHintsPreferences)
      modifies this
      ensures shouldSendDpr == old(preferences.shouldSendDpr)
      ensures shouldSendResourceWidth == old(preferences.shouldSendResourceWidth)
      ensures shouldSendViewportWidth == old(preferences.shouldSendViewportWidth)
    {
      var dpr, width, viewport :=
        preferences.shouldSendDpr, preferences.shouldSendResourceWidth, preferences.shouldSendViewportWidth;
      shouldSendDpr := dpr;
      shouldSendResourceWidth := width;
      shouldSendViewportWidth := viewport;
    }

    /** updateFromAcceptClientHintsHeader: `tokens` is the set that
        parseCommaDelimitedHeader makes of `headerValue`. Each known token
        turns its own preference on (and is counted); nothing is ever turned
        off, and a disabled feature or an empty header changes nothing. */
    method UpdateFromAcceptClientHintsHeader(headerValue: string, tokens: set<string>, clientHintsEnabled: bool,
                                             context: ClientHintsContext?)
      modifies this, context
      ensures !clientHintsEnabled || headerValue == "" ==>
                shouldSendDpr == old(shouldSendDpr) && shouldSendResourceWidth == old(shouldSendResourceWidth)
                && shouldSendViewportWidth == old(shouldSendViewportWidth)
      ensures clientHintsEnabled && headerValue != "" ==>
                (shouldSendDpr <==> old(shouldSendDpr) || "dpr" in tokens)
                && (shouldSendResourceWidth <==> old(shouldSendResourceWidth) || "width" in tokens)
                && (shouldSendViewportWidth <==> old(shouldSendViewportWidth) || "viewport-width" in tokens)
      ensures old(shouldSendDpr) ==> shouldSendDpr
      ensures old(shouldSendResourceWidth) ==> shouldSendResourceWidth
      ensures old(shouldSendViewportWidth) ==> shouldSendViewportWidth
      ensures context != null ==>
                context.dprCount == old(context.dprCount) + (if clientHintsEnabled && headerValue != "" && "dpr" in tokens then 1 else 0)
                && context.resourceWidthCount == old(context.resourceWidthCount) + (if clientHintsEnabled && headerValue != "" && "width" in tokens then 1 else 0)
                && context.viewportWidthCount == old(context.viewportWidthCount) + (if clientHintsEnabled && headerValue != "" && "viewport-width" in tokens then 1 else 0)
    {
      if !clientHintsEnabled || headerValue == "" {
        return;
      }
      if "dpr" in tokens {
        if context != null {
          context.dprCount := context.dprCount + 1;
        }
        shouldSendDpr := true;
      }
      if "width" in tokens {
        if context != null {
          context.resourceWidthCount := context.resourceWidthCount + 1;
        }
        shouldSendResourceWidth := true;
      }
      if "viewport-width" in tokens {
        if context != null {
          context.viewportWidthCount := context.viewportWidthCount + 1;
        }
        shouldSendViewportWidth := true;
      }
    }
  }
}
