/** The rate limiter that keeps a canvas from queueing unbounded GPU work on
    the shared offscreen context (SharedContextRateLimiter.cpp): every tick
    issues a query, and once more than `maxPendingTicks` are pending the
    oldest is waited for and deleted — or, without sync queries, all work is
    finished and every pending query dropped. */
module SharedContextRateLimiterModel {

  /** A GL query name (`GLuint`); 0 is the placeholder pushed when no sync
      query can be generated. */
  type QueryId = nat

  class SharedContextRateLimiter {
    const maxPendingTicks: nat
    /** Whether the platform handed out a shared context provider at all. */
    const hasContextProvider: bool
    const canUseSyncQueries: bool
    /** m_queries, oldest first. */
    var queries: seq<QueryId>
    /** The query names passed to DeleteQueriesEXT, in call order. */
    var deleted: seq<QueryId>

    /** Never more than `maxPendingTicks` queries wait between ticks. */
    predicate Valid()
      reads this
    {
      |queries| <= maxPendingTicks
    }

    /** The constructor: sync queries are used only when the provider exists,
        its context is healthy and it supports GL_CHROMIUM_sync_query. */
    constructor(maxPendingTicks: nat, hasContextProvider: bool, glHealthy: bool, supportsSyncQuery: bool)
      ensures Valid()
      ensures this.maxPendingTicks == maxPendingTicks && this.hasContextProvider == hasContextProvider
      ensures canUseSyncQueries <==> hasContextProvider && glHealthy && supportsSyncQuery
      ensures queries == [] && deleted == []
    {
      this.maxPendingTicks := maxPendingTicks;
      this.hasContextProvider := hasContextProvider;
      canUseSyncQueries := hasContextProvider && glHealthy && supportsSyncQuery;
      queries := [];
      deleted := [];
    }

    /** tick: `glHealthy` says whether the context exists and reports no
        reset; `generated` is the name GenQueriesEXT hands out. */
    method Tick(glHealthy: bool, generated: QueryId)
      requires Valid()
      modifies this
      ensures Valid()
      ensures !hasContextProvider || !glHealthy ==> queries == old(queries) && deleted == old(deleted)
      ensures hasContextProvider && glHealthy && |old(queries)| < maxPendingTicks ==>
                queries == old(queries) + [if canUseSyncQueries then generated else 0] && deleted == old(deleted)
      ensures hasContextProvider && glHealthy && |old(queries)| == maxPendingTicks && canUseSyncQueries ==>
                queries == (old(queries) + [generated])[1..]
                && deleted == old(deleted) + [(old(queries) + [generated])[0]]
      ensures hasContextProvider && glHealthy && |old(queries)| == maxPendingTicks && !canUseSyncQueries ==>
                queries == [] && deleted == old(deleted) + old(queries) + [0]
    {
      if !hasContextProvider {
        return;
      }
      if !glHealthy {
        return;
      }
      queries := queries + [0];
      if canUseSyncQueries {
        queries := queries[|queries| - 1 := generated];
      }
      if |queries| > maxPendingTicks {
        if canUseSyncQueries {
          // GetQueryObjectuivEXT blocks until the oldest query completes.
          deleted := deleted + [queries[0]];
          queries := queries[1..];
        } else {
          // Finish() drains the GPU, then everything pending is dropped.
          Reset(glHealthy);
        }
      }
    }

    /** reset: with a healthy context every pending query is deleted, oldest
        first; with a lost one they are forgotten without GL calls. */
    method Reset(glHealthy: bool)
      modifies this`queries, this`deleted
      ensures !hasContextProvider ==> queries == old(queries) && deleted == old(deleted)
      ensures hasContextProvider ==> queries == []
      ensures hasContextProvider && glHealthy ==> deleted == old(deleted) + old(queries)
      ensures hasContextProvider && !glHealthy ==> deleted == old(deleted)
    {
      if !hasContextProvider {
        return;
      }
      if glHealthy {
        while |queries| > 0
          invariant old(queries) == old(queries)[..|old(queries)| - |queries|] + queries
          invariant deleted == old(deleted) + old(queries)[..|old(queries)| - |queries|]
          decreases |queries|
        {
          deleted := deleted + [queries[0]];
          queries := queries[1..];
        }
      } else {
        queries := [];
      }
    }
  }
}
