/**
 * `MediaCacheManager`: a map from media keys to their caching state. `ensure`
 * starts the caching of a key it has never seen and marks it loading; the
 * spawned future later marks it ready or failed. The future and the browser's
 * Cache API are not modelled: the completion is a method of its own.
 */
module Media {
  import opened Wrappers

  datatype MediaState = Loading | Ready | Error

  /** The states after `ensure(key)`: a key with any state (even a failure) is left alone, a new key is loading. */
  function AfterEnsure(states: map<string, MediaState>, key: string): (r: map<string, MediaState>)
    ensures key in r && r[key] == (if key in states then states[key] else Loading)
    ensures forall k :: k != key ==> (k in r <==> k in states) && (k in states ==> r[k] == states[k])
  {
    if key in states then states else states[key := Loading]
  }

  /** The state the spawned future writes: ready when caching succeeded or outside WASM, failed otherwise. */
  function Outcome(wasm: bool, cached: bool): (s: MediaState)
    ensures s != Loading
    ensures s == Error <==> wasm && !cached
  {
    if !wasm || cached then Ready else Error
  }

  class CacheManager {
    const cacheName: string
    var states: map<string, MediaState>

    /** `MediaCacheProvider`: cache "media-cache-v1", no states. */
    constructor()
      ensures cacheName == "media-cache-v1" && states == map[]
    {
      cacheName := "media-cache-v1";
      states := map[];
    }

    /** `state(key)`. */
    function State(key: string): (r: Option<MediaState>)
      reads this
      ensures r.Some? <==> key in states
      ensures r.Some? ==> r.value == states[key]
    {
      if key in states then Some(states[key]) else None
    }

    /** `ensure(key)`: `started` tells whether a caching future was spawned. */
    method Ensure(key: string) returns (started: bool)
      modifies this
      ensures started <==> key !in old(states)
      ensures states == AfterEnsure(old(states), key)
    {
      if State(key).Some? {
        return false;
      }
      states := states[key := Loading];
      started := true;
    }

    /** The spawned future's last step. */
    method Complete(key: string, wasm: bool, cached: bool)
      modifies this
      ensures states == old(states)[key := Outcome(wasm, cached)]
    {
      states := states[key := Outcome(wasm, cached)];
    }
  }

  // ---------------------------------------------------------------------------
  // Properties

  /** A second `ensure` of a key changes nothing, so each key is cached at most once. */
  lemma EnsureIdempotent(states: map<string, MediaState>, key: string)
    ensures AfterEnsure(AfterEnsure(states, key), key) == AfterEnsure(states, key)
  {
  }

  /** A failed key stays failed: `ensure` does not retry it. */
  lemma ErrorIsFinal(states: map<string, MediaState>, key: string)
    requires key in states && states[key] == Error
    ensures AfterEnsure(states, key) == states
  {
  }

  /** Outside WASM every completed key is ready. */
  lemma NativeAlwaysReady(cached: bool)
    ensures Outcome(false, cached) == Ready
  {
  }
}
