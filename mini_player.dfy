/**
 * The mini-player context of components/MiniPlayerContext.tsx: the provider's two
 * state fields, the show and hide transitions, and the hook that refuses to run
 * outside a provider.
 */
module MiniPlayer {
  import opened Wrappers

  const OUTSIDE_PROVIDER := "useMiniPlayer must be used within MiniPlayerProvider"

  /** The provider's state. */
  class MiniPlayerProvider {
    var videoUri: string
    var isVisible: bool

    /** A hidden player holds no video. */
    ghost predicate Valid()
      reads this
    {
      !isVisible ==> videoUri == ""
    }

    constructor ()
      ensures Valid() && videoUri == "" && !isVisible
    {
      videoUri, isVisible := "", false;
    }

    /** `showMiniPlayer(uri)`. */
    method ShowMiniPlayer(uri: string)
      modifies this
      ensures Valid() && videoUri == uri && isVisible
    {
      videoUri := uri;
      isVisible := true;
    }

    /** `hideMiniPlayer()`: the resulting state does not depend on the previous one, so hiding twice is hiding once. */
    method HideMiniPlayer()
      modifies this
      ensures Valid() && videoUri == "" && !isVisible
    {
      videoUri := "";
      isVisible := false;
    }
  }

  /** `useMiniPlayer`: the enclosing provider, or the error thrown without one. */
  function UseMiniPlayer(context: Option<MiniPlayerProvider>): (r: Result<MiniPlayerProvider, string>)
    ensures r.Ok? <==> context.Some?
    ensures r.Ok? ==> r.value == context.value
    ensures r.Err? ==> r.error == OUTSIDE_PROVIDER
  {
    match context
    case Some(provider) => Ok(provider)
    case None => Err(OUTSIDE_PROVIDER)
  }
}
