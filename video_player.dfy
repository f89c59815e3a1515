/** The HTML5 video player's state machine: one method per media event and one for the
    retry button. Each handler returns the calls it makes into its parent and into the
    media element, in order; times are exact reals instead of floating point. */
module VideoPlayer {
  import opened Wrappers
  import opened Sequences

  /** A call a handler makes: the parent's `onEnded`, `onComplete` and `onProgress`
      callbacks, and the media element's `play` and `load`. */
  datatype Effect =
    | EndedCallback
    | CompleteCallback
    | ProgressCallback(currentTime: real, duration: real, percentage: real)
    | PlayMedia
    | LoadMedia

  /** `video.error`: a media error code and its message. */
  datatype MediaError = MediaError(code: int, message: string)

  const MediaErrAborted := 1
  const MediaErrNetwork := 2
  const MediaErrDecode := 3
  const MediaErrSrcNotSupported := 4

  const NoErrorMessage := "Error desconocido en el reproductor"
  const GenericErrorPrefix := "Error del reproductor: "

  /** The message shown for the element's error. */
  function ErrorMessage(error: Option<MediaError>): (m: string)
    ensures error.None? ==> m == NoErrorMessage
    ensures error.Some? && error.value.code == MediaErrAborted ==> m == "Reproducción abortada por el usuario"
    ensures error.Some? && error.value.code == MediaErrNetwork ==> m == "Error de red: No se pudo cargar el video"
    ensures error.Some? && error.value.code == MediaErrDecode ==> m == "Error de decodificación: No se pudo decodificar el video"
    ensures error.Some? && error.value.code == MediaErrSrcNotSupported ==> m == "Formato no soportado: La fuente de video no es válida"
    ensures error.Some? && !(1 <= error.value.code <= 4) ==> m == GenericMessage(error.value.message)
  {
    match error
    case None => NoErrorMessage
    case Some(e) =>
      if e.code == MediaErrAborted then "Reproducción abortada por el usuario"
      else if e.code == MediaErrNetwork then "Error de red: No se pudo cargar el video"
      else if e.code == MediaErrDecode then "Error de decodificación: No se pudo decodificar el video"
      else if e.code == MediaErrSrcNotSupported then "Formato no soportado: La fuente de video no es válida"
      else GenericMessage(e.message)
  }

  /** The message of an unknown code: the generic prefix, then the element's own
      message, or "Error desconocido" when it has none. */
  function GenericMessage(message: string): (m: string)
    ensures StartsWith(m, GenericErrorPrefix)
    ensures m[|GenericErrorPrefix|..] == if message != "" then message else "Error desconocido"
  {
    GenericErrorPrefix + (if message != "" then message else "Error desconocido")
  }

  /** The message of an unknown code names the element's own message, so two unknown
      errors with different messages are told apart. */
  lemma UnknownCodesKeepTheirMessage(a: MediaError, b: MediaError)
    requires !(1 <= a.code <= 4) && !(1 <= b.code <= 4)
    requires a.message != "" && b.message != "" && a.message != b.message
    ensures ErrorMessage(Some(a)) != ErrorMessage(Some(b))
  {
    assert GenericMessage(a.message)[|GenericErrorPrefix|..] != GenericMessage(b.message)[|GenericErrorPrefix|..];
  }

  /** `Math.round`: the nearest integer, halves rounded up. */
  function Round(x: real): (r: int)
    ensures r as real - 0.5 <= x < r as real + 0.5
  {
    (x + 0.5).Floor
  }

  /** `currentTime / duration * 100`. */
  function WatchedPercent(currentTime: real, duration: real): real
    requires duration > 0.0
  {
    currentTime / duration * 100.0
  }

  /** Inside the media, the percentage and its rounding lie in 0 .. 100. */
  lemma WatchedPercentBounds(currentTime: real, duration: real)
    requires duration > 0.0 && 0.0 <= currentTime <= duration
    ensures 0.0 <= WatchedPercent(currentTime, duration) <= 100.0
    ensures 0 <= Round(WatchedPercent(currentTime, duration)) <= 100
  {
    var q := currentTime / duration;
    assert q * duration == currentTime;
    assert q <= 1.0;
  }

  /** The completion test: 90 % is reached exactly when `100 * currentTime` reaches
      `90 * duration`. */
  lemma CompletionThreshold(currentTime: real, duration: real)
    requires duration > 0.0
    ensures WatchedPercent(currentTime, duration) >= 90.0 <==> 100.0 * currentTime >= 90.0 * duration
  {
    var q := currentTime / duration;
    assert q * duration == currentTime;
  }

  /** The effect that registers the handlers calls `load` each time it runs: on mount
      and whenever one of its dependencies changes. Of those, the player's own state
      holds only `isCompleted`, so a handler that first sets it causes one reload. */
  function ReloadOnCompletion(wasCompleted: bool, isCompleted: bool): (r: seq<Effect>)
    ensures r == [LoadMedia] <==> wasCompleted != isCompleted
    ensures r == [] <==> wasCompleted == isCompleted
  {
    if wasCompleted != isCompleted then [LoadMedia] else []
  }

  /** An event of the media element on screen. */
  datatype MediaEvent =
    | LoadStart
    | CanPlay(paused: bool)
    | Waiting
    | Playing
    | Pause
    | Ended
    | TimeUpdate(currentTime: real, duration: real)
    | Error(error: Option<MediaError>)

  class Html5VideoPlayer {
    const autoPlay: bool
    var isLoading: bool
    var hasError: bool
    var errorMessage: string
    var isCompleted: bool
    var watchedPercentage: int
    var isPlaying: bool
    /** The `<video>` on screen carries the handlers. The effect registers them on the
        element it finds at mount and re-registers them only when a dependency changes.
        The error card unmounts the element, and the one mounted again after a retry
        is a new element that nothing registers on. */
    var attached: bool

    /** A new player: loading, no error, nothing watched, not playing, and the handlers
        registered on the element. */
    constructor (autoPlay: bool)
      ensures this.autoPlay == autoPlay
      ensures isLoading && !hasError && errorMessage == "" && !isCompleted && watchedPercentage == 0 && !isPlaying
      ensures attached
    {
      this.autoPlay := autoPlay;
      isLoading := true;
      hasError := false;
      errorMessage := "";
      isCompleted := false;
      watchedPercentage := 0;
      isPlaying := false;
      attached := true;
    }

    /** The error card is only shown once the element is gone. */
    predicate Valid()
      reads this
    {
      hasError ==> !attached
    }

    /** `loadstart`. */
    method HandleLoadStart()
      modifies this
      ensures !old(attached) ==> unchanged(this)
      ensures old(attached) ==> isLoading && !hasError
      ensures errorMessage == old(errorMessage) && isCompleted == old(isCompleted)
      ensures watchedPercentage == old(watchedPercentage) && isPlaying == old(isPlaying)
      ensures attached == old(attached)
    {
      if attached {
        isLoading := true;
        hasError := false;
      }
    }

    /** `canplay`: loading ends, and with auto-play a paused element is told to play. */
    method HandleCanPlay(paused: bool) returns (effects: seq<Effect>)
      modifies this
      ensures !old(attached) ==> unchanged(this) && effects == []
      ensures old(attached) ==> !isLoading && effects == if autoPlay && paused then [PlayMedia] else []
      ensures hasError == old(hasError) && errorMessage == old(errorMessage) && isCompleted == old(isCompleted)
      ensures watchedPercentage == old(watchedPercentage) && isPlaying == old(isPlaying)
      ensures attached == old(attached)
    {
      effects := [];
      if attached {
        isLoading := false;
        if autoPlay && paused {
          effects := [PlayMedia];
        }
      }
    }

    /** `waiting`. */
    method HandleWaiting()
      modifies this
      ensures !old(attached) ==> unchanged(this)
      ensures old(attached) ==> isLoading
      ensures hasError == old(hasError) && errorMessage == old(errorMessage) && isCompleted == old(isCompleted)
      ensures watchedPercentage == old(watchedPercentage) && isPlaying == old(isPlaying)
      ensures attached == old(attached)
    {
      if attached {
        isLoading := true;
      }
    }

    /** `playing`. */
    method HandlePlaying()
      modifies this
      ensures !old(attached) ==> unchanged(this)
      ensures old(attached) ==> !isLoading && isPlaying
      ensures hasError == old(hasError) && errorMessage == old(errorMessage) && isCompleted == old(isCompleted)
      ensures watchedPercentage == old(watchedPercentage)
      ensures attached == old(attached)
    {
      if attached {
        isLoading := false;
        isPlaying := true;
      }
    }

    /** `pause`. */
    method HandlePause()
      modifies this
      ensures !old(attached) ==> unchanged(this)
      ensures old(attached) ==> !isPlaying
      ensures isLoading == old(isLoading) && hasError == old(hasError) && errorMessage == old(errorMessage)
      ensures isCompleted == old(isCompleted) && watchedPercentage == old(watchedPercentage)
      ensures attached == old(attached)
    {
      if attached {
        isPlaying := false;
      }
    }

    /** `ended`: completed, fully watched, stopped; `onEnded` then `onComplete`, even
        when the lesson was completed before. A first completion then reloads the media,
        because `isCompleted` is a dependency of the effect that calls `load`. */
    method HandleEnded() returns (effects: seq<Effect>)
      modifies this
      ensures !old(attached) ==> unchanged(this) && effects == []
      ensures old(attached) ==> isCompleted && watchedPercentage == 100 && !isPlaying
      ensures old(attached) ==>
        effects == [EndedCallback, CompleteCallback] + ReloadOnCompletion(old(isCompleted), isCompleted)
      ensures LoadMedia in effects <==> old(attached) && !old(isCompleted)
      ensures isLoading == old(isLoading) && hasError == old(hasError) && errorMessage == old(errorMessage)
      ensures attached == old(attached)
    {
      effects := [];
      if attached {
        var wasCompleted := isCompleted;
        isCompleted := true;
        watchedPercentage := 100;
        isPlaying := false;
        effects := [EndedCallback, CompleteCallback] + ReloadOnCompletion(wasCompleted, isCompleted);
      }
    }

    /** `timeupdate`: nothing without a positive duration; otherwise the rounded
        percentage is shown and reported, and reaching 90 % completes the lesson once,
        after which the media is reloaded as in `HandleEnded`. */
    method HandleTimeUpdate(currentTime: real, duration: real) returns (effects: seq<Effect>)
      modifies this
      ensures isLoading == old(isLoading) && hasError == old(hasError) && errorMessage == old(errorMessage)
      ensures isPlaying == old(isPlaying) && attached == old(attached)
      ensures !old(attached) ==> unchanged(this)
      ensures !old(attached) || duration <= 0.0 ==>
        effects == [] && isCompleted == old(isCompleted) && watchedPercentage == old(watchedPercentage)
      ensures old(attached) && duration > 0.0 ==>
        var p := WatchedPercent(currentTime, duration);
        watchedPercentage == Round(p) &&
        isCompleted == (old(isCompleted) || p >= 90.0) &&
        effects == [ProgressCallback(currentTime, duration, p)] +
                   (if p >= 90.0 && !old(isCompleted) then [CompleteCallback, LoadMedia] else [])
      ensures LoadMedia in effects <==> !old(isCompleted) && isCompleted
    {
      effects := [];
      if attached && duration > 0.0 {
        var percentage := currentTime / duration * 100.0;
        watchedPercentage := Round(percentage);
        effects := [ProgressCallback(currentTime, duration, percentage)];
        if percentage >= 90.0 && !isCompleted {
          isCompleted := true;
          effects := effects + [CompleteCallback] + ReloadOnCompletion(false, true);
        }
      }
    }

    /** `error`: the error screen with the element's message; loading and playing end.
        The error card replaces the element, which takes the handlers with it. */
    method HandleError(error: Option<MediaError>)
      modifies this
      ensures !old(attached) ==> unchanged(this)
      ensures old(attached) ==> hasError && !isLoading && !isPlaying && errorMessage == ErrorMessage(error)
      ensures isCompleted == old(isCompleted) && watchedPercentage == old(watchedPercentage)
      ensures !attached && Valid()
    {
      if attached {
        hasError := true;
        isLoading := false;
        isPlaying := false;
        errorMessage := ErrorMessage(error);
        attached := false;
      }
    }

    /** The retry button, shown only on the error card: the error is cleared and the
        spinner shown. `videoRef.current` is null there, since the card holds no
        element, so `load` is called only while an element is attached; the element
        mounted again carries no handlers. */
    method HandleRetry() returns (effects: seq<Effect>)
      modifies this
      ensures !hasError && errorMessage == "" && isLoading
      ensures isCompleted == old(isCompleted) && watchedPercentage == old(watchedPercentage)
      ensures isPlaying == old(isPlaying) && attached == old(attached)
      ensures effects == if old(attached) then [LoadMedia] else []
      ensures old(hasError) && old(Valid()) ==> effects == []
    {
      hasError := false;
      errorMessage := "";
      isLoading := true;
      effects := if attached then [LoadMedia] else [];
    }

    /** What the retry button evidently intends: the error cleared, the handlers on
        the element again and the media reloaded, so that the next `canplay` ends
        the loading. */
    method HandleRetryIntended() returns (effects: seq<Effect>)
      modifies this
      ensures !hasError && errorMessage == "" && isLoading && attached && Valid()
      ensures isCompleted == old(isCompleted) && watchedPercentage == old(watchedPercentage)
      ensures isPlaying == old(isPlaying)
      ensures effects == [LoadMedia]
    {
      hasError := false;
      errorMessage := "";
      isLoading := true;
      attached := true;
      effects := [LoadMedia];
    }

    /** One event of the element on screen, given to its handler. */
    method Dispatch(event: MediaEvent) returns (effects: seq<Effect>)
      modifies this
      ensures !old(attached) ==> unchanged(this) && effects == []
      ensures attached ==> old(attached)
    {
      effects := [];
      match event
      case LoadStart => HandleLoadStart();
      case CanPlay(paused) => effects := HandleCanPlay(paused);
      case Waiting => HandleWaiting();
      case Playing => HandlePlaying();
      case Pause => HandlePause();
      case Ended => effects := HandleEnded();
      case TimeUpdate(t, d) => effects := HandleTimeUpdate(t, d);
      case Error(e) => HandleError(e);
    }

    /** A run of events, in order. */
    method DispatchAll(events: seq<MediaEvent>) returns (effects: seq<Effect>)
      modifies this
      ensures !old(attached) ==> unchanged(this) && effects == []
    {
      effects := [];
      var i := 0;
      while i < |events|
        invariant 0 <= i <= |events|
        invariant !old(attached) ==> unchanged(this) && effects == [] && !attached
      {
        var more := Dispatch(events[i]);
        effects := effects + more;
        i := i + 1;
      }
    }
  }

  /** As written, a retry after an error leaves the spinner on for good: whatever the
      element does next, no handler runs, loading never ends and the parent hears of
      no progress or completion. */
  method RetryNeverEndsLoading(player: Html5VideoPlayer, error: Option<MediaError>, events: seq<MediaEvent>)
    returns (effects: seq<Effect>)
    modifies player
    ensures player.isLoading && !player.hasError && !player.attached
    ensures effects == []
    ensures player.isCompleted == old(player.isCompleted)
  {
    player.HandleError(error);
    var retried := player.HandleRetry();
    var later := player.DispatchAll(events);
    effects := retried + later;
  }

  /** With the intended retry, the element's next `canplay` ends the loading. */
  method IntendedRetryEndsLoading(player: Html5VideoPlayer, error: Option<MediaError>, paused: bool)
    returns (effects: seq<Effect>)
    modifies player
    ensures !player.isLoading && !player.hasError && player.attached
    ensures |effects| > 0 && effects[0] == LoadMedia
  {
    player.HandleError(error);
    var retried := player.HandleRetryIntended();
    var ready := player.HandleCanPlay(paused);
    effects := retried + ready;
  }

  /** Whatever the events, completion is never undone, and it is announced at most
      once by the time updates: a second update past 90 % calls only `onProgress`. */
  method CompletionIsAnnouncedOnce(player: Html5VideoPlayer, t1: real, t2: real, d: real)
    requires d > 0.0 && 100.0 * t1 >= 90.0 * d && 100.0 * t2 >= 90.0 * d
    modifies player
  {
    CompletionThreshold(t1, d);
    CompletionThreshold(t2, d);
    var first := player.HandleTimeUpdate(t1, d);
    assert player.attached ==> player.isCompleted;
    player.HandlePause();
    player.HandleLoadStart();
    var second := player.HandleTimeUpdate(t2, d);
    assert player.attached ==> second == [ProgressCallback(t2, d, WatchedPercent(t2, d))];
    assert !player.attached ==> second == [];
  }
}
