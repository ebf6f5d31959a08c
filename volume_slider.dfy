/**
 * The preview throttle of the volume slider (components/VolumeSlider.tsx).
 * `lastPreview` is the component's mutable ref; the clock reading `Date.now()`
 * is the `now` parameter, in whole milliseconds; whether an `onPreview`
 * callback was given is `hasPreview`. Each handler returns what it passes to
 * its callbacks.
 */
module VolumeSlider {
  import opened Wrappers

  const DefaultThrottleMs := 150

  /** A value change may play a preview once `throttle` ms have passed since the last one. */
  predicate Fires(last: int, now: int, throttle: int)
  {
    now - last >= throttle
  }

  /** Consecutive timestamps in `times` are at least `throttle` apart. */
  ghost predicate Spaced(times: seq<int>, throttle: int)
  {
    forall i :: 0 <= i < |times| - 1 ==> times[i + 1] - times[i] >= throttle
  }

  /**
   * With a non-negative throttle, spacing between neighbours gives order and
   * spacing between any two previews.
   */
  lemma {:induction false} SpacedPairwise(times: seq<int>, throttle: int, i: int, j: int)
    requires Spaced(times, throttle) && throttle >= 0
    requires 0 <= i < j < |times|
    ensures times[i] <= times[j]
    ensures times[j] - times[i] >= throttle
    decreases j - i
  {
    if j > i + 1 {
      SpacedPairwise(times, throttle, i, j - 1);
      assert times[j] - times[j - 1] >= throttle;
    }
  }

  class PreviewThrottle {
    /** `lastPreviewRef.current`. */
    var lastPreview: int
    /** `previewThrottleMs`, 150 unless given. */
    const throttleMs: int
    /** The times at which value changes played a preview, oldest first. */
    ghost var previews: seq<int>

    ghost predicate Valid()
      reads this
    {
      && Spaced(previews, throttleMs)
      && (previews != [] ==> lastPreview == previews[|previews| - 1])
      && (previews == [] ==> lastPreview == 0)
    }

    /** A freshly mounted slider: nothing previewed yet, `lastPreview` is 0. */
    constructor (previewThrottleMs: Option<int>)
      ensures Valid()
      ensures lastPreview == 0 && previews == []
      ensures throttleMs == previewThrottleMs.GetOr(DefaultThrottleMs)
    {
      lastPreview := 0;
      throttleMs := if previewThrottleMs.Some? then previewThrottleMs.value else DefaultThrottleMs;
      previews := [];
    }

    /** With a non-negative throttle, any two previews played by value changes are at least the throttle apart. */
    lemma PreviewsApart(i: int, j: int)
      requires Valid() && throttleMs >= 0 && 0 <= i < j < |previews|
      ensures previews[j] - previews[i] >= throttleMs
    {
      SpacedPairwise(previews, throttleMs, i, j);
    }

    /**
     * `handleValueChange(v)`: `onChange` always receives `v`; without `onPreview`
     * nothing else happens; otherwise a preview plays exactly when the throttle
     * has elapsed, and then `lastPreview` becomes `now`.
     */
    method HandleValueChange(v: real, now: int, hasPreview: bool) returns (changed: real, previewed: bool)
      requires Valid()
      modifies this
      ensures Valid()
      ensures changed == v
      ensures previewed <==> hasPreview && Fires(old(lastPreview), now, throttleMs)
      ensures lastPreview == (if previewed then now else old(lastPreview))
      ensures previews == (if previewed then old(previews) + [now] else old(previews))
    {
      changed := v;
      previewed := false;
      if !hasPreview {
        return;
      }
      if now - lastPreview >= throttleMs {
        lastPreview := now;
        previews := previews + [now];
        previewed := true;
      }
    }

    /** `handleSlidingComplete`: previews whenever `onPreview` is given and leaves the throttle alone. */
    method HandleSlidingComplete(hasPreview: bool) returns (previewed: bool)
      ensures previewed == hasPreview
      ensures lastPreview == old(lastPreview)
    {
      previewed := hasPreview;
    }
  }
}
