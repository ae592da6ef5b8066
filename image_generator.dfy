/** The periodic image source. Its only state is the handle of the active
    interval. Each effect run first stops the old interval; when enabled it
    emits one image at once and installs one interval, whose ticks each emit
    one image. The generated images come in as parameters, since the source
    draws them at random. */
module GeneratorComponent {
  import opened Types

  class ImageGenerator {
    /** The handle kept in the ref, or None. */
    var intervalRef: Option<nat>
    /** The intervals the timer runtime still fires. */
    var live: set<nat>
    /** The period of the interval last installed, in ms. */
    var period: int
    var nextHandle: nat
    /** The images handed to the callback so far, in order. */
    var emitted: seq<MockImage>

    /** The ref holds exactly the live interval, so at most one is live. */
    ghost predicate Valid()
      reads this
    {
      live == (if intervalRef.Some? then {intervalRef.value} else {})
      && forall h :: h in live ==> h < nextHandle
    }

    /** The number of intervals the runtime fires. */
    function ActiveIntervals(): (n: nat)
      reads this
      requires Valid()
      ensures n <= 1
      ensures n == 1 <==> intervalRef.Some?
      ensures n == |live|
    {
      if intervalRef.Some? then 1 else 0
    }

    constructor ()
      ensures Valid() && intervalRef.None? && live == {} && emitted == []
    {
      intervalRef := None;
      live := {};
      period := 0;
      nextHandle := 0;
      emitted := [];
    }

    /** One run of the effect with the current props; initialImage is what
        the generator produces for the immediate emission. */
    method RunEffect(enabled: bool, interval: int, initialImage: MockImage)
      requires Valid()
      modifies this
      ensures Valid()
      ensures old(intervalRef).Some? ==> old(intervalRef).value !in live
      ensures enabled ==> emitted == old(emitted) + [initialImage]
                          && intervalRef == Some(old(nextHandle)) && live == {old(nextHandle)}
                          && period == interval
      ensures !enabled ==> emitted == old(emitted) && intervalRef.None? && live == {}
                           && period == old(period) && nextHandle == old(nextHandle)
    {
      if intervalRef.Some? {
        live := live - {intervalRef.value};  // clearInterval
        intervalRef := None;
      }

      if enabled {
        emitted := emitted + [initialImage];
        var handle := nextHandle;
        nextHandle := nextHandle + 1;
        live := live + {handle};
        intervalRef := Some(handle);
        period := interval;
      }
    }

    /** The interval with the given handle fires. A cleared interval never
        fires, so only a live one emits. */
    method Tick(handle: nat, image: MockImage) returns (fired: bool)
      requires Valid()
      modifies this`emitted
      ensures fired == (handle in live)
      ensures emitted == old(emitted) + (if fired then [image] else [])
    {
      fired := handle in live;
      if fired {
        emitted := emitted + [image];
      }
    }

    /** The cleanup on unmount or before the effect runs again. */
    method Cleanup()
      requires Valid()
      modifies this
      ensures Valid() && intervalRef.None? && live == {}
      ensures emitted == old(emitted) && nextHandle == old(nextHandle) && period == old(period)
      ensures old(intervalRef).None? ==> live == old(live)
    {
      if intervalRef.Some? {
        live := live - {intervalRef.value};  // clearInterval
        intervalRef := None;
      }
    }
  }

  /** Start, one tick, restart: the restart emits at once, a tick of the
      stopped interval emits nothing, and a tick of the new one emits once. */
  method RestartScenario(a: MockImage, b: MockImage, c: MockImage, d: MockImage, x: MockImage, interval: int)
    returns (stale: bool, images: seq<MockImage>)
    ensures !stale && images == [a, b, c, d]
  {
    var g := new ImageGenerator();
    g.RunEffect(true, interval, a);
    var stopped := g.intervalRef.value;
    var ticked := g.Tick(stopped, b);
    g.Cleanup();
    g.RunEffect(true, interval, c);
    stale := g.Tick(stopped, x);
    ticked := g.Tick(g.intervalRef.value, d);
    images := g.emitted;
  }
}
