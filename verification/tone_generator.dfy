/**
 * The tone generator of the frontend
 * (frontend/src/composables/useToneGenerator.ts): reference tones toggled
 * by frequency, timed tones that remove themselves when they end, and
 * strums that start one string after another. Oscillators are opaque
 * tokens; the audio clock's current time is a parameter.
 */
module ToneGenerator {
  import opened Wrappers

  /** The delay between the strings of a strum, in seconds. */
  const StrumDelay: real := 0.05

  /** How long each string of a strum sounds, in seconds. */
  const StrumDuration: real := 1.5

  /** One string of a strum: its frequency and when it starts and stops on the audio clock. */
  datatype Strike = Strike(hz: real, start: real, stop: real)

  /**
   * The strikes of a strum over `frequencies` at audio time `now`: string
   * `k` starts `0.05 * k` seconds after `now` and sounds for 1.5 seconds,
   * so the strings start one after another in the order given.
   */
  method StrumPlan(frequencies: seq<real>, now: real) returns (plan: seq<Strike>)
    ensures |plan| == |frequencies|
    ensures forall k :: 0 <= k < |plan| ==>
      plan[k].hz == frequencies[k] && plan[k].start == now + k as real * StrumDelay
      && plan[k].stop == plan[k].start + StrumDuration
    ensures forall i, j :: 0 <= i < j < |plan| ==> plan[i].start < plan[j].start
  {
    plan := [];
    for index := 0 to |frequencies|
      invariant |plan| == index
      invariant forall k :: 0 <= k < index ==>
        plan[k].hz == frequencies[k] && plan[k].start == now + k as real * StrumDelay
        && plan[k].stop == plan[k].start + StrumDuration
    {
      var startTime := now + index as real * StrumDelay;
      plan := plan + [Strike(frequencies[index], startTime, startTime + StrumDuration)];
    }
  }

  /** A tone with no duration, or a zero one, is a manual toggle rather than a timed tone. */
  predicate Untimed(duration: Option<real>)
    ensures duration.None? ==> Untimed(duration)
    ensures duration.Some? && duration.value != 0.0 ==> !Untimed(duration)
  {
    duration.None? || duration.value == 0.0
  }

  class ToneGenerator {
    var isPlaying: bool
    var currentToneHz: Option<real>
    /** Whether the audio context has been created. */
    var hasContext: bool
    /** The tracked oscillators, by frequency (activeOscillators). */
    var active: map<real, nat>
    /** The token the next oscillator gets; every token handed out is below it. */
    var nextOsc: nat
    /** The oscillators stopped outright by stopTone. */
    var stopped: set<nat>
    /** The timed oscillators whose end callback has not run yet, with the frequency each was started at. */
    var pendingEnds: seq<(nat, real)>

    /** `isPlaying` mirrors whether anything is tracked, and every token in use was handed out. */
    ghost predicate Valid()
      reads this
    {
      && isPlaying == (|active| > 0)
      && (forall h :: h in active ==> active[h] < nextOsc)
      && (forall k :: 0 <= k < |pendingEnds| ==> pendingEnds[k].0 < nextOsc)
    }

    constructor ()
      ensures Valid()
      ensures !isPlaying && currentToneHz == None && !hasContext
      ensures active == map[] && stopped == {} && pendingEnds == []
    {
      isPlaying := false;
      currentToneHz := None;
      hasContext := false;
      active := map[];
      nextOsc := 0;
      stopped := {};
      pendingEnds := [];
    }

    /**
     * stopTone: with a frequency, stops and forgets only that frequency's
     * oscillator (nothing, if it has none); without one, stops and forgets
     * them all. Afterwards `isPlaying` says whether anything is left, and
     * the current tone is cleared once nothing is.
     */
    method StopTone(hz: Option<real>)
      requires Valid()
      modifies this`active, this`stopped, this`isPlaying, this`currentToneHz
      ensures Valid()
      ensures hz.Some? ==> active == old(active) - {hz.value}
      ensures hz.Some? ==> stopped == if hz.value in old(active) then old(stopped) + {old(active)[hz.value]} else old(stopped)
      ensures hz.None? ==> active == map[] && stopped == old(stopped) + old(active).Values
      ensures currentToneHz == if isPlaying then old(currentToneHz) else None
    {
      if hz.Some? {
        StopOne(hz.value);
      } else {
        StopAll();
      }
    }

    /** The frequency branch of stopTone. */
    method StopOne(hz: real)
      requires Valid()
      modifies this`active, this`stopped, this`isPlaying, this`currentToneHz
      ensures Valid()
      ensures active == old(active) - {hz}
      ensures stopped == if hz in old(active) then old(stopped) + {old(active)[hz]} else old(stopped)
      ensures currentToneHz == if isPlaying then old(currentToneHz) else None
    {
      if hz in active {
        stopped := stopped + {active[hz]};
        active := active - {hz};
      } else {
        assert active - {hz} == active;
      }
      isPlaying := |active| > 0;
      if !isPlaying {
        currentToneHz := None;
      }
    }

    /** The stop-everything branch of stopTone: afterwards nothing is playing and there is no current tone. */
    method StopAll()
      requires Valid()
      modifies this`active, this`stopped, this`isPlaying, this`currentToneHz
      ensures Valid()
      ensures active == map[] && stopped == old(stopped) + old(active).Values
      ensures !isPlaying && currentToneHz == None
    {
      stopped := stopped + active.Values;
      active := map[];
      isPlaying := false;
      currentToneHz := None;
    }

    /**
     * playTone: without a duration (or with 0) it is a toggle — an active
     * frequency is stopped and nothing starts; otherwise every other tone
     * is stopped and `hz` alone plays. With a duration the other tones keep
     * playing, `hz` gets a fresh oscillator (a previous one at `hz` is no
     * longer tracked) and its end callback is armed.
     */
    method PlayTone(hz: real, duration: Option<real>)
      requires Valid()
      modifies this`hasContext, this`active, this`stopped, this`isPlaying, this`currentToneHz,
        this`nextOsc, this`pendingEnds
      ensures Valid() && hasContext
      ensures Untimed(duration) && hz in old(active) ==>
          && active == old(active) - {hz} && stopped == old(stopped) + {old(active)[hz]}
          && currentToneHz == (if isPlaying then old(currentToneHz) else None)
          && nextOsc == old(nextOsc) && pendingEnds == old(pendingEnds)
      ensures Untimed(duration) && hz !in old(active) ==>
          && active == map[hz := old(nextOsc)] && stopped == old(stopped) + old(active).Values
          && isPlaying && currentToneHz == Some(hz)
          && nextOsc == old(nextOsc) + 1 && pendingEnds == old(pendingEnds)
      ensures !Untimed(duration) ==>
          && active == old(active)[hz := old(nextOsc)] && stopped == old(stopped)
          && isPlaying && currentToneHz == Some(hz)
          && nextOsc == old(nextOsc) + 1 && pendingEnds == old(pendingEnds) + [(old(nextOsc), hz)]
    {
      if Untimed(duration) && hz in active {
        StopTone(Some(hz));
      } else if Untimed(duration) {
        PlayAlone(hz);
      } else {
        StartOscillator(hz, true);
      }
      // initContext runs first in playTone; nothing in between reads the context.
      hasContext := true;
    }

    /** The untimed branch of playTone for a frequency not yet playing: everything else stops and `hz` alone plays. */
    method PlayAlone(hz: real)
      requires Valid()
      modifies this`active, this`stopped, this`isPlaying, this`currentToneHz, this`nextOsc, this`pendingEnds
      ensures Valid() && pendingEnds == old(pendingEnds)
      ensures active == map[hz := old(nextOsc)] && stopped == old(stopped) + old(active).Values
      ensures isPlaying && currentToneHz == Some(hz) && nextOsc == old(nextOsc) + 1
    {
      StopTone(None);
      StartOscillator(hz, false);
    }

    /**
     * The tail of playTone: a fresh oscillator at `hz` becomes the tracked
     * one and the current tone; a timed one also gets its end callback armed.
     */
    method StartOscillator(hz: real, timed: bool)
      requires Valid()
      modifies this`active, this`isPlaying, this`currentToneHz, this`nextOsc, this`pendingEnds
      ensures Valid()
      ensures active == old(active)[hz := old(nextOsc)] && nextOsc == old(nextOsc) + 1
      ensures pendingEnds == if timed then old(pendingEnds) + [(old(nextOsc), hz)] else old(pendingEnds)
      ensures isPlaying && currentToneHz == Some(hz)
    {
      var osc := nextOsc;
      nextOsc := nextOsc + 1;
      if timed {
        pendingEnds := pendingEnds + [(osc, hz)];
      }
      active := active[hz := osc];
      isPlaying := true;
      currentToneHz := Some(hz);
    }

    /**
     * The end callback of the `k`-th pending timed oscillator: it forgets
     * whatever oscillator is tracked at its frequency — its own, or a newer
     * one started there since — and leaves the current tone alone.
     */
    method OscEnded(k: nat)
      requires Valid() && k < |pendingEnds|
      modifies this`active, this`isPlaying, this`pendingEnds
      ensures Valid()
      ensures active == old(active) - {old(pendingEnds[k]).1}
      ensures isPlaying == (|active| > 0)
      ensures pendingEnds == old(pendingEnds[..k] + pendingEnds[k + 1..])
    {
      var hz := pendingEnds[k].1;
      active := active - {hz};
      isPlaying := |active| > 0;
      pendingEnds := pendingEnds[..k] + pendingEnds[k + 1..];
    }

    /** strum: creates the audio context if needed and plans one strike per string. */
    method Strum(frequencies: seq<real>, now: real) returns (plan: seq<Strike>)
      modifies this`hasContext
      ensures hasContext
      ensures |plan| == |frequencies|
      ensures forall k :: 0 <= k < |plan| ==>
        plan[k].hz == frequencies[k] && plan[k].start == now + k as real * StrumDelay
        && plan[k].stop == plan[k].start + StrumDuration
    {
      hasContext := true;
      plan := StrumPlan(frequencies, now);
    }
  }

  /**
   * A manual tuning button pressed twice: the first press plays `hz` alone,
   * the second stops it, and nothing is left playing.
   */
  method PressTwice(hz: real) returns (playingAfterFirst: bool, playingAfterSecond: bool, current: Option<real>)
    ensures playingAfterFirst && !playingAfterSecond && current == None
  {
    var g := new ToneGenerator();
    g.PlayTone(hz, None);
    playingAfterFirst := g.isPlaying;
    g.PlayTone(hz, None);
    playingAfterSecond := g.isPlaying;
    current := g.currentToneHz;
  }

  /**
   * Two timed tones at the same frequency, the second started before the
   * first ends: the first one's end callback forgets the frequency, so the
   * second oscillator, still sounding, is no longer tracked and cannot be
   * stopped by stopTone.
   */
  method OverlappingTimedTones(hz: real) returns (tracked: bool, playing: bool)
    ensures !tracked && !playing
  {
    var g := new ToneGenerator();
    g.PlayTone(hz, Some(1.0));
    g.PlayTone(hz, Some(1.0));
    g.OscEnded(0);
    tracked := hz in g.active;
    playing := g.isPlaying;
  }
}
