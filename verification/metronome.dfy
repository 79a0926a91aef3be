/**
 * The metronome of the frontend (frontend/src/composables/useMetronome.ts):
 * a look-ahead scheduler that hands clicks to the audio clock a little
 * ahead of time, accents every fourth beat, and arms a visual callback for
 * each click. Audio time is an exact real; the audio clock's current time
 * is a parameter of every step.
 */
module Metronome {
  import opened Wrappers

  /** How far ahead of the audio clock clicks are scheduled, in seconds. */
  const ScheduleAheadTime: real := 0.1

  /** The tempo used when none was saved, in beats per minute. */
  const DefaultBpm: real := 120.0

  /** One click handed to the audio graph: its beat number, start time and pitch in hertz. */
  datatype Click = Click(beat: nat, time: real, frequency: int)

  /** The pitch of a click: high on every fourth beat (beat 0, 4, 8, ...), low otherwise. */
  function ClickFrequency(beatNumber: nat): (hz: int)
    ensures hz == 1000 || hz == 800
    ensures hz == 1000 <==> beatNumber % 4 == 0
  {
    if beatNumber % 4 == 0 then 1000 else 800
  }

  /** The length of one beat in seconds at `bpm` beats per minute. */
  function SecondsPerBeat(bpm: real): (spb: real)
    requires bpm > 0.0
    ensures spb > 0.0 && spb * bpm == 60.0
  {
    60.0 / bpm
  }

  /** The start time of the `n`-th click after `start`, reached by adding `spb` once per click. */
  function TickTime(start: real, spb: real, n: nat): (r: real)
    ensures spb > 0.0 && n > 0 ==> r > start
  {
    if n == 0 then start else TickTime(start, spb, n - 1) + spb
  }

  /** Adding the beat length `n` times is adding `n` beat lengths. */
  lemma {:induction false} TickTimeClosedForm(start: real, spb: real, n: nat)
    ensures TickTime(start, spb, n) == start + n as real * spb
  {
    if n > 0 {
      TickTimeClosedForm(start, spb, n - 1);
      assert (n - 1) as real * spb + spb == n as real * spb;
    }
  }

  /** With a positive beat length, later clicks start strictly later. */
  lemma {:induction false} TickTimeIncreasing(start: real, spb: real, i: nat, j: nat)
    requires spb > 0.0 && i < j
    ensures TickTime(start, spb, i) < TickTime(start, spb, j)
    decreases j
  {
    if i < j - 1 {
      TickTimeIncreasing(start, spb, i, j - 1);
    }
  }

  /**
   * The `n` clicks one scheduler run hands out from beat `beat` at time
   * `start`, one beat length `spb` apart, in the order they are scheduled.
   */
  function Ticks(beat: nat, start: real, spb: real, n: nat): (r: seq<Click>)
    ensures |r| == n
    ensures forall i :: 0 <= i < n ==>
      r[i] == Click(beat + i, TickTime(start, spb, i), ClickFrequency(beat + i))
  {
    if n == 0 then []
    else Ticks(beat, start, spb, n - 1) + [Click(beat + n - 1, TickTime(start, spb, n - 1), ClickFrequency(beat + n - 1))]
  }

  /** Within one run, each click is the next beat, one beat length after the one before. */
  lemma TicksSpacing(beat: nat, start: real, spb: real, n: nat)
    ensures forall i :: 1 <= i < n ==>
      Ticks(beat, start, spb, n)[i].beat == Ticks(beat, start, spb, n)[i - 1].beat + 1
      && Ticks(beat, start, spb, n)[i].time == Ticks(beat, start, spb, n)[i - 1].time + spb
  {
  }

  /** Within one run with a positive tempo, click times strictly increase. */
  lemma TicksIncreasing(beat: nat, start: real, spb: real, n: nat)
    requires spb > 0.0
    ensures forall i, j :: 0 <= i < j < n ==> Ticks(beat, start, spb, n)[i].time < Ticks(beat, start, spb, n)[j].time
  {
    forall i, j | 0 <= i < j < n
      ensures Ticks(beat, start, spb, n)[i].time < Ticks(beat, start, spb, n)[j].time
    {
      TickTimeIncreasing(start, spb, i, j);
    }
  }

  /** One more scheduled beat appends one click. */
  lemma TicksStep(beat: nat, start: real, spb: real, n: nat)
    ensures Ticks(beat, start, spb, n + 1)
      == Ticks(beat, start, spb, n) + [Click(beat + n, TickTime(start, spb, n), ClickFrequency(beat + n))]
  {
  }

  /**
   * `count` is the number of beats from `start`, one `spb` apart, that
   * begin before `bound`: all of the first `count` do, the next does not.
   */
  ghost predicate BeatsBefore(start: real, spb: real, count: nat, bound: real) {
    && (forall i :: 0 <= i < count ==> TickTime(start, spb, i) < bound)
    && TickTime(start, spb, count) >= bound
  }

  /** Only one count fits a window, so a scheduler run is determined by its window. */
  lemma BeatsBeforeUnique(start: real, spb: real, m: nat, n: nat, bound: real)
    requires BeatsBefore(start, spb, m, bound) && BeatsBefore(start, spb, n, bound)
    ensures m == n
  {
  }

  /** A window that ends within one beat of the start holds exactly one beat. */
  lemma OneBeatBefore(start: real, spb: real, bound: real)
    requires start < bound <= start + spb
    ensures BeatsBefore(start, spb, 1, bound)
  {
    assert TickTime(start, spb, 1) == start + spb;
  }

  /** Enough whole beats of positive length exceed any positive span. */
  lemma BeatsExceed(span: real, spb: real) returns (k: nat)
    requires span > 0.0 && spb > 0.0
    ensures k as real * spb > span
  {
    var q := span / spb;
    assert q * spb == span;
    k := q.Floor + 1;
    var c := k as real;
    assert c - q > 0.0;
    assert (c - q) * spb > 0.0;
    assert (c - q) * spb == c * spb - q * spb;
  }

  /** With a positive beat length, some number of beats reaches any point in time. */
  lemma BeatsToReach(start: real, spb: real, bound: real) returns (count: nat)
    requires spb > 0.0
    ensures TickTime(start, spb, count) >= bound
  {
    if bound <= start {
      count := 0;
      assert TickTime(start, spb, 0) == start;
    } else {
      count := BeatsExceed(bound - start, spb);
      TickTimeClosedForm(start, spb, count);
    }
  }

  /** A beat that starts before `bound` comes before any beat that starts at or after it. */
  lemma TickTimeBelow(start: real, spb: real, n: nat, count: nat, bound: real)
    requires spb > 0.0 && TickTime(start, spb, n) < bound <= TickTime(start, spb, count)
    ensures n < count
  {
    TickTimeClosedForm(start, spb, n);
    TickTimeClosedForm(start, spb, count);
    assert (count as real - n as real) * spb > 0.0;
  }

  class Metronome {
    var isRunning: bool
    var bpm: real
    var beatCount: nat
    var lastBeatTime: int
    /** Whether the audio context has been created. */
    var hasContext: bool
    var nextNoteTime: real
    /** Whether the scheduler's re-run timer is pending. */
    var timerArmed: bool
    /** Every click handed to the audio graph so far, in order. */
    var clicks: seq<Click>
    /**
     * The clicks whose visual callback is armed and has not fired yet; each
     * is armed for `(time - now) * 1000` milliseconds after scheduling,
     * that is, for the moment its click sounds.
     */
    var flashes: seq<Click>

    /** A stopped metronome at the saved tempo, or 120 when none (or 0) was saved. */
    constructor (saved: Option<real>)
      ensures bpm == if saved.Some? && saved.value != 0.0 then saved.value else DefaultBpm
      ensures !isRunning && beatCount == 0 && lastBeatTime == 0 && !hasContext
      ensures nextNoteTime == 0.0 && !timerArmed && clicks == [] && flashes == []
    {
      isRunning := false;
      bpm := if saved.Some? && saved.value != 0.0 then saved.value else DefaultBpm;
      beatCount := 0;
      lastBeatTime := 0;
      hasContext := false;
      nextNoteTime := 0.0;
      timerArmed := false;
      clicks := [];
      flashes := [];
    }

    /** The tempo control: a new tempo only affects beat lengths read after it. */
    method SetBpm(b: real)
      modifies this`bpm
      ensures bpm == b
    {
      bpm := b;
    }

    /**
     * scheduleNote: with an audio context, hands one click to the audio
     * graph (accented on every fourth beat) and arms its visual callback
     * for the moment it sounds; without one, does nothing.
     */
    method ScheduleNote(beatNumber: nat, time: real)
      modifies this`clicks, this`flashes
      ensures hasContext ==> clicks == old(clicks) + [Click(beatNumber, time, ClickFrequency(beatNumber))]
      ensures hasContext ==> flashes == old(flashes) + [Click(beatNumber, time, ClickFrequency(beatNumber))]
      ensures !hasContext ==> clicks == old(clicks) && flashes == old(flashes)
    {
      if !hasContext {
        return;
      }
      var click := Click(beatNumber, time, ClickFrequency(beatNumber));
      clicks := clicks + [click];
      flashes := flashes + [click];
    }

    /**
     * scheduler: with an audio context, schedules every beat that starts
     * before `now + 0.1`, numbered on from `beatCount` and one beat length
     * apart from `nextNoteTime`, then re-arms itself; clicks already handed
     * out stay as they are. Without a context it does nothing.
     */
    method Scheduler(now: real)
      requires hasContext ==> bpm > 0.0
      modifies this`nextNoteTime, this`beatCount, this`clicks, this`flashes, this`timerArmed
      ensures !hasContext ==> nextNoteTime == old(nextNoteTime) && beatCount == old(beatCount)
      ensures !hasContext ==> clicks == old(clicks) && flashes == old(flashes) && timerArmed == old(timerArmed)
      ensures hasContext ==> beatCount >= old(beatCount) && timerArmed
      ensures hasContext ==>
        var added := Ticks(old(beatCount), old(nextNoteTime), SecondsPerBeat(bpm), beatCount - old(beatCount));
        && clicks == old(clicks) + added
        && flashes == old(flashes) + added
        && nextNoteTime == TickTime(old(nextNoteTime), SecondsPerBeat(bpm), beatCount - old(beatCount))
      ensures hasContext ==> nextNoteTime >= now + ScheduleAheadTime
      ensures hasContext ==>
        BeatsBefore(old(nextNoteTime), SecondsPerBeat(bpm), beatCount - old(beatCount), now + ScheduleAheadTime)
    {
      if !hasContext {
        return;
      }
      ScheduleAhead(now);
      timerArmed := true;
    }

    /** The loop of scheduler: one click per beat that starts before `now + 0.1`. */
    method ScheduleAhead(now: real)
      requires hasContext && bpm > 0.0
      modifies this`nextNoteTime, this`beatCount, this`clicks, this`flashes
      ensures beatCount >= old(beatCount)
      ensures
        var added := Ticks(old(beatCount), old(nextNoteTime), SecondsPerBeat(bpm), beatCount - old(beatCount));
        && clicks == old(clicks) + added
        && flashes == old(flashes) + added
        && nextNoteTime == TickTime(old(nextNoteTime), SecondsPerBeat(bpm), beatCount - old(beatCount))
      ensures nextNoteTime >= now + ScheduleAheadTime
      ensures BeatsBefore(old(nextNoteTime), SecondsPerBeat(bpm), beatCount - old(beatCount), now + ScheduleAheadTime)
    {
      ghost var beat0, time0, clicks0, flashes0 := beatCount, nextNoteTime, clicks, flashes;
      ghost var spb := SecondsPerBeat(bpm);
      ghost var enough := BeatsToReach(time0, spb, now + ScheduleAheadTime);
      ghost var n: nat := 0;
      while nextNoteTime < now + ScheduleAheadTime
        invariant n <= enough
        invariant beatCount == beat0 + n
        invariant nextNoteTime == TickTime(time0, spb, n)
        invariant clicks == clicks0 + Ticks(beat0, time0, spb, n)
        invariant flashes == flashes0 + Ticks(beat0, time0, spb, n)
        invariant forall i :: 0 <= i < n ==> TickTime(time0, spb, i) < now + ScheduleAheadTime
        decreases enough - n
      {
        TickTimeBelow(time0, spb, n, enough, now + ScheduleAheadTime);
        TicksStep(beat0, time0, spb, n);
        ScheduleNote(beatCount, nextNoteTime);
        var secondsPerBeat := SecondsPerBeat(bpm);
        nextNoteTime := nextNoteTime + secondsPerBeat;
        beatCount := beatCount + 1;
        n := n + 1;
      }
      assert beatCount - beat0 == n && SecondsPerBeat(bpm) == spb;
    }

    /**
     * toggle: creates the audio context if needed and flips `isRunning`.
     * Starting numbers beats from 0 at the audio clock's current time and
     * schedules at once, so the first click is an accented beat 0 sounding
     * now; stopping cancels the scheduler's pending timer.
     */
    method Toggle(now: real)
      requires !isRunning ==> bpm > 0.0
      modifies this`hasContext, this`isRunning, this`nextNoteTime, this`beatCount, this`clicks, this`flashes, this`timerArmed
      ensures hasContext && isRunning == !old(isRunning)
      ensures isRunning ==>
        var added := Ticks(0, now, SecondsPerBeat(bpm), beatCount);
        && clicks == old(clicks) + added && flashes == old(flashes) + added
        && nextNoteTime == TickTime(now, SecondsPerBeat(bpm), beatCount) >= now + ScheduleAheadTime
        && BeatsBefore(now, SecondsPerBeat(bpm), beatCount, now + ScheduleAheadTime)
        && timerArmed
      ensures isRunning ==> |clicks| > |old(clicks)| && clicks[|old(clicks)|] == Click(0, now, 1000)
      ensures !isRunning ==> !timerArmed && nextNoteTime == old(nextNoteTime) && beatCount == old(beatCount)
      ensures !isRunning ==> clicks == old(clicks) && flashes == old(flashes)
    {
      hasContext := true;
      isRunning := !isRunning;
      if isRunning {
        beatCount := 0;
        nextNoteTime := now;
        Scheduler(now);
        assert beatCount > 0;
        assert clicks[|old(clicks)|] == Ticks(0, now, SecondsPerBeat(bpm), beatCount)[0];
      } else {
        timerArmed := false;
      }
    }

    /**
     * The visual callback of one armed click firing: it shows that click's
     * beat by writing it into `beatCount` — the same counter the scheduler
     * numbers the next click from — and stamps the wall-clock time `nowMs`.
     */
    method FireFlash(k: nat, nowMs: int)
      requires k < |flashes|
      modifies this`beatCount, this`lastBeatTime, this`flashes
      ensures beatCount == old(flashes[k].beat) && lastBeatTime == nowMs
      ensures flashes == old(flashes[..k] + flashes[k + 1..])
    {
      beatCount := flashes[k].beat;
      lastBeatTime := nowMs;
      flashes := flashes[..k] + flashes[k + 1..];
    }
  }

  /**
   * At 120 bpm the first callback fires before the second beat is
   * scheduled, so the second click is numbered 0 again and accented: the
   * shared counter keeps every click at beat 0 at this tempo.
   */
  method SecondClickAt120() returns (first: Click, second: Click)
    ensures first == Click(0, 0.0, 1000)
    ensures second == Click(0, 0.5, 1000)
  {
    var m := new Metronome(None);
    m.Toggle(0.0);
    assert SecondsPerBeat(m.bpm) == 0.5;
    OneBeatBefore(0.0, 0.5, ScheduleAheadTime);
    BeatsBeforeUnique(0.0, 0.5, m.beatCount, 1, ScheduleAheadTime);
    assert m.clicks == Ticks(0, 0.0, 0.5, 1) && m.nextNoteTime == TickTime(0.0, 0.5, 1) == 0.5;
    first := m.clicks[0];
    m.FireFlash(0, 0);
    assert m.beatCount == 0 && m.clicks == Ticks(0, 0.0, 0.5, 1);
    m.Scheduler(0.45);
    OneBeatBefore(0.5, 0.5, 0.45 + ScheduleAheadTime);
    BeatsBeforeUnique(0.5, 0.5, m.beatCount, 1, 0.45 + ScheduleAheadTime);
    assert m.clicks == Ticks(0, 0.0, 0.5, 1) + Ticks(0, 0.5, 0.5, 1);
    second := m.clicks[1];
  }
}
