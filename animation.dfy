/** `AnimationManager`: which sequence of a sprite sheet is playing, its
    frame index, the paused and ended flags and the rectangle of the frame
    to draw. The game clock is given in whole milliseconds. */
module Animation {
  import opened Wrappers
  import opened Xna

  /** `AnimationSecuence`: a row of `frames` equally sized frames starting
      at `firstFrame`, shown `delay` milliseconds apart. */
  datatype Secuence = Secuence(name: string, firstFrame: Rect, frames: int, delay: int, loop: bool)

  /** The parameterless `AnimationSecuence()`. */
  const NoSecuence: Secuence := Secuence("", Empty, 0, 0, false)

  /** The playback fields of the manager, as a value. `playing` is the
      `CurrentSecuence` property, which is null until the first `Play`. */
  datatype Playback = Playback(
    current: Secuence,
    playing: Option<string>,
    frame: int,
    paused: bool,
    ended: bool,
    drawFrame: Rect,
    lastTime: int)

  /** The state of a new manager. */
  const Initial: Playback := Playback(NoSecuence, None, 0, false, true, Empty, 0)

  /** `Play(name)`: a missing name fails at the dictionary lookup. A
      non-looping sequence always restarts; a looping one restarts unless it
      is already the current sequence. */
  function AfterPlay(secuences: map<string, Secuence>, p: Playback, name: string): Result<Playback> {
    if name !in secuences then Err(KeyNotFound)
    else
      var s := secuences[name];
      if (s.loop && p.playing != Some(name)) || !s.loop then
        Ok(p.(playing := Some(name), current := s, drawFrame := s.firstFrame, frame := 0, paused := false, ended := false))
      else
        Ok(p)
  }

  /** `Pause()`: toggles the paused flag. */
  function AfterPause(p: Playback): Playback {
    p.(paused := !p.paused)
  }

  /** `Stop()`. */
  function AfterStop(p: Playback): Playback {
    p.(drawFrame := p.current.firstFrame, frame := 0, paused := true, ended := true)
  }

  /** The `CurrentFrameIndex` setter. */
  function SetFrameIndex(p: Playback, v: int): Playback {
    p.(frame := if v < 0 then 0 else if v >= p.current.frames then p.current.frames - 1 else v)
  }

  /** True when `Update` at time `now` moves to another frame. */
  predicate Advances(p: Playback, now: int) {
    !p.ended && !p.paused && now - p.lastTime >= p.current.delay
  }

  /** `Update(gameTime)` at `now` milliseconds of total game time. */
  function AfterUpdate(p: Playback, now: int): Playback {
    if !Advances(p, now) then p
    else
      var next := p.frame + 1;
      var s := p.current;
      var frame := if next == s.frames && !s.loop then next - 1 else if next == s.frames then 0 else next;
      var ended := next == s.frames && !s.loop;
      p.(lastTime := now, frame := frame, ended := ended || p.ended,
         drawFrame := p.drawFrame.(x := frame * s.firstFrame.width + s.firstFrame.x))
  }

  /** The frame index lies within the current sequence whenever it has
      frames at all. */
  predicate FrameInRange(p: Playback) {
    p.current.frames >= 1 ==> 0 <= p.frame < p.current.frames
  }

  /** With `now` far enough past the last advance, `Update` moves exactly one
      frame forward: a looping sequence wraps from the last frame to 0, a
      non-looping one stays on its last frame and ends. The frame's
      rectangle moves to its column and keeps its other fields. */
  lemma UpdateStep(p: Playback, now: int)
    requires Advances(p, now)
    ensures var r := AfterUpdate(p, now); var s := p.current;
      && r.lastTime == now
      && (p.frame + 1 != s.frames ==> r.frame == p.frame + 1 && !r.ended)
      && (p.frame + 1 == s.frames && s.loop ==> r.frame == 0 && !r.ended)
      && (p.frame + 1 == s.frames && !s.loop ==> r.frame == p.frame && r.ended)
      && r.drawFrame == p.drawFrame.(x := r.frame * s.firstFrame.width + s.firstFrame.x)
      && r.current == p.current && r.playing == p.playing && r.paused == p.paused
  {
  }

  /** Otherwise `Update` changes nothing at all. */
  lemma UpdateIdle(p: Playback, now: int)
    requires p.ended || p.paused || now - p.lastTime < p.current.delay
    ensures AfterUpdate(p, now) == p
  {
  }

  lemma UpdateKeepsFrameInRange(p: Playback, now: int)
    requires FrameInRange(p)
    ensures FrameInRange(AfterUpdate(p, now))
  {
  }

  /** A sequence with no frames never reaches `frames == 0` again: each
      advance goes one frame further, without end. */
  lemma ZeroFramesRunOn(p: Playback, now: int)
    requires Advances(p, now) && p.current.frames == 0 && p.frame >= 0
    ensures AfterUpdate(p, now).frame == p.frame + 1 && !AfterUpdate(p, now).ended
  {
  }

  /** The setter clamps the index into `[0, frames - 1]` and keeps an index
      that is already inside; for a sequence with no frames it gives -1 for
      every non-negative value. */
  lemma SetFrameIndexClamps(p: Playback, v: int)
    ensures FrameInRange(SetFrameIndex(p, v))
    ensures 0 <= v < p.current.frames ==> SetFrameIndex(p, v).frame == v
    ensures p.current.frames == 0 && v >= 0 ==> SetFrameIndex(p, v).frame == -1
  {
  }

  /** `Play` of a sequence that starts it over puts it on frame 0 with its
      first frame's rectangle, running; re-playing the current looping
      sequence changes nothing. */
  lemma PlayEffect(secuences: map<string, Secuence>, p: Playback, name: string)
    requires name in secuences
    ensures AfterPlay(secuences, p, name).Ok?
    ensures var r := AfterPlay(secuences, p, name).value;
      && (!secuences[name].loop || p.playing != Some(name) ==>
            && r.playing == Some(name) && r.current == secuences[name] && r.frame == 0
            && r.drawFrame == secuences[name].firstFrame && !r.paused && !r.ended
            && r.lastTime == p.lastTime)
      && (secuences[name].loop && p.playing == Some(name) ==> r == p)
  {
  }

  lemma PlayKeepsFrameInRange(secuences: map<string, Secuence>, p: Playback, name: string)
    requires FrameInRange(p)
    ensures AfterPlay(secuences, p, name).Ok? ==> FrameInRange(AfterPlay(secuences, p, name).value)
  {
  }

  lemma PauseStopKeepFrameInRange(p: Playback)
    requires FrameInRange(p)
    ensures FrameInRange(AfterPause(p)) && FrameInRange(AfterStop(p))
    ensures AfterPause(AfterPause(p)) == p
  {
  }

  /** `Update` applied at each time of `times`, in order. */
  function Run(p: Playback, times: seq<int>): Playback
    decreases |times|
  {
    if times == [] then p else Run(AfterUpdate(p, times[0]), times[1..])
  }

  /** Each time of `times` comes at least one delay after the previous one
      (the first one after the last advance of `p`). */
  predicate Spaced(p: Playback, times: seq<int>) {
    && (times != [] ==> times[0] - p.lastTime >= p.current.delay)
    && forall i :: 0 < i < |times| ==> times[i] - times[i - 1] >= p.current.delay
  }

  /** A running non-looping sequence, updated at spaced times, stays running
      until its last frame and ends on the next update after it reaches it:
      from frame `f` it takes `frames - f` updates to end there. */
  lemma {:induction false} RunToEnd(p: Playback, times: seq<int>)
    requires !p.current.loop && !p.ended && !p.paused
    requires 0 <= p.frame < p.current.frames
    requires |times| == p.current.frames - p.frame
    requires Spaced(p, times)
    ensures Run(p, times).ended
    ensures Run(p, times).frame == p.current.frames - 1
    decreases |times|
  {
    var q := AfterUpdate(p, times[0]);
    UpdateStep(p, times[0]);
    if |times| > 1 {
      assert Spaced(q, times[1..]) by {
        forall i | 0 < i < |times[1..]|
          ensures times[1..][i] - times[1..][i - 1] >= q.current.delay
        {
          assert times[1..][i] == times[i + 1] && times[1..][i - 1] == times[i];
        }
      }
      RunToEnd(q, times[1..]);
    } else {
      assert times[1..] == [];
    }
  }

  /** The manager object. */
  class AnimationManager {
    var secuences: map<string, Secuence>
    var current: Secuence
    var currentSecuence: Option<string>
    var currentFrame: int
    var isPaused: bool
    var isEnded: bool
    var drawFrame: Rect
    var deltaTime: int

    function State(): Playback
      reads this
    {
      Playback(current, currentSecuence, currentFrame, isPaused, isEnded, drawFrame, deltaTime)
    }

    /** The `Enabled` property reads the paused flag; its setter does
        nothing. */
    function Enabled(): bool
      reads this
    {
      isPaused
    }

    constructor ()
      ensures secuences == map[]
      ensures State() == Initial
    {
      secuences := map[];
      current := NoSecuence;
      currentSecuence := None;
      currentFrame := 0;
      isPaused := false;
      isEnded := true;
      drawFrame := Empty;
      deltaTime := 0;
    }

    /** `AddSecuence`: stores a new sequence, named by its key; a key that is
        already there fails as `Dictionary.Add` does. */
    method AddSecuence(key: string, frame: Rect, frames: int, delay: int, loop: bool) returns (o: Outcome)
      modifies this
      ensures key in old(secuences) ==> o == Fail(DuplicateKey) && secuences == old(secuences)
      ensures key !in old(secuences) ==> o == Pass && secuences == old(secuences)[key := Secuence(key, frame, frames, delay, loop)]
      ensures State() == old(State())
    {
      if key in secuences {
        o := Fail(DuplicateKey);
      } else {
        secuences := secuences[key := Secuence(key, frame, frames, delay, loop)];
        o := Pass;
      }
    }

    method Play(name: string) returns (o: Outcome)
      modifies this
      ensures secuences == old(secuences)
      ensures var r := AfterPlay(secuences, old(State()), name);
        && (r.Ok? ==> o == Pass && State() == r.value)
        && (r.Err? ==> o == Fail(r.error) && State() == old(State()))
    {
      if name !in secuences {
        return Fail(KeyNotFound);
      }
      var s := secuences[name];
      if (s.loop && currentSecuence != Some(name)) || !s.loop {
        currentSecuence := Some(name);
        current := s;
        drawFrame := current.firstFrame;
        currentFrame := 0;
        isPaused := false;
        isEnded := false;
      }
      o := Pass;
    }

    method Pause()
      modifies this
      ensures secuences == old(secuences)
      ensures State() == AfterPause(old(State()))
    {
      isPaused := !isPaused;
    }

    method Stop()
      modifies this
      ensures secuences == old(secuences)
      ensures State() == AfterStop(old(State()))
    {
      drawFrame := current.firstFrame;
      currentFrame := 0;
      isPaused := true;
      isEnded := true;
    }

    /** The `CurrentFrameIndex` setter. */
    method SetCurrentFrameIndex(value: int)
      modifies this
      ensures secuences == old(secuences)
      ensures State() == SetFrameIndex(old(State()), value)
    {
      if value < 0 {
        currentFrame := 0;
      } else if value >= current.frames {
        currentFrame := current.frames - 1;
      } else {
        currentFrame := value;
      }
    }

    /** `Update(gameTime)`, given `TotalGameTime` in milliseconds. */
    method Update(now: int)
      modifies this
      ensures secuences == old(secuences)
      ensures State() == AfterUpdate(old(State()), now)
    {
      if !isEnded && !isPaused && now - deltaTime >= current.delay {
        deltaTime := now;
        currentFrame := currentFrame + 1;
        if currentFrame == current.frames {
          if current.loop {
            currentFrame := 0;
          } else {
            currentFrame := currentFrame - 1;
            isEnded := true;
          }
        }
        drawFrame := drawFrame.(x := currentFrame * current.firstFrame.width + current.firstFrame.x);
      }
    }
  }
}
