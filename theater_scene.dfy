/**
 * The scene's behaviour: starting a run, and the per-frame callback that
 * advances every character's animation and, once the action interval has
 * elapsed, runs a resolution pass (src/components/TheaterScene.tsx).
 */
module Scene {
  import opened Theater
  import opened CharacterUtils

  /** Animation progress added by one display frame (about 60 frames a second). */
  const ProgressStep: real := 0.016

  // ---------------------------------------------------------------------------
  // Per-frame progress
  // ---------------------------------------------------------------------------

  /** One frame of animation for one character: progress + step, capped at 1. */
  function Advance(c: Character): (r: Character)
    ensures c.animationProgress <= r.animationProgress <= c.animationProgress + ProgressStep
    ensures r.animationProgress == 1.0 || r.animationProgress == c.animationProgress + ProgressStep
    ensures r == c.(animationProgress := r.animationProgress)
  {
    var p := c.animationProgress + ProgressStep;
    c.(animationProgress := if p < 1.0 then p else 1.0)
  }

  /** Changes between `c` and `d` are confined to the animation progress. */
  predicate OnlyProgressChanged(c: Character, d: Character)
  {
    d == c.(animationProgress := d.animationProgress)
  }

  /** The progress update applied to the whole line at every frame. */
  function AdvanceProgress(cs: seq<Character>): (r: seq<Character>)
    ensures |r| == |cs|
    ensures forall i :: 0 <= i < |cs| ==>
      && OnlyProgressChanged(cs[i], r[i])
      && cs[i].animationProgress <= r[i].animationProgress
      && (r[i].animationProgress == 1.0 || r[i].animationProgress == cs[i].animationProgress + ProgressStep)
      && r[i].animationProgress <= cs[i].animationProgress + ProgressStep
  {
    seq(|cs|, i requires 0 <= i < |cs| => Advance(cs[i]))
  }

  /** `n` frames of animation for one character. */
  function AdvanceFrames(c: Character, n: nat): Character
  {
    if n == 0 then c else Advance(AdvanceFrames(c, n - 1))
  }

  /** After `n` frames the progress is min(1, p + n * step). */
  lemma {:induction false} AdvanceFramesProgress(c: Character, n: nat)
    ensures AdvanceFrames(c, n).animationProgress ==
      if c.animationProgress + n as real * ProgressStep < 1.0
      then c.animationProgress + n as real * ProgressStep else 1.0
    ensures OnlyProgressChanged(c, AdvanceFrames(c, n))
  {
    if n > 0 {
      AdvanceFramesProgress(c, n - 1);
    }
  }

  /** A character reset to 0 by a pass is settled again after exactly 63 frames. */
  lemma SettledAgainAfter63Frames(c: Character)
    requires c.animationProgress == 0.0
    ensures AdvanceFrames(c, 62).animationProgress < 1.0
    ensures AdvanceFrames(c, 63).animationProgress == 1.0
  {
    AdvanceFramesProgress(c, 62);
    AdvanceFramesProgress(c, 63);
  }

  // ---------------------------------------------------------------------------
  // Resolution pass
  // ---------------------------------------------------------------------------

  /** Id, type, cell, orientations and colour agree. */
  predicate SameLayout(c: Character, d: Character)
  {
    && c.id == d.id && c.kind == d.kind && c.position == d.position
    && c.bodyOrientation == d.bodyOrientation && c.headOrientation == d.headOrientation
    && c.color == d.color
  }

  /** A settled character is given the (only) action: idle, progress back to 0. */
  function Resolve(c: Character): (r: Character)
    ensures SameLayout(c, r)
    ensures c.animationProgress >= 1.0 ==> r.animationState == AnimationState.Idle && r.animationProgress == 0.0
    ensures c.animationProgress < 1.0 ==> r == c
  {
    if c.animationProgress >= 1.0 then c.(animationState := AnimationState.Idle, animationProgress := 0.0)
    else c
  }

  /** What a resolution pass makes of the line. */
  function ResolutionPass(cs: seq<Character>): (r: seq<Character>)
    ensures |r| == |cs|
    ensures forall i :: 0 <= i < |cs| ==> SameLayout(cs[i], r[i])
    ensures forall i :: 0 <= i < |cs| && cs[i].animationProgress >= 1.0 ==>
      r[i].animationState == AnimationState.Idle && r[i].animationProgress == 0.0
    ensures forall i :: 0 <= i < |cs| && cs[i].animationProgress < 1.0 ==> r[i] == cs[i]
    ensures forall i :: 0 <= i < |cs| ==> r[i].animationProgress < 1.0
  {
    seq(|cs|, i requires 0 <= i < |cs| => Resolve(cs[i]))
  }

  /** The pass as written: copy the line, then overwrite each settled entry in place. */
  method ResolvePass(prevCharacters: seq<Character>) returns (result: seq<Character>)
    ensures result == ResolutionPass(prevCharacters)
  {
    var updatedCharacters := new Character[|prevCharacters|](i requires 0 <= i < |prevCharacters| => prevCharacters[i]);
    var index := 0;
    while index < updatedCharacters.Length
      invariant 0 <= index <= updatedCharacters.Length == |prevCharacters|
      invariant forall k :: 0 <= k < index ==> updatedCharacters[k] == Resolve(prevCharacters[k])
      invariant forall k :: index <= k < updatedCharacters.Length ==> updatedCharacters[k] == prevCharacters[k]
    {
      var character := updatedCharacters[index];
      if character.animationProgress >= 1.0 {
        updatedCharacters[index] := character.(animationState := AnimationState.Idle, animationProgress := 0.0);
      }
      index := index + 1;
    }
    result := updatedCharacters[..];
  }

  /** Agreeing layouts carry being well placed from one line to the other. */
  lemma SameLayoutKeepsWellPlaced(cs: seq<Character>, ds: seq<Character>, lineLength: int)
    requires |cs| == |ds|
    requires forall i :: 0 <= i < |cs| ==> SameLayout(cs[i], ds[i])
    requires WellPlaced(cs, lineLength)
    ensures WellPlaced(ds, lineLength)
  {
  }

  /** A frame (advance, then maybe a pass) keeps every cell, id and orientation. */
  lemma FrameKeepsLayout(cs: seq<Character>, due: bool, lineLength: int)
    requires WellPlaced(cs, lineLength)
    ensures var next := if due then ResolutionPass(AdvanceProgress(cs)) else AdvanceProgress(cs);
      && |next| == |cs|
      && (forall i :: 0 <= i < |cs| ==> SameLayout(cs[i], next[i]))
      && WellPlaced(next, lineLength)
  {
  }

  /** Whether the action interval has elapsed since the last pass. */
  predicate ActionDue(lastActionTime: int, now: int, actionInterval: real)
  {
    (now - lastActionTime) as real >= actionInterval
  }

  // ---------------------------------------------------------------------------
  // The scene
  // ---------------------------------------------------------------------------

  /** What the configuration form hands over: at least 5 cells, at least 100 ms. */
  predicate ValidConfig(config: SimulationConfig)
  {
    config.lineLength >= 5 && config.actionInterval >= 100.0
  }

  class TheaterScene {
    const config: SimulationConfig
    /** The character state; empty until a run starts. */
    var characters: seq<Character>
    /** The time, in milliseconds, of the start or of the last resolution pass. */
    var lastActionTime: int

    /** Either no run has started, or three characters stand well placed on the line. */
    ghost predicate Valid()
      reads this
    {
      && ValidConfig(config)
      && (characters == [] || (|characters| == 3 && WellPlaced(characters, config.lineLength)))
    }

    constructor (config: SimulationConfig)
      requires ValidConfig(config)
      ensures Valid()
      ensures this.config == config && characters == [] && lastActionTime == 0
    {
      this.config := config;
      characters := [];
      lastActionTime := 0;
    }

    /** The effect run when the simulation state or the line length changes. */
    method StartEffect(simulationState: SimulationState, now: int, random: seq<real>)
      requires Valid()
      requires RandomDraws(random)
      modifies this
      ensures Valid()
      ensures simulationState == Running ==>
        characters == InitialCharacters(config.lineLength, random) && lastActionTime == now
      ensures simulationState != Running ==>
        characters == old(characters) && lastActionTime == old(lastActionTime)
    {
      if simulationState == Running {
        var initialCharacters := InitializeCharacters(config.lineLength, random);
        InitialCharactersWellPlaced(config.lineLength, random);
        characters := initialCharacters;
        lastActionTime := now;
      }
    }

    /** One display frame, with the clock reading `now`. */
    method Frame(simulationState: SimulationState, now: int)
      requires Valid()
      modifies this
      ensures Valid()
      ensures simulationState != Running || old(characters) == [] ==>
        characters == old(characters) && lastActionTime == old(lastActionTime)
      ensures simulationState == Running && old(characters) != [] ==>
        var advanced := AdvanceProgress(old(characters));
        var due := ActionDue(old(lastActionTime), now, config.actionInterval);
        && characters == (if due then ResolutionPass(advanced) else advanced)
        && lastActionTime == (if due then now else old(lastActionTime))
      ensures |characters| == |old(characters)|
      ensures forall i :: 0 <= i < |characters| ==> SameLayout(old(characters)[i], characters[i])
    {
      if simulationState != Running || |characters| == 0 {
        return;
      }
      var due := ActionDue(lastActionTime, now, config.actionInterval);
      FrameKeepsLayout(characters, due, config.lineLength);
      characters := AdvanceProgress(characters);
      if (now - lastActionTime) as real >= config.actionInterval {
        characters := ResolvePass(characters);
        lastActionTime := now;
      }
    }
  }
}
