/**
 * The game states both game managers share (GameState in either GameManager.cs), their
 * guarded transitions as functions, the coroutine handles the managers keep, and the
 * scan of the scene for an active object on a layer.
 */
module GameStates {

  datatype GameState = Gameplay | Victory | Fail | Pause

  /** A level is decided once it reaches Victory or Fail. */
  predicate Settled(s: GameState)
  {
    s == Victory || s == Fail
  }

  /**
   * A coroutine handle as the managers keep it: none (null), started and still waiting,
   * or finished (the handle is not cleared when its coroutine ends).
   */
  datatype Routine = Idle | Running | Ended

  /** Pause acts only from Gameplay. */
  function Paused(s: GameState): (r: GameState)
    ensures r == Pause <==> s == Gameplay || s == Pause
    ensures s != Gameplay ==> r == s
  {
    if s == Gameplay then Pause else s
  }

  /** Resume acts only from Pause. */
  function Resumed(s: GameState): (r: GameState)
    ensures r == Gameplay <==> s == Pause || s == Gameplay
    ensures s != Pause ==> r == s
  {
    if s == Pause then Gameplay else s
  }

  /** SetVictory acts only from Gameplay. */
  function Won(s: GameState): (r: GameState)
    ensures r == Victory <==> s == Gameplay || s == Victory
    ensures s != Gameplay ==> r == s
  {
    if s == Gameplay then Victory else s
  }

  /** SetFail acts only from Gameplay. */
  function Lost(s: GameState): (r: GameState)
    ensures r == Fail <==> s == Gameplay || s == Fail
    ensures s != Gameplay ==> r == s
  {
    if s == Gameplay then Fail else s
  }

  /** The verdict of a judge that fires in Gameplay: Fail exactly when a bad egg is left, Victory otherwise; outside Gameplay it does nothing. */
  function Verdict(s: GameState, hasBadEgg: bool): (r: GameState)
    ensures s == Gameplay ==> Settled(r) && (r == Fail <==> hasBadEgg)
    ensures s != Gameplay ==> r == s
  {
    if s != Gameplay then s else if hasBadEgg then Lost(s) else Won(s)
  }

  /** The engine's time scale in each state: running in Gameplay, frozen otherwise. */
  function TimeScale(s: GameState): real
  {
    if s == Gameplay then 1.0 else 0.0
  }

  /** Pause and Resume undo each other. */
  lemma PauseResumeInverse(s: GameState)
    ensures s == Gameplay ==> Resumed(Paused(s)) == s
    ensures s == Pause ==> Paused(Resumed(s)) == s
  {
  }

  /** What can happen to a level's state between two resets. */
  datatype Event = PauseEvent | ResumeEvent | WinEvent | LoseEvent | JudgeEvent(hasBadEgg: bool)

  function Step(s: GameState, e: Event): GameState
  {
    match e
    case PauseEvent => Paused(s)
    case ResumeEvent => Resumed(s)
    case WinEvent => Won(s)
    case LoseEvent => Lost(s)
    case JudgeEvent(hasBadEgg) => Verdict(s, hasBadEgg)
  }

  function Run(s: GameState, es: seq<Event>): GameState
    decreases |es|
  {
    if es == [] then s else Run(Step(s, es[0]), es[1..])
  }

  /** Victory and Fail are final: no sequence of events leaves them. */
  lemma {:induction false} SettledIsFinal(s: GameState, es: seq<Event>)
    requires Settled(s)
    ensures Run(s, es) == s
    decreases |es|
  {
    if es != [] {
      assert Step(s, es[0]) == s;
      SettledIsFinal(s, es[1..]);
    }
  }

  /** A level is decided only by passing through Gameplay: a run that ends settled either started settled or went through a win, a loss or a verdict in Gameplay. */
  lemma {:induction false} SettlingNeedsGameplay(s: GameState, es: seq<Event>)
    requires !Settled(s) && Settled(Run(s, es))
    ensures exists k :: 0 <= k < |es| && Run(s, es[..k]) == Gameplay && Settled(Step(Run(s, es[..k]), es[k]))
    decreases |es|
  {
    var t := Step(s, es[0]);
    assert es[..0] == [];
    if Settled(t) {
      assert s == Gameplay;
    } else {
      SettlingNeedsGameplay(t, es[1..]);
      var k :| 0 <= k < |es[1..]| && Run(t, es[1..][..k]) == Gameplay && Settled(Step(Run(t, es[1..][..k]), es[1..][k]));
      assert es[..k + 1][1..] == es[1..][..k];
      assert Run(s, es[..k + 1]) == Run(t, es[1..][..k]);
    }
  }

  // ---------------------------------------------------------------- the scene

  /** A game object as the scene scan sees it. */
  datatype SceneObject = SceneObject(active: bool, layer: int)

  /** Some object of the scene is active and on the layer. */
  ghost predicate ActiveInLayer(scene: seq<SceneObject>, layer: int)
  {
    exists i :: 0 <= i < |scene| && scene[i].active && scene[i].layer == layer
  }

  /** The scan of every object of the scene, skipping inactive ones, for one on the layer. */
  method FindActiveInLayer(scene: seq<SceneObject>, layer: int) returns (r: bool)
    ensures r <==> ActiveInLayer(scene, layer)
  {
    for i := 0 to |scene|
      invariant forall k :: 0 <= k < i ==> !(scene[k].active && scene[k].layer == layer)
    {
      if !scene[i].active {
        continue;
      }
      if scene[i].layer == layer {
        return true;
      }
    }
    return false;
  }
}
