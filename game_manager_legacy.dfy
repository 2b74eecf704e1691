/**
 * The older game manager (Manager/GameManager.cs): the same states, a once-per-level
 * "stroke completed" latch and a single countdown after the stroke that judges by a
 * scan of the scene. The countdown is a loop resumed once per frame (`CountdownFrame`,
 * with the frame's real-time step as input): it stops when the delay is over or at the
 * first frame the state has left Gameplay, and judges only in the first case.
 */
module LegacyGameFlow {
  import opened Optional
  import opened GameStates

  class GameManager {
    /** The layer id of the bad-egg layer name (negative when it does not exist). */
    const badEggLayer: int
    /** The delay after the stroke before the level is judged. */
    const checkDelay: real

    var state: GameState
    var timeScale: real
    var strokeFinished: bool
    var checkingRoutineStarted: bool
    var check: Routine
    /** The real time the countdown has counted so far. */
    var timer: real
    /** The draw controller: None when none is set, else whether it is enabled. */
    var drawController: Option<bool>

    /** Time runs exactly in Gameplay; the countdown is started once, only after the stroke, and drawing is off from then on. */
    ghost predicate Valid()
      reads this
    {
      && timeScale == TimeScale(state)
      && (check != Idle <==> checkingRoutineStarted)
      && (checkingRoutineStarted ==> strokeFinished)
      && (strokeFinished && drawController != None ==> drawController == Some(false))
    }

    /** The manager as it wakes up: Gameplay, time running, no stroke, no countdown. */
    constructor (badEggLayer: int, checkDelay: real, drawController: Option<bool>)
      ensures Valid()
      ensures this.badEggLayer == badEggLayer && this.checkDelay == checkDelay && this.drawController == drawController
      ensures state == Gameplay && !strokeFinished && !checkingRoutineStarted && check == Idle
    {
      this.badEggLayer := badEggLayer;
      this.checkDelay := checkDelay;
      this.drawController := drawController;
      state := Gameplay;
      timeScale := 1.0;
      strokeFinished, checkingRoutineStarted, check := false, false, Idle;
      timer := 0.0;
    }

    /**
     * The drawer reports a finished stroke. Only the first report of a level in Gameplay
     * counts: it latches the stroke, switches drawing off and starts the countdown, which
     * marks itself started and runs its first pass at once (`dt` and `scene` are what that
     * pass sees). With a positive delay the countdown is then waiting for the next frame;
     * with none it judges the level straight away.
     */
    method NotifyStrokeCompleted(dt: real, scene: seq<SceneObject>)
      requires Valid()
      modifies this`strokeFinished, this`drawController, this`checkingRoutineStarted, this`check
      modifies this`timer, this`state, this`timeScale
      ensures Valid()
      ensures old(state) != Gameplay || old(strokeFinished) ==> unchanged(this)
      ensures old(state) == Gameplay && !old(strokeFinished) ==>
                && strokeFinished && checkingRoutineStarted
                && drawController == (if old(drawController) == None then None else Some(false))
                && (checkDelay > 0.0 ==> check == Running && timer == dt && state == Gameplay)
                && (checkDelay <= 0.0 ==> check == Ended && timer == 0.0
                                          && state == Verdict(Gameplay, ActiveInLayer(scene, badEggLayer)))
    {
      if state != Gameplay || strokeFinished {
        return;
      }
      strokeFinished := true;
      if drawController != None {
        drawController := Some(false);
      }
      if !checkingRoutineStarted {
        checkingRoutineStarted := true;
        check := Running;
        timer := 0.0;
        CountdownFrame(dt, scene);
      }
    }

    /**
     * One pass of the countdown. While the delay is not over and the state is Gameplay it
     * counts the frame's step and waits for the next frame. Otherwise it ends: outside
     * Gameplay (a pause included) without judging, else the level is lost exactly when an
     * active object is on the bad-egg layer, won otherwise.
     */
    method CountdownFrame(dt: real, scene: seq<SceneObject>)
      requires Valid() && check == Running
      modifies this`check, this`timer, this`state, this`timeScale
      ensures Valid()
      ensures old(timer) < checkDelay && old(state) == Gameplay ==>
                check == Running && timer == old(timer) + dt && state == old(state)
      ensures !(old(timer) < checkDelay && old(state) == Gameplay) ==>
                && check == Ended && timer == old(timer)
                && state == Verdict(old(state), ActiveInLayer(scene, badEggLayer))
    {
      if timer < checkDelay && state == Gameplay {
        timer := timer + dt;
        return;
      }
      check := Ended;
      if state != Gameplay {
        return;
      }
      var stillHasBadEgg := FindActiveInLayer(scene, badEggLayer);
      if stillHasBadEgg {
        SetFail();
      } else {
        SetVictory();
      }
    }

    method SetVictory()
      requires Valid()
      modifies this`state, this`timeScale
      ensures Valid()
      ensures state == Won(old(state))
    {
      if state != Gameplay {
        return;
      }
      state := Victory;
      timeScale := 0.0;
    }

    method SetFail()
      requires Valid()
      modifies this`state, this`timeScale
      ensures Valid()
      ensures state == Lost(old(state))
    {
      if state != Gameplay {
        return;
      }
      state := Fail;
      timeScale := 0.0;
    }

    method Pause()
      requires Valid()
      modifies this`state, this`timeScale
      ensures Valid()
      ensures state == Paused(old(state))
    {
      if state != Gameplay {
        return;
      }
      state := GameState.Pause;
      timeScale := 0.0;
    }

    method Resume()
      requires Valid()
      modifies this`state, this`timeScale
      ensures Valid()
      ensures state == Resumed(old(state))
    {
      if state != GameState.Pause {
        return;
      }
      state := Gameplay;
      timeScale := 1.0;
    }
  }
}
