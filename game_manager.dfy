/**
 * The current game manager (_Manager/GameManager.cs): the level's state machine, the
 * once-per-level "stroke completed" latch, two timed judges and the set of registered
 * bad eggs. The judges' waits are events: `StartJudgeFires` and `PostStrokeJudgeFires`
 * stand for the moment each coroutine's wait is over. The scene and the eggs' liveness
 * are inputs to the bad-egg test.
 */
module GameFlow {
  import opened Optional
  import opened GameStates

  /** An egg component, by identity. */
  type EggId = nat

  /** The registry after a scan: the eggs still present and active stay, the others go. */
  function Pruned(badEggs: set<EggId>, activeEgg: EggId -> bool): (kept: set<EggId>)
    ensures kept <= badEggs
    ensures forall e :: e in badEggs ==> (e in kept <==> activeEgg(e))
  {
    set e | e in badEggs && activeEgg(e)
  }

  /**
   * The bad-egg test: true when a registered bad egg is still active (checked only for
   * the bad-egg layer and a non-empty registry), else when an active object of the scene
   * is on the layer.
   */
  ghost predicate BadEggLeft(badEggs: set<EggId>, activeEgg: EggId -> bool, badEggLayer: int,
                             scene: seq<SceneObject>, layer: int)
  {
    || (layer == badEggLayer && exists e :: e in badEggs && activeEgg(e))
    || ActiveInLayer(scene, layer)
  }

  class GameManager {
    /** The layer id of the bad-egg layer name (negative when it does not exist). */
    const badEggLayer: int
    /** The poll interval; a poll is restarted at reset only when it is positive. */
    const pollInterval: real

    var state: GameState
    var timeScale: real
    var strokeFinished: bool
    var startJudgeDone: bool
    var postStrokeJudgeDone: bool
    var polling: Routine
    var startJudge: Routine
    var postStrokeJudge: Routine
    /** The draw controller: None when none is set, else whether it is enabled. */
    var drawController: Option<bool>
    var badEggs: set<EggId>

    /**
     * Time runs exactly in Gameplay; a post-stroke judge exists only after a stroke, and
     * drawing is off from then on; a judge marked done has ended.
     */
    ghost predicate Valid()
      reads this
    {
      && timeScale == TimeScale(state)
      && (postStrokeJudge != Idle ==> strokeFinished)
      && (strokeFinished && drawController != None ==> drawController == Some(false))
      && (startJudgeDone ==> startJudge == Ended)
      && (postStrokeJudgeDone ==> postStrokeJudge == Ended)
    }

    /** The manager as it wakes up: Gameplay, time running, no stroke, no judge, no egg. */
    constructor (badEggLayer: int, pollInterval: real, drawController: Option<bool>)
      ensures Valid()
      ensures this.badEggLayer == badEggLayer && this.pollInterval == pollInterval && this.drawController == drawController
      ensures state == Gameplay && !strokeFinished && !startJudgeDone && !postStrokeJudgeDone
      ensures polling == Idle && startJudge == Idle && postStrokeJudge == Idle && badEggs == {}
    {
      this.badEggLayer := badEggLayer;
      this.pollInterval := pollInterval;
      this.drawController := drawController;
      state := Gameplay;
      timeScale := 1.0;
      strokeFinished, startJudgeDone, postStrokeJudgeDone := false, false, false;
      polling, startJudge, postStrokeJudge := Idle, Idle, Idle;
      badEggs := {};
    }

    /**
     * The first frame after waking up: the poll and the start judge begin. The engine does
     * not order this against the level manager's first load, whose reset may already have
     * started both; the handles are then overwritten and the earlier runs go on unseen.
     */
    method Start()
      requires Valid() && !startJudgeDone
      modifies this`polling, this`startJudge
      ensures Valid()
      ensures polling == Running && startJudge == Running
    {
      polling := Running;
      startJudge := Running;
    }

    /** An egg wakes up: only a live bad egg is registered. */
    method RegisterEgg(egg: Option<EggId>, isBad: bool)
      modifies this`badEggs
      ensures badEggs == if egg != None && isBad then old(badEggs) + {egg.value} else old(badEggs)
    {
      if egg == None || !isBad {
        return;
      }
      badEggs := badEggs + {egg.value};
    }

    /** An egg broke: a bad one leaves the registry, a good one changes nothing. */
    method OnEggBroken(egg: Option<EggId>, isBad: bool)
      modifies this`badEggs
      ensures badEggs == if egg != None && isBad then old(badEggs) - {egg.value} else old(badEggs)
    {
      if egg == None {
        return;
      }
      if isBad {
        badEggs := badEggs - {egg.value};
      }
    }

    /**
     * The drawer reports a finished stroke. Only the first report of a level in Gameplay
     * counts: it latches the stroke, switches drawing off, cancels a start judge that has
     * not judged, and starts the post-stroke judge if there is none.
     */
    method NotifyStrokeCompleted()
      requires Valid()
      modifies this`strokeFinished, this`drawController, this`startJudge, this`postStrokeJudge
      ensures Valid()
      ensures old(state) != Gameplay || old(strokeFinished) ==> unchanged(this)
      ensures old(state) == Gameplay && !old(strokeFinished) ==>
                && strokeFinished
                && drawController == (if old(drawController) == None then None else Some(false))
                && startJudge == (if old(startJudge) != Idle && !startJudgeDone then Idle else old(startJudge))
                && postStrokeJudge == (if old(postStrokeJudge) == Idle then Running else old(postStrokeJudge))
    {
      if state != Gameplay || strokeFinished {
        return;
      }
      strokeFinished := true;
      if drawController != None {
        drawController := Some(false);
      }
      if startJudge != Idle && !startJudgeDone {
        startJudge := Idle;
      }
      if postStrokeJudge == Idle {
        postStrokeJudge := Running;
      }
    }

    /**
     * The start judge's wait is over. Outside Gameplay it ends without judging. Otherwise
     * it is marked done and, only if no stroke has finished and no bad egg is left, the
     * level is won; it never loses a level.
     */
    method StartJudgeFires(activeEgg: EggId -> bool, scene: seq<SceneObject>)
      requires Valid() && startJudge == Running
      modifies this`startJudge, this`startJudgeDone, this`badEggs, this`state, this`timeScale
      ensures Valid()
      ensures startJudge == Ended
      ensures old(state) != Gameplay ==> state == old(state) && startJudgeDone == old(startJudgeDone) && badEggs == old(badEggs)
      ensures old(state) == Gameplay ==>
                && startJudgeDone
                && badEggs == Pruned(old(badEggs), activeEgg)
                && state == (if !strokeFinished && !BadEggLeft(old(badEggs), activeEgg, badEggLayer, scene, badEggLayer)
                             then Victory else Gameplay)
      ensures state == Fail ==> old(state) == Fail
    {
      startJudge := Ended;
      if state != Gameplay {
        return;
      }
      startJudgeDone := true;
      var hasBadEgg := ExistsActiveInLayer(badEggLayer, activeEgg, scene);
      if !strokeFinished {
        if !hasBadEgg {
          SetVictory();
        }
      }
    }

    /**
     * The post-stroke judge's wait is over. Outside Gameplay it ends without judging.
     * Otherwise it is marked done and the level is lost exactly when a bad egg is left,
     * won otherwise.
     */
    method PostStrokeJudgeFires(activeEgg: EggId -> bool, scene: seq<SceneObject>)
      requires Valid() && postStrokeJudge == Running
      modifies this`postStrokeJudge, this`postStrokeJudgeDone, this`badEggs, this`state, this`timeScale
      ensures Valid()
      ensures postStrokeJudge == Ended
      ensures old(state) != Gameplay ==> state == old(state) && postStrokeJudgeDone == old(postStrokeJudgeDone) && badEggs == old(badEggs)
      ensures old(state) == Gameplay ==>
                && postStrokeJudgeDone
                && badEggs == Pruned(old(badEggs), activeEgg)
                && state == Verdict(Gameplay, BadEggLeft(old(badEggs), activeEgg, badEggLayer, scene, badEggLayer))
    {
      postStrokeJudge := Ended;
      if state != Gameplay {
        return;
      }
      postStrokeJudgeDone := true;
      var hasBadEgg := ExistsActiveInLayer(badEggLayer, activeEgg, scene);
      if hasBadEgg {
        SetFail();
      } else {
        SetVictory();
      }
    }

    /**
     * The bad-egg test. For the bad-egg layer with a non-empty registry it first walks the
     * registry, collecting the eggs gone or inactive, drops them, and answers true if an
     * active one was seen; otherwise it scans the scene.
     */
    method ExistsActiveInLayer(layer: int, activeEgg: EggId -> bool, scene: seq<SceneObject>) returns (r: bool)
      modifies this`badEggs
      ensures r <==> BadEggLeft(old(badEggs), activeEgg, badEggLayer, scene, layer)
      ensures badEggs == if layer == badEggLayer then Pruned(old(badEggs), activeEgg) else old(badEggs)
    {
      if layer == badEggLayer && |badEggs| > 0 {
        var has := false;
        var toRemove: set<EggId> := {};
        var rest := badEggs;
        while rest != {}
          invariant rest <= badEggs
          invariant toRemove == set e | e in badEggs - rest && !activeEgg(e)
          invariant has <==> exists e :: e in badEggs - rest && activeEgg(e)
          decreases |rest|
        {
          var egg :| egg in rest;
          if !activeEgg(egg) {
            toRemove := toRemove + {egg};
          } else {
            has := true;
          }
          rest := rest - {egg};
        }
        badEggs := badEggs - toRemove;
        if has {
          return true;
        }
      }
      r := FindActiveInLayer(scene, layer);
    }

    method SetVictory()
      requires Valid()
      modifies this`state, this`timeScale
      ensures Valid()
      ensures state == Won(old(state))
    {
      if state != Gameplay {
        return;
      }
      state := Victory;
      timeScale := 0.0;
    }

    method SetFail()
      requires Valid()
      modifies this`state, this`timeScale
      ensures Valid()
      ensures state == Lost(old(state))
    {
      if state != Gameplay {
        return;
      }
      state := Fail;
      timeScale := 0.0;
    }

    method Pause()
      requires Valid()
      modifies this`state, this`timeScale
      ensures Valid()
      ensures state == Paused(old(state))
    {
      if state != Gameplay {
        return;
      }
      state := GameState.Pause;
      timeScale := 0.0;
    }

    method Resume()
      requires Valid()
      modifies this`state, this`timeScale
      ensures Valid()
      ensures state == Resumed(old(state))
    {
      if state != GameState.Pause {
        return;
      }
      state := Gameplay;
      timeScale := 1.0;
    }

    /**
     * A new level is loaded: the coroutines are stopped (a stopped poll keeps its handle), the state returns to
     * Gameplay with time running, the latches are cleared, the registry is emptied,
     * drawing is switched back on, and the poll (when its interval is positive) and the
     * start judge start again.
     */
    method ResetForNewLevel()
      modifies this`polling, this`startJudge, this`postStrokeJudge, this`timeScale, this`state
      modifies this`strokeFinished, this`startJudgeDone, this`postStrokeJudgeDone, this`badEggs, this`drawController
      ensures Valid()
      ensures state == Gameplay && !strokeFinished && !startJudgeDone && !postStrokeJudgeDone && badEggs == {}
      ensures drawController == (if old(drawController) == None then None else Some(true))
      ensures polling == (if pollInterval > 0.0 then Running else if old(polling) == Idle then Idle else Ended)
      ensures startJudge == Running && postStrokeJudge == Idle
    {
      // every coroutine is stopped; only the poll's handle can outlive the reset
      if polling != Idle {
        polling := Ended;
      }
      timeScale, state := 1.0, Gameplay;
      strokeFinished, startJudgeDone, postStrokeJudgeDone := false, false, false;
      badEggs := {};
      if drawController != None {
        drawController := Some(true);
      }
      if pollInterval > 0.0 {
        polling := Running;
      }
      startJudge, postStrokeJudge := Running, Idle;
    }
  }
}
