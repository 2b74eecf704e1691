/**
 * The older level manager (Manager/LevelManager.cs): the same choice of level as the
 * current one, with a load that neither cleans the runtime first nor resets the game
 * manager after. The saved index (the player preferences) is a field; a level object is
 * named by the index of the entry it was made from.
 */
module LegacyLevels {
  import opened Optional
  import opened LevelIndex

  class LevelManager {
    const levels: seq<LevelEntry>
    const saveProgress: bool
    const loopAtEnd: bool
    const defaultStartIndex: int

    var currentIndex: int
    /** The live level object, by the index of the entry it was made from. */
    var currentLevel: Option<int>
    /** The saved index in the player preferences, None when nothing is saved. */
    var saved: Option<int>
    /** Indices reported to the unload listeners, in order. */
    var unloaded: seq<int>
    /** Indices reported to the load listeners, in order. */
    var loaded: seq<int>

    /** The current index is a level of the list or -1; a live level object is the current index's, made from a prefab. */
    ghost predicate Valid()
      reads this
    {
      && InRange(currentIndex, |levels|)
      && (currentLevel != None ==> currentLevel.value == currentIndex && 0 <= currentIndex < |levels| && levels[currentIndex].hasPrefab)
    }

    constructor (levels: seq<LevelEntry>, saveProgress: bool, loopAtEnd: bool, defaultStartIndex: int, saved: Option<int>)
      ensures Valid()
      ensures this.levels == levels && this.saveProgress == saveProgress && this.loopAtEnd == loopAtEnd
      ensures this.defaultStartIndex == defaultStartIndex && this.saved == saved
      ensures currentIndex == -1 && currentLevel == None && unloaded == [] && loaded == []
    {
      this.levels := levels;
      this.saveProgress := saveProgress;
      this.loopAtEnd := loopAtEnd;
      this.defaultStartIndex := defaultStartIndex;
      this.saved := saved;
      currentIndex := -1;
      currentLevel := None;
      unloaded, loaded := [], [];
    }

    /** What a load of `index` leaves behind, against the state before it: the outcome `LoadLevel` describes. */
    twostate predicate Loaded(index: int)
      reads this
    {
      if |levels| == 0 then unchanged(this) else
      var i := LoadTarget(index, |levels|);
      && unloaded == old(unloaded) + (if old(currentLevel) != None then [old(currentIndex)] else [])
      && (!levels[i].hasPrefab ==>
            && currentLevel == None && currentIndex == old(currentIndex)
            && saved == old(saved) && loaded == old(loaded))
      && (levels[i].hasPrefab ==>
            && currentLevel == Some(i) && currentIndex == i
            && saved == (if saveProgress then Some(i) else old(saved))
            && loaded == old(loaded) + [i])
    }

    /**
     * The load of a level. An empty list changes nothing. Otherwise the index is clamped
     * into the list and the live level (if any) is reported and destroyed; an entry
     * without prefab stops there, leaving no level and the old current index. Else the
     * level object is made, becomes current, is saved when progress is saved, and is
     * reported.
     */
    method LoadLevel(index: int)
      requires Valid()
      modifies this`currentIndex, this`currentLevel, this`saved, this`unloaded, this`loaded
      ensures Valid()
      ensures Loaded(index)
    {
      if |levels| == 0 {
        return;
      }
      var i := Clamp(index, 0, |levels| - 1);

      if currentLevel != None {
        unloaded := unloaded + [currentIndex];
        currentLevel := None;
      }

      var entry := levels[i];
      if !entry.hasPrefab {
        return;
      }

      currentLevel := Some(i);
      currentIndex := i;

      if saveProgress {
        saved := Some(currentIndex);
      }

      loaded := loaded + [currentIndex];
    }

    /** The first frame: load the saved level when progress is saved and a save exists, else the default, clamped into the list. */
    method Start()
      requires Valid()
      modifies this`currentIndex, this`currentLevel, this`saved, this`unloaded, this`loaded
      ensures Valid()
      ensures Loaded(StartIndex(old(saved), saveProgress, defaultStartIndex, |levels|))
    {
      var start := if saveProgress && saved != None then saved.value else defaultStartIndex;
      start := Clamp(start, 0, Max(0, |levels| - 1));
      LoadLevel(start);
    }

    /** Load the current level again; nothing happens before a level has been loaded. */
    method Replay()
      requires Valid()
      modifies this`currentIndex, this`currentLevel, this`saved, this`unloaded, this`loaded
      ensures Valid()
      ensures old(currentIndex) < 0 ==> unchanged(this)
      ensures old(currentIndex) >= 0 ==> Loaded(old(currentIndex))
    {
      if currentIndex < 0 {
        return;
      }
      LoadLevel(currentIndex);
    }

    /** Load the next level, wrapping to the first or staying on the last past the end; nothing on an empty list. */
    method NextLevel()
      requires Valid()
      modifies this`currentIndex, this`currentLevel, this`saved, this`unloaded, this`loaded
      ensures Valid()
      ensures |levels| == 0 ==> unchanged(this)
      ensures |levels| > 0 ==> Loaded(NextTarget(old(currentIndex), |levels|, loopAtEnd))
    {
      if |levels| == 0 {
        return;
      }
      var next := currentIndex + 1;
      if next >= |levels| {
        if loopAtEnd {
          next := 0;
        } else {
          next := |levels| - 1;
        }
      }
      LoadLevel(next);
    }

    /** Load the previous level, wrapping to the last or staying on the first below 0; nothing on an empty list. */
    method PrevLevel()
      requires Valid()
      modifies this`currentIndex, this`currentLevel, this`saved, this`unloaded, this`loaded
      ensures Valid()
      ensures |levels| == 0 ==> unchanged(this)
      ensures |levels| > 0 ==> Loaded(PrevTarget(old(currentIndex), |levels|, loopAtEnd))
    {
      if |levels| == 0 {
        return;
      }
      var prev := currentIndex - 1;
      if prev < 0 {
        if loopAtEnd {
          prev := |levels| - 1;
        } else {
          prev := 0;
        }
      }
      LoadLevel(prev);
    }

    /** Load the first level with the id; an unknown id changes nothing. */
    method LoadLevelById(id: string)
      requires Valid()
      modifies this`currentIndex, this`currentLevel, this`saved, this`unloaded, this`loaded
      ensures Valid()
      ensures FirstIndexWithId(levels, id) == -1 ==> unchanged(this)
      ensures FirstIndexWithId(levels, id) >= 0 ==>
                levels[FirstIndexWithId(levels, id)].id == id && Loaded(FirstIndexWithId(levels, id))
    {
      var i := FirstIndexWithId(levels, id);
      if i >= 0 {
        LoadLevel(i);
      }
    }
  }
}
