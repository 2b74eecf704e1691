/**
 * The index arithmetic both level managers share (LevelManager.cs in either copy): the
 * level list, clamping, the start index, the next and previous targets with optional
 * wrap-around, and the lookup of a level by id.
 */
module LevelIndex {
  import opened Optional

  /** A level of the list: its id and whether a prefab is set. */
  datatype LevelEntry = LevelEntry(id: string, hasPrefab: bool)

  /** Unity's integer Mathf.Clamp: below `lo` gives `lo`, else above `hi` gives `hi`, else the value. */
  function Clamp(v: int, lo: int, hi: int): (r: int)
    ensures lo <= hi ==> lo <= r <= hi
    ensures lo <= v <= hi ==> r == v
    ensures v < lo ==> r == lo
    ensures lo <= v && hi < v ==> r == hi
  {
    if v < lo then lo else if v > hi then hi else v
  }

  /** Unity's Mathf.Max on two integers. */
  function Max(a: int, b: int): (m: int)
    ensures m >= a && m >= b && (m == a || m == b)
  {
    if a >= b then a else b
  }

  /**
   * The index the game starts at: the saved one when progress is saved and a save
   * exists, else the default, clamped into the list (to 0 for an empty list).
   */
  function StartIndex(saved: Option<int>, saveProgress: bool, defaultStartIndex: int, count: nat): (r: int)
    ensures count > 0 ==> 0 <= r < count
    ensures count == 0 ==> r == 0
    ensures saveProgress && saved != None && 0 <= saved.value < count ==> r == saved.value
    ensures (!saveProgress || saved == None) && 0 <= defaultStartIndex < count ==> r == defaultStartIndex
  {
    var start := if saveProgress && saved != None then saved.value else defaultStartIndex;
    Clamp(start, 0, Max(0, count - 1))
  }

  /** The index a load of `index` settles on: clamped into a non-empty list. */
  function LoadTarget(index: int, count: nat): (r: int)
    requires count > 0
    ensures 0 <= r < count
    ensures 0 <= index < count ==> r == index
  {
    Clamp(index, 0, count - 1)
  }

  /** A current index is one of the list's, or -1 before any level is loaded. */
  predicate InRange(cur: int, count: nat)
  {
    cur == -1 || 0 <= cur < count
  }

  /** The target of "next level": the following index, past the end either the first (wrapping) or the last. */
  function NextTarget(cur: int, count: nat, loopAtEnd: bool): (r: int)
    requires count > 0 && InRange(cur, count)
    ensures 0 <= r < count
    ensures cur + 1 < count ==> r == cur + 1
    ensures cur + 1 >= count ==> r == if loopAtEnd then 0 else count - 1
  {
    var next := cur + 1;
    if next >= count then (if loopAtEnd then 0 else count - 1) else next
  }

  /** The target of "previous level": the preceding index, below 0 either the last (wrapping) or the first. */
  function PrevTarget(cur: int, count: nat, loopAtEnd: bool): (r: int)
    requires count > 0 && InRange(cur, count)
    ensures 0 <= r < count
    ensures cur - 1 >= 0 ==> r == cur - 1
    ensures cur - 1 < 0 ==> r == if loopAtEnd then count - 1 else 0
  {
    var prev := cur - 1;
    if prev < 0 then (if loopAtEnd then count - 1 else 0) else prev
  }

  /**
   * With wrap-around, previous undoes next and next undoes previous on every level, so
   * the levels form a cycle. Without it, they undo each other away from the ends, and
   * the last and the first level are fixed points of next and previous.
   */
  lemma NextPrevInverse(cur: int, count: nat, loopAtEnd: bool)
    requires count > 0 && 0 <= cur < count
    ensures loopAtEnd ==> PrevTarget(NextTarget(cur, count, true), count, true) == cur
    ensures loopAtEnd ==> NextTarget(PrevTarget(cur, count, true), count, true) == cur
    ensures cur + 1 < count ==> PrevTarget(NextTarget(cur, count, loopAtEnd), count, loopAtEnd) == cur
    ensures cur > 0 ==> NextTarget(PrevTarget(cur, count, loopAtEnd), count, loopAtEnd) == cur
    ensures !loopAtEnd ==> NextTarget(count - 1, count, false) == count - 1 && PrevTarget(0, count, false) == 0
  {
  }

  /** The position of the first level with the id, -1 when there is none (the list's FindIndex). */
  function FirstIndexWithId(levels: seq<LevelEntry>, id: string): (r: int)
    ensures -1 <= r < |levels|
    ensures r == -1 <==> forall k :: 0 <= k < |levels| ==> levels[k].id != id
    ensures r >= 0 ==> levels[r].id == id && forall k :: 0 <= k < r ==> levels[k].id != id
  {
    if levels == [] then -1
    else if levels[0].id == id then 0
    else
      var r := FirstIndexWithId(levels[1..], id);
      assert forall k :: 1 <= k < |levels| ==> levels[1..][k - 1] == levels[k];
      if r == -1 then -1 else r + 1
  }
}
