/**
 * The object pool (Pool.cs): a queue of idle objects per key and the list of objects
 * handed out. Game objects are numbered; the part of the scene the pool touches (which
 * objects are alive, which are active, the pool tag each carries and the next number
 * the engine gives a new object) is one value, `Scene`. A destroyed object is the
 * engine's null: every place the source tests an object for null tests liveness here.
 */
module Pooling {
  import opened Optional
  import opened Lists

  type ObjId = nat
  type PoolId = nat

  /** The pool mark an object carries: the key of its queue and the pool that owns it. */
  datatype Tag = Tag(key: string, owner: PoolId)

  /** A configured entry: its key, whether a prefab is set, and how many copies to make up front. */
  datatype PoolItem = PoolItem(key: string, hasPrefab: bool, preload: int)

  /** The objects of the scene as the pool sees them. */
  datatype Scene = Scene(live: set<ObjId>, enabled: set<ObjId>, tags: map<ObjId, Tag>, nextId: ObjId)

  /** Every object that exists or carries a tag was made before `nextId`. */
  ghost predicate Numbered(sc: Scene)
  {
    && (forall o :: o in sc.live ==> o < sc.nextId)
    && (forall o :: o in sc.tags ==> o < sc.nextId)
  }

  /** The object carries a tag of pool `id`. */
  predicate Owned(sc: Scene, id: PoolId, o: ObjId)
  {
    o in sc.tags && sc.tags[o].owner == id
  }

  /** The first configured entry with the key, as the list's Find returns it. */
  function FindItem(items: seq<PoolItem>, key: string): (r: Option<PoolItem>)
    ensures r == None <==> forall i :: 0 <= i < |items| ==> items[i].key != key
    ensures r != None ==> exists i :: 0 <= i < |items| && items[i] == r.value && r.value.key == key
                                      && forall j :: 0 <= j < i ==> items[j].key != key
  {
    if items == [] then None
    else if items[0].key == key then Some(items[0])
    else
      var r := FindItem(items[1..], key);
      assert forall i :: 1 <= i < |items| ==> items[1..][i - 1] == items[i];
      r
  }

  /** Some entry with the key has a prefab. */
  ghost predicate HasPrefab(items: seq<PoolItem>, key: string)
  {
    exists i :: 0 <= i < |items| && items[i].key == key && items[i].hasPrefab
  }

  /** How many copies the preload leaves queued under the key: the count of the last entry with the key and a prefab (a later entry replaces the queue of an earlier one), never negative. */
  function PreloadOf(items: seq<PoolItem>, key: string): (n: nat)
    ensures !HasPrefab(items, key) ==> n == 0
  {
    if items == [] then 0
    else
      var last := items[|items| - 1];
      if last.key == key && last.hasPrefab then (if last.preload > 0 then last.preload else 0)
      else
        var n := PreloadOf(items[..|items| - 1], key);
        assert HasPrefab(items[..|items| - 1], key) ==> HasPrefab(items, key) by {
          if HasPrefab(items[..|items| - 1], key) {
            var i :| 0 <= i < |items| - 1 && items[..|items| - 1][i].key == key && items[..|items| - 1][i].hasPrefab;
            assert items[i] == items[..|items| - 1][i];
          }
        }
        n
  }

  /** The queues after `o` is enqueued under `key`, the queue being created when missing. */
  function Enqueue(store: map<string, seq<ObjId>>, key: string, o: ObjId): (r: map<string, seq<ObjId>>)
    ensures key in r && r[key] == (if key in store then store[key] else []) + [o]
    ensures forall k :: k != key ==> (k in r <==> k in store) && (k in store ==> r[k] == store[k])
  {
    store[key := (if key in store then store[key] else []) + [o]]
  }

  /** What stays in the active list when `s` is despawned: the live objects without a tag of this pool, in order. */
  function Survivors(s: seq<ObjId>, sc: Scene, id: PoolId): seq<ObjId>
  {
    if s == [] then []
    else
      var rest := Survivors(s[1..], sc, id);
      if s[0] in sc.live && !Owned(sc, id, s[0]) then [s[0]] + rest else rest
  }

  /** Exactly the live objects of `s` without a tag of this pool survive a despawn. */
  lemma {:induction false} SurvivorsMembers(s: seq<ObjId>, sc: Scene, id: PoolId)
    ensures forall o :: o in Survivors(s, sc, id) <==> o in s && o in sc.live && !Owned(sc, id, o)
  {
    if s != [] {
      SurvivorsMembers(s[1..], sc, id);
      assert forall o :: o in s <==> o == s[0] || o in s[1..];
    }
  }

  /** The queues after `s` is despawned, last element first: each live object with a tag of this pool is enqueued under its tag's key. */
  function Returns(store: map<string, seq<ObjId>>, s: seq<ObjId>, sc: Scene, id: PoolId): map<string, seq<ObjId>>
  {
    if s == [] then store
    else
      var st := Returns(store, s[1..], sc, id);
      if s[0] in sc.live && Owned(sc, id, s[0]) then Enqueue(st, sc.tags[s[0]].key, s[0]) else st
  }

  /** No queued object is lost by a despawn: every queue of `store` is a prefix of the same queue afterwards. */
  lemma {:induction false} ReturnsKeepsQueues(store: map<string, seq<ObjId>>, s: seq<ObjId>, sc: Scene, id: PoolId)
    ensures var r := Returns(store, s, sc, id);
            forall k :: k in store ==> k in r && |store[k]| <= |r[k]| && r[k][..|store[k]|] == store[k]
  {
    if s != [] {
      ReturnsKeepsQueues(store, s[1..], sc, id);
      var st := Returns(store, s[1..], sc, id);
      var r := Returns(store, s, sc, id);
      forall k | k in store ensures k in r && |store[k]| <= |r[k]| && r[k][..|store[k]|] == store[k] {
        if s[0] in sc.live && Owned(sc, id, s[0]) && sc.tags[s[0]].key == k {
          assert r[k] == st[k] + [s[0]];
          assert r[k][..|store[k]|] == st[k][..|store[k]|];
        }
      }
    }
  }

  /** The objects of `s` a despawn switches off: the live ones. */
  function Disabled(s: seq<ObjId>, sc: Scene): set<ObjId>
  {
    set o | o in s && o in sc.live
  }

  /** Despawning returns every live object of this pool to the queue of its key. */
  lemma {:induction false} ReturnedAreQueued(store: map<string, seq<ObjId>>, s: seq<ObjId>, sc: Scene, id: PoolId, o: ObjId)
    requires o in s && o in sc.live && Owned(sc, id, o)
    ensures var k := sc.tags[o].key; k in Returns(store, s, sc, id) && o in Returns(store, s, sc, id)[k]
  {
    var k := sc.tags[o].key;
    var st := Returns(store, s[1..], sc, id);
    if s[0] == o {
      assert Returns(store, s, sc, id)[k] == (if k in st then st[k] else []) + [o];
    } else {
      assert o in s[1..];
      ReturnedAreQueued(store, s[1..], sc, id, o);
      var r := Returns(store, s, sc, id);
      ReturnsKeepsQueues(store, s[1..], sc, id);
      assert |st[k]| <= |r[k]| && r[k][..|st[k]|] == st[k] by {
        if s[0] in sc.live && Owned(sc, id, s[0]) && sc.tags[s[0]].key == k {
          assert r[k] == st[k] + [s[0]];
        }
      }
      var j :| 0 <= j < |st[k]| && st[k][j] == o;
      assert r[k][j] == o;
    }
  }

  /** The entries up to `j` have a prefab for the key exactly when those before `j` have, or entry `j` has. */
  lemma HasPrefabSnoc(items: seq<PoolItem>, j: nat)
    requires j < |items|
    ensures items[..j + 1][..j] == items[..j]
    ensures forall k :: HasPrefab(items[..j + 1], k) <==> (items[j].key == k && items[j].hasPrefab) || HasPrefab(items[..j], k)
  {
    assert items[..j + 1][..j] == items[..j];
    forall k | HasPrefab(items[..j + 1], k) && !(items[j].key == k && items[j].hasPrefab) ensures HasPrefab(items[..j], k) {
      var i :| 0 <= i < j + 1 && items[..j + 1][i].key == k && items[..j + 1][i].hasPrefab;
      assert i < j && items[..j][i] == items[..j + 1][i];
    }
    forall k | HasPrefab(items[..j], k) ensures HasPrefab(items[..j + 1], k) {
      var i :| 0 <= i < j && items[..j][i].key == k && items[..j][i].hasPrefab;
      assert items[..j + 1][i] == items[..j][i];
    }
    if items[j].hasPrefab {
      assert items[..j + 1][j] == items[j];
      assert HasPrefab(items[..j + 1], items[j].key);
    }
  }

  /** The preload of one entry: `count` new objects (none for a count below one), each switched off and tagged with the key and the owner; the objects already there keep their liveness, activity and tag. */
  method MakeCopies(sc: Scene, key: string, owner: PoolId, count: int) returns (sc': Scene, q: seq<ObjId>)
    requires Numbered(sc)
    ensures Numbered(sc') && sc.nextId <= sc'.nextId
    ensures sc.live <= sc'.live
    ensures forall o :: o in sc.tags ==> o in sc'.tags && sc'.tags[o] == sc.tags[o]
    ensures forall o :: o < sc.nextId ==>
              && (o in sc'.live <==> o in sc.live) && (o in sc'.enabled <==> o in sc.enabled)
              && (o in sc'.tags <==> o in sc.tags)
    ensures |q| == if count > 0 then count else 0
    ensures forall o :: o in q ==>
              && sc.nextId <= o < sc'.nextId && o in sc'.live && o !in sc'.enabled
              && o in sc'.tags && sc'.tags[o] == Tag(key, owner)
  {
    sc', q := sc, [];
    var i := 0;
    while i < count
      invariant Numbered(sc') && sc.nextId <= sc'.nextId
      invariant sc.live <= sc'.live
      invariant forall o :: o in sc.tags ==> o in sc'.tags && sc'.tags[o] == sc.tags[o]
      invariant forall o :: o < sc.nextId ==>
                  && (o in sc'.live <==> o in sc.live) && (o in sc'.enabled <==> o in sc.enabled)
                  && (o in sc'.tags <==> o in sc.tags)
      invariant 0 <= i && |q| == i
      invariant count > 0 ==> i <= count
      invariant count <= 0 ==> i == 0
      invariant forall o :: o in q ==>
                  && sc.nextId <= o < sc'.nextId && o in sc'.live && o !in sc'.enabled
                  && o in sc'.tags && sc'.tags[o] == Tag(key, owner)
    {
      var go := sc'.nextId;
      sc' := Scene(sc'.live + {go}, sc'.enabled - {go}, sc'.tags[go := Tag(key, owner)], go + 1);
      q := q + [go];
      i := i + 1;
    }
  }

  /** Every object queued in `st` was made from `n0` on, is alive, switched off and tagged with its queue's key and the owner. */
  ghost predicate Queued(st: map<string, seq<ObjId>>, sc: Scene, n0: ObjId, owner: PoolId)
  {
    forall k :: k in st ==> forall o :: o in st[k] ==>
      && n0 <= o < sc.nextId && o in sc.live && o !in sc.enabled
      && o in sc.tags && sc.tags[o] == Tag(k, owner)
  }

  /** Despawning from position `i` on is despawning entry `i` after the entries behind it. */
  lemma DespawnStep(store: map<string, seq<ObjId>>, s: seq<ObjId>, i: nat, sc: Scene, id: PoolId)
    requires i < |s|
    ensures var o := s[i];
            && Survivors(s[i..], sc, id) == (if o in sc.live && !Owned(sc, id, o) then [o] else []) + Survivors(s[i + 1..], sc, id)
            && Returns(store, s[i..], sc, id) ==
                 (if o in sc.live && Owned(sc, id, o) then Enqueue(Returns(store, s[i + 1..], sc, id), sc.tags[o].key, o)
                  else Returns(store, s[i + 1..], sc, id))
            && Disabled(s[i..], sc) == (if o in sc.live then {o} else {}) + Disabled(s[i + 1..], sc)
  {
    assert s[i..][1..] == s[i + 1..];
    assert s[i..][0] == s[i];
  }

  class Pool {
    /** This pool's identity, as owner in the tags it writes. */
    const id: PoolId
    const items: seq<PoolItem>

    /** The idle objects per key, front of the queue first. */
    var store: map<string, seq<ObjId>>
    /** The objects handed out, in the order they were first handed out. */
    var active: seq<ObjId>
    var scene: Scene

    /** The active list never holds an object twice, and every object the pool knows was numbered before `nextId`. */
    ghost predicate Valid()
      reads this
    {
      && Distinct(active)
      && Numbered(scene)
      && (forall o :: o in active ==> o < scene.nextId)
      && (forall k :: k in store ==> forall o :: o in store[k] ==> o < scene.nextId)
    }

    constructor (id: PoolId, items: seq<PoolItem>, scene: Scene)
      requires Numbered(scene)
      ensures Valid()
      ensures this.id == id && this.items == items && this.scene == scene
      ensures store == map[] && active == []
    {
      this.id := id;
      this.items := items;
      this.scene := scene;
      store := map[];
      active := [];
    }

    /**
     * The preload: for each entry with a prefab, in order, `preload` new objects are made,
     * switched off and tagged with the entry's key and this pool, and become the whole
     * queue of that key.
     */
    method Awake()
      requires Valid() && store == map[]
      modifies this`store, this`scene
      ensures Valid()
      ensures forall k :: k in store <==> HasPrefab(items, k)
      ensures forall k :: k in store ==> |store[k]| == PreloadOf(items, k)
      ensures forall k, o :: k in store && o in store[k] ==>
                && old(scene.nextId) <= o && o in scene.live && o !in scene.enabled
                && o in scene.tags && scene.tags[o] == Tag(k, id)
      ensures old(scene.live) <= scene.live
      ensures forall o :: o in old(scene.tags) ==> o in scene.tags && scene.tags[o] == old(scene.tags)[o]
      ensures forall o :: o < old(scene.nextId) ==>
                && (o in scene.live <==> o in old(scene.live)) && (o in scene.enabled <==> o in old(scene.enabled))
                && (o in scene.tags <==> o in old(scene.tags))
    {
      var sc, st: map<string, seq<ObjId>> := scene, map[];
      ghost var live0, tags0, en0, n0 := scene.live, scene.tags, scene.enabled, scene.nextId;
      for j := 0 to |items|
        invariant Numbered(sc) && n0 <= sc.nextId
        invariant live0 <= sc.live
        invariant forall o :: o in tags0 ==> o in sc.tags && sc.tags[o] == tags0[o]
        invariant forall o :: o < n0 ==>
                    && (o in sc.live <==> o in live0) && (o in sc.enabled <==> o in en0)
                    && (o in sc.tags <==> o in tags0)
        invariant forall k :: k in st <==> HasPrefab(items[..j], k)
        invariant forall k :: k in st ==> |st[k]| == PreloadOf(items[..j], k)
        invariant Queued(st, sc, n0, id)
      {
        var it := items[j];
        HasPrefabSnoc(items, j);
        if !it.hasPrefab {
          continue;
        }
        var sc', q := MakeCopies(sc, it.key, id, it.preload);
        assert Queued(st[it.key := q], sc', n0, id) by {
          forall k, o | k in st[it.key := q] && o in st[it.key := q][k]
            ensures n0 <= o < sc'.nextId && o in sc'.live && o !in sc'.enabled && o in sc'.tags && sc'.tags[o] == Tag(k, id)
          {
            assert n0 <= sc.nextId <= sc'.nextId;
            if k != it.key {
              assert o in st[k];
              assert o < sc.nextId;
            } else {
              assert o in q;
            }
          }
        }
        sc, st := sc', st[it.key := q];
      }
      assert items[..|items|] == items;
      store, scene := st, sc;
    }

    /**
     * Hand out an object of the key. An unknown key first gets an empty queue. A stored
     * object is dequeued when there is one (a destroyed one is dropped and nothing is
     * handed out); only an empty queue makes a new object, from the first entry with
     * the key, and only when that entry has a prefab. The object handed out is switched
     * on and joins the active list unless it is already there.
     */
    method Get(key: string) returns (obj: Option<ObjId>)
      requires Valid()
      modifies this`store, this`active, this`scene
      ensures Valid()
      ensures key in store
      ensures var q := if key in old(store) then old(store)[key] else [];
              && (q != [] ==>
                    && store == old(store)[key := q[1..]]
                    && scene.live == old(scene.live) && scene.tags == old(scene.tags) && scene.nextId == old(scene.nextId)
                    && obj == (if q[0] in old(scene.live) then Some(q[0]) else None))
              && (q == [] ==> store == old(store)[key := []])
              && (q == [] && FindItem(items, key) != None && FindItem(items, key).value.hasPrefab ==>
                    && obj == Some(old(scene.nextId)) && old(scene.nextId) !in old(scene.live)
                    && scene.live == old(scene.live) + {obj.value}
                    && scene.tags == old(scene.tags)[obj.value := Tag(key, id)]
                    && scene.nextId == old(scene.nextId) + 1)
              && (q == [] && (FindItem(items, key) == None || !FindItem(items, key).value.hasPrefab) ==>
                    obj == None && scene == old(scene))
      ensures obj == None ==> active == old(active) && scene.enabled == old(scene.enabled)
      ensures obj != None ==>
                && obj.value in scene.live && scene.enabled == old(scene.enabled) + {obj.value}
                && active == (if obj.value in old(active) then old(active) else old(active) + [obj.value])
    {
      if key !in store {
        store := store[key := []];
      }
      obj := None;
      var q := store[key];
      if |q| > 0 {
        assert forall o :: o in q[1..] ==> o in q;
        store := store[key := q[1..]];
        if q[0] in scene.live {
          obj := Some(q[0]);
        }
      } else {
        var item := FindItem(items, key);
        if item != None && item.value.hasPrefab {
          var o := scene.nextId;
          scene := Scene(scene.live + {o}, scene.enabled - {o}, scene.tags[o := Tag(key, id)], o + 1);
          obj := Some(o);
        }
      }

      if obj == None {
        return;
      }
      var o := obj.value;
      scene := scene.(enabled := scene.enabled + {o});
      if o !in active {
        active := active + [o];
      }
    }

    /** Switch the object off, enqueue it under the tag's key (creating the queue when missing) and take it out of the active list. */
    method InternalReturn(o: ObjId, tag: Tag)
      requires Valid() && o in scene.live
      modifies this`store, this`active, this`scene
      ensures Valid()
      ensures scene == old(scene).(enabled := old(scene.enabled) - {o})
      ensures store == Enqueue(old(store), tag.key, o)
      ensures active == RemoveFirst(old(active), o) && o !in active
    {
      scene := scene.(enabled := scene.enabled - {o});
      store := Enqueue(store, tag.key, o);
      RemoveFirstDistinct(active, o);
      active := RemoveFirst(active, o);
    }

    /**
     * Return by key: a destroyed object is ignored; an object without a tag is first
     * tagged with the key and this pool; then the object goes back under its tag's key,
     * whichever pool the tag names.
     */
    method ReturnWithKey(key: string, obj: Option<ObjId>)
      requires Valid()
      modifies this`store, this`active, this`scene
      ensures Valid()
      ensures obj == None || obj.value !in old(scene.live) ==> store == old(store) && active == old(active) && scene == old(scene)
      ensures obj != None && obj.value in old(scene.live) ==>
                var o := obj.value;
                var tag := if o in old(scene.tags) then old(scene.tags)[o] else Tag(key, id);
                && scene == old(scene).(enabled := old(scene.enabled) - {o}, tags := old(scene.tags)[o := tag])
                && store == Enqueue(old(store), tag.key, o)
                && active == RemoveFirst(old(active), o) && o !in active
    {
      if obj == None || obj.value !in scene.live {
        return;
      }
      var o := obj.value;
      if o !in scene.tags {
        scene := scene.(tags := scene.tags[o := Tag(key, id)]);
      }
      InternalReturn(o, scene.tags[o]);
    }

    /**
     * Return without key: a destroyed object is ignored; an object without a tag of this
     * pool is only switched off (and moved under the pool); one of this pool goes back
     * under its tag's key.
     */
    method Return(obj: Option<ObjId>)
      requires Valid()
      modifies this`store, this`active, this`scene
      ensures Valid()
      ensures obj == None || obj.value !in old(scene.live) ==> store == old(store) && active == old(active) && scene == old(scene)
      ensures obj != None && obj.value in old(scene.live) ==>
                var o := obj.value;
                && scene == old(scene).(enabled := old(scene.enabled) - {o})
                && (!Owned(old(scene), id, o) ==> store == old(store) && active == old(active))
                && (Owned(old(scene), id, o) ==>
                      store == Enqueue(old(store), old(scene.tags)[o].key, o) && active == RemoveFirst(old(active), o) && o !in active)
    {
      if obj == None || obj.value !in scene.live {
        return;
      }
      var o := obj.value;
      if !Owned(scene, id, o) {
        scene := scene.(enabled := scene.enabled - {o});
        return;
      }
      InternalReturn(o, scene.tags[o]);
    }

    /**
     * One step of the despawn walk, at position `i` of the active list: a destroyed
     * entry is dropped; a live one is returned, which takes an object of this pool out
     * of the list and into its queue and leaves any other object in place, switched off.
     */
    method DespawnEntry(i: nat)
      requires Valid() && i < |active|
      modifies this`store, this`active, this`scene
      ensures Valid()
      ensures var go := old(active[i]);
              var queued := go in old(scene.live) && Owned(old(scene), id, go);
              && i <= |active| && active[..i] == old(active[..i])
              && active[i..] == (if go in old(scene.live) && !queued then [go] else []) + old(active[i + 1..])
              && store == (if queued then Enqueue(old(store), old(scene.tags)[go].key, go) else old(store))
              && scene == old(scene).(enabled := old(scene.enabled) - (if go in old(scene.live) then {go} else {}))
    {
      var go := active[i];
      RemoveFirstAt(active, i);
      RemoveFirstDistinct(active, go);
      if go !in scene.live {
        active := active[..i] + active[i + 1..];
        assert active[i..] == old(active[i + 1..]);
        return;
      }
      assert active[..i] + [go] + active[i + 1..] == active;
      Return(Some(go));
    }

    /**
     * Despawn everything handed out, walking the active list from its end: a destroyed
     * entry is dropped, every other one is returned. Afterwards only live objects
     * without a tag of this pool remain active.
     */
    method DespawnAll()
      requires Valid()
      modifies this`store, this`active, this`scene
      ensures Valid()
      ensures active == Survivors(old(active), old(scene), id)
      ensures forall o :: o in active ==> o in scene.live && !Owned(scene, id, o)
      ensures store == Returns(old(store), old(active), old(scene), id)
      ensures scene == old(scene).(enabled := old(scene.enabled) - Disabled(old(active), old(scene)))
    {
      ghost var s0, sc0 := active, scene;
      var i := |active| - 1;
      while i >= 0
        invariant -1 <= i < |s0|
        invariant Valid()
        invariant i + 1 <= |active| && active[..i + 1] == s0[..i + 1] && active[i + 1..] == Survivors(s0[i + 1..], sc0, id)
        invariant store == Returns(old(store), s0[i + 1..], sc0, id)
        invariant scene == sc0.(enabled := sc0.enabled - Disabled(s0[i + 1..], sc0))
      {
        assert active[..i] == s0[..i] && active[i] == s0[i];
        DespawnStep(old(store), s0, i, sc0, id);
        DespawnEntry(i);
        i := i - 1;
      }
      assert s0[0..] == s0 && active[0..] == active;
      SurvivorsMembers(s0, sc0, id);
    }
  }
}
