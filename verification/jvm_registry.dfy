/**
 The JVM in-process app registry (`FirebaseJvmRegistry` in
 firebase-common's jvmMain `Firebase.jvm.kt`).

 On the JVM an app's state is a mutable object, and every `FirebaseApp`
 handle holds a reference to that object rather than the app's name. The
 model therefore keeps a heap of state objects beside the registry: the
 registry maps names to references, in insertion order, and a handle is a
 reference. Each registry operation runs under the registry's monitor, so
 it is modelled as one atomic step from one `World` to the next.
 */
module JvmRegistry {
  import opened Nullable
  import LinkedMap

  /** The app configuration. Only `applicationId` is ever read by the JVM target; the rest is carried along. */
  datatype FirebaseOptions = FirebaseOptions(
    applicationId: string,
    apiKey: string,
    databaseUrl: Option<string>,
    gaTrackingId: Option<string>,
    storageBucket: Option<string>,
    projectId: Option<string>,
    gcmSenderId: Option<string>,
    authDomain: Option<string>,
    serviceAccountPath: Option<string>)

  /** `FirebaseAppState`: a name, its options, and two mutable flags. */
  datatype AppState = AppState(
    name: string,
    options: FirebaseOptions,
    dataCollectionDefaultEnabled: Option<bool>,
    automaticResourceManagementEnabled: bool)

  /** The identity of a state object on the heap. */
  type Ref = nat

  /**
   The process: the registry's `LinkedHashMap` from names to state objects,
   the state objects themselves, and the next unused reference.
   */
  datatype World = World(apps: LinkedMap.LinkedMap<string, Ref>, heap: map<Ref, AppState>, next: Ref)

  /**
   Names are unique, every allocated reference is below `next`, and every
   registered name points at a live state object that carries that name.
   */
  predicate Valid(w: World) {
    && LinkedMap.Valid(w.apps)
    && (forall r :: r in w.heap ==> r < w.next)
    && (forall i :: 0 <= i < |w.apps.entries| ==>
          w.apps.entries[i].value in w.heap && w.heap[w.apps.entries[i].value].name == w.apps.entries[i].key)
  }

  /** The registered names in iteration order. */
  function Names(w: World): seq<string> {
    LinkedMap.Keys(w.apps)
  }

  /** The process at start-up: an empty registry and an empty heap. */
  function Boot(): (w: World)
    ensures Valid(w)
    ensures Names(w) == []
    ensures forall name :: LinkedMap.Get(w.apps, name) == None
  {
    World(LinkedMap.Empty(), map[], 0)
  }

  /** `get(name)`: the state object registered under `name`, or null. */
  function Get(w: World, name: string): (r: Option<Ref>)
    requires Valid(w)
    ensures r.Some? <==> name in Names(w)
    ensures r.Some? ==> r.value in w.heap && w.heap[r.value].name == name
  {
    var r := LinkedMap.Get(w.apps, name);
    assert forall i :: 0 <= i < |Names(w)| ==> Names(w)[i] == w.apps.entries[i].key;
    assert r.Some? ==> name in Names(w) by {
      if r.Some? {
        var i :| 0 <= i < |w.apps.entries| && w.apps.entries[i] == LinkedMap.Entry(name, r.value);
        assert Names(w)[i] == name;
      }
    }
    r
  }

  /** `getAll()`: a snapshot of the registered state objects, in insertion order. */
  function GetAll(w: World): (r: seq<Ref>)
    requires Valid(w)
    ensures |r| == |Names(w)|
    ensures forall i :: 0 <= i < |r| ==> Get(w, Names(w)[i]) == Some(r[i])
    ensures forall i, j :: 0 <= i < j < |r| ==> r[i] != r[j]
    ensures forall name :: name in Names(w) ==> Get(w, name).value in r
  {
    var r := LinkedMap.Values(w.apps);
    assert forall i :: 0 <= i < |r| ==> Get(w, Names(w)[i]) == Some(r[i]) by {
      forall i | 0 <= i < |r| ensures Get(w, Names(w)[i]) == Some(r[i]) {
        GetAtIndex(w, i);
      }
    }
    assert forall name :: name in Names(w) ==> Get(w, name).value in r by {
      forall name | name in Names(w) ensures Get(w, name).value in r {
        var i :| 0 <= i < |Names(w)| && Names(w)[i] == name;
        GetAtIndex(w, i);
      }
    }
    r
  }

  /**
   `putIfAbsent(name, options)`: the state registered under `name`; when
   there is none, a fresh state object with default flags is allocated,
   registered at the end of the order and returned.
   */
  function PutIfAbsent(w: World, name: string, options: FirebaseOptions): (r: (World, Ref))
    requires Valid(w)
    ensures Valid(r.0)
    ensures Get(r.0, name) == Some(r.1)
    ensures Get(w, name).Some? ==> r == (w, Get(w, name).value)
    ensures Get(w, name).None? ==>
      && r.1 !in w.heap
      && r.0.heap[r.1] == AppState(name, options, None, false)
      && Names(r.0) == Names(w) + [name]
    ensures forall other :: other != name ==> Get(r.0, other) == Get(w, other)
    ensures forall x :: x in w.heap ==> x in r.0.heap && r.0.heap[x] == w.heap[x]
    ensures r.0.heap.Keys <= w.heap.Keys + {r.1}
  {
    match LinkedMap.Get(w.apps, name)
    case Some(present) => (w, present)
    case None =>
      var created := w.next;
      var apps := LinkedMap.GetOrPut(w.apps, name, created).0;
      var w' := World(apps, w.heap[created := AppState(name, options, None, false)], w.next + 1);
      assert apps.entries == w.apps.entries + [LinkedMap.Entry(name, created)];
      assert Valid(w');
      (w', created)
  }

  /** `delete(name)`: unregisters `name` and reports whether it was registered. The state object itself stays on the heap. */
  function Delete(w: World, name: string): (r: (World, bool))
    requires Valid(w)
    ensures Valid(r.0)
    ensures r.1 <==> name in Names(w)
    ensures Get(r.0, name) == None
    ensures forall other :: other != name ==> Get(r.0, other) == Get(w, other)
    ensures r.0.heap == w.heap
    ensures name !in Names(w) ==> r.0 == w
    ensures forall i :: 0 <= i < |Names(w)| && Names(w)[i] == name ==>
      Names(r.0) == Names(w)[..i] + Names(w)[i + 1..]
  {
    var (apps, removed) := LinkedMap.Remove(w.apps, name);
    var w' := World(apps, w.heap, w.next);
    LinkedMap.RemoveKeepsOrder(w.apps, name);
    assert Valid(w') by {
      forall i | 0 <= i < |w'.apps.entries|
        ensures w'.apps.entries[i].value in w'.heap && w'.heap[w'.apps.entries[i].value].name == w'.apps.entries[i].key
      {
        assert w'.apps.entries[i] in w.apps.entries;
      }
    }
    assert forall i :: 0 <= i < |Names(w)| && Names(w)[i] == name ==> Names(w') == Names(w)[..i] + Names(w)[i + 1..] by {
      forall i | 0 <= i < |Names(w)| && Names(w)[i] == name
        ensures Names(w') == Names(w)[..i] + Names(w)[i + 1..]
      {
        KeysOfCut(w.apps, i);
      }
    }
    (w', removed.Some?)
  }

  /** The registered state at position `i` is what a lookup by its name finds. */
  lemma GetAtIndex(w: World, i: nat)
    requires Valid(w)
    requires i < |w.apps.entries|
    ensures Get(w, Names(w)[i]) == Some(w.apps.entries[i].value)
  {
  }

  /** Cutting one entry out of the map cuts its key out of the key order. */
  lemma KeysOfCut(m: LinkedMap.LinkedMap<string, Ref>, i: nat)
    requires i < |m.entries|
    ensures LinkedMap.Keys(LinkedMap.LinkedMap(m.entries[..i] + m.entries[i + 1..]))
         == LinkedMap.Keys(m)[..i] + LinkedMap.Keys(m)[i + 1..]
  {
  }

  /** Registered names are pairwise distinct, and so are the state objects they refer to. */
  lemma NamesUnique(w: World)
    requires Valid(w)
    ensures forall i, j :: 0 <= i < j < |Names(w)| ==> Names(w)[i] != Names(w)[j]
    ensures forall i, j :: 0 <= i < j < |GetAll(w)| ==> GetAll(w)[i] != GetAll(w)[j]
  {
  }

  /** First writer wins: a second `putIfAbsent` under the same name changes nothing and ignores its options. */
  lemma PutIfAbsentIdempotent(w: World, name: string, first: FirebaseOptions, second: FirebaseOptions)
    requires Valid(w)
    ensures var (w1, r1) := PutIfAbsent(w, name, first);
      PutIfAbsent(w1, name, second) == (w1, r1)
  {
  }

  /** Re-inserting a name that is registered keeps the order exactly as it was. */
  lemma ReinsertKeepsOrder(w: World, name: string, options: FirebaseOptions)
    requires Valid(w)
    requires name in Names(w)
    ensures Names(PutIfAbsent(w, name, options).0) == Names(w)
  {
  }

  /**
   A name deleted and then put back goes to the end of the order, behind
   every other name, and is bound to a new state object.
   */
  lemma DeleteThenPutAppends(w: World, name: string, options: FirebaseOptions, i: nat)
    requires Valid(w)
    requires i < |Names(w)| && Names(w)[i] == name
    ensures var w1 := Delete(w, name).0;
      var (w2, r) := PutIfAbsent(w1, name, options);
      && Names(w2) == Names(w)[..i] + Names(w)[i + 1..] + [name]
      && r !in w.heap
      && w2.heap[r] == AppState(name, options, None, false)
  {
  }

  /** The registry read as a plain map: lookups agree with it, and put-if-absent and delete act on it as map update and map removal. */
  lemma RegistryAsMap(w: World, name: string, options: FirebaseOptions)
    requires Valid(w)
    ensures Get(w, name) == (if name in LinkedMap.ToMap(w.apps.entries) then Some(LinkedMap.ToMap(w.apps.entries)[name]) else None)
    ensures var (w1, r) := PutIfAbsent(w, name, options);
      LinkedMap.ToMap(w1.apps.entries) == LinkedMap.ToMap(w.apps.entries)[name := r]
    ensures LinkedMap.ToMap(Delete(w, name).0.apps.entries) == LinkedMap.ToMap(w.apps.entries) - {name}
  {
    LinkedMap.FindIsToMap(w.apps.entries, name);
    LinkedMap.GetOrPutIsMapUpdate(w.apps, name, w.next);
    LinkedMap.RemoveIsMapRemove(w.apps, name);
    if name in LinkedMap.ToMap(w.apps.entries) {
      assert LinkedMap.ToMap(w.apps.entries)[name := LinkedMap.ToMap(w.apps.entries)[name]] == LinkedMap.ToMap(w.apps.entries);
    }
  }
}
