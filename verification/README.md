# Firebase JVM app registry, modelled in Dafny

This project models the JVM target of the `firebase-common` module of
firebase-kmp: the in-process registry of Firebase apps and the public entry
points built on it (`Firebase.app`, `Firebase.app(name)`, the three
`Firebase.initializeApp` overloads, `Firebase.getApps`, and the
`FirebaseApp` handle with its flags, `persistenceKey` and `delete`).

The registry is a `LinkedHashMap` from app name to a mutable
`FirebaseAppState` object (name, options, `dataCollectionDefaultEnabled`,
`automaticResourceManagementEnabled`). A `FirebaseApp` handle holds a
reference to that state object, not the name. The model keeps that
distinction: a `World` is the registry (names to references, in insertion
order), a heap of state objects, and the next unused reference; a handle is
a reference. Every operation is a pure function from one `World` to the
next. For the registry operations this is faithful because each runs inside
one `synchronized` block; the flag accessors are unsynchronized (see "Left out").

Modules:

- `Nullable` (`nullable.dfy`): `Option` for Kotlin's nullable values and
  `Result` for calls that throw.
- `LinkedMap` (`linked_map.dfy`): the insertion-ordered map, with a plain
  Dafny `map` (`ToMap`) as its reference meaning and lemmas tying lookups,
  get-or-put and removal to map lookup, update and removal, and to the
  iteration order.
- `JvmRegistry` (`jvm_registry.dfy`): `FirebaseOptions`, `AppState`, the
  `World` and its invariant `Valid`, and the four registry operations
  `Get`, `GetAll`, `PutIfAbsent`, `Delete`.
- `FirebaseJvm` (`firebase_jvm.dfy`): the public API, where `error(...)`
  becomes `Failure(IllegalStateException(message))` with the source's exact
  message.

Two consequences of the handle-holds-state design are proved in
`FirebaseJvm.StaleHandleAfterReinitialize`. A handle kept across
`delete()` and a new `initializeApp` under the same name still reads and
writes its old, unregistered state object. Its `delete()` goes by name, so
it unregisters the newer app.

## Model

All source paths are under `firebase-common/src/jvmMain/kotlin/com/biggates/firebase/common/`.

| member | source | states |
|---|---|---|
| LinkedMap.Find | firebase-common/src/jvmMain/kotlin/com/biggates/firebase/common/Firebase.jvm.kt:17 | a lookup finds nothing exactly when no entry has the key, and a found value is stored under that key |
| LinkedMap.Without | firebase-common/src/jvmMain/kotlin/com/biggates/firebase/common/Firebase.jvm.kt:25 | after removal the key is not found, every other key is found as before, no entry is invented and keys stay unique |
| LinkedMap.GetOrPut | firebase-common/src/jvmMain/kotlin/com/biggates/firebase/common/Firebase.jvm.kt:22 | `getOrPut` returns the value now stored under the key; a present key leaves the map as it was and returns its value; an absent key is appended at the end of the key order with the given value; other keys are unaffected |
| LinkedMap.Remove | firebase-common/src/jvmMain/kotlin/com/biggates/firebase/common/Firebase.jvm.kt:25 | `remove` returns the value the key had (null if none), leaves the key absent and every other key as it was |
| LinkedMap.FindIsToMap | firebase-common/src/jvmMain/kotlin/com/biggates/firebase/common/Firebase.jvm.kt:15 | the ordered map's lookup agrees with the plain map it denotes, for every key |
| LinkedMap.GetOrPutIsMapUpdate | firebase-common/src/jvmMain/kotlin/com/biggates/firebase/common/Firebase.jvm.kt:22 | read as a plain map, get-or-put on an absent key is a map update and on a present key is a no-op returning the stored value |
| LinkedMap.RemoveIsMapRemove | firebase-common/src/jvmMain/kotlin/com/biggates/firebase/common/Firebase.jvm.kt:25 | read as a plain map, removal is map key removal and reports the value the map held |
| LinkedMap.RemoveKeepsOrder | firebase-common/src/jvmMain/kotlin/com/biggates/firebase/common/Firebase.jvm.kt:25 | removing a key cuts exactly its entry and keeps all others in their order; removing an absent key changes nothing |
| LinkedMap.RemoveThenPutAppends | firebase-common/src/jvmMain/kotlin/com/biggates/firebase/common/Firebase.jvm.kt:21-25 | a key removed and put back is appended behind every remaining entry |
| JvmRegistry.Boot | firebase-common/src/jvmMain/kotlin/com/biggates/firebase/common/Firebase.jvm.kt:15 | the registry starts empty and satisfies the registry invariant |
| JvmRegistry.Get | firebase-common/src/jvmMain/kotlin/com/biggates/firebase/common/Firebase.jvm.kt:17 | `get(name)` is non-null exactly when the name is registered, and then it is a live state object carrying that name |
| JvmRegistry.GetAll | firebase-common/src/jvmMain/kotlin/com/biggates/firebase/common/Firebase.jvm.kt:19 | `getAll()` has one distinct state per registered name, position by position in insertion order, and contains the state of every registered name |
| JvmRegistry.PutIfAbsent | firebase-common/src/jvmMain/kotlin/com/biggates/firebase/common/Firebase.jvm.kt:21-23 | the result is what `get(name)` now returns; a present name leaves the registry unchanged and ignores the options; an absent name gets a new state object with the given name and options, `dataCollectionDefaultEnabled = null`, `automaticResourceManagementEnabled = false`, appended last; other names and existing state objects are untouched and no other object is allocated; the invariant is kept |
| JvmRegistry.Delete | firebase-common/src/jvmMain/kotlin/com/biggates/firebase/common/Firebase.jvm.kt:25 | `delete(name)` is true exactly when the name was registered; afterwards the name is absent, other names resolve as before and keep their order, and an absent name changes nothing |
| JvmRegistry.NamesUnique | firebase-common/src/jvmMain/kotlin/com/biggates/firebase/common/Firebase.jvm.kt:15 | registered names are pairwise distinct, and so are the states `getAll()` returns |
| JvmRegistry.PutIfAbsentIdempotent | firebase-common/src/jvmMain/kotlin/com/biggates/firebase/common/Firebase.jvm.kt:21-23 | a second `putIfAbsent` under the same name, with any options, returns the first state and changes nothing |
| JvmRegistry.ReinsertKeepsOrder | firebase-common/src/jvmMain/kotlin/com/biggates/firebase/common/Firebase.jvm.kt:21-23 | `putIfAbsent` of a registered name does not reorder the registry |
| JvmRegistry.DeleteThenPutAppends | firebase-common/src/jvmMain/kotlin/com/biggates/firebase/common/Firebase.jvm.kt:21-25 | a name deleted and inserted again moves to the end of the order and is bound to a new state object with default flags |
| JvmRegistry.RegistryAsMap | firebase-common/src/jvmMain/kotlin/com/biggates/firebase/common/Firebase.jvm.kt:14-25 | read as a plain name-to-state map, `get` is map lookup, `putIfAbsent` is map update (or no-op) and `delete` is key removal |
| FirebaseJvm.App | firebase-common/src/jvmMain/kotlin/com/biggates/firebase/common/Firebase.jvm.kt:28-32 | `Firebase.app` succeeds exactly when `"[DEFAULT]"` is registered, returning a handle over the state object `get("[DEFAULT]")` returns, and otherwise fails with the "Default FirebaseApp is not initialized" error |
| FirebaseJvm.AppNamed | firebase-common/src/jvmMain/kotlin/com/biggates/firebase/common/Firebase.jvm.kt:34-39 | `Firebase.app(name)` succeeds exactly when `name` is registered, returning a handle over the state object `get(name)` returns, and otherwise fails with the "FirebaseApp(name) is not initialized." error |
| FirebaseJvm.InitializeApp | firebase-common/src/jvmMain/kotlin/com/biggates/firebase/common/Firebase.jvm.kt:70-74 | `initializeApp(context)` returns a handle over the same state object as `Firebase.app` when the default app exists, and otherwise fails with the "cannot auto-configure" error |
| FirebaseJvm.InitializeDefaultApp | firebase-common/src/jvmMain/kotlin/com/biggates/firebase/common/Firebase.jvm.kt:76-78 | `initializeApp(context, options)` is the named get-or-insert under `"[DEFAULT]"`, after which `Firebase.app` returns a handle over the same state object |
| FirebaseJvm.InitializeNamedApp | firebase-common/src/jvmMain/kotlin/com/biggates/firebase/common/Firebase.jvm.kt:80-82 | `initializeApp(context, options, name)` returns a handle over the state object `Firebase.app(name)` now wraps; a registered name leaves the process unchanged; a new name gets a new app with these options and default flags, registered last; other names and existing states are untouched and no other state object is allocated |
| FirebaseJvm.GetApps | firebase-common/src/jvmMain/kotlin/com/biggates/firebase/common/Firebase.jvm.kt:84-86 | `getApps` returns one handle per registered name, in insertion order, over pairwise distinct state objects, each over the state object `Firebase.app(name)` wraps, and omits no registered app |
| FirebaseJvm.SetDataCollectionDefaultEnabled | firebase-common/src/jvmMain/kotlin/com/biggates/firebase/common/Firebase.jvm.kt:50-54 | the setter changes only that flag of the handle's state object; names, options, the other flag, other state objects and the registry are untouched |
| FirebaseJvm.SetAutomaticResourceManagementEnabled | firebase-common/src/jvmMain/kotlin/com/biggates/firebase/common/Firebase.jvm.kt:56-60 | the setter changes only that flag of the handle's state object; names, options, the other flag, other state objects and the registry are untouched |
| FirebaseJvm.FlagVisibleThroughLookup | firebase-common/src/jvmMain/kotlin/com/biggates/firebase/common/Firebase.jvm.kt:50-60 | flags written through a registered app's handle are read back through any later `Firebase.app(name)` handle |
| FirebaseJvm.PersistenceKey | firebase-common/src/jvmMain/kotlin/com/biggates/firebase/common/Firebase.jvm.kt:62-63 | `persistenceKey` is never null and consists of the app's name, a `+`, and the options' application id |
| FirebaseJvm.PersistenceKeyRoundTrip | firebase-common/src/jvmMain/kotlin/com/biggates/firebase/common/Firebase.jvm.kt:62-63 | for a name without `+`, splitting the key at its first `+` gives back the name and the application id |
| FirebaseJvm.PersistenceKeyInjective | firebase-common/src/jvmMain/kotlin/com/biggates/firebase/common/Firebase.jvm.kt:62-63 | apps whose names contain no `+` share a persistence key only if they share name and application id; without that restriction the key is not injective (`FirebaseJvm.PersistenceKeyCollision`) |
| FirebaseJvm.PersistenceKeyCollision | firebase-common/src/jvmMain/kotlin/com/biggates/firebase/common/Firebase.jvm.kt:62-63 | the key joins name and application id with a bare `+`, so two registered apps named `a+b` (id `c`) and `a` (id `b+c`) get the same key `a+b+c` |
| FirebaseJvm.Delete | firebase-common/src/jvmMain/kotlin/com/biggates/firebase/common/Firebase.jvm.kt:65-67 | `delete()` is true exactly when the handle's name was registered; afterwards `Firebase.app(name)` fails, other names resolve as before and keep their order, an unregistered name changes nothing, and the handle's own state stays readable |
| FirebaseJvm.DeleteReportsPresence | firebase-common/src/jvmMain/kotlin/com/biggates/firebase/common/Firebase.jvm.kt:65-67 | deleting a registered app twice reports true, then false, and the second call changes nothing |
| FirebaseJvm.InitializeDefaultThenLookups | firebase-common/src/jvmMain/kotlin/com/biggates/firebase/common/Firebase.jvm.kt:70-78 | after `initializeApp(context, options)`, `Firebase.app`, `initializeApp(context)` and `Firebase.app("[DEFAULT]")` all return handles over its state object |
| FirebaseJvm.FirstWriterWins | firebase-common/src/jvmMain/kotlin/com/biggates/firebase/common/Firebase.jvm.kt:80-82 | two initializations under one new name store one app; both results are handles over the same state object, carrying the first options |
| FirebaseJvm.StaleHandleAfterReinitialize | firebase-common/src/jvmMain/kotlin/com/biggates/firebase/common/Firebase.jvm.kt:41-67 | a handle kept across delete and re-initialization of its name writes only its old state, not the new app's, while its `delete()` unregisters the new app |

## Left out

- The Android and Apple implementations of the same API: they forward to the vendor SDKs' own `FirebaseApp`, whose behaviour is not part of this model.
- Storage and messaging (all platforms): pass-throughs to vendor SDKs, or on the JVM classes that only throw `UnsupportedOperationException`. Storage URL parsing and download-URL building do not occur in the modelled code; they are delegated to the vendor SDKs.
- The `synchronized` blocks and concurrency: each registry operation is one atomic step and concurrent interleavings are not modelled. The flag getters and setters of `FirebaseApp` run outside any lock on plain (non-volatile) fields, so what the model proves about them, `FirebaseJvm.FlagVisibleThroughLookup` included, holds for sequential use only.
- The `suspend` modifier of `FirebaseApp.delete`: its JVM body is synchronous.
- Handle object identity: every Kotlin entry point builds a new `FirebaseApp` object and the class does not override `equals`, so two handles over one state object are `!=` in Kotlin. The model identifies a handle with the state object it wraps (`FirebaseJvm.FirebaseApp`), so its handle equalities mean "over the same state object", not Kotlin `==`.
- `PlatformContext`: an empty class on the JVM, modelled as a one-value datatype that the entry points accept and ignore.
- `FirebaseOptions`: every field is carried, but only `applicationId` is read (by `persistenceKey`), as in the source.
- The getters `name`, `options`, `dataCollectionDefaultEnabled` and `automaticResourceManagementEnabled` are plain reads of the state object (`FirebaseJvm.Name`, `Options`, `DataCollectionDefaultEnabled`, `AutomaticResourceManagementEnabled`) and carry no contract of their own; the setters' contracts state what they read.
- Reads never change the process by construction: `App`, `AppNamed`, `InitializeApp` and `GetApps` return no new `World`.
- Kotlin strings are UTF-16 and compared by value; names are modelled as `seq<char>` compared by value, with no encoding.
