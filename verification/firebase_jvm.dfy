/**
 The JVM target's public Firebase entry points (`Firebase.jvm.kt`): the
 default and named app lookups, the three `initializeApp` overloads,
 `getApps`, and the `FirebaseApp` handle with its accessors, its
 `persistenceKey` and `delete`.

 A call that throws in Kotlin (`error(...)`, an `IllegalStateException`)
 returns `Failure` here with the same message. A call that changes the
 process returns the new `World` with its result; one that only reads does
 not return a `World`, so it leaves the process as it was.
 */
module FirebaseJvm {
  import opened Nullable
  import opened JvmRegistry

  /** The reserved registry key of the default app. */
  const DefaultAppName: string := "[DEFAULT]"

  /** On the JVM the platform context is an empty class; it carries no information. */
  datatype PlatformContext = PlatformContext

  /**
   A `FirebaseApp` handle: it holds the app's state object, not its name.
   Handles are identified by the state object they wrap; two Kotlin handle
   objects over one state object are one value here.
   */
  datatype FirebaseApp = FirebaseApp(state: Ref)

  /** The exception raised by Kotlin's `error(...)`. */
  datatype FirebaseError = IllegalStateException(message: string)

  /** The handle's state object exists in this process. */
  predicate Live(w: World, app: FirebaseApp) {
    app.state in w.heap
  }

  /** `FirebaseApp.name`. */
  function Name(w: World, app: FirebaseApp): string
    requires Live(w, app)
  {
    w.heap[app.state].name
  }

  /** `FirebaseApp.options`. */
  function Options(w: World, app: FirebaseApp): FirebaseOptions
    requires Live(w, app)
  {
    w.heap[app.state].options
  }

  /** Reading `FirebaseApp.dataCollectionDefaultEnabled`. */
  function DataCollectionDefaultEnabled(w: World, app: FirebaseApp): Option<bool>
    requires Live(w, app)
  {
    w.heap[app.state].dataCollectionDefaultEnabled
  }

  /** Reading `FirebaseApp.automaticResourceManagementEnabled`. */
  function AutomaticResourceManagementEnabled(w: World, app: FirebaseApp): bool
    requires Live(w, app)
  {
    w.heap[app.state].automaticResourceManagementEnabled
  }

  /** Everything a handle can observe about its state except the two flags. */
  predicate SameIdentity(w: World, w': World, app: FirebaseApp)
    requires Live(w, app) && Live(w', app)
  {
    Name(w', app) == Name(w, app) && Options(w', app) == Options(w, app)
  }

  /** `Firebase.app`: the default app, or an error when it was never initialized. */
  function App(w: World): (r: Result<FirebaseApp, FirebaseError>)
    requires Valid(w)
    ensures r.Success? <==> DefaultAppName in Names(w)
    ensures r.Success? ==> Live(w, r.value) && Name(w, r.value) == DefaultAppName
    ensures r.Success? ==> Get(w, DefaultAppName) == Some(r.value.state)
    ensures r.Failure? ==>
      r.error == IllegalStateException("Default FirebaseApp is not initialized. Call Firebase.initializeApp(options) first.")
  {
    match Get(w, DefaultAppName)
    case Some(state) => Success(FirebaseApp(state))
    case None => Failure(IllegalStateException("Default FirebaseApp is not initialized. Call Firebase.initializeApp(options) first."))
  }

  /** `Firebase.app(name)`: the app registered under `name`, or an error naming it. */
  function AppNamed(w: World, name: string): (r: Result<FirebaseApp, FirebaseError>)
    requires Valid(w)
    ensures r.Success? <==> name in Names(w)
    ensures r.Success? ==> Live(w, r.value) && Name(w, r.value) == name
    ensures r.Success? ==> Get(w, name) == Some(r.value.state)
    ensures r.Failure? ==> r.error == IllegalStateException("FirebaseApp(" + name + ") is not initialized.")
  {
    match Get(w, name)
    case Some(state) => Success(FirebaseApp(state))
    case None => Failure(IllegalStateException("FirebaseApp(" + name + ") is not initialized."))
  }

  /** `Firebase.initializeApp(context)`: the JVM cannot configure an app by itself, so this only finds the default app. */
  function InitializeApp(w: World, context: PlatformContext): (r: Result<FirebaseApp, FirebaseError>)
    requires Valid(w)
    ensures r.Success? <==> DefaultAppName in Names(w)
    ensures r.Success? ==> r == App(w)
    ensures r.Failure? ==>
      r.error == IllegalStateException("JVM target cannot auto-configure Firebase. Call Firebase.initializeApp(context, options) first.")
  {
    match Get(w, DefaultAppName)
    case Some(state) => Success(FirebaseApp(state))
    case None => Failure(IllegalStateException("JVM target cannot auto-configure Firebase. Call Firebase.initializeApp(context, options) first."))
  }

  /**
   `Firebase.initializeApp(context, options, name)`: get-or-insert under
   `name`. An existing app is returned as it is, whatever `options` say;
   otherwise a new app with `options` and default flags is registered last.
   */
  function InitializeNamedApp(w: World, context: PlatformContext, options: FirebaseOptions, name: string): (r: (World, FirebaseApp))
    requires Valid(w)
    ensures Valid(r.0)
    ensures AppNamed(r.0, name) == Success(r.1)
    ensures name in Names(w) ==> r.0 == w && AppNamed(w, name) == Success(r.1)
    ensures name !in Names(w) ==>
      && !Live(w, r.1)
      && Name(r.0, r.1) == name
      && Options(r.0, r.1) == options
      && DataCollectionDefaultEnabled(r.0, r.1) == None
      && !AutomaticResourceManagementEnabled(r.0, r.1)
      && Names(r.0) == Names(w) + [name]
    ensures forall other :: other != name ==> AppNamed(r.0, other) == AppNamed(w, other)
    ensures forall h :: Live(w, h) ==> Live(r.0, h) && r.0.heap[h.state] == w.heap[h.state]
    ensures r.0.heap.Keys <= w.heap.Keys + {r.1.state}
  {
    var (w', state) := PutIfAbsent(w, name, options);
    (w', FirebaseApp(state))
  }

  /** `Firebase.initializeApp(context, options)`: get-or-insert under the reserved default name. */
  function InitializeDefaultApp(w: World, context: PlatformContext, options: FirebaseOptions): (r: (World, FirebaseApp))
    requires Valid(w)
    ensures r == InitializeNamedApp(w, context, options, DefaultAppName)
    ensures App(r.0) == Success(r.1)
  {
    var (w', state) := PutIfAbsent(w, DefaultAppName, options);
    (w', FirebaseApp(state))
  }

  /** `Firebase.getApps(context)`: one handle per registered app, in insertion order. */
  function GetApps(w: World, context: PlatformContext): (r: seq<FirebaseApp>)
    requires Valid(w)
    ensures |r| == |Names(w)|
    ensures forall i :: 0 <= i < |r| ==> AppNamed(w, Names(w)[i]) == Success(r[i])
    ensures forall i, j :: 0 <= i < j < |r| ==> r[i] != r[j]
    ensures forall name :: AppNamed(w, name).Success? ==> AppNamed(w, name).value in r
  {
    var states := GetAll(w);
    var r := seq(|states|, i requires 0 <= i < |states| => FirebaseApp(states[i]));
    assert forall name :: AppNamed(w, name).Success? ==> AppNamed(w, name).value in r by {
      forall name | AppNamed(w, name).Success? ensures AppNamed(w, name).value in r {
        var i :| 0 <= i < |states| && states[i] == Get(w, name).value;
        assert r[i] == AppNamed(w, name).value;
      }
    }
    r
  }

  /**
   Setting `dataCollectionDefaultEnabled` writes the handle's shared state
   object: that one field changes, every other field and every other state
   object stays, and the registry is untouched.
   */
  function SetDataCollectionDefaultEnabled(w: World, app: FirebaseApp, value: Option<bool>): (w': World)
    requires Valid(w) && Live(w, app)
    ensures Valid(w')
    ensures w'.apps == w.apps && w'.next == w.next && w'.heap.Keys == w.heap.Keys
    ensures DataCollectionDefaultEnabled(w', app) == value
    ensures forall h :: Live(w, h) ==>
      && SameIdentity(w, w', h)
      && AutomaticResourceManagementEnabled(w', h) == AutomaticResourceManagementEnabled(w, h)
    ensures forall h :: Live(w, h) && h.state != app.state ==>
      DataCollectionDefaultEnabled(w', h) == DataCollectionDefaultEnabled(w, h)
  {
    var s := w.heap[app.state];
    World(w.apps, w.heap[app.state := s.(dataCollectionDefaultEnabled := value)], w.next)
  }

  /**
   Setting `automaticResourceManagementEnabled` writes the handle's shared
   state object: that one field changes, every other field and every other
   state object stays, and the registry is untouched.
   */
  function SetAutomaticResourceManagementEnabled(w: World, app: FirebaseApp, value: bool): (w': World)
    requires Valid(w) && Live(w, app)
    ensures Valid(w')
    ensures w'.apps == w.apps && w'.next == w.next && w'.heap.Keys == w.heap.Keys
    ensures AutomaticResourceManagementEnabled(w', app) == value
    ensures forall h :: Live(w, h) ==>
      && SameIdentity(w, w', h)
      && DataCollectionDefaultEnabled(w', h) == DataCollectionDefaultEnabled(w, h)
    ensures forall h :: Live(w, h) && h.state != app.state ==>
      AutomaticResourceManagementEnabled(w', h) == AutomaticResourceManagementEnabled(w, h)
  {
    var s := w.heap[app.state];
    World(w.apps, w.heap[app.state := s.(automaticResourceManagementEnabled := value)], w.next)
  }

  /** `FirebaseApp.persistenceKey`: the app's name and its application id joined by `+`; on the JVM it is never null. */
  function PersistenceKey(w: World, app: FirebaseApp): (r: Option<string>)
    requires Live(w, app)
    ensures r.Some?
    ensures |r.value| == |Name(w, app)| + 1 + |Options(w, app).applicationId|
    ensures r.value[..|Name(w, app)|] == Name(w, app)
    ensures r.value[|Name(w, app)|] == '+'
    ensures r.value[|Name(w, app)| + 1..] == Options(w, app).applicationId
  {
    Some(Name(w, app) + "+" + Options(w, app).applicationId)
  }

  /**
   `FirebaseApp.delete()`: unregisters the handle's NAME and reports whether
   that name was registered. The handle's state object stays readable.
   */
  function Delete(w: World, app: FirebaseApp): (r: (World, bool))
    requires Valid(w) && Live(w, app)
    ensures Valid(r.0)
    ensures r.1 <==> Name(w, app) in Names(w)
    ensures AppNamed(r.0, Name(w, app)).Failure?
    ensures forall other :: other != Name(w, app) ==> AppNamed(r.0, other) == AppNamed(w, other)
    ensures r.0.heap == w.heap
    ensures Live(r.0, app) && Name(r.0, app) == Name(w, app)
    ensures Name(w, app) !in Names(w) ==> r.0 == w
    ensures forall i :: 0 <= i < |Names(w)| && Names(w)[i] == Name(w, app) ==>
      Names(r.0) == Names(w)[..i] + Names(w)[i + 1..]
  {
    JvmRegistry.Delete(w, Name(w, app))
  }

  /** The text before the first `+` and the text after it; `None` when there is no `+`. */
  function SplitAtPlus(key: string): (r: Option<(string, string)>)
    ensures r.Some? ==> r.value.0 + "+" + r.value.1 == key && '+' !in r.value.0
    ensures r.None? ==> '+' !in key
  {
    if |key| == 0 then None
    else if key[0] == '+' then Some(([], key[1..]))
    else match SplitAtPlus(key[1..])
      case None => None
      case Some((before, after)) => Some(([key[0]] + before, after))
  }

  /** A name without `+` can be read back from the persistence key, and so can the application id. */
  lemma {:induction false} PersistenceKeyRoundTrip(w: World, app: FirebaseApp)
    requires Live(w, app)
    requires '+' !in Name(w, app)
    ensures SplitAtPlus(PersistenceKey(w, app).value) == Some((Name(w, app), Options(w, app).applicationId))
  {
    SplitJoin(Name(w, app), Options(w, app).applicationId);
  }

  lemma {:induction false} SplitJoin(before: string, after: string)
    requires '+' !in before
    ensures SplitAtPlus(before + "+" + after) == Some((before, after))
  {
    if |before| > 0 {
      assert (before + "+" + after)[1..] == before[1..] + "+" + after;
      SplitJoin(before[1..], after);
      assert [before[0]] + before[1..] == before;
    }
  }

  /** Two apps whose names contain no `+` share a persistence key only when they share name and application id. */
  lemma PersistenceKeyInjective(w: World, a: FirebaseApp, b: FirebaseApp)
    requires Live(w, a) && Live(w, b)
    requires '+' !in Name(w, a) && '+' !in Name(w, b)
    requires PersistenceKey(w, a) == PersistenceKey(w, b)
    ensures Name(w, a) == Name(w, b)
    ensures Options(w, a).applicationId == Options(w, b).applicationId
  {
    PersistenceKeyRoundTrip(w, a);
    PersistenceKeyRoundTrip(w, b);
  }

  /**
   Without the `+`-free restriction the key is ambiguous: an app named
   `a+b` with application id `c` and an app named `a` with application id
   `b+c` can both be registered, and both have the key `a+b+c`.
   */
  lemma PersistenceKeyCollision(context: PlatformContext, first: FirebaseOptions, second: FirebaseOptions)
    requires first.applicationId == "c" && second.applicationId == "b+c"
    ensures var (w1, a) := InitializeNamedApp(Boot(), context, first, "a+b");
      var (w2, b) := InitializeNamedApp(w1, context, second, "a");
      && Names(w2) == ["a+b", "a"]
      && Live(w2, a) && Live(w2, b)
      && Name(w2, a) != Name(w2, b)
      && PersistenceKey(w2, a) == PersistenceKey(w2, b)
  {
    var (w1, a) := InitializeNamedApp(Boot(), context, first, "a+b");
    var (w2, b) := InitializeNamedApp(w1, context, second, "a");
    assert Name(w2, a) == "a+b";
    assert "a+b" + "+" + "c" == "a" + "+" + "b+c";
  }

  /** After a default initialization, `Firebase.app`, `initializeApp(context)` and `Firebase.app("[DEFAULT]")` all wrap its state object. */
  lemma InitializeDefaultThenLookups(w: World, context: PlatformContext, options: FirebaseOptions)
    requires Valid(w)
    ensures var (w', app) := InitializeDefaultApp(w, context, options);
      && App(w') == Success(app)
      && InitializeApp(w', context) == Success(app)
      && AppNamed(w', DefaultAppName) == Success(app)
  {
  }

  /**
   First writer wins: two initializations under one new name store one app;
   both results are handles over one state object, which carries the first caller's options.
   */
  lemma FirstWriterWins(w: World, context: PlatformContext, name: string, first: FirebaseOptions, second: FirebaseOptions)
    requires Valid(w)
    requires name !in Names(w)
    ensures var (w1, a1) := InitializeNamedApp(w, context, first, name);
      var (w2, a2) := InitializeNamedApp(w1, context, second, name);
      && w2 == w1
      && a2 == a1
      && Options(w2, a2) == first
      && Names(w2) == Names(w) + [name]
  {
  }

  /** A flag written through one handle is what a later lookup of the app's name reads. */
  lemma FlagVisibleThroughLookup(w: World, app: FirebaseApp, dataCollection: Option<bool>, automatic: bool)
    requires Valid(w) && Live(w, app)
    requires AppNamed(w, Name(w, app)) == Success(app)
    ensures var w1 := SetDataCollectionDefaultEnabled(w, app, dataCollection);
      var w2 := SetAutomaticResourceManagementEnabled(w1, app, automatic);
      && AppNamed(w2, Name(w, app)).Success?
      && DataCollectionDefaultEnabled(w2, AppNamed(w2, Name(w, app)).value) == dataCollection
      && AutomaticResourceManagementEnabled(w2, AppNamed(w2, Name(w, app)).value) == automatic
  {
  }

  /**
   A handle kept across a delete and a re-initialization of its name is
   stale: it still reads its old state object, so the new app's flags are
   not its flags, yet its `delete()` goes by name and unregisters the new app.
   */
  lemma StaleHandleAfterReinitialize(w: World, context: PlatformContext, app: FirebaseApp, options: FirebaseOptions, value: bool)
    requires Valid(w) && Live(w, app)
    requires AppNamed(w, Name(w, app)) == Success(app)
    ensures var name := Name(w, app);
      var (w1, _) := Delete(w, app);
      var (w2, successor) := InitializeNamedApp(w1, context, options, name);
      var w3 := SetAutomaticResourceManagementEnabled(w2, app, value);
      && successor != app
      && AutomaticResourceManagementEnabled(w3, app) == value
      && !AutomaticResourceManagementEnabled(w3, successor)
      && Delete(w3, app).1
      && AppNamed(Delete(w3, app).0, name).Failure?
  {
  }

  /** Deleting an app twice: the first call reports true, the second false, and the second changes nothing. */
  lemma DeleteReportsPresence(w: World, app: FirebaseApp)
    requires Valid(w) && Live(w, app)
    requires AppNamed(w, Name(w, app)).Success?
    ensures var (w1, first) := Delete(w, app);
      var (w2, second) := Delete(w1, app);
      first && !second && w2 == w1
  {
  }
}
