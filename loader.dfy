/** The Loader[T] cache: a configuration of type T loaded from one file by a
    load function, kept until the file's directory watcher reports a write or
    a (re)creation of the file, then reloaded on the next Load or Get.

    Each method is one atomic step (the mutex only serialises them). What the
    collaborators do is passed in as the outcome of that call: `outcome` is
    what the load function returns, `setup` what starting the directory watch
    returns, `release` what stopping it returns. Calls of the load function
    and of onInvalidate, which act only through their side effects, are
    counted in ghost fields. */
module Loading {
  import opened Errors

  /** fs.File is a path string. */
  type FilePath = string

  /** fs.InvalidFile */
  const InvalidFile: FilePath := ""

  /** The operations an fs.Event can carry. */
  datatype Op = Create | Write | Remove | Rename | Chmod

  /** An fs.Event: the set of operations it reports. */
  type Event = set<Op>

  /** The watch callback's filter: an event on `f` invalidates the loader of
      `file` when it is that very file and the event creates or writes it. */
  predicate Invalidates(file: FilePath, f: FilePath, e: Event): (b: bool)
    ensures b <==> f == file && !(e <= {Remove, Rename, Chmod})
  {
    assert Create !in e && Write !in e ==> e <= {Remove, Rename, Chmod} by {
      if Create !in e && Write !in e {
        forall op | op in e ensures op in {Remove, Rename, Chmod} {
          assert op != Create && op != Write;
        }
      }
    }
    f == file && (Create in e || Write in e)
  }

  /** Deleting, renaming or re-moding the file keeps the cached configuration;
      recreating it, even together with a deletion, drops it; and events on
      other files never drop it. */
  lemma InvalidatesOnlyOnCreateOrWrite(file: FilePath, f: FilePath, e: Event)
    ensures e <= {Remove, Rename, Chmod} ==> !Invalidates(file, f, e)
    ensures f != file ==> !Invalidates(file, f, e)
    ensures Invalidates(file, file, {Remove, Create})
    ensures Invalidates(file, file, {Write})
  {
    assert Create in {Remove, Create};
  }

  /** The handle returned by starting a directory watch; its only use is to
      stop that watch again. */
  datatype WatchHandle = WatchHandle(id: nat)

  /** onLoad applied to a freshly loaded value, when it is set. */
  function ApplyOnLoad<T>(onLoad: Option<T -> T>, v: T): T {
    match onLoad
    case None => v
    case Some(f) => f(v)
  }

  class Loader<T> {
    const file: FilePath
    /** Whether a load function was given (a nil one panics when called). */
    const hasLoad: bool
    const onLoad: Option<T -> T>
    const onError: Option<Error -> T>
    const hasOnInvalidate: bool
    /** The zero value of T, the configuration before the first load. */
    const zero: T

    /** Some(h) while the directory watch h is running (Go: unwatch != nil). */
    var unwatch: Option<WatchHandle>
    var config: T
    /** Whether config is fresh. */
    var loaded: bool

    /** Every configuration Load has stored, oldest first. */
    ghost var stored: seq<T>
    /** How many times the load function has been called. */
    ghost var loadCalls: nat
    /** How many times onInvalidate has been called. */
    ghost var invalidateCalls: nat
    /** How many directory watches were started and how many stopped. */
    ghost var watchesStarted: nat
    ghost var watchesStopped: nat

    /** config is the last stored value (the zero value before any), a fresh
        cache has been loaded at least once, each stored value came from one
        call of the load function, and at most one watch runs at a time: the
        one held in unwatch. */
    ghost predicate Valid()
      reads this
    {
      && config == (if stored == [] then zero else stored[|stored| - 1])
      && (loaded ==> stored != [])
      && |stored| <= loadCalls
      && watchesStarted == watchesStopped + (if unwatch.Some? then 1 else 0)
    }

    /** NewLoader: nothing loaded, nothing watched, no hook called yet. */
    constructor (file: FilePath, hasLoad: bool, onLoad: Option<T -> T>, onError: Option<Error -> T>,
                 hasOnInvalidate: bool, zero: T)
      ensures Valid()
      ensures this.file == file && this.hasLoad == hasLoad && this.onLoad == onLoad
      ensures this.onError == onError && this.hasOnInvalidate == hasOnInvalidate && this.zero == zero
      ensures !loaded && config == zero && unwatch == None
      ensures stored == [] && loadCalls == 0 && invalidateCalls == 0
      ensures watchesStarted == 0 && watchesStopped == 0
    {
      this.file := file;
      this.hasLoad := hasLoad;
      this.onLoad := onLoad;
      this.onError := onError;
      this.hasOnInvalidate := hasOnInvalidate;
      this.zero := zero;
      unwatch := None;
      config := zero;
      loaded := false;
      stored := [];
      loadCalls := 0;
      invalidateCalls := 0;
      watchesStarted := 0;
      watchesStopped := 0;
    }

    /** Load: serve a fresh cache without calling the load function;
        otherwise call it once and store onLoad of its value, or, when it
        fails, report the error and serve onError's value or else the last
        known configuration, leaving the cache as it was (still stale). */
    method Load(outcome: Result<T>) returns (c: T, err: Option<Error>)
      requires Valid()
      requires loaded || hasLoad
      modifies this
      ensures Valid()
      ensures unwatch == old(unwatch) && invalidateCalls == old(invalidateCalls)
      ensures watchesStarted == old(watchesStarted) && watchesStopped == old(watchesStopped)
      ensures old(loaded) ==> c == old(config) && err == None && unchanged(this)
      ensures !old(loaded) ==> loadCalls == old(loadCalls) + 1
      ensures !old(loaded) && outcome.Ok? ==>
        && loaded && config == ApplyOnLoad(onLoad, outcome.value) && stored == old(stored) + [config]
        && c == config && err == None
      ensures !old(loaded) && outcome.Err? ==>
        && !loaded && config == old(config) && stored == old(stored)
        && err == Some(outcome.error)
        && c == (if onError.Some? then onError.value(outcome.error) else old(config))
    {
      if loaded {
        return config, None;
      }
      loadCalls := loadCalls + 1;
      match outcome
      case Err(e) =>
        if onError.Some? {
          return onError.value(e), Some(e);
        }
        return config, Some(e);
      case Ok(v) =>
        config := ApplyOnLoad(onLoad, v);
        stored := stored + [config];
        loaded := true;
        return config, None;
    }

    /** Get: the configuration Load serves, without its error. */
    method Get(outcome: Result<T>) returns (c: T)
      requires Valid()
      requires loaded || hasLoad
      modifies this
      ensures Valid()
      ensures unwatch == old(unwatch) && invalidateCalls == old(invalidateCalls)
      ensures watchesStarted == old(watchesStarted) && watchesStopped == old(watchesStopped)
      ensures old(loaded) ==> c == old(config) && unchanged(this)
      ensures !old(loaded) ==> loadCalls == old(loadCalls) + 1
      ensures !old(loaded) && outcome.Ok? ==>
        loaded && config == ApplyOnLoad(onLoad, outcome.value) && stored == old(stored) + [config] && c == config
      ensures !old(loaded) && outcome.Err? ==>
        && !loaded && config == old(config) && stored == old(stored)
        && c == (if onError.Some? then onError.value(outcome.error) else old(config))
    {
      var err;
      c, err := Load(outcome);
    }

    /** Invalidate: mark the cache stale, keeping the configuration and the
        watch, and call onInvalidate once when it is set. */
    method Invalidate()
      requires Valid()
      modifies this
      ensures Valid()
      ensures !loaded
      ensures config == old(config) && stored == old(stored) && unwatch == old(unwatch)
      ensures loadCalls == old(loadCalls)
      ensures watchesStarted == old(watchesStarted) && watchesStopped == old(watchesStopped)
      ensures invalidateCalls == old(invalidateCalls) + (if hasOnInvalidate then 1 else 0)
    {
      loaded := false;
      if hasOnInvalidate {
        invalidateCalls := invalidateCalls + 1;
      }
    }

    /** The watch callback: invalidate exactly on a create or write of the
        loader's own file, ignore every other event. */
    method OnWatchEvent(f: FilePath, e: Event)
      requires Valid()
      modifies this
      ensures Valid()
      ensures Invalidates(file, f, e) ==>
        && !loaded && config == old(config) && stored == old(stored) && unwatch == old(unwatch)
        && loadCalls == old(loadCalls)
        && watchesStarted == old(watchesStarted) && watchesStopped == old(watchesStopped)
        && invalidateCalls == old(invalidateCalls) + (if hasOnInvalidate then 1 else 0)
      ensures !Invalidates(file, f, e) ==> unchanged(this)
    {
      if f == file && (Create in e || Write in e) {
        Invalidate();
      }
    }

    /** Watch: refuse a second watch; otherwise start watching the file's
        directory and keep the handle, or report the setup failure wrapped. */
    method Watch(setup: Result<WatchHandle>) returns (err: Option<Error>)
      requires Valid()
      modifies this
      ensures Valid()
      ensures old(unwatch).Some? ==> err == Some(AlreadyWatched(file)) && unchanged(this)
      ensures old(unwatch).None? && setup.Err? ==> err == Some(WatchFailed(setup.error)) && unchanged(this)
      ensures old(unwatch).None? && setup.Ok? ==>
        && err == None && unwatch == Some(setup.value)
        && watchesStarted == old(watchesStarted) + 1 && watchesStopped == old(watchesStopped)
        && config == old(config) && loaded == old(loaded) && stored == old(stored)
        && loadCalls == old(loadCalls) && invalidateCalls == old(invalidateCalls)
    {
      if unwatch.Some? {
        return Some(AlreadyWatched(file));
      }
      match setup
      case Err(e) =>
        return Some(WatchFailed(e));
      case Ok(h) =>
        unwatch := Some(h);
        watchesStarted := watchesStarted + 1;
        return None;
    }

    /** Unwatch: refuse when nothing is watched; otherwise stop the watch and
        forget its handle, whatever stopping it returned. */
    method Unwatch(release: Option<Error>) returns (err: Option<Error>)
      requires Valid()
      modifies this
      ensures Valid()
      ensures old(unwatch).None? ==> err == Some(NotWatched(file)) && unchanged(this)
      ensures old(unwatch).Some? ==>
        && err == release && unwatch == None
        && watchesStopped == old(watchesStopped) + 1 && watchesStarted == old(watchesStarted)
        && config == old(config) && loaded == old(loaded) && stored == old(stored)
        && loadCalls == old(loadCalls) && invalidateCalls == old(invalidateCalls)
    {
      if unwatch.None? {
        return Some(NotWatched(file));
      }
      err := release;
      unwatch := None;
      watchesStopped := watchesStopped + 1;
    }
  }

  /** LoadAndWatch: check the load function, then the path, before anything
      starts; then watch, then load once. A failed initial load without
      onError stops the watch again and reports the load error joined with
      the result of stopping it; with onError the loader is returned without
      an error but still stale, so the next Get retries. `built` is the
      loader that was constructed, if any. */
  method LoadAndWatch<T>(file: FilePath, hasLoad: bool, onLoad: Option<T -> T>, onError: Option<Error -> T>,
                         hasOnInvalidate: bool, zero: T,
                         setup: Result<WatchHandle>, initial: Result<T>, release: Option<Error>)
    returns (l: Option<Loader<T>>, err: Option<Error>, ghost built: Option<Loader<T>>)
    ensures l.Some? <==> err.None?
    ensures l.Some? ==> built == l
    ensures !hasLoad ==> err == Some(NilLoadFunc) && built == None
    ensures hasLoad && file == "" ==> err == Some(EmptyFilePath) && built == None
    ensures hasLoad && file != "" ==>
      && built.Some? && fresh(built.value)
      && built.value.file == file && built.value.hasLoad && built.value.onLoad == onLoad && built.value.onError == onError
      && built.value.hasOnInvalidate == hasOnInvalidate && built.value.zero == zero
      && built.value.invalidateCalls == 0
    ensures hasLoad && file != "" && setup.Err? ==>
      && err == Some(WatchFailed(setup.error))
      && built.value.watchesStarted == 0 && built.value.loadCalls == 0
    ensures hasLoad && file != "" && setup.Ok? ==>
      && built.value.watchesStarted == 1 && built.value.loadCalls == 1
    ensures hasLoad && file != "" && setup.Ok? && initial.Err? && onError.None? ==>
      && err == Join([Some(initial.error), release])
      && built.value.watchesStopped == 1
    ensures hasLoad && file != "" && setup.Ok? && (initial.Ok? || onError.Some?) ==>
      && err == None && built.value.Valid()
      && built.value.unwatch == Some(setup.value) && built.value.watchesStopped == 0
      && built.value.loaded == initial.Ok?
      && built.value.config == (if initial.Ok? then ApplyOnLoad(onLoad, initial.value) else zero)
  {
    if !hasLoad {
      return None, Some(NilLoadFunc), None;
    }
    if file == "" {
      return None, Some(EmptyFilePath), None;
    }
    var loader := new Loader(file, hasLoad, onLoad, onError, hasOnInvalidate, zero);
    built := Some(loader);
    err := loader.Watch(setup);
    if err.Some? {
      return None, err, built;
    }
    var served, loadErr := loader.Load(initial);
    if loadErr.Some? && onError.None? {
      // Stopping the watch through the handle itself leaves the field set,
      // but the loader is dropped here.
      loader.watchesStopped := loader.watchesStopped + 1;
      return None, Join([loadErr, release]), built;
    }
    return Some(loader), None, built;
  }

  // ---------------------------------------------------------------------------
  // Sequences of calls

  /** Two Gets without an Invalidate between them call the load function at
      most once when the first finds the cache fresh or loads successfully,
      and both serve the same configuration; after a failed load the second
      Get calls it again. */
  method GetTwice<T>(l: Loader<T>, first: Result<T>, second: Result<T>) returns (c1: T, c2: T)
    requires l.Valid() && l.hasLoad
    modifies l
    ensures l.Valid()
    ensures old(l.loaded) || first.Ok? ==>
      && l.loadCalls <= old(l.loadCalls) + 1 && l.loaded && c1 == c2 && c2 == l.config
    ensures !old(l.loaded) && first.Err? ==> l.loadCalls == old(l.loadCalls) + 2
  {
    c1 := l.Get(first);
    c2 := l.Get(second);
  }

  /** An Invalidate between two Gets makes the second one call the load
      function again and serve onLoad of its new value when that succeeds. */
  method InvalidateThenGet<T>(l: Loader<T>, next: Result<T>) returns (c: T)
    requires l.Valid() && l.hasLoad
    modifies l
    ensures l.Valid()
    ensures l.loadCalls == old(l.loadCalls) + 1
    ensures next.Ok? ==> l.loaded && c == ApplyOnLoad(l.onLoad, next.value) && l.config == c
    ensures next.Err? ==> !l.loaded && l.config == old(l.config)
  {
    l.Invalidate();
    c := l.Get(next);
  }

  /** A failed initial load with onError set: LoadAndWatch returns the
      loader without an error but stale, holding the zero value, and the
      next Get calls the load function a second time. */
  method RetryAfterFailedInitialLoad<T>(file: FilePath, onLoad: Option<T -> T>, onError: Error -> T,
                                        hasOnInvalidate: bool, zero: T, h: WatchHandle, e: Error,
                                        release: Option<Error>, next: Result<T>)
    returns (l: Option<Loader<T>>, err: Option<Error>, c: T)
    requires file != ""
    ensures err == None && l.Some?
    ensures l.value.Valid() && l.value.loadCalls == 2 && l.value.unwatch == Some(h)
    ensures next.Ok? ==> l.value.loaded && c == ApplyOnLoad(onLoad, next.value)
    ensures next.Err? ==> !l.value.loaded && c == onError(next.error) && l.value.config == zero
  {
    ghost var built;
    l, err, built := LoadAndWatch(file, true, onLoad, Some(onError), hasOnInvalidate, zero,
                                  Ok(h), Err(e), release);
    c := l.value.Get(next);
  }

  /** Unwatch then Watch again: the second Watch is accepted, and however
      the calls end at most one watch is running. */
  method Rewatch<T>(l: Loader<T>, release: Option<Error>, setup: Result<WatchHandle>)
    returns (err1: Option<Error>, err2: Option<Error>)
    requires l.Valid()
    modifies l
    ensures l.Valid()
    ensures l.watchesStarted == old(l.watchesStarted) + (if setup.Ok? then 1 else 0)
    ensures l.watchesStopped == old(l.watchesStopped) + (if old(l.unwatch).Some? then 1 else 0)
    ensures old(l.unwatch).Some? ==> err1 == release
    ensures old(l.unwatch).None? ==> err1 == Some(NotWatched(l.file))
    ensures setup.Err? ==> err2 == Some(WatchFailed(setup.error)) && l.unwatch == None
    ensures setup.Ok? ==> err2 == None && l.unwatch == Some(setup.value)
  {
    err1 := l.Unwatch(release);
    err2 := l.Watch(setup);
  }
}
