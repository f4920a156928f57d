/** The exported methods of *Loader[T] as they behave on a pointer that may
    be nil: every one of them is safe to call on nil, where it reports the
    "<nil> Loader" error, returns the zero value, false or the invalid file,
    or does nothing. On a non-nil pointer each one is the Loader method. */
module LoaderRef {
  import opened Errors
  import opened Loading

  /** A *Loader[T]: None is the nil pointer. */
  type Ref<T> = Option<Loader<T>>

  /** The objects a call through `l` may touch: the loader, if there is one. */
  function Target<T>(l: Ref<T>): set<object> {
    if l.Some? then {l.value} else {}
  }

  /** File: the watched file, or the invalid file for nil. */
  function File<T>(l: Ref<T>): (f: FilePath)
    ensures l.None? ==> f == InvalidFile
    ensures l.Some? ==> f == l.value.file
  {
    match l
    case None => InvalidFile
    case Some(loader) => loader.file
  }

  /** Loaded: true exactly for a non-nil loader whose cache is fresh. */
  function Loaded<T>(l: Ref<T>): (b: bool)
    reads Target(l)
    ensures b <==> l.Some? && l.value.loaded
  {
    match l
    case None => false
    case Some(loader) => loader.loaded
  }

  /** Invalidate: a no-op on nil; otherwise the cache becomes stale. */
  method Invalidate<T>(l: Ref<T>)
    requires l.Some? ==> l.value.Valid()
    modifies Target(l)
    ensures l.Some? ==> l.value.Valid() && !l.value.loaded
    ensures l.Some? ==> l.value.config == old(l.value.config) && l.value.unwatch == old(l.value.unwatch)
    ensures l.Some? ==> l.value.stored == old(l.value.stored) && l.value.loadCalls == old(l.value.loadCalls)
    ensures l.Some? ==>
      l.value.watchesStarted == old(l.value.watchesStarted) && l.value.watchesStopped == old(l.value.watchesStopped)
    ensures l.Some? ==>
      l.value.invalidateCalls == old(l.value.invalidateCalls) + (if l.value.hasOnInvalidate then 1 else 0)
  {
    if l.Some? {
      l.value.Invalidate();
    }
  }

  /** Watch: the "<nil> Loader" error on nil; otherwise Loader.Watch. */
  method Watch<T>(l: Ref<T>, setup: Result<WatchHandle>) returns (err: Option<Error>)
    requires l.Some? ==> l.value.Valid()
    modifies Target(l)
    ensures l.None? ==> err == Some(NilLoader)
    ensures l.Some? ==> l.value.Valid()
    ensures l.Some? && old(l.value.unwatch).Some? ==> err == Some(AlreadyWatched(l.value.file)) && unchanged(l.value)
    ensures l.Some? && old(l.value.unwatch).None? && setup.Err? ==>
      err == Some(WatchFailed(setup.error)) && unchanged(l.value)
    ensures l.Some? && old(l.value.unwatch).None? && setup.Ok? ==>
      && err == None && l.value.unwatch == Some(setup.value)
      && l.value.watchesStarted == old(l.value.watchesStarted) + 1
      && l.value.watchesStopped == old(l.value.watchesStopped)
      && l.value.config == old(l.value.config) && l.value.loaded == old(l.value.loaded)
      && l.value.stored == old(l.value.stored)
      && l.value.loadCalls == old(l.value.loadCalls) && l.value.invalidateCalls == old(l.value.invalidateCalls)
  {
    if l.None? {
      return Some(NilLoader);
    }
    err := l.value.Watch(setup);
  }

  /** Unwatch: the "<nil> Loader" error on nil; otherwise Loader.Unwatch. */
  method Unwatch<T>(l: Ref<T>, release: Option<Error>) returns (err: Option<Error>)
    requires l.Some? ==> l.value.Valid()
    modifies Target(l)
    ensures l.None? ==> err == Some(NilLoader)
    ensures l.Some? ==> l.value.Valid()
    ensures l.Some? && old(l.value.unwatch).None? ==> err == Some(NotWatched(l.value.file)) && unchanged(l.value)
    ensures l.Some? && old(l.value.unwatch).Some? ==>
      && err == release && l.value.unwatch == None
      && l.value.watchesStopped == old(l.value.watchesStopped) + 1
      && l.value.watchesStarted == old(l.value.watchesStarted)
      && l.value.config == old(l.value.config) && l.value.loaded == old(l.value.loaded)
      && l.value.stored == old(l.value.stored)
      && l.value.loadCalls == old(l.value.loadCalls) && l.value.invalidateCalls == old(l.value.invalidateCalls)
  {
    if l.None? {
      return Some(NilLoader);
    }
    err := l.value.Unwatch(release);
  }

  /** Load: the zero value of T and the "<nil> Loader" error on nil;
      otherwise Loader.Load. */
  method Load<T>(l: Ref<T>, zero: T, outcome: Result<T>) returns (c: T, err: Option<Error>)
    requires l.Some? ==> l.value.Valid() && (l.value.loaded || l.value.hasLoad)
    modifies Target(l)
    ensures l.None? ==> c == zero && err == Some(NilLoader)
    ensures l.Some? ==> l.value.Valid()
    ensures l.Some? ==>
      && l.value.unwatch == old(l.value.unwatch) && l.value.invalidateCalls == old(l.value.invalidateCalls)
      && l.value.watchesStarted == old(l.value.watchesStarted)
      && l.value.watchesStopped == old(l.value.watchesStopped)
    ensures l.Some? && old(l.value.loaded) ==> c == old(l.value.config) && err == None && unchanged(l.value)
    ensures l.Some? && !old(l.value.loaded) ==> l.value.loadCalls == old(l.value.loadCalls) + 1
    ensures l.Some? && !old(l.value.loaded) && outcome.Ok? ==>
      && l.value.loaded && l.value.config == ApplyOnLoad(l.value.onLoad, outcome.value)
      && l.value.stored == old(l.value.stored) + [l.value.config]
      && c == l.value.config && err == None
    ensures l.Some? && !old(l.value.loaded) && outcome.Err? ==>
      && !l.value.loaded && l.value.config == old(l.value.config) && l.value.stored == old(l.value.stored)
      && err == Some(outcome.error)
      && c == (if l.value.onError.Some? then l.value.onError.value(outcome.error) else old(l.value.config))
  {
    if l.None? {
      return zero, Some(NilLoader);
    }
    c, err := l.value.Load(outcome);
  }

  /** Get: the zero value of T on nil; otherwise Loader.Get. */
  method Get<T>(l: Ref<T>, zero: T, outcome: Result<T>) returns (c: T)
    requires l.Some? ==> l.value.Valid() && (l.value.loaded || l.value.hasLoad)
    modifies Target(l)
    ensures l.None? ==> c == zero
    ensures l.Some? ==> l.value.Valid()
    ensures l.Some? ==>
      && l.value.unwatch == old(l.value.unwatch) && l.value.invalidateCalls == old(l.value.invalidateCalls)
      && l.value.watchesStarted == old(l.value.watchesStarted)
      && l.value.watchesStopped == old(l.value.watchesStopped)
    ensures l.Some? && old(l.value.loaded) ==> c == old(l.value.config) && unchanged(l.value)
    ensures l.Some? && !old(l.value.loaded) ==> l.value.loadCalls == old(l.value.loadCalls) + 1
    ensures l.Some? && !old(l.value.loaded) && outcome.Ok? ==>
      && l.value.loaded && l.value.config == ApplyOnLoad(l.value.onLoad, outcome.value)
      && l.value.stored == old(l.value.stored) + [l.value.config] && c == l.value.config
    ensures l.Some? && !old(l.value.loaded) && outcome.Err? ==>
      && !l.value.loaded && l.value.config == old(l.value.config) && l.value.stored == old(l.value.stored)
      && c == (if l.value.onError.Some? then l.value.onError.value(outcome.error) else old(l.value.config))
  {
    var err;
    c, err := Load(l, zero, outcome);
  }
}
