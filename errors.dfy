/** Go's `error` values as they appear in the package, plus the Option and
    Result wrappers the rest of the model uses for nilable values and for the
    (value, error) pairs returned by collaborators. */
module Errors {

  datatype Option<+T> = None | Some(value: T)

  /** What a collaborator call (a load function, a watch setup, a file read)
      produced: a value, or a non-nil error. */
  datatype Result<+T> = Ok(value: T) | Err(error: Error)

  /** The errors the package creates, and the ones it passes on. */
  datatype Error =
    | NilLoader                      // "<nil> Loader"
    | NilLoadFunc                    // "load function must not be nil"
    | EmptyFilePath                  // "file path must not be empty"
    | AlreadyWatched(file: string)   // "config file already watched: %s"
    | NotWatched(file: string)       // "config file not watched: %s"
    | WatchFailed(cause: Error)      // "watch config file error: %w"
    | External(msg: string)          // produced by a collaborator (file system, decoder, hook)
    | Joined(errs: seq<Error>)       // the value built by errors.Join

  /** The text of Error() for each kind of error. A wrapped cause and the
      file name end the text they are formatted into, and errors.Join of a
      single error reads as that error alone. */
  function Message(e: Error): (m: string)
    ensures e.WatchFailed? ==> EndsWith(m, Message(e.cause))
    ensures e.AlreadyWatched? ==> EndsWith(m, e.file)
    ensures e.NotWatched? ==> EndsWith(m, e.file)
    ensures e.Joined? && |e.errs| == 1 ==> m == Message(e.errs[0])
    ensures e.Joined? && e.errs == [] ==> m == ""
    decreases e
  {
    match e
    case NilLoader => "<nil> Loader"
    case NilLoadFunc => "load function must not be nil"
    case EmptyFilePath => "file path must not be empty"
    case AlreadyWatched(f) => "config file already watched: " + f
    case NotWatched(f) => "config file not watched: " + f
    case WatchFailed(cause) => "watch config file error: " + Message(cause)
    case External(msg) => msg
    case Joined(errs) => JoinMessages(errs, e)
  }

  predicate EndsWith(s: string, suffix: string) {
    |suffix| <= |s| && s[|s| - |suffix|..] == suffix
  }

  function JoinMessages(errs: seq<Error>, ghost parent: Error): string
    requires forall x | x in errs :: x < parent
    decreases parent, |errs|
  {
    if errs == [] then ""
    else
      assert errs[0] in errs;
      if |errs| == 1 then Message(errs[0])
      else
        assert forall x | x in errs[1..] :: x in errs;
        Message(errs[0]) + "\n" + JoinMessages(errs[1..], parent)
  }

  /** The non-nil entries of `errs`, in order. */
  function Present(errs: seq<Option<Error>>): (es: seq<Error>)
    ensures |es| <= |errs|
    ensures forall e :: e in es <==> Some(e) in errs
  {
    if errs == [] then []
    else
      var rest := Present(errs[1..]);
      assert errs == [errs[0]] + errs[1..];
      if errs[0].Some? then [errs[0].value] + rest else rest
  }

  /** Parent-independent facts used to unfold JoinMessages. */
  lemma JoinMessagesCons(xs: seq<Error>, p: Error)
    requires |xs| > 1
    requires forall x | x in xs :: x < p
    ensures forall x | x in xs[1..] :: x < p
    ensures JoinMessages(xs, p) == Message(xs[0]) + "\n" + JoinMessages(xs[1..], p)
  {
    assert forall x | x in xs[1..] :: x in xs;
  }

  /** errors.Join's Error(): the texts of the joined errors, one per line. */
  lemma {:induction false} JoinMessagesSnoc(xs: seq<Error>, y: Error, p: Error, q: Error)
    requires xs != []
    requires forall x | x in xs + [y] :: x < p
    requires forall x | x in xs :: x < q
    ensures JoinMessages(xs + [y], p) == JoinMessages(xs, q) + "\n" + Message(y)
    decreases |xs|
  {
    var ys := xs + [y];
    assert ys[0] == xs[0] && ys[1..] == xs[1..] + [y];
    JoinMessagesCons(ys, p);
    if |xs| == 1 {
      assert ys[1..] == [y];
      assert JoinMessages(xs, q) == Message(xs[0]);
    } else {
      JoinMessagesCons(xs, q);
      JoinMessagesSnoc(xs[1..], y, p, q);
    }
  }

  /** The non-nil entries of a concatenation are those of each part, in
      order: Present filters without reordering or merging. */
  lemma {:induction false} PresentAppend(a: seq<Option<Error>>, b: seq<Option<Error>>)
    ensures Present(a + b) == Present(a) + Present(b)
    decreases |a|
  {
    if a == [] {
      assert a + b == b;
    } else {
      assert (a + b)[0] == a[0] && (a + b)[1..] == a[1..] + b;
      PresentAppend(a[1..], b);
    }
  }

  /** A nil entry contributes nothing, a non-nil one contributes itself. */
  lemma PresentOne(o: Option<Error>)
    ensures Present([o]) == (if o.Some? then [o.value] else [])
  {
    assert [o][1..] == [];
  }

  /** errors.Join: nil when every argument is nil, otherwise one error
      wrapping the non-nil arguments in order (even when there is only one). */
  function Join(errs: seq<Option<Error>>): (r: Option<Error>)
    ensures r.None? <==> forall i :: 0 <= i < |errs| ==> errs[i].None?
    ensures r.Some? ==> r.value == Joined(Present(errs))
    ensures forall e :: Some(e) in errs ==> r.Some? && e in r.value.errs
  {
    var es := Present(errs);
    if es == [] then
      assert forall i :: 0 <= i < |errs| ==> errs[i] in errs;
      None
    else
      assert Some(es[0]) in errs;
      Some(Joined(es))
  }
}
