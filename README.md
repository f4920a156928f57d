# go-dynconfig in Dafny

A model of the core of `github.com/ungerik/go-dynconfig`, with proofs about it. The package keeps a configuration of type `T` loaded from one file, and watches the file's directory. When the file is written or (re)created it marks the cached configuration stale, so the next `Get` reloads it. The package also provides the load functions that turn a text file into a string, a list of lines or a set of lines.

- `errors.dfy` (module `Errors`): `Option` and `Result`, plus the package's error values with their messages. It also models `errors.Join`, which `LoadAndWatch` uses.
- `strings.dfy` (module `GoStrings`): `unicode.IsSpace`, using the full Unicode White_Space table rather than ASCII only, and `strings.TrimSpace`.
- `loadfuncs.dfy` (module `LoadFuncs`):
  - `splitLines`, which is `strings.FieldsFunc` with CR and LF as separators;
  - the six text loaders. `LoadStringLinesTrimSpace` and the two set loaders keep the source's `for` loops as methods with loop invariants.
- `loader.dfy` (module `Loading`):
  - the `Loader[T]` class, whose methods update `config`, `loaded` and `unwatch` in place;
  - `NewLoader` as the constructor, and `LoadAndWatch`;
  - the watch callback's event filter, and a few sequences of calls.
- `loader_ref.dfy` (module `LoaderRef`): the exported methods called through a `*Loader[T]` that may be nil, where `None` is the nil pointer.

What the collaborators return is a parameter of the call that uses it:

- the load function's `(T, error)` is `outcome: Result<T>`;
- `file.Dir().Watch(...)` is `setup: Result<WatchHandle>`;
- calling the stored `unwatch` function is `release: Option<Error>`;
- `ReadAllString` is `read: Result<string>`.

Ghost fields count the calls of the load function and of `onInvalidate`, and the watches started and stopped. With them, "does not call the load function" and "at most one watch at a time" can be stated. `onLoad` and `onError` are `Option` function values. The zero value of `T` is passed explicitly.

Two behaviours of the code deserve stating plainly, because a reader could expect otherwise:

- `splitLines` drops every empty field, blank lines included. `"a\n\nb"` gives `["a", "b"]`, not `["a", "", "b"]` (`LoadFuncs.BlankLineDropped`).
- A failed `Load` with `onError` set returns `onError`'s value but does not store it, and leaves the cache stale. So after a failed initial load, `LoadAndWatch` returns a loader that is not loaded, and the next `Get` calls the load function again. The value `onError` produced is never the cached value (`Loading.LoadAndWatch`, `Loading.RetryAfterFailedInitialLoad`).

## Model

| member | source | states |
|---|---|---|
| Errors.Present | loader.go:74 | the errors passed to errors.Join that are non-nil, and nothing else; never more than were passed |
| Errors.PresentAppend | loader.go:74 | filtering a concatenation is the concatenation of the filtered parts, so with PresentOne the non-nil errors keep their order and multiplicity |
| Errors.PresentOne | loader.go:74 | a nil argument contributes nothing, a non-nil one contributes itself |
| Errors.Message | loader.go:61-161 | the texts of Error(): the wrapped cause ends the "watch config file error: " text (%w), the file name ends the already-watched and not-watched texts, and errors.Join of one error reads as that error; a Joined value with no errors, which Join never builds, reads as "" |
| Errors.JoinMessagesSnoc | loader.go:74 | errors.Join's text is the texts of its errors separated by newlines: one more error appends a newline and its text |
| Errors.Join | loader.go:74 | errors.Join is nil exactly when all its arguments are nil; otherwise it wraps the non-nil ones in order, even when there is only one |
| GoStrings.IsSpace | loadfuncs.go:34 | unicode.IsSpace as strings.TrimSpace uses it; within Latin-1 it is exactly \t \n \v \f \r, space, U+0085 and U+00A0 |
| GoStrings.TrimLeft | loadfuncs.go:34 | removes exactly the leading run of white space: the result is a suffix, everything cut is space, and the result does not start with space |
| GoStrings.TrimRight | loadfuncs.go:34 | removes exactly the trailing run of white space, symmetrically |
| GoStrings.TrimSpace | loadfuncs.go:34 | strings.TrimSpace never lengthens its input |
| GoStrings.TrimSpaceIsTrimOf | loadfuncs.go:34 | TrimSpace(s) is the slice of s left after removing all-space prefix and suffix runs, and it neither starts nor ends with space |
| GoStrings.TrimSpaceEmptyIff | loadfuncs.go:54 | TrimSpace(s) is "" exactly when s is all white space, which is the case the trimming loaders skip |
| GoStrings.TrimSpaceIdempotent | loadfuncs.go:34 | trimming an already trimmed string changes nothing |
| GoStrings.TrimSpaceOfTrimmed | loadfuncs.go:34 | a string with no white space at either end is its own trim |
| LoadFuncs.FieldEnd | loadfuncs.go:89-91 | the length of the leading run without CR or LF: every rune before it is not a break, and the rune at it is a break |
| LoadFuncs.SplitLines | loadfuncs.go:89-91 | splitLines never yields more lines than the input has runes; its meaning is stated by the lemmas below |
| LoadFuncs.SplitLinesAreLines | loadfuncs.go:89-91 | every element of splitLines is non-empty and contains no CR or LF |
| LoadFuncs.SplitLinesConcat | loadfuncs.go:89-91 | concatenating the lines gives back the input with every CR and LF removed, in order |
| LoadFuncs.SplitAtBreaks | loadfuncs.go:89-91 | reference definition: cutting at every single break gives one piece more than there are breaks, and no piece contains a break |
| LoadFuncs.SplitAtBreaksConcat | loadfuncs.go:89-91 | the pieces put back together are the input with every CR and LF removed |
| LoadFuncs.SplitLinesDropsEmptyPieces | loadfuncs.go:89-91 | splitLines equals "cut at every CR and LF, then drop the empty pieces", which is FieldsFunc's rule |
| LoadFuncs.SplitLinesOfLine | loadfuncs.go:89-91 | a non-empty text without breaks is one line |
| LoadFuncs.SplitLinesAtBreak | loadfuncs.go:89-91 | a CR or LF splits the text into two halves that are split independently, so no line crosses a break |
| LoadFuncs.SplitLinesShape | loadfuncs.go:89-91 | for any lines a, b, c, the text a CR LF b LF c LF LF a splits into [a, b, c, a]: CRLF is one break, and the blank line leaves no entry |
| LoadFuncs.ExampleSplit | loadfuncs.go:89-91 | "a\r\nb\n b \n\na" splits into ["a", "b", " b ", "a"] |
| LoadFuncs.BlankLineDropped | loadfuncs.go:89-91 | "a\n\nb" splits into ["a", "b"], so the untrimmed loader drops blank lines too |
| LoadFuncs.LoadString | loadfuncs.go:21-27 | the whole content with no error, or "" together with the read error |
| LoadFuncs.LoadStringTrimSpace | loadfuncs.go:29-35 | the content with its leading and trailing white space removed, itself trimmed, or "" together with the read error |
| LoadFuncs.LoadStringLines | loadfuncs.go:37-44 | exactly splitLines of the content: non-empty lines without breaks whose concatenation is the content without breaks; or an empty list together with the read error |
| LoadFuncs.TrimmedLines | loadfuncs.go:51-58 | the trimmed, non-empty lines, never more than the input lines |
| LoadFuncs.TrimmedLinesTrimmed | loadfuncs.go:54 | every kept line neither starts nor ends with white space |
| LoadFuncs.TrimmedLinesStep | loadfuncs.go:53-57 | one more line appends its trim, or nothing when the trim is "", which is the loop's step |
| LoadFuncs.TrimmedLinesSource | loadfuncs.go:53-57 | every kept entry is the non-empty trim of the line at some position of the input |
| LoadFuncs.TrimmedLinesSound | loadfuncs.go:81-85 | every kept entry is non-empty and is the trim of some input line |
| LoadFuncs.TrimmedLinesComplete | loadfuncs.go:81-85 | the trim of every input line is kept unless it is "" |
| LoadFuncs.TrimmedLinesMembers | loadfuncs.go:81-85 | a string is kept exactly when it is non-empty and is the trim of some input line |
| LoadFuncs.LoadStringLinesTrimSpace | loadfuncs.go:46-59 | the loop appends TrimSpace(l) for each line l, in order, skipping the lines that trim to ""; the result has no more entries than splitLines and each is non-empty and trimmed; or an empty list together with the read error |
| LoadFuncs.LoadStringLineSet | loadfuncs.go:61-72 | the key set is exactly the set of lines of splitLines; or empty together with the read error |
| LoadFuncs.LoadStringLineSetTrimSpace | loadfuncs.go:74-87 | the key set is exactly {TrimSpace(l) : l a line, TrimSpace(l) != ""}; or empty together with the read error |
| LoadFuncs.TrimmedLinesSnoc | loadfuncs.go:53-57 | one more line whose trim is non-empty appends that trim |
| LoadFuncs.ExampleTrimmedLines | loadfuncs.go:53-57 | lines a, b, c, a where c trims to b give a, b, b, a |
| LoadFuncs.TrimmedShape | loadfuncs.go:79-86 | for the shape a CR LF b LF c LF LF a where c trims to b, the trimmed lines are a, b, b, a and the trimmed line set is {a, b} |
| LoadFuncs.TrimmedExample | loadfuncs.go:79-86 | "a\r\nb\n b \n\na" gives the trimmed lines ["a", "b", "b", "a"] and the trimmed line set {"a", "b"} |
| Loading.Invalidates | loader.go:140 | the callback's filter holds exactly for the loader's own file and an event that is not only removes, renames and chmods |
| Loading.InvalidatesOnlyOnCreateOrWrite | loader.go:139-143 | an event invalidates only for the loader's own file when it creates or writes it; a delete, rename or chmod event never does, and a delete together with a re-creation does |
| Loading.Loader.constructor | loader.go:31-39 | NewLoader stores the file and the hooks; nothing is loaded or watched, and no hook has run |
| Loading.Loader.Load | loader.go:176-201 | a fresh cache is returned without calling the load function and without any state change; otherwise the load function runs once. On success, onLoad(v), or v, is stored, marked fresh and returned with no error. On failure with onError, onError(err) and err are returned; without onError, the last known config and err. In both failure cases config and loaded do not change. The invariant config = last stored value is kept |
| Loading.Loader.Get | loader.go:210-213 | serves what Load serves, with the same effect on the state |
| Loading.Loader.Invalidate | loader.go:111-122 | marks the cache stale, keeps config and the watch, and calls onInvalidate exactly once if it is set |
| Loading.Loader.OnWatchEvent | loader.go:139-143 | the watch callback invalidates exactly when the filter holds and otherwise changes nothing |
| Loading.Loader.Watch | loader.go:129-149 | with a watch already running: AlreadyWatched and no change. A setup failure is wrapped in WatchFailed and changes nothing. Otherwise the handle is kept, one watch is started and the invariant holds |
| Loading.Loader.Unwatch | loader.go:153-166 | without a watch: NotWatched and no change. Otherwise the release result is returned and the handle is cleared even when releasing failed |
| Loading.LoadAndWatch | loader.go:59-78 | a nil load function, then an empty path, are rejected before a loader exists. A watch failure returns the wrapped error, and no load happens. A failed initial load without onError returns no loader and Join(load error, release result), and the watch is stopped. Otherwise the loader is returned watching with no error, fresh exactly when the initial load succeeded |
| Loading.RetryAfterFailedInitialLoad | loader.go:55-78 | after an initial load that fails with onError set, LoadAndWatch returns the watching loader without an error, and the next Get calls the load function again: onLoad of the new value on success, onError's value and the zero configuration still cached on failure |
| Loading.GetTwice | loader.go:183-200 | two Gets in a row call the load function at most once and serve the same value when the first finds the cache fresh or loads successfully; after a failed first load the second one retries |
| Loading.InvalidateThenGet | loader.go:111-122 | after Invalidate, the next Get calls the load function once and serves onLoad of its new value |
| Loading.Rewatch | loader.go:153-166 | Unwatch then Watch: the first returns the release result or NotWatched, the second is never refused as already watched; one watch is started exactly when setup succeeds and one stopped exactly when a watch was running, so at most one runs afterwards |
| LoaderRef.File | loader.go:92-97 | the invalid file for nil, otherwise the loader's file |
| LoaderRef.Loaded | loader.go:100-108 | false for nil, otherwise the loaded flag |
| LoaderRef.Invalidate | loader.go:111-114 | a no-op for nil, otherwise Loader.Invalidate with its whole new state |
| LoaderRef.Watch | loader.go:129-132 | the "<nil> Loader" error for nil, otherwise Loader.Watch with its whole new state |
| LoaderRef.Unwatch | loader.go:153-156 | the "<nil> Loader" error for nil, otherwise Loader.Unwatch with its whole new state |
| LoaderRef.Load | loader.go:176-179 | the zero value and the "<nil> Loader" error for nil, otherwise Loader.Load with its whole new state |
| LoaderRef.Get | loader.go:210-213 | the zero value for nil, otherwise what Load serves, with the same new state |

txt.go declares the same seven text functions as loadfuncs.go, line for line (`splitLines` at txt.go:79-81). The two files cannot be built together. The rows above for loadfuncs.go therefore describe txt.go as well.

## Left out

- Concurrency. The mutex makes each method one atomic step, and the model runs the steps one after another. It does not model interleavings of a watch event with a running `Load`. It also does not model that `Invalidate` calls `onInvalidate` outside the lock.
- Directory watching and file reading. `file.Dir().Watch`, the stored `unwatch` function and `ReadAllString` are foreign calls. Their results are parameters, and the event filter is the only part of the callback that is modelled.
- Side effects of the load function and the hooks. `onLoad` and `onError` are pure functions of their argument. A panic in any hook or in the load function is not modelled.
- Loading.Loader.Load: a nil load function on a stale loader panics in Go; the model requires `loaded || hasLoad` instead of modelling the panic.
- Loading.LoadAndWatch: on a failed initial load without onError, Go calls the stored release function directly and leaves the `unwatch` field set on the loader it drops. The model counts the watch as stopped and does not clear the field, so that loader is not `Valid()` afterwards. Nothing can observe it.
- `MustLoadAndWatch` (loader.go:83-89): a wrapper that panics on any error `LoadAndWatch` returns.
- `LoadJSON` and `LoadXML` (loadfuncs.go:11-19), json.go and xml.go: thin wrappers over library decoders.
- env.go `ParseEnv`: reflection over an external environment library. example/main.go: wiring and logging only.
- The `unsafe.Pointer` cast in `LoadStringLines` (loadfuncs.go:43) only relabels the element type, so it is the identity here.
- Go's distinction between a nil and an empty slice or map is not kept. The error results are the empty `seq` and `set`.
- Strings are sequences of runes. Invalid UTF-8 bytes, which Go decodes as U+FFFD, are not modelled.
