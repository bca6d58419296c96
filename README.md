# Buck2 core fragments, modelled in Dafny

This project models three small pieces of the Buck2 build system and proves
properties of them:

- **Critical-path backend names** (`backend.dfy`, module `Backend`): the
  two-variant `CriticalPathBackendName`, its rendering
  (`"longest-path-graph"`, `"default"`) and the parser that reads it back and
  rejects every other string with an `Invalid backend name` error.
- **Cached Starlark globals** (`globals.dfy`, module `Globals`): the
  `CachedGlobals` object that memoises, per cell and file type, the set of
  names visible at the top of a Starlark file. Computing the set gathers the
  Rust-level globals of the file type, the prelude's names (only when a
  prelude is configured and the file is a BUCK file or lives outside the
  prelude's cell), the attributes of the prelude's `native` value (BUCK files
  only) and the names of the cell's root import. The cache stores errors as
  well as successes. The build transaction is a fixed snapshot (`Dice`), so
  the object invariant `Valid()` says every cached entry equals the freshly
  computed result, and `GetNames` is proved transparent.
- **Incremental engine decisions** (`incremental.dfy`, module `Incremental`):
  the fold over dependency results that decides whether a cached value's
  dependencies changed (`NoDeps`, `Changed`, `NoChange(deps)`), proved equal
  to a declarative decision and independent of the order in which results
  complete; and the dispatch on the cache lookup and evaluation outcome in
  `eval_entry_versioned`, `compute` and `project_for_key`, with requests to
  the core state recorded as a sequence of `StateRequest`s.

`results.dfy` holds the `Option` and `Result` datatypes shared by the three.

## Model

| member | source | states |
|---|---|---|
| `Backend.Display` | app/buck2_build_signals_impl/src/backend/backend.rs:44-50 | every backend renders to a non-empty name |
| `Backend.FromStr` | app/buck2_build_signals_impl/src/backend/backend.rs:52-65 | a string parses exactly when it is `"longest-path-graph"` or `"default"`; a parsed backend renders back to the input string; any other string yields the "Invalid backend name" error quoting that string |
| `Backend.RoundTrip` | app/buck2_build_signals_impl/src/backend/backend.rs:44-65 | parsing the rendering of any backend gives back that backend |
| `Backend.DisplayInjective` | app/buck2_build_signals_impl/src/backend/backend.rs:44-50 | two backends with the same rendering are the same backend |
| `Backend.FromStrAcceptsExactlyDisplayed` | app/buck2_build_signals_impl/src/backend/backend.rs:52-65 | the parser accepts a string if and only if some backend renders to it |
| `Globals.ComputedNamesSucceeds` | app/buck2_starlark/src/util/globals.rs:55-104 | the names are computed if and only if the interpreter state, the prelude load and its `native` lookup (when consulted), the cell's import paths and its root-import load (when present) all succeed; otherwise the error returned is that of the first failing source, in the order interpreter state, prelude load, `native` lookup, root import, root-import load |
| `Globals.ComputedNamesMembers` | app/buck2_starlark/src/util/globals.rs:67-101 | a name is in the computed set if and only if it is a Rust-level global of the file type, a prelude name when the prelude is consulted (configured, and BUCK file or other cell), a `native` attribute of the prelude for BUCK files only, or a name of the cell's root import |
| `Globals.CachedGlobals.constructor` | app/buck2_starlark/src/util/globals.rs:40-45 | a new cache is empty, bound to the given transaction, and valid |
| `Globals.InsertAll` | app/buck2_starlark/src/util/globals.rs:69-71 | inserting each name of the sequence in turn gives the old set plus exactly those names; the same insert loop appears at lines 77-79, 83-85 and 98-100 |
| `Globals.CachedGlobals.ComputeNames` | app/buck2_starlark/src/util/globals.rs:55-104 | inserting the names of each source in turn, stopping at the first failed load, yields exactly the computed name set or its error |
| `Globals.CachedGlobals.GetNames` | app/buck2_starlark/src/util/globals.rs:106-121 | a key already cached returns the stored result (error or names) and leaves the cache unchanged; otherwise the computed result is stored; only the entry for (cell, file type) changes, it equals the result, and the result always equals the freshly computed names |
| `Incremental.IsChanged` | dice/dice/src/impls/incremental/mod.rs:451-457 | true exactly for `Changed` |
| `Incremental.VerifiedIntersectionMembers` | dice/dice/src/impls/incremental/mod.rs:393-399 | a version is in the running intersection iff the parent's verified ranges and every dependency's returned ranges contain it, so it never leaves the starting ranges |
| `Incremental.VerifiedIntersectionShrinks` | dice/dice/src/impls/incremental/mod.rs:395-403 | seeing more dependency results never grows the running intersection, so once it is empty it stays empty |
| `Incremental.DepsChangedCharacterization` | dice/dice/src/impls/incremental/mod.rs:375-416 | `NoDeps` iff there are no deps; otherwise `Changed` iff some dependency failed or no version is verified by the parent and all dependencies; `NoChange` carries exactly the input deps |
| `Incremental.DepsChangedOrderIndependent` | dice/dice/src/impls/incremental/mod.rs:379-412 | any reordering of the dependency results gives the same decision |
| `Incremental.ComputeWhetherDependenciesChanged` | dice/dice/src/impls/incremental/mod.rs:367-417 | the early-exiting fold over results in completion order returns the declarative decision: `NoDeps` iff empty deps, `NoChange` only with the input deps |
| `Incremental.ComputeKey` | dice/dice/src/impls/incremental/mod.rs:288-358 | the evaluator always runs; if cancellation cannot be disabled the task does not finish; at most one cache update, keyed at `(v, k)` in the engine's epoch; an update is sent iff the task finishes with the state's reply |
| `Incremental.ComputeKeyEndings` | dice/dice/src/impls/incremental/mod.rs:312-354 | cancelled: no update; valid value: exactly one `UpdateComputed` for `(v, k)` with the evaluation's value and deps; invalid value: no update, finished with the value verified at `v` only; error: no update, finished with that error |
| `Incremental.EvalEntryVersioned` | dice/dice/src/impls/incremental/mod.rs:187-286 | the first request is the lookup of `(v, k)`; at most one cache update, keyed at `(v, k)`; an update is sent iff the task finishes with the state's reply; the evaluator runs iff the cached value is not reused |
| `Incremental.MatchReusesEntry` | dice/dice/src/impls/incremental/mod.rs:204-210 | a `Match` finishes with the cached entry, with no evaluation and no cache update |
| `Incremental.CheckDepsDispatch` | dice/dice/src/impls/incremental/mod.rs:245-282 | with unchanged deps the mismatching entry is reused, the cache is updated at `(v, k)` with that entry and the same deps, and nothing is evaluated; with `Changed` or `NoDeps` the key is computed |
| `Incremental.ProjectForKey` | dice/dice/src/impls/incremental/mod.rs:147-184 | the evaluator runs and the task always finishes; a cache update at `(v, k)` is sent iff the evaluation produced a valid value; the result is the evaluated value verified at `v` only, or the evaluation's error |

## Left out

- `BuildListenerBackend` (backend.rs): a trait of signatures with no behaviour.
- Transaction calls in globals.rs (`load_module`, `get_global_interpreter_state`, `import_paths_for_cell`, the `native` value's `dir_attr`): modelled by the `Dice` snapshot, whose answers are parameters; interpreter calculators and module evaluation are not part of this model.
- `StarlarkPath`: `GetNames` takes the path's cell and file type directly.
- `StarlarkFileType`: the Rust enum is defined outside globals.rs, which names only `StarlarkFileType::Buck`; the model's other variants (`Bzl`, `Bxl`, `Package`) are stand-ins. Every file type selects its own Rust-level globals and its own cache entry; `Buck` is the only variant the computation of the names branches on.
- Sharing (`Arc`, `SharedError`, `dupe`): a shared result is modelled as the same value; string ownership and hashing are not modelled.
- async/await and concurrency: every await is a value supplied to the model; the dependency futures of `compute_whether_dependencies_changed` are modelled by their results in completion order, one per dependency, without tracking which dependency produced which result.
- `spawn_for_key` (task spawning, waiting for a previously cancelled task, `TerminationStatus`), `IncrementalEngine::new`, tokio channels, `scopeguard`, tracing spans and debug logging.
- `report_key_activation`, the user cycle detector, the event dispatcher's started/finished/check-deps notifications and the task handle's `computing`/`checking_deps` transitions: progress reporting and foreign callbacks with no effect on the decisions modelled.
- `promise.get_or_complete` in `project_for_key`: only the closure's dispatch is modelled.
- `UpdateComputed`'s `storage` field and the state's reply to it: the reply is recorded only as `FinishedWithUpdateReply`.
- `VersionRanges` is modelled as a set of version numbers with set intersection, not as interval arithmetic.
- `Backend.Display`: its own contract says only that the rendering is non-empty; what it renders is pinned down by `FromStr`, `RoundTrip` and `DisplayInjective`.
