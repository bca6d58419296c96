/**
  The names visible at the top level of a Starlark file, memoised per cell
  and file type. Computing them needs the interpreter's Rust-level globals,
  the prelude module and the cell's root import; the calls that evaluate
  Starlark for them are abstracted by `Dice`, a fixed snapshot of answers.
 */
module Globals {
  import opened Results

  type CellName = string

  /**
    The kinds of Starlark file. Every kind selects its own Rust-level
    globals; `Buck` (a BUCK build file) is the only kind the computation
    of the names branches on.
   */
  datatype StarlarkFileType = Bzl | Bxl | Buck | Package

  /** A path to a Starlark module inside a cell. */
  datatype ImportPath = ImportPath(cell: CellName, path: string)

  /** The error of a failed evaluation, shared between every caller that sees it. */
  datatype LoadError = LoadError(message: string)

  /** What a lookup of the names yields: the set of names, or the error that prevented it. */
  type NamesResult = Result<set<string>, LoadError>

  /**
    An evaluated module: the names its environment binds, and the outcome
    of looking up its `native` value (absent, or the attribute names of it).
   */
  datatype LoadedModule = LoadedModule(names: seq<string>, native: Result<Option<seq<string>>, LoadError>)

  /** The global interpreter state: per-file-type globals and the configured prelude. */
  datatype GlobalInterpreterState = GlobalInterpreterState(
    globalsFor: StarlarkFileType -> seq<string>,
    preludeImport: Option<ImportPath>)

  /**
    The answers of the build transaction used by the cache: the global
    interpreter state, the evaluation of a module, and the root import
    configured for a cell. Each may fail.
   */
  datatype Dice = Dice(
    globalInterpreterState: Result<GlobalInterpreterState, LoadError>,
    loadModule: ImportPath -> Result<LoadedModule, LoadError>,
    rootImport: CellName -> Result<Option<ImportPath>, LoadError>)

  /** The distinct elements of a sequence of names. */
  function Elems(xs: seq<string>): set<string>
  {
    set x | x in xs
  }

  /**
    Whether the prelude is consulted: a file uses the prelude unless it is
    a non-BUCK file inside the prelude's own cell.
   */
  predicate PreludeConsulted(state: GlobalInterpreterState, cell: CellName, fileType: StarlarkFileType)
  {
    state.preludeImport.Some? && (fileType == Buck || state.preludeImport.value.cell != cell)
  }

  /** Names taken from the prelude module: its bindings and, for BUCK files, the attributes of `native`. */
  function PreludeNames(dice: Dice, prelude: ImportPath, fileType: StarlarkFileType): Result<set<string>, LoadError>
  {
    match dice.loadModule(prelude)
    case Err(e) => Err(e)
    case Ok(env) =>
      if fileType != Buck then
        Ok(Elems(env.names))
      else
        match env.native
        case Err(e) => Err(e)
        case Ok(None) => Ok(Elems(env.names))
        case Ok(Some(attrs)) => Ok(Elems(env.names) + Elems(attrs))
  }

  /** Names taken from the root import of the cell, if it has one. */
  function RootNames(dice: Dice, cell: CellName): Result<set<string>, LoadError>
  {
    match dice.rootImport(cell)
    case Err(e) => Err(e)
    case Ok(None) => Ok({})
    case Ok(Some(root)) =>
      match dice.loadModule(root)
      case Err(e) => Err(e)
      case Ok(env) => Ok(Elems(env.names))
  }

  /**
    The names visible in a file of the given cell and type, or the first
    error met while gathering them (interpreter state, then prelude, then
    root import).
   */
  function ComputedNames(dice: Dice, cell: CellName, fileType: StarlarkFileType): NamesResult
  {
    match dice.globalInterpreterState
    case Err(e) => Err(e)
    case Ok(state) =>
      var fromPrelude :=
        if PreludeConsulted(state, cell, fileType) then PreludeNames(dice, state.preludeImport.value, fileType)
        else Ok({});
      if fromPrelude.Err? then
        Err(fromPrelude.error)
      else
        var fromRoot := RootNames(dice, cell);
        if fromRoot.Err? then
          Err(fromRoot.error)
        else
          Ok(Elems(state.globalsFor(fileType)) + fromPrelude.value + fromRoot.value)
  }

  /** The prelude is not consulted for the file, or loading it (and, for BUCK files, its `native`) succeeded. */
  predicate PreludeNamesOk(dice: Dice, cell: CellName, fileType: StarlarkFileType)
    requires dice.globalInterpreterState.Ok?
  {
    var state := dice.globalInterpreterState.value;
    PreludeConsulted(state, cell, fileType) ==>
      && dice.loadModule(state.preludeImport.value).Ok?
      && (fileType == Buck ==> dice.loadModule(state.preludeImport.value).value.native.Ok?)
  }

  /** Every source of names consulted for the file answered without error. */
  predicate SourcesSucceed(dice: Dice, cell: CellName, fileType: StarlarkFileType)
  {
    && dice.globalInterpreterState.Ok?
    && PreludeNamesOk(dice, cell, fileType)
    && dice.rootImport(cell).Ok?
    && (dice.rootImport(cell).value.Some? ==> dice.loadModule(dice.rootImport(cell).value.value).Ok?)
  }

  /**
    The name set is computed exactly when every consulted source answers;
    otherwise the error is the one of the first source that failed, in the
    order interpreter state, prelude load, `native` lookup, root import,
    root-import load.
   */
  lemma ComputedNamesSucceeds(dice: Dice, cell: CellName, fileType: StarlarkFileType)
    ensures ComputedNames(dice, cell, fileType).Ok? <==> SourcesSucceed(dice, cell, fileType)
    ensures dice.globalInterpreterState.Err? ==>
              ComputedNames(dice, cell, fileType) == Err(dice.globalInterpreterState.error)
    ensures dice.globalInterpreterState.Ok? ==>
              var state := dice.globalInterpreterState.value;
              PreludeConsulted(state, cell, fileType) ==>
                var loaded := dice.loadModule(state.preludeImport.value);
                && (loaded.Err? ==> ComputedNames(dice, cell, fileType) == Err(loaded.error))
                && (loaded.Ok? && fileType == Buck && loaded.value.native.Err? ==>
                      ComputedNames(dice, cell, fileType) == Err(loaded.value.native.error))
    ensures dice.globalInterpreterState.Ok? && PreludeNamesOk(dice, cell, fileType) ==>
              var root := dice.rootImport(cell);
              && (root.Err? ==> ComputedNames(dice, cell, fileType) == Err(root.error))
              && (root.Ok? && root.value.Some? && dice.loadModule(root.value.value).Err? ==>
                    ComputedNames(dice, cell, fileType) == Err(dice.loadModule(root.value.value).error))
  {
  }

  /**
    What the computed set holds: the Rust-level globals of the file type;
    the prelude's names only when the prelude is consulted; the attributes
    of the prelude's `native` only for BUCK files; and the names of the
    cell's root import whenever it has one. Nothing else.
   */
  lemma ComputedNamesMembers(dice: Dice, cell: CellName, fileType: StarlarkFileType, x: string)
    requires ComputedNames(dice, cell, fileType).Ok?
    ensures SourcesSucceed(dice, cell, fileType)
    ensures var state := dice.globalInterpreterState.value;
            var root := dice.rootImport(cell).value;
            x in ComputedNames(dice, cell, fileType).value <==>
              || x in state.globalsFor(fileType)
              || (PreludeConsulted(state, cell, fileType) && x in dice.loadModule(state.preludeImport.value).value.names)
              || (PreludeConsulted(state, cell, fileType) && fileType == Buck
                  && dice.loadModule(state.preludeImport.value).value.native.value.Some?
                  && x in dice.loadModule(state.preludeImport.value).value.native.value.value)
              || (root.Some? && x in dice.loadModule(root.value).value.names)
  {
  }

  /** Inserts every name of `xs` into `res`, one at a time. */
  method InsertAll(res: set<string>, xs: seq<string>) returns (r: set<string>)
    ensures r == res + Elems(xs)
  {
    r := res;
    for i := 0 to |xs|
      invariant r == res + Elems(xs[..i])
    {
      assert xs[..i + 1] == xs[..i] + [xs[i]];
      r := r + {xs[i]};
    }
    assert xs[..|xs|] == xs;
  }

  /**
    The per-transaction cache of top-level names, keyed by cell and file
    type. Failures are cached like successes.
   */
  class CachedGlobals {
    const dice: Dice
    var cached: map<(CellName, StarlarkFileType), NamesResult>

    /** Every cached entry is what computing the names for its key yields. */
    ghost predicate Valid()
      reads this
    {
      forall key | key in cached :: cached[key] == ComputedNames(dice, key.0, key.1)
    }

    constructor (dice: Dice)
      ensures this.dice == dice && cached == map[]
      ensures Valid()
    {
      this.dice := dice;
      cached := map[];
    }

    /** Gathers the names for a file by inserting each source's names in turn. */
    method ComputeNames(cell: CellName, fileType: StarlarkFileType) returns (r: NamesResult)
      ensures r == ComputedNames(dice, cell, fileType)
    {
      var res: set<string> := {};
      if dice.globalInterpreterState.Err? {
        return Err(dice.globalInterpreterState.error);
      }
      var state := dice.globalInterpreterState.value;

      res := InsertAll(res, state.globalsFor(fileType));
      ghost var fromGlobals := res;
      ghost var fromPrelude: set<string> := {};

      if state.preludeImport.Some? {
        var prelude := state.preludeImport.value;
        if fileType == Buck || prelude.cell != cell {
          var loaded := dice.loadModule(prelude);
          if loaded.Err? {
            return Err(loaded.error);
          }
          var env := loaded.value;
          res := InsertAll(res, env.names);
          fromPrelude := Elems(env.names);
          if fileType == Buck {
            if env.native.Err? {
              return Err(env.native.error);
            }
            if env.native.value.Some? {
              var attrs := env.native.value.value;
              res := InsertAll(res, attrs);
              fromPrelude := fromPrelude + Elems(attrs);
            }
          }
        }
      }
      ghost var beforeRoot := res;
      assert beforeRoot == fromGlobals + fromPrelude;
      assert PreludeConsulted(state, cell, fileType) ==>
        PreludeNames(dice, state.preludeImport.value, fileType) == Ok(fromPrelude);
      assert !PreludeConsulted(state, cell, fileType) ==> fromPrelude == {};

      var importPaths := dice.rootImport(cell);
      if importPaths.Err? {
        return Err(importPaths.error);
      }
      ghost var fromRoot: set<string> := {};
      if importPaths.value.Some? {
        var loaded := dice.loadModule(importPaths.value.value);
        if loaded.Err? {
          return Err(loaded.error);
        }
        var env := loaded.value;
        res := InsertAll(res, env.names);
        fromRoot := Elems(env.names);
      }
      assert RootNames(dice, cell) == Ok(fromRoot);
      assert fromGlobals == Elems(state.globalsFor(fileType));
      assert res == fromGlobals + fromPrelude + fromRoot;
      return Ok(res);
    }

    /**
      The names for a file: the cached result for its cell and file type
      if there is one, otherwise the computed result, which is cached
      (errors included) before it is returned.
     */
    method GetNames(cell: CellName, fileType: StarlarkFileType) returns (r: NamesResult)
      requires Valid()
      modifies this
      ensures Valid()
      ensures r == ComputedNames(dice, cell, fileType)
      ensures (cell, fileType) in old(cached) ==> r == old(cached)[(cell, fileType)] && cached == old(cached)
      ensures cached == old(cached)[(cell, fileType) := r]
    {
      if (cell, fileType) in cached {
        return cached[(cell, fileType)];
      }
      r := ComputeNames(cell, fileType);
      cached := cached[(cell, fileType) := r];
    }
  }
}
