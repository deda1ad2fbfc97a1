/** Validation of a function call before it runs: the gates a call passes
    (system-module identity, backend state, npm version, analyzed function,
    visibility, function type, argument size, argument validator), the HTTP
    route check, the scheduled-function name check and the protocol form of a
    validated call.

    Every result has two layers, as in the system: the outer `Result` fails
    with a `Failure` (an internal error, or an error that carries its own
    metadata), the inner one with a `JsError` shown to the developer. */
module Validation {
  import opened Common
  import opened ComponentTypes
  import opened DatabaseTypes

  // ---------------------------------------------------------------------------
  // Inputs
  // ---------------------------------------------------------------------------

  datatype Visibility = Public | Internal

  datatype AllowedVisibility = All | PublicOnly

  datatype UdfType = Query | Mutation | Action | HttpAction

  datatype BackendState = Running | Paused | Disabled

  /** A call's arguments, as their encoded bytes. */
  datatype ConvexArray = ConvexArray(encoded: seq<bv8>)

  function ArgsSize(args: ConvexArray): nat
  {
    |args.encoded|
  }

  /** A function as analysis found it. `checkArgs` is its argument validator:
      the validation error for the given arguments, if any. */
  datatype AnalyzedFunction = AnalyzedFunction(
    name: string,
    udfType: UdfType,
    visibility: Option<Visibility>,
    checkArgs: ConvexArray -> Option<string>)

  /** A module's metadata: the functions analysis found, when it has run. */
  datatype ModuleMetadata = ModuleMetadata(analyzeResult: Option<seq<AnalyzedFunction>>)

  /** A function path whose component is addressed by id. */
  datatype CanonicalizedComponentFunctionPath = CanonicalizedComponentFunctionPath(component: ComponentId, udfPath: UdfPath)

  /** What the transaction answers during validation: the caller, the backend
      state, the configured npm version, the modules by component and module
      path, the argument size limit and the last unsupported npm version. */
  datatype Deployment = Deployment(
    identity: Identity,
    backendState: BackendState,
    udfConfig: Option<Version>,
    modules: map<(ComponentId, string), ModuleMetadata>,
    maxArgsSize: nat,
    unsupported: Version)

  /** System modules live under `_system/`. */
  predicate IsSystemUdfPath(p: UdfPath)
  {
    |p.modulePath| >= 8 && p.modulePath[..8] == "_system/"
  }

  /** Semantic-version order: major, then minor, then patch. */
  predicate VersionLess(a: Version, b: Version)
  {
    a.major < b.major
    || (a.major == b.major && a.minor < b.minor)
    || (a.major == b.major && a.minor == b.minor && a.patch < b.patch)
  }

  // ---------------------------------------------------------------------------
  // Outcomes
  // ---------------------------------------------------------------------------

  /** Errors shown to the developer. */
  datatype JsError =
    | UnauthorizedCall
    | BackendPausedError
    | BackendDisabledError
    | UnsupportedVersion(threshold: Version)
    | CouldNotFindFunction(path: UdfPath)
    | WrongUdfType(path: UdfPath, expected: UdfType, actual: UdfType)
    | ArgsTooLarge(path: UdfPath, size: nat, limit: nat)
    | ArgumentValidationError(message: string)

  /** Errors of the outer layer. */
  datatype Failure =
    | SystemModuleOutsideRoot
    | NotRootComponent
    | NoVisibility(path: UdfPath)
    | UnexpectedHttpPath(path: UdfPath)
    | DeploymentPaused
    | DeploymentDisabled
    | MissingArgs
    | MissingUdfPath

  type Outcome<T> = Result<Result<T, JsError>, Failure>

  datatype ValidatedPathAndArgs = ValidatedPathAndArgs(
    path: CanonicalizedComponentFunctionPath,
    args: ConvexArray,
    npmVersion: Option<Version>)

  datatype ValidatedHttpPath = ValidatedHttpPath(path: CanonicalizedComponentFunctionPath, npmVersion: Option<Version>)

  // ---------------------------------------------------------------------------
  // Lookups
  // ---------------------------------------------------------------------------

  /** The position of the first function of a list with the given name. */
  function FirstNamed(fs: seq<AnalyzedFunction>, name: string): (r: Option<nat>)
    ensures r.Some? ==> r.value < |fs| && fs[r.value].name == name
    ensures r.Some? ==> forall j :: 0 <= j < r.value ==> fs[j].name != name
    ensures r.None? ==> forall i :: 0 <= i < |fs| ==> fs[i].name != name
  {
    if fs == [] then None
    else if fs[0].name == name then Some(0)
    else match FirstNamed(fs[1..], name)
      case None => None
      case Some(i) => Some(i + 1)
  }

  /** `get_analyzed_function`: the analyzed function at a path, if the module
      exists, has been analyzed and exports a function of that name. */
  function AnalyzedFunctionAt(d: Deployment, path: CanonicalizedComponentFunctionPath): (r: Option<AnalyzedFunction>)
    ensures r.Some? ==> r.value.name == path.udfPath.functionName
    ensures r.Some? ==>
      && (path.component, path.udfPath.modulePath) in d.modules
      && d.modules[(path.component, path.udfPath.modulePath)].analyzeResult.Some?
  {
    var key := (path.component, path.udfPath.modulePath);
    if key !in d.modules then None
    else match d.modules[key].analyzeResult
      case None => None
      case Some(fs) =>
        match FirstNamed(fs, path.udfPath.functionName)
        case None => None
        case Some(i) => Some(fs[i])
  }

  // ---------------------------------------------------------------------------
  // Gates
  // ---------------------------------------------------------------------------

  /** `missing_or_internal_error`: the "could not find public function"
      message, which names the path as a root path and so is an internal
      error for a function in a non-root component. */
  function MissingOrInternalError(path: CanonicalizedComponentFunctionPath): (r: Result<JsError, Failure>)
    ensures r.Ok? <==> path.component.Root?
    ensures r.Ok? ==> r.value == CouldNotFindFunction(path.udfPath)
    ensures r.Err? ==> r.error == NotRootComponent
  {
    if path.component.Root? then Ok(CouldNotFindFunction(path.udfPath)) else Err(NotRootComponent)
  }

  /** The missing-function error as a call outcome. */
  function Missing<T>(path: CanonicalizedComponentFunctionPath): Outcome<T>
  {
    match MissingOrInternalError(path)
    case Ok(e) => Ok(Err(e))
    case Err(f) => Err(f)
  }

  /** `udf_version`: the configured npm version when it is newer than the last
      unsupported one; otherwise the missing-function error when there is
      neither a configuration nor an analyzed function, and the unsupported-
      version error in every other case. */
  function UdfVersion(d: Deployment, path: CanonicalizedComponentFunctionPath): (r: Outcome<Version>)
    ensures r.Ok? && r.value.Ok? <==> d.udfConfig.Some? && VersionLess(d.unsupported, d.udfConfig.value)
    ensures r.Ok? && r.value.Ok? ==> r.value.value == d.udfConfig.value
    ensures d.udfConfig.None? && AnalyzedFunctionAt(d, path).None? ==> r == Missing(path)
    ensures (&& !(d.udfConfig.Some? && VersionLess(d.unsupported, d.udfConfig.value))
             && (d.udfConfig.Some? || AnalyzedFunctionAt(d, path).Some?)) ==>
      r == Ok(Err(UnsupportedVersion(d.unsupported)))
  {
    if d.udfConfig.Some? && VersionLess(d.unsupported, d.udfConfig.value) then Ok(Ok(d.udfConfig.value))
    else if d.udfConfig.None? && AnalyzedFunctionAt(d, path).None? then Missing(path)
    else Ok(Err(UnsupportedVersion(d.unsupported)))
  }

  /** Admin identities may call every function: the explicit match on an
      instance admin or an acting user that the visibility check makes. It
      coincides with `IsAdmin`, which is what the model assumes `is_admin`
      to be; the two are kept apart because the source writes them apart. */
  predicate SkipsVisibility(i: Identity)
  {
    i.InstanceAdmin? || i.ActingUser?
  }

  /** A function is callable under the allowed visibility when the caller is
      an admin, every visibility is allowed, or the function is public. */
  predicate Visible(i: Identity, allowed: AllowedVisibility, f: AnalyzedFunction)
  {
    SkipsVisibility(i) || allowed.All? || (f.visibility.Some? && f.visibility.value.Public?)
  }

  /** `ValidatedPathAndArgs::new`: the gates of a call, in order. */
  function ValidatePathAndArgs(d: Deployment, allowed: AllowedVisibility, path: CanonicalizedComponentFunctionPath,
                               args: ConvexArray, expected: UdfType): (r: Outcome<ValidatedPathAndArgs>)
    // A validated call keeps its path and arguments; only system modules
    // have no npm version.
    ensures r.Ok? && r.value.Ok? ==> r.value.value.path == path && r.value.value.args == args
    ensures r.Ok? && r.value.Ok? ==> (r.value.value.npmVersion.None? <==> IsSystemUdfPath(path.udfPath))
    // A system module is checked against the identity and the component only.
    ensures IsSystemUdfPath(path.udfPath) ==>
      (r.Err? <==> !path.component.Root?) && (r.Ok? ==> (r.value.Ok? <==> IsAdmin(d.identity) || IsSystemIdentity(d.identity)))
    ensures IsSystemUdfPath(path.udfPath) && !path.component.Root? ==> r == Err(SystemModuleOutsideRoot)
    ensures IsSystemUdfPath(path.udfPath) && path.component.Root? && !(IsAdmin(d.identity) || IsSystemIdentity(d.identity)) ==>
      r == Ok(Err(UnauthorizedCall))
    // Every other call is validated in full: it succeeds exactly when every gate passes.
    ensures !IsSystemUdfPath(path.udfPath) ==> (r.Ok? && r.value.Ok? <==> CallAdmitted(d, allowed, path, args, expected))
    ensures !IsSystemUdfPath(path.udfPath) && r.Ok? && r.value.Ok? ==>
      r.value.value.npmVersion == d.udfConfig && VersionLess(d.unsupported, d.udfConfig.value)
  {
    if IsSystemUdfPath(path.udfPath) then
      if !path.component.Root? then Err(SystemModuleOutsideRoot)
      else if IsAdmin(d.identity) || IsSystemIdentity(d.identity) then Ok(Ok(ValidatedPathAndArgs(path, args, None)))
      else Ok(Err(UnauthorizedCall))
    else if d.backendState.Paused? then Ok(Err(BackendPausedError))
    else if d.backendState.Disabled? then Ok(Err(BackendDisabledError))
    else match UdfVersion(d, path)
      case Err(failure) => Err(failure)
      case Ok(Err(e)) => Ok(Err(e))
      case Ok(Ok(version)) =>
        match AnalyzedFunctionAt(d, path)
        case None => Missing(path)
        case Some(f) =>
          if !SkipsVisibility(d.identity) && allowed.PublicOnly? && f.visibility.Some? && f.visibility.value.Internal? then
            Missing(path)
          else if !SkipsVisibility(d.identity) && allowed.PublicOnly? && f.visibility.None? then
            // The message names the path as a root path, which fails first elsewhere.
            if !path.component.Root? then Err(NotRootComponent)
            else Err(NoVisibility(path.udfPath))
          else if expected != f.udfType then
            if !path.component.Root? then Err(NotRootComponent)
            else Ok(Err(WrongUdfType(path.udfPath, expected, f.udfType)))
          else if ArgsSize(args) > d.maxArgsSize then
            if !path.component.Root? then Err(NotRootComponent)
            else Ok(Err(ArgsTooLarge(path.udfPath, ArgsSize(args), d.maxArgsSize)))
          else match f.checkArgs(args)
            case Some(message) => Ok(Err(ArgumentValidationError(message)))
            case None => Ok(Ok(ValidatedPathAndArgs(path, args, Some(version))))
  }

  /** Every gate of a non-system call passes: the backend runs, the npm
      version is supported, the function exists, is visible to the caller and
      has the expected type, and the arguments fit the limit and its
      validator. */
  ghost predicate CallAdmitted(d: Deployment, allowed: AllowedVisibility, path: CanonicalizedComponentFunctionPath,
                               args: ConvexArray, expected: UdfType)
  {
    && d.backendState.Running?
    && d.udfConfig.Some? && VersionLess(d.unsupported, d.udfConfig.value)
    && AnalyzedFunctionAt(d, path).Some?
    && Visible(d.identity, allowed, AnalyzedFunctionAt(d, path).value)
    && AnalyzedFunctionAt(d, path).value.udfType == expected
    && ArgsSize(args) <= d.maxArgsSize
    && AnalyzedFunctionAt(d, path).value.checkArgs(args).None?
  }

  // ---------------------------------------------------------------------------
  // Properties of the call gates
  // ---------------------------------------------------------------------------

  /** A paused or disabled backend refuses every non-system call with its own
      error, whatever the version, the function or the arguments. */
  lemma BackendStateComesFirst(d: Deployment, allowed: AllowedVisibility, path: CanonicalizedComponentFunctionPath,
                               args: ConvexArray, expected: UdfType)
    requires !IsSystemUdfPath(path.udfPath)
    ensures d.backendState.Paused? ==> ValidatePathAndArgs(d, allowed, path, args, expected) == Ok(Err(BackendPausedError))
    ensures d.backendState.Disabled? ==> ValidatePathAndArgs(d, allowed, path, args, expected) == Ok(Err(BackendDisabledError))
  {
  }

  /** A non-system call to a running backend whose npm version is supported:
      the calls that reach the analyzed-function lookup. */
  predicate ReachesLookup(d: Deployment, path: CanonicalizedComponentFunctionPath)
  {
    && !IsSystemUdfPath(path.udfPath) && d.backendState.Running?
    && d.udfConfig.Some? && VersionLess(d.unsupported, d.udfConfig.value)
  }

  /** A failed version gate decides the call, in either layer, whatever the
      function, its visibility or the arguments. */
  lemma VersionGateDecides(d: Deployment, allowed: AllowedVisibility, path: CanonicalizedComponentFunctionPath,
                           args: ConvexArray, expected: UdfType)
    requires !IsSystemUdfPath(path.udfPath) && d.backendState.Running?
    requires !(d.udfConfig.Some? && VersionLess(d.unsupported, d.udfConfig.value))
    ensures UdfVersion(d, path).Err? ==> ValidatePathAndArgs(d, allowed, path, args, expected) == Err(UdfVersion(d, path).error)
    ensures UdfVersion(d, path).Ok? ==>
      ValidatePathAndArgs(d, allowed, path, args, expected) == Ok(Err(UdfVersion(d, path).value.error))
  {
  }

  /** A function analysis did not find gives the missing-function outcome. */
  lemma MissingFunctionGate(d: Deployment, allowed: AllowedVisibility, path: CanonicalizedComponentFunctionPath,
                            args: ConvexArray, expected: UdfType)
    requires ReachesLookup(d, path) && AnalyzedFunctionAt(d, path).None?
    ensures ValidatePathAndArgs(d, allowed, path, args, expected) == Missing(path)
  {
  }

  /** A function without a recorded visibility, called by a non-admin under
      `PublicOnly`, is an internal error, not a developer error: the missing
      visibility in the root component, the non-root path elsewhere. */
  lemma NoVisibilityGate(d: Deployment, path: CanonicalizedComponentFunctionPath, args: ConvexArray, expected: UdfType)
    requires ReachesLookup(d, path) && AnalyzedFunctionAt(d, path).Some?
    requires !SkipsVisibility(d.identity) && AnalyzedFunctionAt(d, path).value.visibility.None?
    ensures ValidatePathAndArgs(d, PublicOnly, path, args, expected) ==
      if path.component.Root? then Err(NoVisibility(path.udfPath)) else Err(NotRootComponent)
  {
  }

  /** A visible function of another type than expected: the wrong-type error
      in the root component, an internal error elsewhere. */
  lemma WrongUdfTypeGate(d: Deployment, allowed: AllowedVisibility, path: CanonicalizedComponentFunctionPath,
                         args: ConvexArray, expected: UdfType)
    requires ReachesLookup(d, path) && AnalyzedFunctionAt(d, path).Some?
    requires Visible(d.identity, allowed, AnalyzedFunctionAt(d, path).value)
    requires AnalyzedFunctionAt(d, path).value.udfType != expected
    ensures ValidatePathAndArgs(d, allowed, path, args, expected) ==
      if path.component.Root? then Ok(Err(WrongUdfType(path.udfPath, expected, AnalyzedFunctionAt(d, path).value.udfType)))
      else Err(NotRootComponent)
  {
  }

  /** Arguments over the limit, for a visible function of the expected type:
      the too-large error with the actual size and the limit in the root
      component, an internal error elsewhere. */
  lemma ArgsTooLargeGate(d: Deployment, allowed: AllowedVisibility, path: CanonicalizedComponentFunctionPath,
                         args: ConvexArray, expected: UdfType)
    requires ReachesLookup(d, path) && AnalyzedFunctionAt(d, path).Some?
    requires Visible(d.identity, allowed, AnalyzedFunctionAt(d, path).value)
    requires AnalyzedFunctionAt(d, path).value.udfType == expected
    requires ArgsSize(args) > d.maxArgsSize
    ensures ValidatePathAndArgs(d, allowed, path, args, expected) ==
      if path.component.Root? then Ok(Err(ArgsTooLarge(path.udfPath, ArgsSize(args), d.maxArgsSize)))
      else Err(NotRootComponent)
  {
  }

  /** The argument validator has the last word, and its message is passed on. */
  lemma ArgumentValidatorGate(d: Deployment, allowed: AllowedVisibility, path: CanonicalizedComponentFunctionPath,
                              args: ConvexArray, expected: UdfType)
    requires ReachesLookup(d, path) && AnalyzedFunctionAt(d, path).Some?
    requires Visible(d.identity, allowed, AnalyzedFunctionAt(d, path).value)
    requires AnalyzedFunctionAt(d, path).value.udfType == expected
    requires ArgsSize(args) <= d.maxArgsSize
    requires AnalyzedFunctionAt(d, path).value.checkArgs(args).Some?
    ensures ValidatePathAndArgs(d, allowed, path, args, expected) ==
      Ok(Err(ArgumentValidationError(AnalyzedFunctionAt(d, path).value.checkArgs(args).value)))
  {
  }

  /** Under `PublicOnly`, a caller that is not an admin cannot tell an internal
      function from a missing one: both give the same outcome. */
  lemma InternalLooksMissing(d: Deployment, path: CanonicalizedComponentFunctionPath, args: ConvexArray, expected: UdfType)
    requires !IsSystemUdfPath(path.udfPath) && d.backendState.Running? && !SkipsVisibility(d.identity)
    requires d.udfConfig.Some? && VersionLess(d.unsupported, d.udfConfig.value)
    requires AnalyzedFunctionAt(d, path).Some? && AnalyzedFunctionAt(d, path).value.visibility == Some(Internal)
    ensures ValidatePathAndArgs(d, PublicOnly, path, args, expected)
         == ValidatePathAndArgs(d.(modules := d.modules - {(path.component, path.udfPath.modulePath)}), PublicOnly, path, args, expected)
  {
    var d' := d.(modules := d.modules - {(path.component, path.udfPath.modulePath)});
    assert AnalyzedFunctionAt(d', path).None?;
  }

  /** An admin's call does not depend on the allowed visibility. */
  lemma AdminIgnoresVisibility(d: Deployment, path: CanonicalizedComponentFunctionPath, args: ConvexArray, expected: UdfType)
    requires SkipsVisibility(d.identity)
    ensures ValidatePathAndArgs(d, All, path, args, expected) == ValidatePathAndArgs(d, PublicOnly, path, args, expected)
  {
  }

  /** Arguments exactly at the size limit are accepted. */
  lemma ArgsAtLimitPass(d: Deployment, allowed: AllowedVisibility, path: CanonicalizedComponentFunctionPath,
                        args: ConvexArray, expected: UdfType)
    requires !IsSystemUdfPath(path.udfPath) && ArgsSize(args) == d.maxArgsSize
    requires d.backendState.Running? && d.udfConfig.Some? && VersionLess(d.unsupported, d.udfConfig.value)
    requires AnalyzedFunctionAt(d, path).Some?
    requires Visible(d.identity, allowed, AnalyzedFunctionAt(d, path).value)
    requires AnalyzedFunctionAt(d, path).value.udfType == expected
    requires AnalyzedFunctionAt(d, path).value.checkArgs(args).None?
    ensures ValidatePathAndArgs(d, allowed, path, args, expected) == Ok(Ok(ValidatedPathAndArgs(path, args, d.udfConfig)))
  {
  }

  // ---------------------------------------------------------------------------
  // HTTP routes
  // ---------------------------------------------------------------------------

  /** `ValidatedHttpPath::new`: only the `http.js` module is an HTTP router; a
      paused or disabled backend fails a non-system route in the outer layer;
      then the npm version is checked. The system-module exemption from the
      backend-state check is kept as the route check writes it; an `http.js`
      module is never under `_system/`, so every route that passes the first
      check is subject to the backend state. */
  function ValidateHttpPath(d: Deployment, path: CanonicalizedComponentFunctionPath): (r: Outcome<ValidatedHttpPath>)
    ensures path.udfPath.modulePath != "http.js" ==> r == Err(UnexpectedHttpPath(path.udfPath))
    ensures r.Ok? ==> path.udfPath.modulePath == "http.js" && d.backendState.Running?
    ensures path.udfPath.modulePath == "http.js" && d.backendState.Paused? ==> r == Err(DeploymentPaused)
    ensures path.udfPath.modulePath == "http.js" && d.backendState.Disabled? ==> r == Err(DeploymentDisabled)
    ensures r.Ok? && r.value.Ok? <==>
      && path.udfPath.modulePath == "http.js"
      && d.backendState.Running?
      && UdfVersion(d, path).Ok? && UdfVersion(d, path).value.Ok?
    ensures r.Ok? && r.value.Ok? ==> r.value.value == ValidatedHttpPath(path, d.udfConfig)
    // A failed version check on a running `http.js` route is passed on as it
    // is, in either layer.
    ensures path.udfPath.modulePath == "http.js" && d.backendState.Running? && UdfVersion(d, path).Err? ==>
      r == Err(UdfVersion(d, path).error)
    ensures path.udfPath.modulePath == "http.js" && d.backendState.Running? &&
            UdfVersion(d, path).Ok? && UdfVersion(d, path).value.Err? ==>
      r == Ok(Err(UdfVersion(d, path).value.error))
  {
    if path.udfPath.modulePath != "http.js" then Err(UnexpectedHttpPath(path.udfPath))
    else if !IsSystemUdfPath(path.udfPath) && d.backendState.Paused? then Err(DeploymentPaused)
    else if !IsSystemUdfPath(path.udfPath) && d.backendState.Disabled? then Err(DeploymentDisabled)
    else match UdfVersion(d, path)
      case Err(failure) => Err(failure)
      case Ok(Err(e)) => Ok(Err(e))
      case Ok(Ok(version)) => Ok(Ok(ValidatedHttpPath(path, Some(version))))
  }

  // ---------------------------------------------------------------------------
  // Scheduled functions
  // ---------------------------------------------------------------------------

  datatype ScheduleError =
    | NonexistentPath(modulePath: string)
    | NoExportedFunction(functionName: string, modulePath: string)
    | ScheduleInternal(failure: Failure)

  /** Whether any function of the list has the given name. */
  function AnyNamed(fs: seq<AnalyzedFunction>, name: string): (found: bool)
    ensures found <==> exists i :: 0 <= i < |fs| && fs[i].name == name
  {
    if fs == [] then false
    else if fs[0].name == name then true
    else
      var rest := AnyNamed(fs[1..], name);
      assert rest ==> exists i :: 0 <= i < |fs| && fs[i].name == name by {
        if rest {
          var i :| 0 <= i < |fs[1..]| && fs[1..][i].name == name;
          assert fs[i + 1].name == name;
        }
      }
      assert (exists i :: 0 <= i < |fs| && fs[i].name == name) ==> rest by {
        if exists i :: 0 <= i < |fs| && fs[i].name == name {
          var i :| 0 <= i < |fs| && fs[i].name == name;
          assert fs[1..][i - 1].name == name;
        }
      }
      rest
  }

  /** Scanning for a name agrees with finding the first function of that name. */
  lemma AnyNamedFindsFirstNamed(fs: seq<AnalyzedFunction>, name: string)
    ensures AnyNamed(fs, name) <==> FirstNamed(fs, name).Some?
  {
  }

  /** The module at the path exists, has been analyzed, and exports no function
      of the requested name. */
  predicate LacksExport(d: Deployment, path: CanonicalizedComponentFunctionPath)
  {
    && (path.component, path.udfPath.modulePath) in d.modules
    && d.modules[(path.component, path.udfPath.modulePath)].analyzeResult.Some?
    && var fs := d.modules[(path.component, path.udfPath.modulePath)].analyzeResult.value;
       forall i :: 0 <= i < |fs| ==> fs[i].name != path.udfPath.functionName
  }

  /** The existence checks of `validate_schedule_args`: the module must exist;
      when it has been analyzed, it must export a function of the requested
      name, an error that names the module as a root path. */
  function CheckScheduledFunction(d: Deployment, path: CanonicalizedComponentFunctionPath): (r: Result<(), ScheduleError>)
    ensures (path.component, path.udfPath.modulePath) !in d.modules ==> r == Err(NonexistentPath(path.udfPath.modulePath))
    ensures r.Ok? <==>
      && (path.component, path.udfPath.modulePath) in d.modules
      && var analyzed := d.modules[(path.component, path.udfPath.modulePath)].analyzeResult;
         analyzed.Some? ==> exists i :: 0 <= i < |analyzed.value| && analyzed.value[i].name == path.udfPath.functionName
    ensures r.Err? && r.error.NoExportedFunction? ==> path.component.Root?
    // An analyzed module without the export: the developer error in the root
    // component, an internal error elsewhere.
    ensures LacksExport(d, path) ==> r == (if path.component.Root? then Err(NoExportedFunction(path.udfPath.functionName, path.udfPath.modulePath))
                else Err(ScheduleInternal(NotRootComponent)))
  {
    var key := (path.component, path.udfPath.modulePath);
    if key !in d.modules then Err(NonexistentPath(path.udfPath.modulePath))
    else match d.modules[key].analyzeResult
      case None => Ok(())
      case Some(fs) =>
        if AnyNamed(fs, path.udfPath.functionName) then Ok(())
        else if !path.component.Root? then Err(ScheduleInternal(NotRootComponent))
        else Err(NoExportedFunction(path.udfPath.functionName, path.udfPath.modulePath))
  }

  // ---------------------------------------------------------------------------
  // Protocol form
  // ---------------------------------------------------------------------------

  /** The protocol message of a validated call: every field optional, the
      path carried without its component. */
  datatype ProtoPathAndArgs = ProtoPathAndArgs(path: Option<UdfPath>, args: Option<ConvexArray>, npmVersion: Option<Version>)

  /** `TryFrom<ValidatedPathAndArgs>`: only calls in the root component have a
      protocol form. */
  function ToProto(v: ValidatedPathAndArgs): (r: Result<ProtoPathAndArgs, Failure>)
    ensures r.Ok? <==> v.path.component.Root?
    ensures r.Ok? ==> r.value.path.Some? && r.value.args.Some?
  {
    if !v.path.component.Root? then Err(NotRootComponent)
    else Ok(ProtoPathAndArgs(Some(v.path.udfPath), Some(v.args), v.npmVersion))
  }

  /** `from_proto`: the arguments and the path are required; the call is
      placed in the root component. */
  function FromProto(p: ProtoPathAndArgs): (r: Result<ValidatedPathAndArgs, Failure>)
    ensures p.args.None? ==> r == Err(MissingArgs)
    ensures p.args.Some? && p.path.None? ==> r == Err(MissingUdfPath)
    ensures r.Ok? ==> r.value.path.component.Root?
  {
    if p.args.None? then Err(MissingArgs)
    else if p.path.None? then Err(MissingUdfPath)
    else Ok(ValidatedPathAndArgs(CanonicalizedComponentFunctionPath(Root, p.path.value), p.args.value, p.npmVersion))
  }

  /** A root-component call survives the trip through its protocol form. */
  lemma ProtoRoundTrip(v: ValidatedPathAndArgs)
    requires v.path.component.Root?
    ensures ToProto(v).Ok? && FromProto(ToProto(v).value) == Ok(v)
  {
  }

  /** The protocol form of a decoded message is that message, once its
      optional fields are present. */
  lemma ProtoRoundTripFromMessage(p: ProtoPathAndArgs)
    requires p.path.Some? && p.args.Some?
    ensures FromProto(p).Ok? && ToProto(FromProto(p).value) == Ok(p)
  {
  }
}
