/**
 * DefaultRazorHtmlGenerator: pre-renders every non-API route's Razor view
 * into a static HTML file. Each route is rendered, its output path is
 * resolved from route metadata, and the HTML is written there; a failure
 * in one route is caught and logged, and the next route is processed.
 *
 * The collaborators the generator reaches through ASP.NET Core, the Bing
 * helpers and the operating system are the fields of `Host`. The file
 * system itself is the `IO.FileSystem` object the methods modify.
 */
module RazorPages {
  import opened DotNet
  import opened IO

  /** What the Razor engine does for one request: FindView does not find
      the view, FindView or View.RenderAsync throws, or the view renders
      to the given markup. */
  datatype ViewLookup =
    | ViewMissing
    | ViewThrows
    | ViewRendered(html: string)

  /** The collaborators of the generator.
      - renderView: the Razor engine, given the route values, the view
        name and the "is main page" flag that FindView receives;
      - isEmpty: Bing's IsEmpty extension on a non-null string;
      - physicalPath: PathHelper.GetPhysicalPath;
      - directoryName: System.IO.Path.GetDirectoryName (null for a root);
      - writeFails: whether File.WriteAllText throws for a physical path
        (access denied, disk full, invalid name); it is decided by the path
        alone, not by what the file system holds, and a write that throws
        is taken to leave the file as it was. */
  datatype Host = Host(
    renderView: (map<string, string>, NString, bool) -> ViewLookup,
    isEmpty: string -> bool,
    physicalPath: string -> string,
    directoryName: string -> NString,
    writeFails: string -> bool)

  /** One route found by the route analyzer. */
  datatype RouteInformation = RouteInformation(
    path: string,
    areaName: NString,
    controllerName: NString,
    actionName: NString,
    viewName: NString,
    templatePath: NString,
    filePath: NString,
    isPartialView: bool)

  /** The exceptions a route can raise inside WriteViewToFileAsync. */
  datatype Failure =
    | ViewNotFound(message: string)  // InvalidOperationException for a view FindView cannot find
    | RenderFault                    // thrown by FindView or View.RenderAsync
    | NullTemplatePath               // NullReferenceException in GetPath
    | WriteFault(path: string)       // thrown by File.WriteAllText

  datatype Result<T> = Ok(value: T) | Err(error: Failure)

  /** Routes under this prefix are API endpoints and are never rendered. */
  const ApiPrefix := "/api"

  /** The text of the error for a missing view; the action name follows. */
  const ViewNotFoundText := "找不到视图模板 "

  const AreaToken := "{area}"
  const ControllerToken := "{controller}"
  const ActionToken := "{action}"

  /** Bing's IsEmpty: a null string is empty; a non-null one is judged by
      the host. */
  predicate IsEmpty(host: Host, s: NString): (b: bool)
    ensures s.Null? ==> b
    ensures s.Str? ==> (b <==> host.isEmpty(s.value))
  {
    s.Null? || host.isEmpty(s.value)
  }

  /** Bing's SafeString, the null-safe view of a string: null reads as the empty string,
      which is also what String.Replace inserts for a null replacement. */
  function SafeString(s: NString): (r: string)
    ensures s.Str? ==> r == s.value
    ensures r == [] <==> s.Null? || s.value == []
  {
    if s.Null? then "" else s.value
  }

  /** GetRouteData: the route values handed to the Razor engine. */
  function GetRouteData(host: Host, info: RouteInformation): (values: map<string, string>)
    ensures "area" in values <==> !IsEmpty(host, info.areaName)
    ensures "controller" in values <==> !IsEmpty(host, info.controllerName)
    ensures "action" in values <==> !IsEmpty(host, info.actionName)
    ensures "area" in values ==> values["area"] == info.areaName.value
    ensures "controller" in values ==> values["controller"] == info.controllerName.value
    ensures "action" in values ==> values["action"] == info.actionName.value
    ensures values.Keys <= {"area", "controller", "action"}
  {
    var none: map<string, string> := map[];
    var withArea := if !IsEmpty(host, info.areaName) then none["area" := info.areaName.value] else none;
    var withController :=
      if !IsEmpty(host, info.controllerName) then withArea["controller" := info.controllerName.value] else withArea;
    if !IsEmpty(host, info.actionName) then withController["action" := info.actionName.value] else withController
  }

  /** The arguments GetView passes to FindView besides the action context. */
  datatype ViewQuery = ViewQuery(viewName: NString, isMainPage: bool)

  /** GetView: the view name falls back to the action name, and a partial
      view is looked up as a non-main page. */
  function GetView(host: Host, info: RouteInformation): (q: ViewQuery)
    ensures !IsEmpty(host, info.viewName) ==> q.viewName == info.viewName
    ensures IsEmpty(host, info.viewName) ==> q.viewName == info.actionName
    ensures q.isMainPage <==> !info.isPartialView
  {
    ViewQuery(if IsEmpty(host, info.viewName) then info.actionName else info.viewName, !info.isPartialView)
  }

  /** What the engine does for this route, with the route values of
      GetRouteData and the view arguments of GetView. */
  function Lookup(host: Host, info: RouteInformation): ViewLookup {
    var q := GetView(host, info);
    host.renderView(GetRouteData(host, info), q.viewName, q.isMainPage)
  }

  /** RenderToStringAsync: the rendered markup, or the error it raises. */
  function RenderToString(host: Host, info: RouteInformation): (r: Result<string>)
    ensures r.Ok? <==> Lookup(host, info).ViewRendered?
    ensures r.Ok? ==> r.value == Lookup(host, info).html
    ensures (r.Err? && r.error.ViewNotFound?) <==> Lookup(host, info).ViewMissing?
    ensures r.Err? && r.error.ViewNotFound? ==>
              r.error.message == ViewNotFoundText + SafeString(info.actionName)
    ensures r.Err? ==> r.error.ViewNotFound? || r.error == RenderFault
  {
    match Lookup(host, info)
    case ViewMissing => Err(ViewNotFound(ViewNotFoundText + SafeString(info.actionName)))
    case ViewThrows => Err(RenderFault)
    case ViewRendered(html) => Ok(html)
  }

  /** The template path with the three placeholders replaced, one after
      the other, by the null-safe area, controller and action names. */
  function Substitute(info: RouteInformation): (r: string)
    requires info.templatePath.Str?
    ensures Excludes(info.templatePath.value, '{') ==> r == info.templatePath.value
  {
    var withArea := Replace(info.templatePath.value, AreaToken, SafeString(info.areaName));
    var withController := Replace(withArea, ControllerToken, SafeString(info.controllerName));
    Replace(withController, ActionToken, SafeString(info.actionName))
  }

  /** GetPath: the substituted template path, lower-cased as a whole. A
      null template path throws. */
  function GetPath(info: RouteInformation): (r: Result<string>)
    ensures r.Err? <==> info.templatePath.Null?
    ensures r.Err? ==> r.error == NullTemplatePath
    ensures r.Ok? ==> NoUpper(r.value) && ToLower(r.value) == r.value
    ensures r.Ok? ==> |r.value| == |Substitute(info)|
  {
    if info.templatePath.Null? then Err(NullTemplatePath)
    else
      var substituted := Substitute(info);
      ToLowerHasNoUpper(substituted);
      ToLowerIdempotent(substituted);
      Ok(ToLower(substituted))
  }

  /** The logical output path of WriteViewToFileAsync: an explicit file
      path that is not blank wins, verbatim; otherwise GetPath. */
  function LogicalPath(info: RouteInformation): (r: Result<string>)
    ensures !IsNullOrWhiteSpace(info.filePath) ==> r == Ok(info.filePath.value)
    ensures IsNullOrWhiteSpace(info.filePath) ==> r == GetPath(info)
  {
    if IsNullOrWhiteSpace(info.filePath) then GetPath(info) else Ok(info.filePath.value)
  }

  datatype SkipReason = BlankHtml | BlankDirectory

  /** What WriteViewToFileAsync decides for a route before it touches the
      file system: skip, fail, or write `html` at `path` in `directory`. */
  datatype Plan =
    | Skip(reason: SkipReason)
    | Fail(failure: Failure)
    | Write(directory: string, path: string, html: string)

  /** The decisions of WriteViewToFileAsync, in its order: render, blank
      HTML check, path choice and physical mapping, blank directory check. */
  function PlanRoute(host: Host, info: RouteInformation): (p: Plan)
    ensures RenderToString(host, info).Err? ==> p == Fail(RenderToString(host, info).error)
    ensures RenderToString(host, info).Ok? && IsNullOrWhiteSpace(Str(RenderToString(host, info).value)) ==>
              p == Skip(BlankHtml)
    ensures p.Write? <==>
              var rendered := RenderToString(host, info);
              var logical := LogicalPath(info);
              && rendered.Ok? && !IsNullOrWhiteSpace(Str(rendered.value))
              && logical.Ok?
              && !IsNullOrWhiteSpace(host.directoryName(host.physicalPath(logical.value)))
    ensures p.Write? ==>
              && Ok(p.html) == RenderToString(host, info)
              && Ok(p.path) == LogicalPath(info).(value := host.physicalPath(LogicalPath(info).value))
              && Str(p.directory) == host.directoryName(p.path)
  {
    match RenderToString(host, info)
    case Err(e) => Fail(e)
    case Ok(html) =>
      if IsNullOrWhiteSpace(Str(html)) then Skip(BlankHtml)
      else
        match LogicalPath(info)
        case Err(e) => Fail(e)
        case Ok(logical) =>
          var path := host.physicalPath(logical);
          var directory := host.directoryName(path);
          if IsNullOrWhiteSpace(directory) then Skip(BlankDirectory)
          else Write(directory.value, path, html)
  }

  /** How one route ends. */
  datatype RouteOutcome =
    | Skipped(reason: SkipReason)
    | Failed(failure: Failure)
    | Written(path: string)

  /** How a route ends; this does not depend on the file system. */
  function Outcome(host: Host, info: RouteInformation): RouteOutcome {
    match PlanRoute(host, info)
    case Skip(reason) => Skipped(reason)
    case Fail(failure) => Failed(failure)
    case Write(_, path, _) => if host.writeFails(path) then Failed(WriteFault(path)) else Written(path)
  }

  datatype Effect = Effect(state: FsState, outcome: RouteOutcome)

  /** WriteViewToFileAsync on a file-system snapshot. */
  function WriteView(host: Host, info: RouteInformation, s: FsState): (e: Effect)
    ensures e.outcome == Outcome(host, info)
    ensures !e.outcome.Written? ==> e.state.files == s.files
    ensures e.outcome.Written? ==> RenderToString(host, info).Ok?
    ensures e.outcome.Written? ==>
              e.state.files == s.files[e.outcome.path := RenderToString(host, info).value]
    ensures e.outcome.Written? ==> !IsNullOrWhiteSpace(Str(RenderToString(host, info).value))
    ensures s.dirs <= e.state.dirs
    ensures PlanRoute(host, info).Write? ==> e.state.dirs == s.dirs + {PlanRoute(host, info).directory}
    ensures !PlanRoute(host, info).Write? ==> e.state == s
  {
    match PlanRoute(host, info)
    case Skip(reason) => Effect(s, Skipped(reason))
    case Fail(failure) => Effect(s, Failed(failure))
    case Write(directory, path, html) =>
      var dirs := s.dirs + {directory};
      if host.writeFails(path) then Effect(FsState(s.files, dirs), Failed(WriteFault(path)))
      else Effect(FsState(s.files[path := html], dirs), Written(path))
  }

  /** The skip rule of Generate. */
  predicate IsApiRoute(info: RouteInformation) {
    StartsWith(info.path, ApiPrefix)
  }

  /** The entries a route adds to the error log. */
  function LogEntry(outcome: RouteOutcome): seq<Failure> {
    if outcome.Failed? then [outcome.failure] else []
  }

  /** The file system and the error log after Generate. */
  datatype RunResult = RunResult(state: FsState, log: seq<Failure>)

  /** Generate, route by route, in input order: API routes are skipped and
      every other route goes through WriteView. */
  function Run(host: Host, routes: seq<RouteInformation>, s: FsState): (r: RunResult)
    ensures |r.log| <= |routes|
    ensures s.dirs <= r.state.dirs
    decreases |routes|
  {
    if routes == [] then RunResult(s, [])
    else
      var before := Run(host, routes[..|routes| - 1], s);
      var info := routes[|routes| - 1];
      if IsApiRoute(info) then before
      else
        var e := WriteView(host, info, before.state);
        RunResult(e.state, before.log + LogEntry(e.outcome))
  }

  /** The routes Generate does not skip, in input order. */
  function NonApi(routes: seq<RouteInformation>): (r: seq<RouteInformation>)
    ensures forall x :: x in r <==> x in routes && !IsApiRoute(x)
    ensures |r| <= |routes|
    decreases |routes|
  {
    if routes == [] then []
    else
      var last := routes[|routes| - 1];
      assert routes == routes[..|routes| - 1] + [last];
      NonApi(routes[..|routes| - 1]) + (if IsApiRoute(last) then [] else [last])
  }

  /** NonApi keeps the order of the routes: filtering a concatenation is
      concatenating the filtered parts. */
  lemma {:induction false} NonApiAppend(a: seq<RouteInformation>, b: seq<RouteInformation>)
    ensures NonApi(a + b) == NonApi(a) + NonApi(b)
    decreases |b|
  {
    if b == [] {
      assert a + b == a;
    } else {
      var last := b[|b| - 1];
      var rest := b[..|b| - 1];
      assert (a + b)[..|a + b| - 1] == a + rest;
      NonApiAppend(a, rest);
    }
  }

  /** Reference for the files a run writes, read off the routes alone:
      the later of two routes with the same path wins. */
  function Writes(host: Host, routes: seq<RouteInformation>): map<string, string>
    decreases |routes|
  {
    if routes == [] then map[]
    else
      var earlier := Writes(host, routes[..|routes| - 1]);
      var info := routes[|routes| - 1];
      if !IsApiRoute(info) && Outcome(host, info).Written? then
        earlier[Outcome(host, info).path := PlanRoute(host, info).html]
      else earlier
  }

  /** Reference for the directories a run creates. */
  function CreatedDirs(host: Host, routes: seq<RouteInformation>): set<string>
    decreases |routes|
  {
    if routes == [] then {}
    else
      var earlier := CreatedDirs(host, routes[..|routes| - 1]);
      var info := routes[|routes| - 1];
      if !IsApiRoute(info) && PlanRoute(host, info).Write? then earlier + {PlanRoute(host, info).directory}
      else earlier
  }

  /** Reference for the error log of a run. */
  function Failures(host: Host, routes: seq<RouteInformation>): seq<Failure>
    decreases |routes|
  {
    if routes == [] then []
    else
      var info := routes[|routes| - 1];
      Failures(host, routes[..|routes| - 1]) + (if IsApiRoute(info) then [] else LogEntry(Outcome(host, info)))
  }

  /** WriteViewToFileAsync: render, check, resolve, create the directory if
      it is missing, and overwrite the file; every exception ends the route
      and is reported through `outcome`. */
  method WriteViewToFile(host: Host, info: RouteInformation, fs: FileSystem) returns (outcome: RouteOutcome)
    modifies fs
    ensures Effect(fs.State(), outcome) == WriteView(host, info, old(fs.State()))
  {
    var rendered := RenderToString(host, info);
    if rendered.Err? {
      return Failed(rendered.error);
    }
    var html := rendered.value;
    if IsNullOrWhiteSpace(Str(html)) {
      return Skipped(BlankHtml);
    }
    var logical := LogicalPath(info);
    if logical.Err? {
      return Failed(logical.error);
    }
    var path := host.physicalPath(logical.value);
    var directory := host.directoryName(path);
    if IsNullOrWhiteSpace(directory) {
      return Skipped(BlankDirectory);
    }
    var present := fs.DirectoryExists(directory.value);
    if !present {
      fs.CreateDirectory(directory.value);
    }
    if host.writeFails(path) {
      return Failed(WriteFault(path));
    }
    fs.WriteAllText(path, html);
    outcome := Written(path);
  }

  /** Generate: every route of the analyzer, in order; API routes are
      skipped. The failures the routes report are returned as the log. */
  method Generate(host: Host, routes: seq<RouteInformation>, fs: FileSystem) returns (log: seq<Failure>)
    modifies fs
    ensures RunResult(fs.State(), log) == Run(host, routes, old(fs.State()))
  {
    log := [];
    for i := 0 to |routes|
      invariant RunResult(fs.State(), log) == Run(host, routes[..i], old(fs.State()))
    {
      var info := routes[i];
      assert routes[..i + 1][..i] == routes[..i];
      if IsApiRoute(info) {
        continue;
      }
      var outcome := WriteViewToFile(host, info, fs);
      if outcome.Failed? {
        log := log + [outcome.failure];
      }
    }
    assert routes[..|routes|] == routes;
  }

  // ---------------------------------------------------------------------
  // Properties of a run

  /** A run is the reference read off the routes: the old files overridden
      by the routes' writes, the old directories plus the created ones, and
      the failures in route order; none of it depends on earlier runs. */
  lemma RunMatchesReference(host: Host, routes: seq<RouteInformation>, s: FsState)
    ensures Run(host, routes, s) ==
            RunResult(FsState(s.files + Writes(host, routes), s.dirs + CreatedDirs(host, routes)),
                      Failures(host, routes))
  {
    RunFilesMatchWrites(host, routes, s);
    RunDirsMatchCreatedDirs(host, routes, s);
    RunLogMatchesFailures(host, routes, s);
  }

  /** The files after a run are the old files overridden by Writes. */
  lemma {:induction false} RunFilesMatchWrites(host: Host, routes: seq<RouteInformation>, s: FsState)
    ensures Run(host, routes, s).state.files == s.files + Writes(host, routes)
    decreases |routes|
  {
    if routes != [] {
      var prefix := routes[..|routes| - 1];
      var info := routes[|routes| - 1];
      RunFilesMatchWrites(host, prefix, s);
      if !IsApiRoute(info) && Outcome(host, info).Written? {
        var w := Writes(host, prefix);
        var p, h := Outcome(host, info).path, PlanRoute(host, info).html;
        assert (s.files + w)[p := h] == s.files + w[p := h];
      }
    }
  }

  /** The directories after a run are the old ones plus CreatedDirs. */
  lemma {:induction false} RunDirsMatchCreatedDirs(host: Host, routes: seq<RouteInformation>, s: FsState)
    ensures Run(host, routes, s).state.dirs == s.dirs + CreatedDirs(host, routes)
    decreases |routes|
  {
    if routes != [] {
      RunDirsMatchCreatedDirs(host, routes[..|routes| - 1], s);
    }
  }

  /** The log of a run is Failures, whatever the file system held. */
  lemma {:induction false} RunLogMatchesFailures(host: Host, routes: seq<RouteInformation>, s: FsState)
    ensures Run(host, routes, s).log == Failures(host, routes)
    decreases |routes|
  {
    if routes != [] {
      RunLogMatchesFailures(host, routes[..|routes| - 1], s);
    }
  }

  /** Generating twice in a row with the same routes and templates leaves
      the same files and directories as generating once, and logs the same
      failures. */
  lemma GenerateIsIdempotent(host: Host, routes: seq<RouteInformation>, s: FsState)
    ensures Run(host, routes, Run(host, routes, s).state) == Run(host, routes, s)
  {
    var once := Run(host, routes, s);
    RunMatchesReference(host, routes, s);
    RunMatchesReference(host, routes, once.state);
    var w := Writes(host, routes);
    assert (s.files + w) + w == s.files + w;
  }

  /** API routes are invisible: a run over all routes is a run over the
      routes that do not start with the API prefix. */
  lemma {:induction false} ApiRoutesAreSkipped(host: Host, routes: seq<RouteInformation>, s: FsState)
    ensures Run(host, routes, s) == Run(host, NonApi(routes), s)
    decreases |routes|
  {
    if routes != [] {
      var prefix := routes[..|routes| - 1];
      var info := routes[|routes| - 1];
      ApiRoutesAreSkipped(host, prefix, s);
      if IsApiRoute(info) {
        assert NonApi(routes) == NonApi(prefix) + [];
        assert NonApi(routes) == NonApi(prefix);
      } else {
        var kept := NonApi(routes);
        assert kept == NonApi(prefix) + [info];
        assert kept[..|kept| - 1] == NonApi(prefix);
      }
    }
  }

  /** Each route that is not skipped logs at most one failure. */
  lemma LogBoundedByNonApiRoutes(host: Host, routes: seq<RouteInformation>, s: FsState)
    ensures |Run(host, routes, s).log| <= |NonApi(routes)|
  {
    ApiRoutesAreSkipped(host, routes, s);
  }

  /** A route that writes leaves its HTML at its path whatever the routes
      before it did, failures included. */
  lemma LaterRouteStillWrites(host: Host, earlier: seq<RouteInformation>, info: RouteInformation, s: FsState)
    requires !IsApiRoute(info)
    requires Outcome(host, info).Written?
    ensures Outcome(host, info).path in Run(host, earlier + [info], s).state.files
    ensures Run(host, earlier + [info], s).state.files[Outcome(host, info).path]
            == RenderToString(host, info).value
  {
  }

  /** A route that fails or is skipped changes no file, and a failing one
      appends exactly its failure to the log. */
  lemma NonWritingRouteChangesNoFile(host: Host, earlier: seq<RouteInformation>, info: RouteInformation, s: FsState)
    requires !Outcome(host, info).Written?
    ensures Run(host, earlier + [info], s).state.files == Run(host, earlier, s).state.files
    ensures Run(host, earlier + [info], s).log ==
            Run(host, earlier, s).log + (if IsApiRoute(info) then [] else LogEntry(Outcome(host, info)))
  {
  }

  /** A route whose view cannot be found writes nothing; its error, which
      names the action, is logged, and the run goes on. */
  lemma MissingViewIsLoggedAndSkipped(host: Host, earlier: seq<RouteInformation>, info: RouteInformation, s: FsState)
    requires !IsApiRoute(info)
    requires Lookup(host, info).ViewMissing?
    ensures Run(host, earlier + [info], s).state == Run(host, earlier, s).state
    ensures Run(host, earlier + [info], s).log ==
            Run(host, earlier, s).log + [ViewNotFound(ViewNotFoundText + SafeString(info.actionName))]
  {
  }

  // ---------------------------------------------------------------------
  // Path resolution

  /** A piece of a template path: literal text or one of the three
      placeholders. */
  datatype Segment = Literal(text: string) | AreaHole | ControllerHole | ActionHole

  /** The placeholder text a hole is written as. */
  function Token(hole: Segment): string
    requires !hole.Literal?
  {
    match hole
    case AreaHole => AreaToken
    case ControllerHole => ControllerToken
    case ActionHole => ActionToken
  }

  /** The template path the segments spell out. */
  function TemplateText(segs: seq<Segment>): string
    decreases |segs|
  {
    if segs == [] then []
    else (if segs[0].Literal? then segs[0].text else Token(segs[0])) + TemplateText(segs[1..])
  }

  /** The intended path: each placeholder stands for its name. */
  function Resolved(segs: seq<Segment>, area: string, controller: string, action: string): string
    decreases |segs|
  {
    if segs == [] then []
    else
      var piece := match segs[0]
        case Literal(text) => text
        case AreaHole => area
        case ControllerHole => controller
        case ActionHole => action;
      piece + Resolved(segs[1..], area, controller, action)
  }

  /** No literal segment holds a '{'. */
  predicate BraceFree(segs: seq<Segment>) {
    forall i :: 0 <= i < |segs| && segs[i].Literal? ==> Excludes(segs[i].text, '{')
  }

  /** The segments with every `hole` turned into the literal `value`. */
  function Fill(segs: seq<Segment>, hole: Segment, value: string): (r: seq<Segment>)
    ensures |r| == |segs|
    ensures BraceFree(segs) && Excludes(value, '{') ==> BraceFree(r)
    decreases |segs|
  {
    if segs == [] then []
    else [if segs[0] == hole then Literal(value) else segs[0]] + Fill(segs[1..], hole, value)
  }

  /** A placeholder at the start of the text is replaced when it is the
      one sought, and passed over otherwise. */
  lemma ReplaceAtHole(seg: Segment, hole: Segment, rest: string, value: string)
    requires !seg.Literal? && !hole.Literal?
    ensures Replace(Token(seg) + rest, Token(hole), value)
            == (if seg == hole then value else Token(seg)) + Replace(rest, Token(hole), value)
  {
    var token, pattern := Token(seg), Token(hole);
    if seg == hole {
      ReplaceAtStart(pattern, rest, value);
    } else {
      assert Excludes(token[1..], '{');
      var k := if token[1] != pattern[1] then 1 else 2;
      ReplaceSkipsToken(token, rest, pattern, value, k);
    }
  }

  /** The segments after the first are brace-free as well. */
  lemma BraceFreeTail(segs: seq<Segment>)
    requires segs != [] && BraceFree(segs)
    ensures BraceFree(segs[1..])
  {
    forall i | 0 <= i < |segs[1..]| && segs[1..][i].Literal?
      ensures Excludes(segs[1..][i].text, '{')
    {
      assert segs[1..][i] == segs[i + 1];
    }
  }

  /** One pass of GetPath's Replace chain: replacing a placeholder's text fills exactly
      that placeholder, wherever and however often it occurs, provided no
      literal holds a '{'. */
  lemma {:induction false} ReplaceFillsHole(segs: seq<Segment>, hole: Segment, value: string)
    requires !hole.Literal? && BraceFree(segs)
    ensures Replace(TemplateText(segs), Token(hole), value) == TemplateText(Fill(segs, hole, value))
    decreases |segs|
  {
    if segs == [] {
      assert Replace([], Token(hole), value) == [];
    } else {
      var rest := TemplateText(segs[1..]);
      BraceFreeTail(segs);
      ReplaceFillsHole(segs[1..], hole, value);
      if segs[0].Literal? {
        assert Excludes(segs[0].text, '{');
        ReplaceKeepsPrefix(segs[0].text, rest, Token(hole), value);
      } else {
        ReplaceAtHole(segs[0], hole, rest, value);
      }
    }
  }

  /** Filling the three holes in turn gives the intended path. */
  lemma {:induction false} FillAllIsResolved(segs: seq<Segment>, area: string, controller: string, action: string)
    ensures TemplateText(Fill(Fill(Fill(segs, AreaHole, area), ControllerHole, controller), ActionHole, action))
            == Resolved(segs, area, controller, action)
    decreases |segs|
  {
    if segs != [] {
      FillAllIsResolved(segs[1..], area, controller, action);
    }
  }

  /** Substitute puts each name in place of every occurrence of its
      placeholder, for any template whose literal text holds no '{', as
      long as the area and controller names hold none either (the action
      name is inserted by the last pass and may hold anything). */
  lemma SubstituteFillsPlaceholders(info: RouteInformation, segs: seq<Segment>)
    requires info.templatePath == Str(TemplateText(segs)) && BraceFree(segs)
    requires Excludes(SafeString(info.areaName), '{') && Excludes(SafeString(info.controllerName), '{')
    ensures Substitute(info)
            == Resolved(segs, SafeString(info.areaName), SafeString(info.controllerName), SafeString(info.actionName))
  {
    var area, controller, action := SafeString(info.areaName), SafeString(info.controllerName), SafeString(info.actionName);
    var withArea := Fill(segs, AreaHole, area);
    var withController := Fill(withArea, ControllerHole, controller);
    ReplaceFillsHole(segs, AreaHole, area);
    ReplaceFillsHole(withArea, ControllerHole, controller);
    ReplaceFillsHole(withController, ActionHole, action);
    FillAllIsResolved(segs, area, controller, action);
  }

  /** GetPath is the intended path, lower-cased, for every such template. */
  lemma GetPathFillsPlaceholders(info: RouteInformation, segs: seq<Segment>)
    requires info.templatePath == Str(TemplateText(segs)) && BraceFree(segs)
    requires Excludes(SafeString(info.areaName), '{') && Excludes(SafeString(info.controllerName), '{')
    ensures GetPath(info)
            == Ok(ToLower(Resolved(segs, SafeString(info.areaName), SafeString(info.controllerName),
                                   SafeString(info.actionName))))
  {
    SubstituteFillsPlaceholders(info, segs);
  }

  // ---------------------------------------------------------------------
  // Worked examples

  /** The path of a controller/action route: placeholders replaced, the
      empty area unused, and nothing else changed; with no explicit file
      path this is the logical output path. */
  lemma AboutPageScenario(info: RouteInformation)
    requires info.areaName == Str("") && info.controllerName == Str("home") && info.actionName == Str("about")
    requires info.templatePath == Str("/{controller}/{action}.html") && info.filePath == Null
    ensures GetPath(info) == Ok("/home/about.html")
    ensures LogicalPath(info) == Ok("/home/about.html")
  {
    AboutPageSubstitution(info);
    AboutPathIsLowerCase();
  }

  /** The substitution step of AboutPageScenario. */
  lemma AboutPageSubstitution(info: RouteInformation)
    requires info.areaName == Str("") && info.controllerName == Str("home") && info.actionName == Str("about")
    requires info.templatePath == Str("/{controller}/{action}.html")
    ensures Substitute(info) == "/" + "home" + "/" + "about" + ".html"
  {
    AboutTemplateText();
    AboutBraceFree();
    AboutResolved();
    SubstituteFillsPlaceholders(info, AboutSegments);
  }

  /** "/{controller}/{action}.html" as segments. */
  const AboutSegments := [Literal("/"), ControllerHole, Literal("/"), ActionHole, Literal(".html")]

  /** A template with a controller and an action placeholder between three
      literals, as segments. */
  lemma ControllerActionTemplate(a: string, b: string, c: string)
    ensures TemplateText([Literal(a), ControllerHole, Literal(b), ActionHole, Literal(c)])
            == a + ControllerToken + b + ActionToken + c
  {
    var segs := [Literal(a), ControllerHole, Literal(b), ActionHole, Literal(c)];
    assert TemplateText(segs[4..]) == c;
    assert TemplateText(segs[3..]) == ActionToken + c;
    assert TemplateText(segs[2..]) == b + ActionToken + c;
    assert TemplateText(segs[1..]) == ControllerToken + b + ActionToken + c;
  }

  /** The segments of AboutPageSubstitution spell its template. */
  lemma AboutTemplateText()
    ensures TemplateText(AboutSegments) == "/{controller}/{action}.html"
  {
    ControllerActionTemplate("/", "/", ".html");
  }

  /** Those segments hold no literal '{'. */
  lemma AboutBraceFree()
    ensures BraceFree(AboutSegments)
  {
    assert Excludes("/", '{') && Excludes(".html", '{');
  }

  /** Those segments resolve to the controller and action names. */
  lemma AboutResolved()
    ensures Resolved(AboutSegments, "", "home", "about") == "/" + "home" + "/" + "about" + ".html"
  {
    var segs := AboutSegments;
    assert Resolved(segs[4..], "", "home", "about") == ".html";
    assert Resolved(segs[2..], "", "home", "about") == "/" + "about" + ".html";
  }

  /** The substituted path of AboutPageScenario is already lower-cased. */
  lemma AboutPathIsLowerCase()
    ensures ToLower("/" + "home" + "/" + "about" + ".html") == "/home/about.html"
  {
    var r := "/home/about.html";
    assert "/" + "home" + "/" + "about" + ".html" == r;
    assert forall k :: 0 <= k < |r| ==> 'a' <= r[k] <= 'z' || r[k] == '/' || r[k] == '.';
    ToLowerKeepsLower(r);
  }

  /** The replacements run in order, so an area name holding the text
      "{controller}" is itself replaced by the controller name. */
  lemma ReplacementsRunInOrder()
    ensures GetPath(RouteInformation("/x", Str("{controller}"), Str("Home"), Null, Null,
                                     Str("{area}"), Null, false))
            == Ok("home")
  {
    var info := RouteInformation("/x", Str("{controller}"), Str("Home"), Null, Null,
                                 Str("{area}"), Null, false);
    assert AreaToken + [] == "{area}" && ControllerToken + [] == ControllerToken;
    ReplaceAtStart(AreaToken, [], ControllerToken);
    ReplaceAtStart(ControllerToken, [], "Home");
    assert Replace("Home", ActionToken, "") == "Home";
    assert Substitute(info) == "Home";
    assert ToLower("Home") == "home" by {
      assert ToLower("Home") == [ToLowerChar('H')] + ToLower("ome");
      ToLowerKeepsLower("ome");
    }
  }

  /** Placeholders match case-sensitively, yet the result is lower-cased:
      "{Area}" is not replaced and comes out as the literal "{area}". */
  lemma PlaceholdersAreCaseSensitive(info: RouteInformation)
    requires info.areaName == Str("Admin") && info.templatePath == Str("{Area}")
    ensures GetPath(info) == Ok("{area}")
  {
    MixedCaseTokenIsKept(info);
    assert ToLower("{Area}") == "{area}" by {
      assert ToLower("{Area}") == [ToLowerChar('{')] + ToLower("Area}");
      assert ToLower("Area}") == [ToLowerChar('A')] + ToLower("rea}");
      ToLowerKeepsLower("rea}");
    }
  }

  /** The substitution step of PlaceholdersAreCaseSensitive. */
  lemma MixedCaseTokenIsKept(info: RouteInformation)
    requires info.areaName == Str("Admin") && info.templatePath == Str("{Area}")
    ensures Substitute(info) == "{Area}"
  {
    var template := "{Area}";
    assert template == template + [];
    assert Excludes(template[1..], '{');
    ReplaceSkipsToken(template, [], AreaToken, "Admin", 1);
    assert Replace([], AreaToken, "Admin") == [];
  }

  /** An explicit file path keeps its upper-case letters and its braces. */
  lemma ExplicitFilePathIsVerbatim()
    ensures LogicalPath(RouteInformation("/about", Null, Str("home"), Str("about"), Null,
                                         Str("/{controller}/{action}.html"), Str("/Pages/{action}.HTML"), false))
            == Ok("/Pages/{action}.HTML")
  {
    assert !IsWhiteSpace("/Pages/{action}.HTML"[0]);
  }

  /** The model's skip rule is an ordinal, case-sensitive prefix test. */
  lemma ApiPrefixIsPlainPrefix()
    ensures StartsWith("/apidocs", ApiPrefix)
    ensures !StartsWith("/API/users", ApiPrefix)
    ensures !StartsWith("/ap", ApiPrefix)
  {
    assert "/API/users"[..4][1] != ApiPrefix[1];
  }
}
