# Static HTML generation of Razor views, in Dafny

A model of `DefaultRazorHtmlGenerator` from Bing.AspNetCore.Mvc.UI. This class pre-renders every route of an
ASP.NET Core application into a static HTML file. `Generate` walks the routes of the route analyzer in order
and skips those whose path starts with `/api`. It hands every other route to `WriteViewToFileAsync`. That
method does four things:

1. It renders the route's Razor view (`RenderToStringAsync`, with `GetRouteData` and `GetView`).
2. It gives up on blank HTML.
3. It resolves the output path: the explicit `FilePath`, or `GetPath`'s substituted and lower-cased
   `TemplatePath`. It then maps that path to a physical path.
4. It gives up on a blank parent directory. Otherwise it creates the directory if needed and overwrites the file.

Every exception is caught and logged per route, and the run moves on to the next route.

Files:

- `dotnet_strings.dfy` (module `DotNet`): the .NET string behaviour the class relies on. Bing's `SafeString`
  is in `RazorPages`, next to Bing's `IsEmpty`.
  - `NString` is a string reference that may be null.
  - `string.IsNullOrWhiteSpace`, using the `char.IsWhiteSpace` set.
  - Ordinal `StartsWith`.
  - Ordinal, left-to-right, non-overlapping `Replace`.
  - `ToLower`.
- `file_system.dfy` (module `IO`): the class `FileSystem`. It holds a map from physical path to file
  text and a set of existing directories. Its methods model `Directory.Exists`,
  `Directory.CreateDirectory` and `File.WriteAllText`.
- `razor_html_generator.dfy` (module `RazorPages`): the generator.
  - Collaborators the class reaches through the service locator, the Bing helpers or the operating system
    are fields of the datatype `Host`:
    - the Razor engine (`renderView`);
    - Bing's `IsEmpty` on a non-null string;
    - `PathHelper.GetPhysicalPath`;
    - `Path.GetDirectoryName`;
    - whether `File.WriteAllText` throws for a path.
  - `GetRouteData`, `GetView`, `RenderToString`, `GetPath` and `LogicalPath` are functions.
  - The two imperative members are methods that modify the `FileSystem`:
    - `WriteViewToFile` is proved equal to the function `WriteView`;
    - `Generate` (a `for` loop with `continue`) is proved equal to the function `Run`.
  - `Run` is related by lemmas to a reference that reads the result off the routes alone (`Writes`,
    `CreatedDirs`, `Failures`). Skipping, isolation of failures and idempotence follow from that reference.
    This rests on write failures being decided by the path alone (see "Left out").
  - Path resolution is proved for every template: a template is a sequence of `Segment`s (literal text or a
    placeholder), and `SubstituteFillsPlaceholders` shows that the three passes of `Replace` put each name in
    place of every occurrence of its placeholder, provided no literal text and no area or controller name holds
    a `{`.

The exceptions caught in `WriteViewToFileAsync` become the values of `Failure`:

- the `InvalidOperationException` for a view that cannot be found, with its message;
- any exception from the engine;
- the `NullReferenceException` of a null `TemplatePath`;
- a write failure.

`ex.Log(...)` becomes the sequence of failures that `Generate` returns.

Points where the code is more specific than a plain reading of its purpose, and which the model follows:

- A `FilePath` that is null OR whitespace-only is treated as absent (line 81), not only an unset one.
- The not-found error names `ActionName` (line 60), even when the view looked up was `ViewName`. A null
  action name reads as empty, as string interpolation does.
- Routes run in input order. Two routes that resolve to the same physical path both write, and the later
  one's HTML stays (`Writes`, `LaterRouteStillWrites`).
- The failure boundary sits in `WriteViewToFileAsync` (lines 76-92), not in `Generate`. Errors other than
  a missing view do not carry the action name.

## Model

| member | source | states |
|---|---|---|
| DotNet.Replace | framework/src/Bing.AspNetCore.Mvc.UI/Bing/AspNetCore/Mvc/UI/RazorPages/DefaultRazorHtmlGenerator.cs:104 | text without the pattern's first character comes out unchanged; replacing a pattern by itself changes nothing |
| DotNet.ReplaceEveryOccurrence | framework/src/Bing.AspNetCore.Mvc.UI/Bing/AspNetCore/Mvc/UI/RazorPages/DefaultRazorHtmlGenerator.cs:104 | every occurrence is replaced: text cut at the occurrences of the pattern, into parts that cannot start one, comes out with the replacement between the same parts |
| DotNet.ReplaceKeepsPrefix | framework/src/Bing.AspNetCore.Mvc.UI/Bing/AspNetCore/Mvc/UI/RazorPages/DefaultRazorHtmlGenerator.cs:104 | a prefix that cannot start the pattern passes through `Replace` and the scan continues after it |
| DotNet.ReplaceSkipsToken | framework/src/Bing.AspNetCore.Mvc.UI/Bing/AspNetCore/Mvc/UI/RazorPages/DefaultRazorHtmlGenerator.cs:104 | a brace token that differs from the pattern passes through unchanged |
| DotNet.ToLowerChar | framework/src/Bing.AspNetCore.Mvc.UI/Bing/AspNetCore/Mvc/UI/RazorPages/DefaultRazorHtmlGenerator.cs:105 | the lowered character is never upper-case; a non-upper-case character is unchanged |
| DotNet.ToLower | framework/src/Bing.AspNetCore.Mvc.UI/Bing/AspNetCore/Mvc/UI/RazorPages/DefaultRazorHtmlGenerator.cs:105 | lower-casing keeps the length |
| DotNet.ToLowerAt | framework/src/Bing.AspNetCore.Mvc.UI/Bing/AspNetCore/Mvc/UI/RazorPages/DefaultRazorHtmlGenerator.cs:105 | lower-casing works character by character |
| DotNet.ToLowerHasNoUpper | framework/src/Bing.AspNetCore.Mvc.UI/Bing/AspNetCore/Mvc/UI/RazorPages/DefaultRazorHtmlGenerator.cs:105 | the lowered path contains no upper-case letter |
| DotNet.ToLowerKeepsLower | framework/src/Bing.AspNetCore.Mvc.UI/Bing/AspNetCore/Mvc/UI/RazorPages/DefaultRazorHtmlGenerator.cs:105 | a string without upper-case letters is its own lower-case form |
| DotNet.ToLowerIdempotent | framework/src/Bing.AspNetCore.Mvc.UI/Bing/AspNetCore/Mvc/UI/RazorPages/DefaultRazorHtmlGenerator.cs:105 | lower-casing again leaves the path unchanged |
| DotNet.IsNullOrWhiteSpace | framework/src/Bing.AspNetCore.Mvc.UI/Bing/AspNetCore/Mvc/UI/RazorPages/DefaultRazorHtmlGenerator.cs:79-83 | true exactly for null or for a string with nothing left after trimming leading white space |
| DotNet.TrimStartIsSuffix | framework/src/Bing.AspNetCore.Mvc.UI/Bing/AspNetCore/Mvc/UI/RazorPages/DefaultRazorHtmlGenerator.cs:79-83 | the trimmed text that IsNullOrWhiteSpace tests for emptiness is a suffix of the string, and everything dropped before it is white space |
| DotNet.StartsWith | framework/src/Bing.AspNetCore.Mvc.UI/Bing/AspNetCore/Mvc/UI/RazorPages/DefaultRazorHtmlGenerator.cs:41 | true exactly when the path is the prefix followed by some text |
| RazorPages.SafeString | framework/src/Bing.AspNetCore.Mvc.UI/Bing/AspNetCore/Mvc/UI/RazorPages/DefaultRazorHtmlGenerator.cs:101-103 | a non-null name is kept as it is; the result is empty exactly for null or an empty name |
| IO.FileSystem.DirectoryExists | framework/src/Bing.AspNetCore.Mvc.UI/Bing/AspNetCore/Mvc/UI/RazorPages/DefaultRazorHtmlGenerator.cs:85 | true exactly when the directory exists |
| IO.FileSystem.CreateDirectory | framework/src/Bing.AspNetCore.Mvc.UI/Bing/AspNetCore/Mvc/UI/RazorPages/DefaultRazorHtmlGenerator.cs:86 | afterwards the directory exists; no file changes |
| IO.FileSystem.WriteAllText | framework/src/Bing.AspNetCore.Mvc.UI/Bing/AspNetCore/Mvc/UI/RazorPages/DefaultRazorHtmlGenerator.cs:87 | the file at the path holds exactly the new text; every other file is unchanged |
| RazorPages.GetRouteData | framework/src/Bing.AspNetCore.Mvc.UI/Bing/AspNetCore/Mvc/UI/RazorPages/DefaultRazorHtmlGenerator.cs:124-134 | holds key "area", "controller" or "action" exactly when that field is non-empty, with the field's value, and no other key |
| RazorPages.IsEmpty | framework/src/Bing.AspNetCore.Mvc.UI/Bing/AspNetCore/Mvc/UI/RazorPages/DefaultRazorHtmlGenerator.cs:127-131 | a null name is empty; a non-null one is empty exactly when Bing's check says so |
| RazorPages.GetView | framework/src/Bing.AspNetCore.Mvc.UI/Bing/AspNetCore/Mvc/UI/RazorPages/DefaultRazorHtmlGenerator.cs:114-118 | the view name is `ViewName` when it is non-empty, else `ActionName`; the main-page flag is `!IsPartialView` |
| RazorPages.RenderToString | framework/src/Bing.AspNetCore.Mvc.UI/Bing/AspNetCore/Mvc/UI/RazorPages/DefaultRazorHtmlGenerator.cs:51-68 | the route renders exactly when the engine renders the view chosen by GetView with GetRouteData's values; a view that is not found gives the not-found error whose message names `ActionName`; every other engine failure is an error too |
| RazorPages.Substitute | framework/src/Bing.AspNetCore.Mvc.UI/Bing/AspNetCore/Mvc/UI/RazorPages/DefaultRazorHtmlGenerator.cs:104 | a template without a '{' comes out unchanged |
| RazorPages.SubstituteFillsPlaceholders | framework/src/Bing.AspNetCore.Mvc.UI/Bing/AspNetCore/Mvc/UI/RazorPages/DefaultRazorHtmlGenerator.cs:101-104 | for any template whose literal text holds no '{', and area and controller names without one, each placeholder, wherever and however often it occurs, becomes its null-safe name |
| RazorPages.ReplaceFillsHole | framework/src/Bing.AspNetCore.Mvc.UI/Bing/AspNetCore/Mvc/UI/RazorPages/DefaultRazorHtmlGenerator.cs:104 | one replacement pass fills every occurrence of its placeholder and leaves the other placeholders and the literal text alone |
| RazorPages.FillAllIsResolved | framework/src/Bing.AspNetCore.Mvc.UI/Bing/AspNetCore/Mvc/UI/RazorPages/DefaultRazorHtmlGenerator.cs:104 | filling area, controller and action in turn gives the template with each placeholder standing for its name |
| RazorPages.GetPath | framework/src/Bing.AspNetCore.Mvc.UI/Bing/AspNetCore/Mvc/UI/RazorPages/DefaultRazorHtmlGenerator.cs:99-106 | fails exactly when `TemplatePath` is null; otherwise the path has no upper-case letter, lowering it again changes nothing, and it is as long as the substituted template |
| RazorPages.GetPathFillsPlaceholders | framework/src/Bing.AspNetCore.Mvc.UI/Bing/AspNetCore/Mvc/UI/RazorPages/DefaultRazorHtmlGenerator.cs:99-106 | for such a template the path is the template with its placeholders filled in, lower-cased as a whole |
| RazorPages.LogicalPath | framework/src/Bing.AspNetCore.Mvc.UI/Bing/AspNetCore/Mvc/UI/RazorPages/DefaultRazorHtmlGenerator.cs:81 | a `FilePath` that is not null or whitespace is used verbatim; otherwise the path is GetPath's |
| RazorPages.PlanRoute | framework/src/Bing.AspNetCore.Mvc.UI/Bing/AspNetCore/Mvc/UI/RazorPages/DefaultRazorHtmlGenerator.cs:76-87 | decisions in source order. A render error ends the route with that error. Blank HTML ends it with no write. It writes exactly when the render succeeded, the HTML is not blank, a logical path exists and the directory of its physical path is not blank. It then writes the rendered HTML at that physical path |
| RazorPages.WriteView | framework/src/Bing.AspNetCore.Mvc.UI/Bing/AspNetCore/Mvc/UI/RazorPages/DefaultRazorHtmlGenerator.cs:74-93 | a route that does not write leaves the file map unchanged. A route that writes changes exactly one entry: its resolved path, which then holds the rendered, non-blank HTML. Directories only grow |
| RazorPages.WriteViewToFile | framework/src/Bing.AspNetCore.Mvc.UI/Bing/AspNetCore/Mvc/UI/RazorPages/DefaultRazorHtmlGenerator.cs:74-93 | the new file system and the route's outcome are those of WriteView on the old file system |
| RazorPages.Generate | framework/src/Bing.AspNetCore.Mvc.UI/Bing/AspNetCore/Mvc/UI/RazorPages/DefaultRazorHtmlGenerator.cs:36-45 | the new file system and the failure log are those of Run over the routes in input order |
| RazorPages.Run | framework/src/Bing.AspNetCore.Mvc.UI/Bing/AspNetCore/Mvc/UI/RazorPages/DefaultRazorHtmlGenerator.cs:36-45 | a run logs at most one failure per route and never removes a directory |
| RazorPages.NonApi | framework/src/Bing.AspNetCore.Mvc.UI/Bing/AspNetCore/Mvc/UI/RazorPages/DefaultRazorHtmlGenerator.cs:41-42 | a route is kept exactly when it is in the input and does not start with `/api`; at most as many routes as the input |
| RazorPages.NonApiAppend | framework/src/Bing.AspNetCore.Mvc.UI/Bing/AspNetCore/Mvc/UI/RazorPages/DefaultRazorHtmlGenerator.cs:38-42 | the kept routes stay in input order: filtering a concatenation concatenates the filtered parts |
| RazorPages.RunMatchesReference | framework/src/Bing.AspNetCore.Mvc.UI/Bing/AspNetCore/Mvc/UI/RazorPages/DefaultRazorHtmlGenerator.cs:36-45 | a run overrides the old files with the routes' writes, adds the created directories and logs the failures; with write failures decided by the path alone, all of it is read off the routes |
| RazorPages.RunFilesMatchWrites | framework/src/Bing.AspNetCore.Mvc.UI/Bing/AspNetCore/Mvc/UI/RazorPages/DefaultRazorHtmlGenerator.cs:38-43 | the files after a run are the old files overridden by the writes of the non-API routes, with the later route winning |
| RazorPages.RunDirsMatchCreatedDirs | framework/src/Bing.AspNetCore.Mvc.UI/Bing/AspNetCore/Mvc/UI/RazorPages/DefaultRazorHtmlGenerator.cs:85-86 | the directories after a run are the old ones plus those of the routes that reached the write |
| RazorPages.RunLogMatchesFailures | framework/src/Bing.AspNetCore.Mvc.UI/Bing/AspNetCore/Mvc/UI/RazorPages/DefaultRazorHtmlGenerator.cs:89-92 | with write failures decided by the path alone, the failure log of a run depends only on the routes, not on the file system |
| RazorPages.LogBoundedByNonApiRoutes | framework/src/Bing.AspNetCore.Mvc.UI/Bing/AspNetCore/Mvc/UI/RazorPages/DefaultRazorHtmlGenerator.cs:36-45 | the log has at most one failure per route that is not skipped |
| RazorPages.GenerateIsIdempotent | framework/src/Bing.AspNetCore.Mvc.UI/Bing/AspNetCore/Mvc/UI/RazorPages/DefaultRazorHtmlGenerator.cs:36-45 | running again over the same routes and templates gives the same files, directories and log |
| RazorPages.ApiRoutesAreSkipped | framework/src/Bing.AspNetCore.Mvc.UI/Bing/AspNetCore/Mvc/UI/RazorPages/DefaultRazorHtmlGenerator.cs:41-42 | a run over all routes equals a run over the routes without the `/api` prefix |
| RazorPages.LaterRouteStillWrites | framework/src/Bing.AspNetCore.Mvc.UI/Bing/AspNetCore/Mvc/UI/RazorPages/DefaultRazorHtmlGenerator.cs:38-43 | a route that writes leaves its HTML at its path, whatever earlier routes did, failures included |
| RazorPages.NonWritingRouteChangesNoFile | framework/src/Bing.AspNetCore.Mvc.UI/Bing/AspNetCore/Mvc/UI/RazorPages/DefaultRazorHtmlGenerator.cs:79-92 | a route that fails or is skipped changes no file (a failed write is taken to leave the file as it was) and adds only its own failure to the log |
| RazorPages.MissingViewIsLoggedAndSkipped | framework/src/Bing.AspNetCore.Mvc.UI/Bing/AspNetCore/Mvc/UI/RazorPages/DefaultRazorHtmlGenerator.cs:59-60 | a missing view changes nothing on disk and logs the not-found error that names the action |
| RazorPages.AboutPageScenario | framework/src/Bing.AspNetCore.Mvc.UI/Bing/AspNetCore/Mvc/UI/RazorPages/DefaultRazorHtmlGenerator.cs:99-106 | controller "home", action "about" and template "/{controller}/{action}.html" resolve to "/home/about.html" |
| RazorPages.AboutPageSubstitution | framework/src/Bing.AspNetCore.Mvc.UI/Bing/AspNetCore/Mvc/UI/RazorPages/DefaultRazorHtmlGenerator.cs:101-104 | the substitution step of that example |
| RazorPages.ReplacementsRunInOrder | framework/src/Bing.AspNetCore.Mvc.UI/Bing/AspNetCore/Mvc/UI/RazorPages/DefaultRazorHtmlGenerator.cs:104 | an area name "{controller}" is itself replaced by the controller name, because the replacements run in sequence |
| RazorPages.PlaceholdersAreCaseSensitive | framework/src/Bing.AspNetCore.Mvc.UI/Bing/AspNetCore/Mvc/UI/RazorPages/DefaultRazorHtmlGenerator.cs:104-105 | "{Area}" is not a placeholder, yet it comes out lower-cased as "{area}" |
| RazorPages.MixedCaseTokenIsKept | framework/src/Bing.AspNetCore.Mvc.UI/Bing/AspNetCore/Mvc/UI/RazorPages/DefaultRazorHtmlGenerator.cs:104 | "{Area}" survives the substitution |
| RazorPages.ExplicitFilePathIsVerbatim | framework/src/Bing.AspNetCore.Mvc.UI/Bing/AspNetCore/Mvc/UI/RazorPages/DefaultRazorHtmlGenerator.cs:81 | an explicit file path keeps its capitals and braces |
| RazorPages.ApiPrefixIsPlainPrefix | framework/src/Bing.AspNetCore.Mvc.UI/Bing/AspNetCore/Mvc/UI/RazorPages/DefaultRazorHtmlGenerator.cs:41 | "/apidocs" is skipped; "/API/users" and "/ap" are not |

## Left out

- `RenderToStringAsync` builds a context: the service locator, `DefaultHttpContext`, `ActionContext`,
  `ViewDataDictionary`, `TempDataDictionary`, `StringWriter` and `View.RenderAsync`. These are ASP.NET Core
  calls. The model replaces them with `Host.renderView`, which receives what the code computes (route values,
  view name, main-page flag) and returns not-found, a failure or the markup.
- `PathHelper.GetPhysicalPath` and `Path.GetDirectoryName` live in libraries that are not part of this model.
  They are uninterpreted `Host` fields, and neither is modelled as throwing.
- Bing's `IsEmpty` and `SafeString`: their bodies are not part of this model. `IsEmpty` is the
  uninterpreted `Host.isEmpty` on non-null strings, with null counted as empty. `SafeString` maps null to
  "" and keeps other strings verbatim, without trimming.
- IO.FileSystem.CreateDirectory: does not create missing ancestor directories and never fails. Only
  `File.WriteAllText` can fail, as decided by `Host.writeFails`.
- Host.writeFails: whether `File.WriteAllText` (line 87) throws is a function of the physical path alone. In
  .NET it also depends on the disk: a read-only file, or a directory at the path (including one an earlier route
  created), makes line 87 throw, and a file where the directory should be makes line 86 throw. A write that
  throws is taken to leave the file as it was, whereas `WriteAllText` may already have truncated it (disk full).
- RazorPages.RunLogMatchesFailures: holds only because of the `Host.writeFails` simplification above. With
  failures that depend on the disk, the log of a run would depend on the file system before it.
- RazorPages.RunMatchesReference: its log part, and the idempotence in `GenerateIsIdempotent`, rest on the same
  simplification.
- RazorPages.NonWritingRouteChangesNoFile: for a write that throws, "no file changes" rests on the same
  simplification; a truncated file is not modelled.
- Encoding: the UTF-8 encoding of written files is not modelled; file content is the string itself.
- `async`/`await`: the code runs sequentially, and so does the model.
- Logging: `ILog` and `ex.Log` are reduced to the failure sequence that `Generate` returns. The caption text is
  left out.
- Null route path: `RouteInformation.Path` is a non-null string here. A null path would throw in `Generate`
  (line 41), outside the per-route catch, and that abort is not modelled.
- DotNet.ToLower: models the current culture's lower-casing only for A-Z and the Latin-1 capitals
  U+00C0-U+00DE (except U+00D7). Other scripts and culture-specific mappings, such as the Turkish dotted I, are
  not modelled.
- DotNet.StartsWith: models the culture-sensitive `String.StartsWith(string)` at line 41 as an ordinal prefix
  test. For the ASCII prefix `/api` they differ on ignorable characters inside the prefix, and on a combining
  mark right after it: `/api\u0301docs` is skipped by the model, while .NET's culture-sensitive test rejects
  the prefix and the program renders and writes that route.
- Route discovery (`IRouteAnalyzer`) is an input: `Generate` receives the route sequence.
