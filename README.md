# echo-go-templates: the template registry, in Dafny

This project models `templates.go`, a registry of HTML templates used as the
view renderer of the echo web framework. A `TemplateRenderer` keeps a map from
template name to a `Template` record (its name, the base name of its layout or
nothing, and the compiled template). Three operations fill the map from glob
patterns over a virtual filesystem:

- `Add` compiles each matched file on its own;
- `AddWithLayout` compiles it together with a layout file;
- `AddWithLayoutAndIncludes` compiles it with a layout and an includes pattern.

`Render` looks a name up and executes the unit from the layout when it has
one, otherwise from its own name.

Files:

- `go_path.dfy`, module `GoPath`: Go's `path.Base`, which gives every
  registered template its key, as pure functions, with the facts the registry
  relies on (the result is always a base name, base names are fixed points,
  `Base("dir/name") == "name"`).
- `templates.dfy`, module `Templates`:
  - the records (`Template`, `Error`, `FileSystem`);
  - specification functions for `readFileNames` (`FileNames`), for the loop of
    an Add operation (`AddFiles`), for a whole Add operation (`AddPatterns`)
    and for the entry point `Render` picks (`EntryPoint`);
  - the lemmas about those functions;
  - the class `TemplateRenderer`. Its methods keep the Go loops and early
    returns, and are proved equal to the specification functions.

The foreign pieces are inputs, so every property holds whatever they do:

- `fs.Glob` is the `glob` field of a `FileSystem` value, a function from a
  pattern to an error or a list of paths.
- `ParseFS` is its `parseFS` field, a function from (function set, template
  name, patterns) to an error or an opaque `Handle`.
- `ExecuteTemplate` is the `execute` argument of `Render`. It stands for
  running a handle from an entry point against the request's data and writer.
- `c.NoContent(http.StatusInternalServerError)` is the `noContent` argument:
  the value it returns, which `Render` passes back.

## Behaviour worth noting

- A pattern error leaves the map exactly as it was
  (`PatternFailureLeavesRegistry`): every Add operation resolves all its
  patterns before it stores the first template (templates.go:54-57, 83-86,
  112-115).
- An includes pattern goes to `ParseFS` together with the layout and the page
  (templates.go:95). Any failure there, including an includes pattern that
  matches nothing, comes back as the parse error that names the page file
  (`ParseFailed`, templates.go:96-97).
- Only the "matches no files" error names the pattern (templates.go:175). A
  glob error carries the cause that glob reported (templates.go:171).

## Model

| member | source | states |
|---|---|---|
| `GoPath.Base` | templates.go:61-62 | the base name of any path is "/" or a non-empty name without a slash, and the empty path gives "." |
| `GoPath.BaseNameIsFixedPoint` | templates.go:118 | a string is a possible base name exactly when Base leaves it unchanged |
| `GoPath.BaseIdempotent` | templates.go:90-91 | taking the base name of a base name changes nothing |
| `GoPath.BaseOfJoin` | templates.go:61 | the base name of "dir/name" is name for any directory and any slash-free name |
| `GoPath.BaseIgnoresTrailingSlash` | templates.go:62 | a trailing slash does not change the base name of a non-empty path |
| `GoPath.BaseExamples` | templates_test.go:52-59 | Base("") is ".", Base("/") is "/", and "pages/index.html" is registered as "index.html" |
| `Templates.ReadFileNames` | templates.go:165-181 | the loop returns exactly `FileNames`: each pattern's matches appended in pattern order, or the first pattern's failure |
| `Templates.FileNamesSucceedsIff` | templates.go:168-177 | resolving succeeds if and only if every pattern globs without error to at least one file |
| `Templates.FileNamesAppend` | templates.go:166-180 | resolving two lists of patterns gives the first list's files followed by the second's, or the first failure |
| `Templates.FileNamesFirstFailure` | templates.go:168-176 | the first failing pattern decides the error (a glob error or "matches no files" naming it), and later patterns do not change the answer |
| `Templates.FileNamesMembers` | templates.go:168-177 | on success a path is in the list if and only if some pattern's glob returned it |
| `Templates.AddFilesSplit` | templates.go:117-131 | registering a + b is registering a, then, unless that failed, b from the map it left |
| `Templates.AddFilesSucceedsIff` | templates.go:122-125 | the registration loop returns no error if and only if every file compiles |
| `Templates.AddFilesFrame` | templates.go:127-130 | a key that is not the base name of a processed file keeps its old entry or stays absent, even when registration fails |
| `Templates.AddFilesStopsAt` | templates.go:122-125 | a parse failure on file i returns an error naming file i and leaves exactly the entries made for files before i |
| `Templates.AddFilesLastWins` | templates.go:117-131 | when no later file has the same base name, the entry under file i's base name is the template compiled from file i, overwriting any earlier entry |
| `Templates.AddFilesCovers` | templates.go:59-76 | after a successful loop every file has an entry under its base name, named by that base name and carrying the mode's layout: none for Add, Base(layout) for the layout variants |
| `Templates.AddFilesKeepsWellFormed` | templates.go:71-75 | registration keeps every entry under its own name, with base names as names and layouts, even when it fails |
| `Templates.PatternFailureLeavesRegistry` | templates.go:54-57 | when a pattern fails, an Add operation returns that pattern's error and leaves the map unchanged |
| `Templates.AddPatternsSucceedsIff` | templates.go:111-133 | an Add operation succeeds if and only if every pattern matches and every matched file compiles |
| `Templates.EntryPointOfRegistered` | templates.go:147-151 | in a well-formed registry a registered name has a non-empty entry point, and without a layout the entry point is the requested name |
| `Templates.EntryPointAfterAdd` | templates.go:88-105 | after a successful Add every matched file renders from its own base name; after a layout variant it renders from Base(layout); every other name keeps its presence and its entry, so it renders as before |
| `Templates.TemplateRenderer.constructor` | templates.go:37-42 | New gives an empty template map and the default function set {"getTime"} |
| `Templates.TemplateRenderer.WithTemplateFuncs` | templates.go:45-50 | NewWithTemplateFuncs gives an empty template map and the caller's function set |
| `Templates.TemplateRenderer.AddWithLayout` | templates.go:53-79 | the new map and the error are `AddPatterns` in layout mode applied to the old map; the registry invariant is kept |
| `Templates.TemplateRenderer.AddWithLayoutAndIncludes` | templates.go:82-108 | the new map and the error are `AddPatterns` in layout-and-includes mode applied to the old map; the invariant is kept |
| `Templates.TemplateRenderer.Add` | templates.go:111-134 | the new map and the error are `AddPatterns` in plain mode applied to the old map; the invariant is kept |
| `Templates.TemplateRenderer.Render` | templates.go:137-163 | an unregistered name executes nothing and returns NoContent's result; a registered one executes from the layout if set, else its own name, and returns the execution error unchanged |

## Left out

- Logging through zerolog and the timing with `time.Now`/`time.Since` (templates.go:64, 93, 120, 138-160): diagnostics with no effect on results.
- The `getTime` function itself (templates.go:17-21): it reads the clock and runs only inside templates. A function set is modelled as the set of its names.
- Parsing and executing templates, and glob matching: these belong to `html/template` and `io/fs`. They are the `parseFS`, `execute` and `glob` oracles, so the rendered text asserted by the tests is not modelled.
- The text of error messages and the wrapping done by `errors.Wrap`/`errors.Wrapf`: an error keeps only its kind and the pattern, file or cause it carries.
- Templates.TemplateRenderer.Render: the writer and the data value are not parameters of their own. They are inside the `execute` oracle, and the echo context is reduced to the value `NoContent` returns.
- Pointers: Go stores `*Template` in the map. Nothing changes a `Template` after it is stored, so the model stores `Template` values.
- Templates.TemplateRenderer.WithTemplateFuncs: the function set is copied at construction into the constant `templateFuncs`. Go keeps a reference to the caller's map and each Add reads it again through `Funcs` (templates.go:48, 66, 95, 122), so entries the caller adds to that map after construction reach later Adds; the Add contracts name the set held at construction.
- A `TemplateRenderer` made without `New` or `NewWithTemplateFuncs` (a zero `&TemplateRenderer{}`): its map is nil and its first insert panics (templates.go:71, 100, 127). The class can only be built through its two constructors, which always give an empty map.
- Concurrency: the code has none. Finishing registration before serving requests is left to the caller.
