# babel-plugin-postcss, modelled in Dafny

This project models the Babel plugin that turns imports of style sheets into constants. The plugin sees an import whose resolved path passes the `test` option (by default `/\.css$/`) and that has a default specifier. It reads the file, passes the text through the postcss worker when `postcss` is truthy, and replaces the import with `const <name> = "<css>"`. With `tagged: [local, module]` the replacement is `` const <name> = _uid`<css>` `` instead, and an `import { local as _uid } from 'module'` is inserted just before it. The plugin instance keeps one piece of state per file, the generated tag identifier (`localCssImportSpecifier`), and the program exit hook clears it. When the plugin instance is created, it registers every file matched by the `externalDependencies` globs with Babel's API.

Layout, one module per file:

- `wrappers.dfy` (`Wrappers`): `Option`, `Result` and `Outcome`.
- `host.dfy` (`Host`): the collaborators' types. These are the reader, the postcss rpc client, thrown exceptions, and `HostApi`, Babel's API object, which records the registrations made on it.
- `ast.dfy` (`Ast`): import declarations with their specifiers, the two initialisers the plugin builds, and opaque other statements. It also holds `Program`, a module body that Babel edits in place with `insertBefore` and `replaceWith`.
- `getcss.dfy` (`CssFetch`): `getCss` from `src/getcss.ts`.
- `options.dfy` (`PluginOptions`): the options, their defaults, the `{ ...defaultOptions, ...options }` merge, and `testFilepath`.
- `rewrite.dfy` (`ImportRewrite`): what `importDeclarationExit` does to one declaration (`ExitImport`) and what one traversal does to a whole module body (`TransformBody`), both as functions. It also holds the lemmas about them.
- `plugin.dfy` (`Plugin`): the plugin instance as a class. `ImportDeclarationExit`, `VisitStatement` and `Traverse` edit the body and the tag field in place and are proved equal to `ExitImport`, `Visit` and `TransformBody`. `ProgramExit` clears the tag field. `Traverse` is Babel's walk over one file. The module also holds the registration loop and the factory.
- `dedup.dfy` (`TagDedup`): the corrected tagged rewrite (see Findings).
- `scenarios.dfy` (`Scenarios`): the rewrite evaluated on small module bodies, against a small in-memory file system, and one traversal by the plugin class.

Foreign calls are parameters: `path.dirname`, `path.resolve`, the reader, the postcss rpc client, `globFiles`, and the program scope's `generateUidIdentifierBasedOnNode`, which `Traverse` takes once per file as a function from a base name to a fresh name. Exceptions from the reader or the worker are `Failure` values. They abort the file, and the model propagates them unchanged.

The model follows `src/index.ts` as written, including where that code cannot be what its authors meant:

- The tag import is inserted before every inlined import. Only the identifier is reused, so a file with two style imports declares the same local binding twice, which an ES module does not allow (see Findings).
- There is no class-static `styles` mode and no `readFileSync` option, although `src/index.spec.ts` tests them.
- The tag identifier is cleared only by the program exit hook. If `getCss` throws part-way through a file, Babel never runs that hook. The identifier generated for that file then carries over to the next file the same plugin instance compiles. `Plugin.PluginPass.Traverse` states this: on failure the field keeps an identifier it held before, or holds the one generated for this file, and `TransformBody` takes the identifier left from before as its starting state. `Scenarios.TaggedFailureLeavesTag` shows a pass left holding `_css`.

## Model

| member | source | states |
|---|---|---|
| `CssFetch.GetCss` | src/getcss.ts:10-18 | Falsy `postcss` gives the raw utf8 read of the path. A read failure is returned unchanged and the worker is never called. Truthy `postcss` gives the worker's answer to `{ input: raw, from: filepath }` |
| `CssFetch.IsTruthy` | src/getcss.ts:13 | JavaScript truthiness of `postcss`: unset, `false` and the empty string are falsy |
| `CssFetch.GetCssDependsOnOneReadAndOneCall` | src/getcss.ts:11-16 | The content depends only on the one read of `filepath` as utf8 and the one worker call on that text. Readers or workers that agree there give the same result |
| `CssFetch.ConfigNameOnlyEnables` | src/getcss.ts:13 | A non-empty string `postcss` acts exactly like `true` and the empty string like `false`. A string only switches processing on and selects nothing |
| `PluginOptions.MergeOptions` | src/index.ts:44 | Every option key the user gives overrides the default. A key left out keeps `/\.css$/` or `undefined` |
| `PluginOptions.UserTestOverridesDefault` | src/index.ts:44-48 | A user-supplied `test` classifies every path exactly as that `test` does |
| `PluginOptions.TestFilepath` | src/index.ts:45-48 | A function `test` is called on the path. A RegExp `test` is matched against it |
| `PluginOptions.IsTruthyPatterns` | src/index.ts:50 | `externalDependencies` is truthy when it is a non-empty string or any array, and falsy when unset or the empty string |
| `PluginOptions.DefaultTestAcceptsExactlyCss` | src/index.ts:18 | The default classifier accepts a path if and only if it ends in `.css` |
| `ImportRewrite.ResolveImport` | src/index.ts:59-62 | The import's path is `resolve(dirname(filename), source)` |
| `ImportRewrite.FetchContent` | src/index.ts:73-77 | The content is `getCss` of the resolved path, the factory's reader and the `postcss` option |
| `ImportRewrite.ExitImport` | src/index.ts:58-115 | The hook throws exactly when the import passes `test`, has a default specifier and `getCss` throws, and then with `getCss`'s exception. An existing tag identifier is kept. A new one appears only in tagged mode and is `generateUid(local)` |
| `ImportRewrite.TransformBody` | src/index.ts:121-126 | A failed traversal names an inlined import whose `getCss` threw that exception. A successful one has at least as many statements as the body and at most twice as many |
| `ImportRewrite.TransformSingle` | src/index.ts:121-126 | Traversing a one-statement body is visiting that statement |
| `ImportRewrite.TransformBodyAppend` | src/index.ts:121-126 | Traversing `a + b` is traversing `a`, then traversing `b` from the tag identifier `a` left, unless `a` already threw |
| `ImportRewrite.FindDefaultSpecifier` | src/index.ts:67-69 | `None` exactly when no specifier is a default specifier. Otherwise the local name of the first default specifier |
| `ImportRewrite.UnmatchedImportUntouched` | src/index.ts:59-72 | An import that fails `test` or has no default specifier is kept verbatim and the tag identifier is untouched. The result is the same for every reader and worker, so nothing is read |
| `ImportRewrite.FetchErrorPropagates` | src/index.ts:73-77 | When reading or processing an inlined import's file throws, the visit fails with that exception |
| `ImportRewrite.PlainModeBindsContent` | src/index.ts:104-114 | Without `tagged`, an inlined import becomes exactly one `const <default> = "<getCss(path)>"`. Other specifiers are dropped and the tag identifier is unchanged |
| `ImportRewrite.TaggedModeBindsTemplate` | src/index.ts:79-114 | With `tagged`, the import becomes the tag import `{ local as uid }` from the module, then `const <default> =` a tagged template with tag `uid`, one quasi whose raw and cooked equal the content, and no expressions. `uid` is the existing identifier or else a newly generated one, and it becomes the state |
| `ImportRewrite.TagImportIsLeftAlone` | src/index.ts:86-96 | The inserted tag import has no default specifier, so visiting it again changes nothing |
| `ImportRewrite.SettledBodyIsFixedPoint` | src/index.ts:63-72 | A body whose imports are all kept passes through unchanged, and so does its tag identifier |
| `ImportRewrite.NoImportsPassThrough` | src/index.spec.ts:14-17 | Code without imports passes through untouched |
| `ImportRewrite.TransformOutputSettled` | src/index.ts:58-115 | Every statement of a successful rewrite's output is one the rewrite keeps |
| `ImportRewrite.TransformIsIdempotent` | src/index.ts:58-115 | Rewriting the output again with the same options and file is a no-op |
| `ImportRewrite.PlainModeIsPointwise` | src/index.ts:104-114 | Without `tagged`, the output has the input's length and order. Its k-th statement is the rewrite of the k-th input statement, and the tag identifier never changes |
| `ImportRewrite.OutputSize` | src/index.ts:86-96 | Tagged mode adds one statement per inlined import and plain mode adds none. In tagged mode every inlined import brings its own tag import, so the count of tag imports grows by the number of inlined imports |
| `ImportRewrite.TagImportsShareIdentifier` | src/index.ts:86-96 | In tagged mode every inserted tag import is the same `import { local as uid }` with the file's final identifier: the output holds one more copy of it per inlined import |
| `ImportRewrite.TagIdentifierGeneratedOnce` | src/index.ts:81-85 | An existing tag identifier is kept for the whole file. A missing one is generated from the tag's local name exactly when some import is inlined |
| `Ast.Program.InsertBefore` | src/index.ts:86-96 | The node is placed immediately before index i and everything else keeps its order |
| `Ast.Program.ReplaceWith` | src/index.ts:107-114 | The node at index i is replaced and nothing else changes |
| `Plugin.PluginPass.constructor` | src/index.ts:43-49 | A new instance holds the merged options and starts with no tag identifier |
| `Plugin.PluginPass.ImportDeclarationExit` | src/index.ts:58-115 | In place, the body becomes the prefix, then `ExitImport`'s statements, then the suffix, and the tag field becomes its new value. When `getCss` throws, nothing has changed |
| `Plugin.PluginPass.ProgramExit` | src/index.ts:117-119 | The tag identifier is cleared, so the next file generates its own |
| `Plugin.PluginPass.VisitStatement` | src/index.ts:121-123 | Visiting one statement runs the import hook on an import declaration and leaves anything else alone. The body and tag field change as `Visit` says, and nothing changes when the hook throws |
| `Plugin.PluginPass.Traverse` | src/index.ts:121-126 | Visiting each statement in order with the import hook, then the exit hook, leaves the body equal to `TransformBody` and the tag cleared. An exception is returned as it was thrown. The exit hook is then skipped: the statements before the failing import stay rewritten and the rest unchanged, and the tag field keeps the identifier it held or the one generated for this file |
| `Plugin.Advances` | src/index.ts:121-123 | When the visit of the next statement succeeds, the rewritten prefix grows by that visit's statements |
| `Plugin.StopsAt` | src/index.ts:121-123 | When the visit of the next statement throws, that exception is the whole file's, and the body is the rewritten prefix followed by the untouched rest |
| `Host.HostApi.AddExternalDependency` | src/index.ts:53 | Appends the file's dependency registration |
| `Host.HostApi.CacheInvalidate` | src/index.ts:54 | Appends the file's mtime cache-key registration |
| `Plugin.Registrations` | src/index.ts:52-55 | Two registrations per globbed file: its dependency, then its cache key, in glob order |
| `Plugin.RegistrationsAppend` | src/index.ts:52-55 | Registering one more file appends its dependency, then its cache key |
| `Plugin.RegistrationsInGlobOrder` | src/index.ts:50-56 | Each globbed file is registered exactly once, in glob order: dependency at 2k, cache key at 2k+1 |
| `Plugin.RegisterExternalDependencies` | src/index.ts:50-56 | Truthy `externalDependencies` appends exactly the registrations of `globFiles(patterns)`. Unset or falsy appends nothing |
| `Plugin.BabelPluginPostcss` | src/index.ts:26-56 | A fresh instance with the merged options, the factory's reader and no tag identifier. Babel's API receives exactly the registrations of the external dependencies |
| `Scenarios.SmokeTest` | src/index.spec.ts:14-17 | `var foo = 1` is unchanged |
| `Scenarios.SideEffectImportKept` | src/index.spec.ts:140-153 | `import './style.css'` is kept verbatim, although its path passes the test and the file exists |
| `Scenarios.PlainImportInlined` | src/index.ts:104-114 | `import style from './style.css'` with content `a {}` becomes `const style = "a {}"` |
| `Scenarios.OtherExtensionKept` | src/index.ts:63-65 | An import of `./style.vue` is kept under the default test |
| `Scenarios.TaggedImportsEachGetTagImport` | src/index.ts:79-103 | With `tagged: ['css', 'lit-element']`, two style imports each get `import { css as _css } from 'lit-element'`, sharing one generated `_css` |
| `Scenarios.MissingFileAborts` | src/getcss.ts:12 | A style import of a missing file aborts with the reader's exception |
| `Scenarios.TaggedMissingFileAborts` | src/index.ts:73-96 | In tagged mode, a file whose first style import is inlined and whose second names a missing file generates `_css` for the first and then fails with the reader's exception |
| `Scenarios.TaggedFailureLeavesTag` | src/index.ts:81-119 | The same file through the plugin pass returns the exception and leaves the pass holding `_css` for the next file |
| `Scenarios.TaggedImportsDeduplicated` | src/index.ts:86-96 | The corrected rewrite emits one tag import for the same two imports |
| `TagDedup.ExitImportOnce` | src/index.ts:81-96 | Throws exactly when `ExitImport` throws, with the same exception and the same new tag identifier. When the identifier already existed and the import is inlined in tagged mode, its statements are `ExitImport`'s without the leading tag import. In every other case they are `ExitImport`'s |
| `TagDedup.CorrectionOnlyDropsTagImports` | src/index.ts:81-96 | The corrected traversal succeeds whenever the as-written one does, with the same tag identifier. With the file's tag import removed from both outputs, they are the same statements in the same order. When no identifier is set, the outputs are equal |
| `TagDedup.TransformBodyOnce` | src/index.ts:81-96 | Fails exactly when `TransformBody` fails, with the same exception, and otherwise ends with the same tag identifier |
| `TagDedup.OneTagImportPerFile` | src/index.ts:81-96 | The corrected rewrite adds exactly one tag import, when it generates the identifier, and none otherwise |
| `TagDedup.AtMostOneTagImport` | src/index.ts:81-96 | For a file that starts without a tag identifier or tag imports, the output holds one tag import if any import is inlined and none otherwise |
| `TagDedup.AsWrittenRepeatsTagImport` | src/index.ts:86-96 | As written, two or more inlined imports in tagged mode produce two or more copies of the one tag import `import { local as uid }`, each declaring the binding `uid` |

## Left out

- The class-static `styles` substitution for LitElement classes and the `readFileSync` option are exercised by `src/index.spec.ts:19-137`. `src/index.ts` implements neither.
- The postcss pipeline (`src/getcss-worker.js`, postcss-load-config, promises) and the sync-rpc bridge are reached through a blocking cross-process call. They are one function from `{ input, from }` to a result.
- `path.dirname`, `path.resolve`, `globby.sync`, the reader and Babel's `generateUidIdentifierBasedOnNode` are foreign library calls. They are uninterpreted function parameters.
- `mtimeFile` and `fs.statSync(...).mtimeMs` are filesystem calls that return a float. The closure given to `cache.invalidate` is recorded by the file it captures.
- The factory's defaults (`fs.readFileSync`, `globby.sync`, the stat-based `mtimeFile`) are foreign functions. The model takes the reader and the glob expander as given.
- `getCss`'s own fallback to `fs.readFileSync` when no reader is passed is not modelled. `src/index.ts` always passes one.
- Babel's traversal is modelled over the top-level statements of a module body, which is where ES import declarations occur. The nodes a hook inserts are not revisited. `TagImportIsLeftAlone` shows a revisit would change nothing.
- RegExp matching is modelled exactly only for a literal anchored at the end, as in `/\.css$/`. Any other RegExp is an opaque predicate. The `lastIndex` state of global or sticky RegExps is not modelled.
- An option key passed explicitly as `undefined` is not modelled. The spread merge would then override the default, and for `test` the call would throw.
- A `tagged` array that is not a pair is not modelled.
- Path resolution and globbing never fail in the model: `dirname`, `resolve` and `globFiles` are total functions. A file that Babel compiles without a filename is not modelled. There `dirname(undefined)` throws a TypeError for every import declaration, including ones that are not style sheets.
- An empty default-import name is not modelled. Babel identifiers are never empty, so the source's falsy check reduces to "no default specifier".
- Babel's code generator is not modelled: how string literals are escaped, and how template text containing backticks or `${` is printed.

## Findings

| source | as written | input that shows it | evidently intended | confidence | as-written member | corrected member |
|---|---|---|---|---|---|---|
| src/index.ts:86-96 | `insertBefore` adds `import { local as _uid } from module` before every inlined import, reusing the one identifier | `tagged: ['css', 'lit-element']` with `import style1 from './p1.css'; import style2 from './p2.css'`: two `import { css as _css } from 'lit-element'`, a duplicate declaration of `_css` in one module | one tag import per file, emitted when the identifier is generated | not executed; high | `Scenarios.TaggedImportsEachGetTagImport` | `TagDedup.AtMostOneTagImport` |

The plugin class models the code as written. `TagDedup.ExitImportOnce` and `TagDedup.TransformBodyOnce` are the corrected rewrite, and the lemmas of `TagDedup` are proved about them. `TagDedup.AtMostOneTagImport` assumes the file starts with no tag identifier. The corrected rewrite emits no tag import when it starts with an identifier left over from a file that threw (see `Scenarios.TaggedFailureLeavesTag`), so that file would use the identifier without importing it. A corrected plugin must therefore also clear the identifier when a file starts, not only in the program exit hook.
