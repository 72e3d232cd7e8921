/** The rewrite evaluated on small module bodies, with a file system of three
    style sheets and path functions that resolve `./x` against `/src`. */
module Scenarios {
  import opened Wrappers
  import opened Host
  import opened Ast
  import opened CssFetch
  import opened PluginOptions
  import opened ImportRewrite
  import opened TagDedup
  import opened Plugin

  const Files: map<string, string> := map["/src/style.css" := "a {}", "/src/p1.css" := ".p1 {}", "/src/p2.css" := ".p2 {}"]

  function ReadFiles(path: string, encoding: Encoding): Result<string, Exception>
  {
    if path in Files then Success(Files[path]) else Failure(Exception("ENOENT"))
  }

  function Dirname(file: string): string
  {
    "/src"
  }

  function Resolve(dir: string, specifier: string): string
  {
    if 2 <= |specifier| && specifier[..2] == "./" then dir + "/" + specifier[2..] else specifier
  }

  function Unprocessed(request: ProcessRequest): Result<string, Exception>
  {
    Success(request.input)
  }

  function Underscored(name: string): string
  {
    "_" + name
  }

  const TestEnv := Env(Dirname, Resolve, ReadFiles, Unprocessed)

  function Context(options: Options): FileContext
  {
    FileContext(options, TestEnv, "/src/test.ts", Underscored)
  }

  function DefaultImport(name: string, source: string): Statement
  {
    Import(ImportDeclaration([ImportDefaultSpecifier(name)], source))
  }

  /** `var foo = 1` is left as it is. */
  lemma SmokeTest()
    ensures TransformBody(Context(DefaultOptions), [OtherStatement("var foo = 1")], None) ==
            Success(Rewritten([OtherStatement("var foo = 1")], None))
  {
    TransformSingle(Context(DefaultOptions), OtherStatement("var foo = 1"), None);
  }

  /** `import './style.css'` binds nothing and is kept verbatim, though its path
      passes the default test and the file exists. */
  lemma SideEffectImportKept()
    ensures var body := [Import(ImportDeclaration([], "./style.css"))];
            TransformBody(Context(DefaultOptions), body, None) == Success(Rewritten(body, None))
  {
    assert TestFilepath(DefaultOptions.test, "/src/style.css");
    TransformSingle(Context(DefaultOptions), Import(ImportDeclaration([], "./style.css")), None);
  }

  /** `import style from './style.css'` becomes `const style = "a {}"`. */
  lemma PlainImportInlined()
    ensures TransformBody(Context(DefaultOptions), [DefaultImport("style", "./style.css")], None) ==
            Success(Rewritten([ConstDeclaration("style", StringLiteral("a {}"))], None))
  {
    var ctx := Context(DefaultOptions);
    var decl := ImportDeclaration([ImportDefaultSpecifier("style")], "./style.css");
    assert ResolveImport(ctx, decl) == "/src/style.css";
    assert TestFilepath(DefaultOptions.test, "/src/style.css");
    assert FetchContent(ctx, decl) == Success("a {}");
    TransformSingle(ctx, Import(decl), None);
  }

  /** An import of `./style.vue` does not pass the default test and is kept. */
  lemma OtherExtensionKept()
    ensures var body := [DefaultImport("style", "./style.vue")];
            TransformBody(Context(DefaultOptions), body, None) == Success(Rewritten(body, None))
  {
    var ctx := Context(DefaultOptions);
    var decl := ImportDeclaration([ImportDefaultSpecifier("style")], "./style.vue");
    assert ResolveImport(ctx, decl) == "/src/style.vue";
    assert !TestFilepath(DefaultOptions.test, "/src/style.vue");
    TransformSingle(ctx, Import(decl), None);
  }

  const Tagged := DefaultOptions.(tagged := Some(TagSpec("css", "lit-element")))

  /** Under the default `test`, reading the missing `./missing.css` throws the
      reader's exception. */
  lemma MissingStyleUnreadable(options: Options, decl: ImportDeclaration)
    requires options.test == DefaultOptions.test && decl.source == "./missing.css"
    ensures FetchContent(Context(options), decl) == Failure(Exception("ENOENT"))
  {
    var ctx := Context(options);
    assert ResolveImport(ctx, decl) == "/src/missing.css";
    assert TestFilepath(options.test, "/src/missing.css");
    assert "/src/missing.css" !in Files;
  }

  /** Under the default `test` and no postcss, a default import of the missing
      `./missing.css` throws the reader's exception, whatever the tag identifier. */
  lemma MissingStyleFails(options: Options, name: string, tag: Option<string>)
    requires options.test == DefaultOptions.test && options.postcss == Undefined
    ensures Visit(Context(options), DefaultImport(name, "./missing.css"), tag) == Failure(Exception("ENOENT"))
  {
    var decl := ImportDeclaration([ImportDefaultSpecifier(name)], "./missing.css");
    MissingStyleUnreadable(options, decl);
  }

  /** With `tagged: ['css', 'lit-element']` and no identifier yet, a default
      import of `./p1.css` generates `_css`, inserts its tag import and binds the
      template. */
  lemma TaggedP1Inlined(name: string)
    ensures Visit(Context(Tagged), DefaultImport(name, "./p1.css"), None) ==
            Success(Rewritten([TagImport("_css", TagSpec("css", "lit-element")),
                               ConstDeclaration(name, TaggedContent("_css", ".p1 {}"))], Some("_css")))
  {
    var ctx := Context(Tagged);
    var decl := ImportDeclaration([ImportDefaultSpecifier(name)], "./p1.css");
    assert ResolveImport(ctx, decl) == "/src/p1.css";
    assert TestFilepath(Tagged.test, "/src/p1.css");
    assert FetchContent(ctx, decl) == Success(".p1 {}");
    assert Underscored("css") == "_css";
  }

  /** With `tagged: ['css', 'lit-element']` and the identifier `_css` already
      generated, a default import of `./p2.css` reuses it and still inserts its
      own tag import. */
  lemma TaggedP2Reused(name: string)
    ensures Visit(Context(Tagged), DefaultImport(name, "./p2.css"), Some("_css")) ==
            Success(Rewritten([TagImport("_css", TagSpec("css", "lit-element")),
                               ConstDeclaration(name, TaggedContent("_css", ".p2 {}"))], Some("_css")))
  {
    var ctx := Context(Tagged);
    var decl := ImportDeclaration([ImportDefaultSpecifier(name)], "./p2.css");
    assert ResolveImport(ctx, decl) == "/src/p2.css";
    assert TestFilepath(Tagged.test, "/src/p2.css");
    assert FetchContent(ctx, decl) == Success(".p2 {}");
  }

  /** With `tagged: ['css', 'lit-element']` two style imports each get their own
      `import { css as _css } from 'lit-element'`, both with the one identifier
      `_css`, generated for the first and reused for the second. */
  lemma TaggedImportsEachGetTagImport()
    ensures var body := [DefaultImport("style1", "./p1.css"), DefaultImport("style2", "./p2.css")];
            var tagImport := Import(ImportDeclaration([ImportSpecifier("_css", "css")], "lit-element"));
            TransformBody(Context(Tagged), body, None) ==
            Success(Rewritten([
              tagImport, ConstDeclaration("style1", TaggedContent("_css", ".p1 {}")),
              tagImport, ConstDeclaration("style2", TaggedContent("_css", ".p2 {}"))], Some("_css")))
  {
    var ctx := Context(Tagged);
    var body := [DefaultImport("style1", "./p1.css"), DefaultImport("style2", "./p2.css")];
    var tagImport := TagImport("_css", TagSpec("css", "lit-element"));
    var first := [tagImport, ConstDeclaration("style1", TaggedContent("_css", ".p1 {}"))];
    var second := [tagImport, ConstDeclaration("style2", TaggedContent("_css", ".p2 {}"))];
    TaggedP1Inlined("style1");
    TaggedP2Reused("style2");
    assert body[1..] == [body[1]];
    TransformSingle(ctx, body[1], Some("_css"));
    assert TransformBody(ctx, body, None) == Success(Rewritten(first + second, Some("_css")));
    assert first + second == [first[0], first[1], second[0], second[1]];
  }

  /** A style import of a file that does not exist aborts the file with the
      reader's exception. */
  lemma MissingFileAborts()
    ensures TransformBody(Context(DefaultOptions), [DefaultImport("style", "./missing.css")], None) ==
            Failure(Exception("ENOENT"))
  {
    MissingStyleFails(DefaultOptions, "style", None);
    TransformSingle(Context(DefaultOptions), DefaultImport("style", "./missing.css"), None);
  }

  /** The same two imports under the corrected rewrite: one tag import, then the
      two bindings that share its identifier. */
  lemma TaggedImportsDeduplicated()
    ensures var body := [DefaultImport("style1", "./p1.css"), DefaultImport("style2", "./p2.css")];
            var tagImport := Import(ImportDeclaration([ImportSpecifier("_css", "css")], "lit-element"));
            TransformBodyOnce(Context(Tagged), body, None) ==
            Success(Rewritten([
              tagImport, ConstDeclaration("style1", TaggedContent("_css", ".p1 {}")),
              ConstDeclaration("style2", TaggedContent("_css", ".p2 {}"))], Some("_css")))
  {
    var ctx := Context(Tagged);
    var body := [DefaultImport("style1", "./p1.css"), DefaultImport("style2", "./p2.css")];
    var first := [TagImport("_css", TagSpec("css", "lit-element")), ConstDeclaration("style1", TaggedContent("_css", ".p1 {}"))];
    var second := [ConstDeclaration("style2", TaggedContent("_css", ".p2 {}"))];
    TaggedP1Inlined("style1");
    TaggedP2Reused("style2");
    assert VisitOnce(ctx, body[0], None) == Success(Rewritten(first, Some("_css")));
    assert VisitOnce(ctx, body[1], Some("_css")) == Success(Rewritten(second, Some("_css")));
    assert body[1..] == [body[1]] && [body[1]][1..] == [];
    assert TransformBodyOnce(ctx, body[1..], Some("_css")) == Success(Rewritten(second + [], Some("_css")));
    assert first + (second + []) == [first[0], first[1], second[0]];
  }

  /** In tagged mode, `import style1 from './p1.css'` followed by an import of a
      missing file: the first import alone generates `_css`, the whole body fails
      with the reader's exception. */
  lemma TaggedMissingFileAborts()
    ensures var body := [DefaultImport("style1", "./p1.css"), DefaultImport("style2", "./missing.css")];
            TransformBody(Context(Tagged), body[..1], None).Success? &&
            TransformBody(Context(Tagged), body[..1], None).value.tag == Some("_css") &&
            TransformBody(Context(Tagged), body, None) == Failure(Exception("ENOENT"))
  {
    var ctx := Context(Tagged);
    var body := [DefaultImport("style1", "./p1.css"), DefaultImport("style2", "./missing.css")];
    TaggedP1Inlined("style1");
    MissingStyleFails(Tagged, "style2", Some("_css"));
    assert body[..1] == [body[0]];
    TransformSingle(ctx, body[0], None);
    assert body[1..] == [body[1]];
    TransformSingle(ctx, body[1], Some("_css"));
  }

  /** The same body through the plugin pass: the traversal fails with the reader's
      exception and the pass still holds the identifier `_css` generated for this
      file, so the next file the pass visits reuses it instead of generating its
      own. */
  method TaggedFailureLeavesTag() returns (r: Outcome<Exception>, leftover: Option<string>)
    ensures r == Fail(Exception("ENOENT")) && leftover == Some("_css")
  {
    var options := Tagged;
    var body := [DefaultImport("style1", "./p1.css"), DefaultImport("style2", "./missing.css")];
    ghost var ctx := Context(options);
    TaggedMissingFileAborts();
    var pass := new PluginPass(options, TestEnv);
    var program := new Program(body);
    r := pass.Traverse(program, "/src/test.ts", Underscored);
    leftover := pass.localCssImportSpecifier;
    ghost var k :| 0 <= k < |body| && TransformBody(ctx, body[..k], None).Success? &&
                   TransformBody(ctx, body[..k], None).value.tag == leftover &&
                   Visit(ctx, body[k], leftover) == Failure(Exception("ENOENT"));
  }
}
