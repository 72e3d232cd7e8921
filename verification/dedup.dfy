/** The tagged rewrite with the tag import emitted only when the tag identifier is
    first generated, as a module needs: importing the same local binding twice
    is a duplicate declaration. The plugin class models the code as written
    (ImportRewrite.ExitImport); this module states the corrected rewrite and proves
    that it emits at most one tag import per file. */
module TagDedup {
  import opened Wrappers
  import opened Host
  import opened Ast
  import opened PluginOptions
  import opened ImportRewrite

  /** importDeclarationExit with the tag import inserted only by the import that
      creates the tag identifier. */
  function ExitImportOnce(ctx: FileContext, decl: ImportDeclaration, tag: Option<string>): (r: Result<Rewritten, Exception>)
    ensures r.Failure? <==> ExitImport(ctx, decl, tag).Failure?
    ensures r.Failure? ==> r.error == ExitImport(ctx, decl, tag).error
    ensures r.Success? ==> r.value.tag == ExitImport(ctx, decl, tag).value.tag
    ensures r.Success? && tag.Some? && ctx.options.tagged.Some? && IsInlined(ctx, decl) ==>
              ExitImport(ctx, decl, tag).value.statements == [TagImport(tag.value, ctx.options.tagged.value)] + r.value.statements
    ensures r.Success? && !(tag.Some? && ctx.options.tagged.Some? && IsInlined(ctx, decl)) ==>
              ExitImport(ctx, decl, tag).value.statements == r.value.statements
  {
    var filepath := ResolveImport(ctx, decl);
    if !TestFilepath(ctx.options.test, filepath) then Success(Rewritten([Import(decl)], tag))
    else
      match FindDefaultSpecifier(decl.specifiers)
      case None => Success(Rewritten([Import(decl)], tag))
      case Some(name) =>
        match FetchContent(ctx, decl)
        case Failure(e) => Failure(e)
        case Success(content) =>
          match ctx.options.tagged
          case None => Success(Rewritten([ConstDeclaration(name, StringLiteral(content))], tag))
          case Some(t) =>
            if tag.Some? then
              Success(Rewritten([ConstDeclaration(name, TaggedContent(tag.value, content))], tag))
            else
              var uid := ctx.generateUid(t.localImport);
              Success(Rewritten([TagImport(uid, t), ConstDeclaration(name, TaggedContent(uid, content))], Some(uid)))
  }

  function VisitOnce(ctx: FileContext, stmt: Statement, tag: Option<string>): Result<Rewritten, Exception>
  {
    if stmt.Import? then ExitImportOnce(ctx, stmt.decl, tag) else Success(Rewritten([stmt], tag))
  }

  function TransformBodyOnce(ctx: FileContext, body: seq<Statement>, tag: Option<string>): (r: Result<Rewritten, Exception>)
    ensures r.Failure? <==> TransformBody(ctx, body, tag).Failure?
    ensures r.Failure? ==> r.error == TransformBody(ctx, body, tag).error
    ensures r.Success? ==> r.value.tag == TransformBody(ctx, body, tag).value.tag
    decreases |body|
  {
    if body == [] then Success(Rewritten([], tag))
    else
      match VisitOnce(ctx, body[0], tag)
      case Failure(e) => Failure(e)
      case Success(head) => Then(head.statements, TransformBodyOnce(ctx, body[1..], head.tag))
  }

  /** The corrected rewrite adds one tag import to the file when it generates the
      tag identifier and none otherwise; the tag identifier ends up set exactly
      when it was set before or some import was inlined. */
  lemma {:induction false} OneTagImportPerFile(ctx: FileContext, body: seq<Statement>, tag: Option<string>)
    requires ctx.options.tagged.Some? && TransformBodyOnce(ctx, body, tag).Success?
    ensures var x := TransformBodyOnce(ctx, body, tag).value;
            var t := ctx.options.tagged.value;
            CountTagImports(t, x.statements) ==
              CountTagImports(t, body) + (if tag.None? && CountInlined(ctx, body) > 0 then 1 else 0) &&
            (x.tag.Some? <==> tag.Some? || CountInlined(ctx, body) > 0)
  {
    if body != [] {
      var t := ctx.options.tagged.value;
      var head := VisitOnce(ctx, body[0], tag).value;
      OneTagImportPerFile(ctx, body[1..], head.tag);
      var rest := TransformBodyOnce(ctx, body[1..], head.tag).value.statements;
      CountTagImportsAppend(t, head.statements, rest);
      if body[0].Import? && IsInlined(ctx, body[0].decl) {
        assert !IsTagImportOf(t, body[0]);
        if tag.None? {
          assert head.statements[1..][1..] == [];
        } else {
          assert head.statements[1..] == [];
        }
      } else {
        assert head.statements == [body[0]];
      }
    }
  }

  /** For a file that starts with no tag identifier, the corrected rewrite emits
      exactly one tag import when any import is inlined, and none otherwise, beyond
      those already in the file. */
  lemma AtMostOneTagImport(ctx: FileContext, body: seq<Statement>)
    requires ctx.options.tagged.Some? && TransformBodyOnce(ctx, body, None).Success?
    requires CountTagImports(ctx.options.tagged.value, body) == 0
    ensures var out := TransformBodyOnce(ctx, body, None).value.statements;
            CountTagImports(ctx.options.tagged.value, out) == if CountInlined(ctx, body) > 0 then 1 else 0
  {
    OneTagImportPerFile(ctx, body, None);
  }

  /** As written, the same file gets one tag import per inlined import, all of them
      the same statement `import { local as uid } from 'module'`, so two or more
      style imports declare the binding uid more than once. */
  lemma AsWrittenRepeatsTagImport(ctx: FileContext, body: seq<Statement>)
    requires ctx.options.tagged.Some? && TransformBody(ctx, body, None).Success?
    requires CountInlined(ctx, body) >= 2
    ensures CountTagImports(ctx.options.tagged.value, TransformBody(ctx, body, None).value.statements) >= 2
    ensures var x := TransformBody(ctx, body, None).value;
            x.tag.Some? && multiset(x.statements)[TagImport(x.tag.value, ctx.options.tagged.value)] >= 2
  {
    OutputSize(ctx, body, None);
    TagIdentifierGeneratedOnce(ctx, body, None);
    TagImportsShareIdentifier(ctx, body, None);
  }

  /** `xs` with every occurrence of `s` removed. */
  function Without(xs: seq<Statement>, s: Statement): seq<Statement>
  {
    if xs == [] then [] else (if xs[0] == s then [] else [xs[0]]) + Without(xs[1..], s)
  }

  lemma {:induction false} WithoutAppend(a: seq<Statement>, b: seq<Statement>, s: Statement)
    ensures Without(a + b, s) == Without(a, s) + Without(b, s)
  {
    if a == [] {
      assert a + b == b;
    } else {
      assert (a + b)[0] == a[0] && (a + b)[1..] == a[1..] + b;
      WithoutAppend(a[1..], b, s);
    }
  }

  /** The correction changes nothing but tag imports: with the file's tag import
      removed from both, the corrected and the as-written outputs are the same
      statements in the same order, and both end with the same tag identifier.
      When no identifier is ever set, the two outputs are equal. */
  lemma {:induction false} CorrectionOnlyDropsTagImports(ctx: FileContext, body: seq<Statement>, tag: Option<string>)
    requires ctx.options.tagged.Some? && TransformBody(ctx, body, tag).Success?
    ensures TransformBodyOnce(ctx, body, tag).Success?
    ensures var x := TransformBody(ctx, body, tag).value;
            var y := TransformBodyOnce(ctx, body, tag).value;
            y.tag == x.tag &&
            (x.tag.None? ==> y.statements == x.statements) &&
            (x.tag.Some? ==>
               var tagImport := TagImport(x.tag.value, ctx.options.tagged.value);
               Without(y.statements, tagImport) == Without(x.statements, tagImport))
  {
    if body != [] {
      var head := Visit(ctx, body[0], tag).value;
      var headOnce := VisitOnce(ctx, body[0], tag).value;
      CorrectionOnlyDropsTagImports(ctx, body[1..], head.tag);
      TagIdentifierGeneratedOnce(ctx, body[1..], head.tag);
      var x := TransformBody(ctx, body, tag).value;
      var y := TransformBodyOnce(ctx, body, tag).value;
      var rest := TransformBody(ctx, body[1..], head.tag).value;
      var restOnce := TransformBodyOnce(ctx, body[1..], head.tag).value;
      assert x.statements == head.statements + rest.statements && x.tag == rest.tag;
      assert y.statements == headOnce.statements + restOnce.statements && y.tag == restOnce.tag;
      if x.tag.Some? {
        var tagImport := TagImport(x.tag.value, ctx.options.tagged.value);
        WithoutAppend(head.statements, rest.statements, tagImport);
        WithoutAppend(headOnce.statements, restOnce.statements, tagImport);
        if body[0].Import? && IsInlined(ctx, body[0].decl) {
          var c := head.statements[1];
          assert head.statements == [tagImport, c];
          assert c.ConstDeclaration?;
          assert Without(head.statements, tagImport) == [c] by {
            assert head.statements[1..] == [c];
            assert [c][1..] == [];
          }
          assert Without(headOnce.statements, tagImport) == [c] by {
            if tag.Some? {
              assert headOnce.statements == [c];
              assert [c][1..] == [];
            } else {
              assert headOnce.statements == [tagImport, c];
              assert headOnce.statements[1..] == [c];
              assert [c][1..] == [];
            }
          }
        } else {
          assert headOnce.statements == head.statements;
        }
      } else {
        assert headOnce.statements == head.statements;
      }
    }
  }
}
