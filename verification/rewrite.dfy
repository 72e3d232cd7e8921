/** The rewrite importDeclarationExit performs on one import declaration, and the
    rewrite of a whole module body that results when Babel visits its statements in
    order, stated as functions. The class in module Plugin performs the same edits
    in place and is proved equal to these functions. */
module ImportRewrite {
  import opened Wrappers
  import opened Host
  import opened Ast
  import opened CssFetch
  import opened PluginOptions

  /** The foreign functions the plugin calls: `path.dirname`, `path.resolve`, the
      reader given to the plugin factory and the postcss worker's rpc client. */
  datatype Env = Env(
    dirname: string -> string,
    resolve: (string, string) -> string,
    readFile: Reader,
    client: Processor)

  /** Everything one file's rewrite depends on: the merged options, the foreign
      functions, the file's name, and the program scope's
      `generateUidIdentifierBasedOnNode` for this file. */
  datatype FileContext = FileContext(
    options: Options,
    env: Env,
    filename: string,
    generateUid: string -> string)

  /** The statements that take the place of a visited statement, and the tag
      identifier (`localCssImportSpecifier`) after the visit. */
  datatype Rewritten = Rewritten(statements: seq<Statement>, tag: Option<string>)

  /** `resolve(dirname(state.file.opts.filename), path.node.source.value)` */
  function ResolveImport(ctx: FileContext, decl: ImportDeclaration): string
  {
    ctx.env.resolve(ctx.env.dirname(ctx.filename), decl.source)
  }

  predicate NoDefaultBefore(specifiers: seq<Specifier>, k: int)
    requires 0 <= k <= |specifiers|
  {
    forall j | 0 <= j < k :: !specifiers[j].ImportDefaultSpecifier?
  }

  /** `specifiers.find(s => s.type === 'ImportDefaultSpecifier')?.local?.name`:
      the local name of the first default specifier, if there is one. */
  function FindDefaultSpecifier(specifiers: seq<Specifier>): (r: Option<string>)
    ensures r.None? <==> NoDefaultBefore(specifiers, |specifiers|)
    ensures r.Some? ==>
              exists k | 0 <= k < |specifiers| ::
                specifiers[k] == ImportDefaultSpecifier(r.value) && NoDefaultBefore(specifiers, k)
  {
    if specifiers == [] then None
    else if specifiers[0].ImportDefaultSpecifier? then
      assert NoDefaultBefore(specifiers, 0);
      Some(specifiers[0].local)
    else
      var r := FindDefaultSpecifier(specifiers[1..]);
      assert r.Some? ==> exists k | 0 <= k < |specifiers[1..]| ::
                           specifiers[1..][k] == ImportDefaultSpecifier(r.value) && NoDefaultBefore(specifiers[1..], k);
      assert r.Some? ==> exists k | 1 <= k < |specifiers| ::
                           specifiers[k] == ImportDefaultSpecifier(r.value) && NoDefaultBefore(specifiers, k) by {
        if r.Some? {
          var k :| 0 <= k < |specifiers[1..]| &&
                   specifiers[1..][k] == ImportDefaultSpecifier(r.value) && NoDefaultBefore(specifiers[1..], k);
          assert specifiers[k + 1] == ImportDefaultSpecifier(r.value) && NoDefaultBefore(specifiers, k + 1);
        }
      }
      r
  }

  /** An import the plugin replaces: its resolved path passes `test` and it binds
      a default import. */
  predicate IsInlined(ctx: FileContext, decl: ImportDeclaration)
  {
    TestFilepath(ctx.options.test, ResolveImport(ctx, decl)) && FindDefaultSpecifier(decl.specifiers).Some?
  }

  /** The `getCss` call for an import: the resolved path, the factory's reader and
      the `postcss` option. */
  function FetchContent(ctx: FileContext, decl: ImportDeclaration): Result<string, Exception>
  {
    GetCss(GetCssOptions(ResolveImport(ctx, decl), ctx.env.readFile, ctx.options.postcss), ctx.env.client)
  }

  /** `import { <local> as <uid> } from '<module>'` */
  function TagImport(uid: string, tag: TagSpec): Statement
  {
    Import(ImportDeclaration([ImportSpecifier(uid, tag.localImport)], tag.importModule))
  }

  /** `` uid`content` ``: one quasi whose raw and cooked text are the content, and
      no interpolated expressions. */
  function TaggedContent(uid: string, content: string): Expression
  {
    TaggedTemplateExpression(uid, TemplateLiteral([TemplateElement(content, content)], []))
  }

  /** `importDeclarationExit` for the declaration `decl` when the tag identifier
      is `tag`. */
  function ExitImport(ctx: FileContext, decl: ImportDeclaration, tag: Option<string>): (r: Result<Rewritten, Exception>)
    ensures r.Failure? <==> IsInlined(ctx, decl) && FetchContent(ctx, decl).Failure?
    ensures r.Failure? ==> r.error == FetchContent(ctx, decl).error
    ensures r.Success? && tag.Some? ==> r.value.tag == tag
    ensures r.Success? && tag.None? && r.value.tag.Some? ==>
              ctx.options.tagged.Some? && r.value.tag == Some(ctx.generateUid(ctx.options.tagged.value.localImport))
  {
    var filepath := ResolveImport(ctx, decl);
    if !TestFilepath(ctx.options.test, filepath) then Success(Rewritten([Import(decl)], tag))
    else
      match FindDefaultSpecifier(decl.specifiers)
      case None => Success(Rewritten([Import(decl)], tag))
      case Some(name) =>
        match FetchContent(ctx, decl)
        case Failure(e) => Failure(e)
        case Success(content) =>
          match ctx.options.tagged
          case None => Success(Rewritten([ConstDeclaration(name, StringLiteral(content))], tag))
          case Some(t) =>
            var uid := if tag.Some? then tag.value else ctx.generateUid(t.localImport);
            Success(Rewritten([TagImport(uid, t), ConstDeclaration(name, TaggedContent(uid, content))], Some(uid)))
  }

  /** One statement visited by Babel: only import declarations have a hook. */
  function Visit(ctx: FileContext, stmt: Statement, tag: Option<string>): Result<Rewritten, Exception>
  {
    if stmt.Import? then ExitImport(ctx, stmt.decl, tag) else Success(Rewritten([stmt], tag))
  }

  /** Statements already emitted, followed by the rewrite of the rest. */
  function Then(done: seq<Statement>, rest: Result<Rewritten, Exception>): Result<Rewritten, Exception>
  {
    match rest
    case Failure(e) => Failure(e)
    case Success(x) => Success(Rewritten(done + x.statements, x.tag))
  }

  /** The module body after Babel has visited every statement in order, or the
      first exception thrown. */
  function TransformBody(ctx: FileContext, body: seq<Statement>, tag: Option<string>): (r: Result<Rewritten, Exception>)
    ensures r.Failure? ==>
              exists k | 0 <= k < |body| ::
                body[k].Import? && IsInlined(ctx, body[k].decl) && FetchContent(ctx, body[k].decl) == Failure(r.error)
    ensures r.Success? ==> |body| <= |r.value.statements| <= 2 * |body|
    decreases |body|
  {
    if body == [] then Success(Rewritten([], tag))
    else
      match Visit(ctx, body[0], tag)
      case Failure(e) =>
        assert body[0].Import? && IsInlined(ctx, body[0].decl) && FetchContent(ctx, body[0].decl) == Failure(e);
        Failure(e)
      case Success(head) =>
        var rest := TransformBody(ctx, body[1..], head.tag);
        assert rest.Failure? ==>
                 exists k | 1 <= k < |body| ::
                   body[k].Import? && IsInlined(ctx, body[k].decl) && FetchContent(ctx, body[k].decl) == Failure(rest.error) by {
          if rest.Failure? {
            var k :| 0 <= k < |body[1..]| && body[1..][k].Import? && IsInlined(ctx, body[1..][k].decl) &&
                     FetchContent(ctx, body[1..][k].decl) == Failure(rest.error);
            assert body[k + 1] == body[1..][k];
          }
        }
        Then(head.statements, rest)
  }

  /** A one-statement body is rewritten as its statement is visited. */
  lemma TransformSingle(ctx: FileContext, stmt: Statement, tag: Option<string>)
    ensures TransformBody(ctx, [stmt], tag) == Visit(ctx, stmt, tag)
  {
    assert [stmt][1..] == [];
    if Visit(ctx, stmt, tag).Success? {
      assert Visit(ctx, stmt, tag).value.statements + [] == Visit(ctx, stmt, tag).value.statements;
    }
  }

  // ---------------------------------------------------------------------------
  // One import declaration

  /** An import whose path fails `test`, or which has no default specifier, stays
      as it is, the tag identifier is untouched, and nothing is read: the result
      is the same whatever the reader and the worker do. */
  lemma UnmatchedImportUntouched(ctx: FileContext, decl: ImportDeclaration, tag: Option<string>, reader: Reader, client: Processor)
    requires !IsInlined(ctx, decl)
    ensures ExitImport(ctx, decl, tag) == Success(Rewritten([Import(decl)], tag))
    ensures ExitImport(ctx.(env := ctx.env.(readFile := reader, client := client)), decl, tag) == ExitImport(ctx, decl, tag)
  {
  }

  /** Without `tagged`, an inlined import becomes exactly one
      `const <default> = "<content>"` with the fetched content; named and namespace
      specifiers of the same import are dropped, and the tag identifier is untouched. */
  lemma PlainModeBindsContent(ctx: FileContext, decl: ImportDeclaration, tag: Option<string>)
    requires ctx.options.tagged.None? && IsInlined(ctx, decl) && FetchContent(ctx, decl).Success?
    ensures ExitImport(ctx, decl, tag) ==
              Success(Rewritten([ConstDeclaration(FindDefaultSpecifier(decl.specifiers).value,
                                                  StringLiteral(FetchContent(ctx, decl).value))], tag))
  {
  }

  /** With `tagged = [local, module]`, an inlined import becomes
      `import { local as uid } from 'module'` immediately followed by
      `` const <default> = uid`content` ``, where uid is the existing tag identifier
      or, when there is none yet, a freshly generated one, which becomes the tag
      identifier. */
  lemma TaggedModeBindsTemplate(ctx: FileContext, decl: ImportDeclaration, tag: Option<string>)
    requires ctx.options.tagged.Some? && IsInlined(ctx, decl) && FetchContent(ctx, decl).Success?
    ensures var uid := if tag.Some? then tag.value else ctx.generateUid(ctx.options.tagged.value.localImport);
            var content := FetchContent(ctx, decl).value;
            var r := ExitImport(ctx, decl, tag);
            r.Success? && r.value.tag == Some(uid) && |r.value.statements| == 2 &&
            r.value.statements[0] == TagImport(uid, ctx.options.tagged.value) &&
            r.value.statements[1].ConstDeclaration? &&
            r.value.statements[1].id == FindDefaultSpecifier(decl.specifiers).value &&
            r.value.statements[1].init.TaggedTemplateExpression? &&
            r.value.statements[1].init.tag == uid &&
            r.value.statements[1].init.quasi.quasis == [TemplateElement(content, content)] &&
            r.value.statements[1].init.quasi.expressions == []
  {
  }

  /** A reader or worker exception while fetching an inlined import's content
      aborts the visit with that exception. */
  lemma FetchErrorPropagates(ctx: FileContext, decl: ImportDeclaration, tag: Option<string>)
    requires IsInlined(ctx, decl) && FetchContent(ctx, decl).Failure?
    ensures ExitImport(ctx, decl, tag) == Failure(FetchContent(ctx, decl).error)
  {
  }

  /** The tag import the plugin inserts has no default specifier, so visiting it
      again changes nothing, whatever `test` says of its module. */
  lemma TagImportIsLeftAlone(ctx: FileContext, uid: string, t: TagSpec, tag: Option<string>)
    ensures Visit(ctx, TagImport(uid, t), tag) == Success(Rewritten([TagImport(uid, t)], tag))
  {
    assert FindDefaultSpecifier([ImportSpecifier(uid, t.localImport)]) == None by {
      assert !NoDefaultBefore([ImportSpecifier(uid, t.localImport)], 1) ==> false;
    }
  }

  // ---------------------------------------------------------------------------
  // A whole module body

  lemma {:induction false} ThenAssociates(a: seq<Statement>, b: seq<Statement>, rest: Result<Rewritten, Exception>)
    ensures Then(a, Then(b, rest)) == Then(a + b, rest)
  {
    if rest.Success? {
      assert a + (b + rest.value.statements) == (a + b) + rest.value.statements;
    }
  }

  /** Rewriting `a + b` rewrites `a` first and then `b`, starting from the tag
      identifier that `a` leaves; an exception in `a` ends the rewrite. */
  lemma {:induction false} TransformBodyAppend(ctx: FileContext, a: seq<Statement>, b: seq<Statement>, tag: Option<string>)
    ensures TransformBody(ctx, a + b, tag) ==
              match TransformBody(ctx, a, tag)
              case Failure(e) => Failure(e)
              case Success(y) => Then(y.statements, TransformBody(ctx, b, y.tag))
  {
    if a == [] {
      assert a + b == b;
      match TransformBody(ctx, b, tag) {
        case Success(x) => assert [] + x.statements == x.statements;
        case Failure(_) =>
      }
    } else {
      assert (a + b)[0] == a[0] && (a + b)[1..] == a[1..] + b;
      match Visit(ctx, a[0], tag) {
        case Failure(_) =>
        case Success(head) =>
          TransformBodyAppend(ctx, a[1..], b, head.tag);
          match TransformBody(ctx, a[1..], head.tag) {
            case Failure(_) =>
            case Success(y) => ThenAssociates(head.statements, y.statements, TransformBody(ctx, b, y.tag));
          }
      }
    }
  }

  /** One more statement of a body whose prefix has been rewritten. */
  lemma PrefixStep(ctx: FileContext, body: seq<Statement>, k: nat, tag0: Option<string>, done: seq<Statement>, tag: Option<string>)
    requires k < |body| && TransformBody(ctx, body[..k], tag0) == Success(Rewritten(done, tag))
    ensures TransformBody(ctx, body[..k + 1], tag0) == Then(done, Visit(ctx, body[k], tag))
  {
    assert body[..k + 1] == body[..k] + [body[k]];
    TransformBodyAppend(ctx, body[..k], [body[k]], tag0);
    TransformSingle(ctx, body[k], tag);
  }

  /** The first statement whose visit throws decides the whole body's result. */
  lemma PrefixFailure(ctx: FileContext, body: seq<Statement>, k: nat, tag0: Option<string>, done: seq<Statement>, tag: Option<string>)
    requires k < |body| && TransformBody(ctx, body[..k], tag0) == Success(Rewritten(done, tag))
    requires Visit(ctx, body[k], tag).Failure?
    ensures TransformBody(ctx, body, tag0) == Failure(Visit(ctx, body[k], tag).error)
  {
    assert body == body[..k] + body[k..];
    TransformBodyAppend(ctx, body[..k], body[k..], tag0);
    assert body[k..][0] == body[k];
  }

  /** A statement the rewrite leaves alone: not an import, or an import that is
      not inlined. */
  predicate Settled(ctx: FileContext, stmt: Statement)
  {
    !stmt.Import? || !IsInlined(ctx, stmt.decl)
  }

  /** A body of settled statements passes through unchanged, tag identifier
      included. */
  lemma {:induction false} SettledBodyIsFixedPoint(ctx: FileContext, body: seq<Statement>, tag: Option<string>)
    requires forall k | 0 <= k < |body| :: Settled(ctx, body[k])
    ensures TransformBody(ctx, body, tag) == Success(Rewritten(body, tag))
  {
    if body != [] {
      assert Settled(ctx, body[0]);
      SettledBodyIsFixedPoint(ctx, body[1..], tag);
      assert [body[0]] + body[1..] == body;
    }
  }

  /** Code without import declarations passes through untouched. */
  lemma NoImportsPassThrough(ctx: FileContext, body: seq<Statement>, tag: Option<string>)
    requires forall k | 0 <= k < |body| :: !body[k].Import?
    ensures TransformBody(ctx, body, tag) == Success(Rewritten(body, tag))
  {
    SettledBodyIsFixedPoint(ctx, body, tag);
  }

  lemma VisitOutputSettled(ctx: FileContext, stmt: Statement, tag: Option<string>)
    requires Visit(ctx, stmt, tag).Success?
    ensures forall k | 0 <= k < |Visit(ctx, stmt, tag).value.statements| :: Settled(ctx, Visit(ctx, stmt, tag).value.statements[k])
  {
    if stmt.Import? && IsInlined(ctx, stmt.decl) && ctx.options.tagged.Some? {
      var uid := if tag.Some? then tag.value else ctx.generateUid(ctx.options.tagged.value.localImport);
      TagImportIsLeftAlone(ctx, uid, ctx.options.tagged.value, tag);
    }
  }

  /** Every statement of a successful rewrite's output is settled. */
  lemma {:induction false} TransformOutputSettled(ctx: FileContext, body: seq<Statement>, tag: Option<string>)
    requires TransformBody(ctx, body, tag).Success?
    ensures var out := TransformBody(ctx, body, tag).value.statements;
            forall k | 0 <= k < |out| :: Settled(ctx, out[k])
  {
    if body != [] {
      var head := Visit(ctx, body[0], tag).value;
      VisitOutputSettled(ctx, body[0], tag);
      TransformOutputSettled(ctx, body[1..], head.tag);
      var rest := TransformBody(ctx, body[1..], head.tag).value.statements;
      var out := head.statements + rest;
      forall k | 0 <= k < |out| ensures Settled(ctx, out[k]) {
        if k >= |head.statements| {
          assert out[k] == rest[k - |head.statements|];
        }
      }
    }
  }

  /** Running the rewrite again over its own output, with the same options and
      file, changes nothing, whatever the tag identifier then is. */
  lemma TransformIsIdempotent(ctx: FileContext, body: seq<Statement>, tag: Option<string>, tag': Option<string>)
    requires TransformBody(ctx, body, tag).Success?
    ensures var out := TransformBody(ctx, body, tag).value.statements;
            TransformBody(ctx, out, tag') == Success(Rewritten(out, tag'))
  {
    TransformOutputSettled(ctx, body, tag);
    SettledBodyIsFixedPoint(ctx, TransformBody(ctx, body, tag).value.statements, tag');
  }

  /** Without `tagged`, the rewrite maps the body statement by statement: the
      output is as long as the input, its k-th statement is what visiting the k-th
      input statement gives, and the tag identifier is never touched. */
  lemma {:induction false} PlainModeIsPointwise(ctx: FileContext, body: seq<Statement>, tag: Option<string>)
    requires ctx.options.tagged.None? && TransformBody(ctx, body, tag).Success?
    ensures var x := TransformBody(ctx, body, tag).value;
            x.tag == tag && |x.statements| == |body| &&
            forall k | 0 <= k < |body| :: Visit(ctx, body[k], tag) == Success(Rewritten([x.statements[k]], tag))
  {
    if body != [] {
      PlainModeIsPointwise(ctx, body[1..], tag);
      var x := TransformBody(ctx, body, tag).value;
      var rest := TransformBody(ctx, body[1..], tag).value;
      forall k | 0 <= k < |body| ensures Visit(ctx, body[k], tag) == Success(Rewritten([x.statements[k]], tag)) {
        if k > 0 {
          assert body[k] == body[1..][k - 1];
          assert x.statements[k] == rest.statements[k - 1];
        }
      }
    }
  }

  /** Number of import declarations in `body` that the rewrite inlines. */
  function CountInlined(ctx: FileContext, body: seq<Statement>): nat
  {
    if body == [] then 0
    else (if body[0].Import? && IsInlined(ctx, body[0].decl) then 1 else 0) + CountInlined(ctx, body[1..])
  }

  /** Does `stmt` import the tag function of `t`, under any local name? */
  predicate IsTagImportOf(t: TagSpec, stmt: Statement)
  {
    stmt.Import? && stmt.decl.source == t.importModule &&
    |stmt.decl.specifiers| == 1 && stmt.decl.specifiers[0].ImportSpecifier? &&
    stmt.decl.specifiers[0].imported == t.localImport
  }

  function CountTagImports(t: TagSpec, body: seq<Statement>): nat
  {
    if body == [] then 0
    else (if IsTagImportOf(t, body[0]) then 1 else 0) + CountTagImports(t, body[1..])
  }

  lemma {:induction false} CountTagImportsAppend(t: TagSpec, a: seq<Statement>, b: seq<Statement>)
    ensures CountTagImports(t, a + b) == CountTagImports(t, a) + CountTagImports(t, b)
  {
    if a == [] {
      assert a + b == b;
    } else {
      assert (a + b)[0] == a[0] && (a + b)[1..] == a[1..] + b;
      CountTagImportsAppend(t, a[1..], b);
    }
  }

  /** The output grows by one statement per inlined import in tagged mode and
      not at all in plain mode; in tagged mode every inlined import brings its
      own tag import (they are not deduplicated). */
  lemma {:induction false} OutputSize(ctx: FileContext, body: seq<Statement>, tag: Option<string>)
    requires TransformBody(ctx, body, tag).Success?
    ensures var out := TransformBody(ctx, body, tag).value.statements;
            |out| == |body| + (if ctx.options.tagged.Some? then CountInlined(ctx, body) else 0)
    ensures ctx.options.tagged.Some? ==>
              var out := TransformBody(ctx, body, tag).value.statements;
              CountTagImports(ctx.options.tagged.value, out) ==
                CountTagImports(ctx.options.tagged.value, body) + CountInlined(ctx, body)
  {
    if body != [] {
      var head := Visit(ctx, body[0], tag).value;
      OutputSize(ctx, body[1..], head.tag);
      if ctx.options.tagged.Some? {
        var t := ctx.options.tagged.value;
        var rest := TransformBody(ctx, body[1..], head.tag).value.statements;
        CountTagImportsAppend(t, head.statements, rest);
        if body[0].Import? && IsInlined(ctx, body[0].decl) {
          var uid := if tag.Some? then tag.value else ctx.generateUid(t.localImport);
          assert head.statements == [TagImport(uid, t), head.statements[1]];
          assert !IsTagImportOf(t, head.statements[1]);
          assert head.statements[1..][1..] == [];
          assert !IsTagImportOf(t, body[0]);
        }
      }
    }
  }

  /** In tagged mode the tag identifier is generated at most once: an existing one
      is kept to the end of the body, and a missing one is created, from the tag's
      local name, exactly when some import is inlined. */
  lemma {:induction false} TagIdentifierGeneratedOnce(ctx: FileContext, body: seq<Statement>, tag: Option<string>)
    requires ctx.options.tagged.Some? && TransformBody(ctx, body, tag).Success?
    ensures var x := TransformBody(ctx, body, tag).value;
            (tag.Some? ==> x.tag == tag) &&
            (tag.None? ==> (x.tag.Some? <==> CountInlined(ctx, body) > 0)) &&
            (tag.None? && x.tag.Some? ==> x.tag.value == ctx.generateUid(ctx.options.tagged.value.localImport))
  {
    if body != [] {
      var head := Visit(ctx, body[0], tag).value;
      TagIdentifierGeneratedOnce(ctx, body[1..], head.tag);
    }
  }

  /** A successful traversal of a non-empty body is the visit of its first
      statement followed by the traversal of the rest from the tag it leaves. */
  lemma TransformBodyCons(ctx: FileContext, body: seq<Statement>, tag: Option<string>)
    requires body != [] && TransformBody(ctx, body, tag).Success?
    ensures Visit(ctx, body[0], tag).Success?
    ensures var head := Visit(ctx, body[0], tag).value;
            var rest := TransformBody(ctx, body[1..], head.tag);
            rest.Success? &&
            TransformBody(ctx, body, tag).value == Rewritten(head.statements + rest.value.statements, rest.value.tag)
  {
  }

  lemma OccurrencesStep(body: seq<Statement>, headOut: seq<Statement>, restOut: seq<Statement>,
                        s: Statement, inlined: nat, restInlined: nat)
    requires body != []
    requires multiset(headOut)[s] == multiset([body[0]])[s] + inlined
    requires multiset(restOut)[s] == multiset(body[1..])[s] + restInlined
    ensures multiset(headOut + restOut)[s] == multiset(body)[s] + inlined + restInlined
  {
    assert body == [body[0]] + body[1..];
  }

  /** One statement's share of the tag imports: an inlined import brings exactly
      one copy of the tag import with the identifier it leaves, anything else
      is kept as it is. */
  lemma VisitTagImports(ctx: FileContext, stmt: Statement, tag: Option<string>, uid: string)
    requires ctx.options.tagged.Some? && Visit(ctx, stmt, tag).Success?
    requires stmt.Import? && IsInlined(ctx, stmt.decl) ==> Visit(ctx, stmt, tag).value.tag == Some(uid)
    ensures var tagImport := TagImport(uid, ctx.options.tagged.value);
            multiset(Visit(ctx, stmt, tag).value.statements)[tagImport] ==
              multiset([stmt])[tagImport] + (if stmt.Import? && IsInlined(ctx, stmt.decl) then 1 else 0)
  {
    var tagImport := TagImport(uid, ctx.options.tagged.value);
    var out := Visit(ctx, stmt, tag).value.statements;
    if stmt.Import? && IsInlined(ctx, stmt.decl) {
      TagImportIsLeftAlone(ctx, uid, ctx.options.tagged.value, tag);
      assert stmt != tagImport;
      assert out == [tagImport, out[1]] && out[1].ConstDeclaration?;
      assert multiset(out) == multiset{tagImport, out[1]};
    } else {
      assert out == [stmt];
    }
  }

  /** In tagged mode every inserted tag import is the same statement,
      `import { local as uid } from 'module'` with the file's final tag identifier
      uid: the output holds as many copies of it as the input did, plus one per
      inlined import. */
  lemma {:induction false} TagImportsShareIdentifier(ctx: FileContext, body: seq<Statement>, tag: Option<string>)
    requires ctx.options.tagged.Some? && TransformBody(ctx, body, tag).Success?
    ensures var x := TransformBody(ctx, body, tag).value;
            x.tag.Some? ==>
              var tagImport := TagImport(x.tag.value, ctx.options.tagged.value);
              multiset(x.statements)[tagImport] == multiset(body)[tagImport] + CountInlined(ctx, body)
  {
    if body != [] {
      TransformBodyCons(ctx, body, tag);
      var head := Visit(ctx, body[0], tag).value;
      var rest := TransformBody(ctx, body[1..], head.tag).value;
      TagImportsShareIdentifier(ctx, body[1..], head.tag);
      TagIdentifierGeneratedOnce(ctx, body[1..], head.tag);
      if rest.tag.Some? {
        var uid := rest.tag.value;
        var inlined := if body[0].Import? && IsInlined(ctx, body[0].decl) then 1 else 0;
        VisitTagImports(ctx, body[0], tag, uid);
        OccurrencesStep(body, head.statements, rest.statements,
                        TagImport(uid, ctx.options.tagged.value), inlined, CountInlined(ctx, body[1..]));
      }
    }
  }
}
