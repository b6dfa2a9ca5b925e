/** The text an executor builds role by role, against the prompt printed from its messages. */
module Printer {
  import opened Options
  import opened Text
  import opened ChatTemplates
  import opened Ir
  import opened Executor

  /** A matched role block: begin, body, end. */
  datatype Block = Block(role: string, body: seq<Expr>)

  function BlockExpr(block: Block): Expr {
    ExprList([RoleBegin(block.role)] + block.body + [RoleEnd(block.role)])
  }

  function BlockExprs(blocks: seq<Block>): seq<Expr> {
    if blocks == [] then [] else [BlockExpr(blocks[0])] + BlockExprs(blocks[1..])
  }

  /** No role changes and no images. */
  predicate Plain(e: Expr)
    decreases e, 1
  {
    match e
    case RoleBegin(_) => false
    case RoleEnd(_) => false
    case Image(_) => false
    case ExprList(items) => AllPlain(items)
    case _ => true
  }

  predicate AllPlain(es: seq<Expr>)
    decreases es, 0
  {
    es == [] || (Plain(es[0]) && AllPlain(es[1..]))
  }

  /** What a plain expression leaves alone. */
  predicate SameBlock(s: Exec, t: Exec) {
    t.messages == s.messages && t.curRole == s.curRole && t.beginPos == s.beginPos && t.curImages == s.curImages
  }

  lemma {:induction false} KvKeepsBlock(s: Exec, kids: seq<Kid>, origin: nat)
    ensures SameBlock(s, ConcatenateKv(s, kids, origin))
    decreases |kids|
  {
    if kids != [] && kids[0].forkPos == Some(origin) {
      KvKeepsBlock(s.(text := s.text + Addition(kids[0])), kids[1..], origin);
    }
  }

  lemma {:induction false} PlainKeepsBlock(c: Config, b: Backend, s: Exec, e: Expr)
    requires Plain(e)
    ensures SameBlock(s, Execute(c, b, s, e))
    decreases e, 1
  {
    match e
    case ExprList(items) => AllPlainKeepBlock(c, b, s, items);
    case ConcateAndAppend(kids) => KvKeepsBlock(s, kids, |s.text|);
    case Gen(name, params) => GenKeepsBlock(c, b, s, name, params);
    case _ =>
  }

  lemma GenKeepsBlock(c: Config, b: Backend, s: Exec, name: string, params: Params)
    ensures SameBlock(s, ExecuteGen(c, b, s, name, params))
  {
    if !c.stream && s.specTokens.Some? {
      var (comp, after) := SpecGen(b, s, params);
      assert SameBlock(s, after);
      assert SameBlock(after, Publish(after, name, comp, Str(comp)));
    }
  }

  lemma {:induction false} AllPlainKeepBlock(c: Config, b: Backend, s: Exec, es: seq<Expr>)
    requires AllPlain(es)
    ensures SameBlock(s, ExecuteAll(c, b, s, es))
    decreases es, 0
  {
    if es != [] {
      PlainKeepsBlock(c, b, s, es[0]);
      AllPlainKeepBlock(c, b, Execute(c, b, s, es[0]), es[1..]);
    }
  }

  /** The executor just before the block is closed. */
  function BeforeEnd(c: Config, b: Backend, s: Exec, block: Block): Exec {
    ExecuteAll(c, b, Execute(c, b, s, RoleBegin(block.role)), block.body)
  }

  lemma BlockInThreeSteps(c: Config, b: Backend, s: Exec, block: Block)
    requires !s.raised
    ensures Execute(c, b, s, BlockExpr(block)) == Execute(c, b, BeforeEnd(c, b, s, block), RoleEnd(block.role))
  {
    ExecuteAllAround(c, b, s, RoleBegin(block.role), block.body, RoleEnd(block.role));
    ExecuteItems(c, b, s, BlockExpr(block));
  }

  /** The content a block writes, before leading whitespace is stripped from the message. */
  function BlockContents(c: Config, b: Backend, s: Exec, block: Block): seq<string> {
    DefaultContents(c, s, block.role) + [Content(BeforeEnd(c, b, s, block))]
  }

  function DefaultContents(c: Config, s: Exec, role: string): seq<string> {
    if NeedsDefaultSystem(c, s, role) then [c.template.defaultSystem.value] else []
  }

  /** All contents of a run of blocks, the default system prompt included. */
  function Contents(c: Config, b: Backend, s: Exec, blocks: seq<Block>): seq<string>
    decreases |blocks|
  {
    if blocks == [] then []
    else BlockContents(c, b, s, blocks[0]) + Contents(c, b, Execute(c, b, s, BlockExpr(blocks[0])), blocks[1..])
  }

  /** The prompt with the contents as they were written. */
  function RawPrompt(t: ChatTemplate, messages: seq<Message>, raws: seq<string>): string
    requires |messages| == |raws|
  {
    if messages == [] then ""
    else
      var last := |messages| - 1;
      var (prefix, suffix) := t.PrefixAndSuffix(messages[last].role, messages[..last]);
      RawPrompt(t, messages[..last], raws[..last]) + (prefix + raws[last] + suffix)
  }

  /** Between blocks: every message is its raw content stripped, and the text is the prompt of the raw contents. */
  predicate Between(t: ChatTemplate, s: Exec, raws: seq<string>) {
    && s.curRole.None? && s.curImages == []
    && |raws| == |s.messages|
    && (forall i :: 0 <= i < |raws| ==> s.messages[i].content == Some(LStrip(raws[i])) && s.messages[i].images == [])
    && s.text == RawPrompt(t, s.messages, raws)
  }

  lemma RawPromptSnoc(t: ChatTemplate, messages: seq<Message>, raws: seq<string>, m: Message, raw: string)
    requires |messages| == |raws|
    ensures RawPrompt(t, messages + [m], raws + [raw]) ==
            RawPrompt(t, messages, raws) + (t.PrefixAndSuffix(m.role, messages).0 + raw + t.PrefixAndSuffix(m.role, messages).1)
  {
    assert (messages + [m])[..|messages|] == messages;
    assert (raws + [raw])[..|raws|] == raws;
  }

  /** Closing a block that was entered between blocks is between blocks again, one content later. */
  lemma ClosingABlock(c: Config, s: Exec, t: Exec, role: string, raws: seq<string>)
    requires Between(c.template, s, raws)
    requires SameBlock(EnterRole(c, s, role), t)
    requires EnterRole(c, s, role).text <= t.text
    ensures Between(c.template, ExecuteRoleEnd(c, t, role), raws + [Content(t)])
  {
    var (prefix, suffix) := c.template.PrefixAndSuffix(role, s.messages);
    var raw := Content(t);
    TextInPieces(s.text, prefix, raw, suffix, t.text);
    BetweenSnoc(c.template, s, raws, ExecuteRoleEnd(c, t, role), Message(role, Some(LStrip(raw)), []), raw);
  }

  lemma BetweenSnoc(t: ChatTemplate, s: Exec, raws: seq<string>, next: Exec, m: Message, raw: string)
    requires Between(t, s, raws)
    requires next.curRole.None? && next.curImages == [] && next.messages == s.messages + [m]
    requires m.content == Some(LStrip(raw)) && m.images == []
    requires next.text == s.text + (t.PrefixAndSuffix(m.role, s.messages).0 + raw + t.PrefixAndSuffix(m.role, s.messages).1)
    ensures Between(t, next, raws + [raw])
  {
    RawPromptSnoc(t, s.messages, raws, m, raw);
  }

  lemma TextInPieces(before: string, prefix: string, raw: string, suffix: string, text: string)
    requires before + prefix <= text && raw == Drop(text, |before + prefix|)
    ensures text + suffix == before + (prefix + raw + suffix)
  {}

  lemma DefaultSystemIsABlock(c: Config, s: Exec, raws: seq<string>)
    requires Between(c.template, s, raws) && c.template.defaultSystem.Some?
    ensures Between(c.template, WithDefaultSystem(c, s), raws + [c.template.defaultSystem.value])
  {
    var entered := EnterRole(c, s, "system");
    var t := Fill(entered, c.template.defaultSystem.value);
    assert Content(t) == c.template.defaultSystem.value;
    ClosingABlock(c, s, t, "system", raws);
  }

  lemma BlockKeepsBetween(c: Config, b: Backend, s: Exec, block: Block, raws: seq<string>)
    requires Between(c.template, s, raws) && !s.raised && AllPlain(block.body)
    ensures var t := Execute(c, b, s, BlockExpr(block));
            !t.raised ==> Between(c.template, t, raws + BlockContents(c, b, s, block))
  {
    BlockInThreeSteps(c, b, s, block);
    var default := DefaultContents(c, s, block.role);
    var t := BeforeEnd(c, b, s, block);
    ReadyIsBetween(c, s, block.role, raws);
    var entered := EnterRole(c, Ready(c, s, block.role), block.role);
    BodyKeepsBlock(c, b, entered, block.body);
    ClosingABlock(c, Ready(c, s, block.role), t, block.role, raws + default);
    ConcatAssociative(raws, default, [Content(t)]);
  }

  lemma BodyKeepsBlock(c: Config, b: Backend, s: Exec, body: seq<Expr>)
    requires AllPlain(body)
    ensures var t := ExecuteAll(c, b, s, body); SameBlock(s, t) && s.text <= t.text
  {
    AllPlainKeepBlock(c, b, s, body);
    ExecuteAllExtends(c, b, s, body);
  }

  lemma ReadyIsBetween(c: Config, s: Exec, role: string, raws: seq<string>)
    requires Between(c.template, s, raws)
    ensures Between(c.template, Ready(c, s, role), raws + DefaultContents(c, s, role))
  {
    if NeedsDefaultSystem(c, s, role) {
      DefaultSystemIsABlock(c, s, raws);
    } else {
      ConcatAssociative(raws, [], []);
    }
  }

  lemma {:induction false} BlocksKeepBetween(c: Config, b: Backend, s: Exec, blocks: seq<Block>, raws: seq<string>)
    requires Between(c.template, s, raws) && !s.raised
    requires forall block :: block in blocks ==> AllPlain(block.body)
    ensures var t := ExecuteAll(c, b, s, BlockExprs(blocks));
            !t.raised ==> Between(c.template, t, raws + Contents(c, b, s, blocks))
    decreases |blocks|
  {
    if blocks == [] {
      ConcatAssociative(raws, [], []);
    } else {
      var next := Execute(c, b, s, BlockExpr(blocks[0]));
      var contents := BlockContents(c, b, s, blocks[0]);
      BlockKeepsBetween(c, b, s, blocks[0], raws);
      ExecuteAllCons(c, b, s, BlockExpr(blocks[0]), BlockExprs(blocks[1..]));
      if next.raised {
        ExecuteAllExtends(c, b, next, BlockExprs(blocks[1..]));
      } else {
        BlocksKeepBetween(c, b, next, blocks[1..], raws + contents);
        ConcatAssociative(raws, contents, Contents(c, b, next, blocks[1..]));
      }
    }
  }

  /** No content begins with whitespace. */
  predicate Unpadded(raws: seq<string>) {
    forall raw :: raw in raws ==> LStrip(raw) == raw
  }

  /** Stripping shortens the prompt unless there is nothing to strip. */
  ghost predicate Shortens(t: ChatTemplate, format: ListFormat, messages: seq<Message>, raws: seq<string>) {
    && |messages| == |raws|
    && |t.Prompt(format, messages)| <= |RawPrompt(t, messages, raws)|
    && (|t.Prompt(format, messages)| == |RawPrompt(t, messages, raws)| <==> Unpadded(raws))
    && (Unpadded(raws) ==> t.Prompt(format, messages) == RawPrompt(t, messages, raws))
  }

  lemma ShortensSnoc(t: ChatTemplate, format: ListFormat, messages: seq<Message>, raws: seq<string>, m: Message, raw: string)
    requires Shortens(t, format, messages, raws) && m.content == Some(LStrip(raw)) && m.images == []
    ensures Shortens(t, format, messages + [m], raws + [raw])
  {
    RawPromptSnoc(t, messages, raws, m, raw);
    assert (messages + [m])[..|messages|] == messages;
    var (prefix, suffix) := t.PrefixAndSuffix(m.role, messages);
    assert t.Print(format, m, messages) == prefix + LStrip(raw) + suffix;
    assert Unpadded(raws + [raw]) <==> Unpadded(raws) && LStrip(raw) == raw;
  }

  lemma {:induction false} PromptOfStripped(t: ChatTemplate, format: ListFormat, messages: seq<Message>, raws: seq<string>, n: nat)
    requires n <= |messages| == |raws|
    requires forall i :: 0 <= i < |raws| ==> messages[i].content == Some(LStrip(raws[i])) && messages[i].images == []
    ensures Shortens(t, format, messages[..n], raws[..n])
  {
    if n > 0 {
      PromptOfStripped(t, format, messages, raws, n - 1);
      ShortensSnoc(t, format, messages[..n - 1], raws[..n - 1], messages[n - 1], raws[n - 1]);
      TakeSnoc(messages, n - 1);
      TakeSnoc(raws, n - 1);
    }
  }

  /**
  Over every run of matched role blocks without images, the executor's text is the prompt printed from its messages
  exactly when no content written in a block, nor an inserted default system prompt, begins with whitespace.
  */
  lemma ExecutorAgreesWithPrinter(c: Config, b: Backend, sid: seq<nat>, specTokens: Option<nat>, format: ListFormat, blocks: seq<Block>)
    requires forall block :: block in blocks ==> AllPlain(block.body)
    ensures var s := Fresh(sid, specTokens);
            var t := ExecuteAll(c, b, s, BlockExprs(blocks));
            !t.raised ==>
              (t.text == c.template.Prompt(format, t.messages) <==> Unpadded(Contents(c, b, s, blocks)))
  {
    var s := Fresh(sid, specTokens);
    var t := ExecuteAll(c, b, s, BlockExprs(blocks));
    BlocksKeepBetween(c, b, s, blocks, []);
    if !t.raised {
      var raws := Contents(c, b, s, blocks);
      ConcatAssociative(raws, [], []);
      PromptOfStripped(c.template, format, t.messages, raws, |raws|);
      assert t.messages[..|raws|] == t.messages && raws[..|raws|] == raws;
    }
  }
}
