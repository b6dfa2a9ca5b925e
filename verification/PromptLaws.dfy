/** What the printed prompt and the text of a run are, in terms of the roles, the style and the default system prompt of a template. */
module PromptLaws {
  import opened Options
  import opened Text
  import opened ChatTemplates
  import opened Ir
  import opened Executor
  import opened Programs
  import opened Printer

  function Opening(t: ChatTemplate, role: string): string { if role in t.roles then t.roles[role].0 else "" }

  function Closing(t: ChatTemplate, role: string): string { if role in t.roles then t.roles[role].1 else "" }

  /** What opens the message of a role after `n` others. In LLAMA2 a first system message opens as the user's, and a second message of the user has no opening. */
  function OpeningAt(t: ChatTemplate, n: nat, role: string): string {
    if t.style == Llama2 && n == 0 && role == "system" then Opening(t, "user") + Opening(t, "system")
    else if t.style == Llama2 && n == 1 && role == "user" then ""
    else Opening(t, role)
  }

  predicate Simple(messages: seq<Message>) {
    forall m :: m in messages ==> m.content.Some? && m.images == []
  }

  // ---------- The printer, message by message ----------

  lemma PromptSnoc(t: ChatTemplate, format: ListFormat, messages: seq<Message>, m: Message)
    ensures t.Prompt(format, messages + [m]) == t.Prompt(format, messages) + t.Print(format, m, messages)
  {
    assert (messages + [m])[..|messages|] == messages;
  }

  /** PLAIN: a known role surrounds the content with its two delimiters, an unknown one adds the content alone. */
  lemma PlainMessage(t: ChatTemplate, format: ListFormat, messages: seq<Message>, role: string, content: string)
    requires t.style == Plain
    ensures var prompt := t.Prompt(format, messages + [Message(role, Some(content), [])]);
            && (role in t.roles ==> prompt == t.Prompt(format, messages) + (t.roles[role].0 + content + t.roles[role].1))
            && (role !in t.roles ==> prompt == t.Prompt(format, messages) + content)
  {
    PromptSnoc(t, format, messages, Message(role, Some(content), []));
    assert "" + content + "" == content;
  }

  /** LLAMA2: a first system message opens with the delimiter of the user and then its own. */
  lemma LlamaSystemFirst(t: ChatTemplate, format: ListFormat, content: string)
    requires t.style == Llama2 && "user" in t.roles && "system" in t.roles
    ensures t.Prompt(format, [Message("system", Some(content), [])]) ==
            t.roles["user"].0 + t.roles["system"].0 + content + t.roles["system"].1
  {
    PromptSnoc(t, format, [], Message("system", Some(content), []));
    assert [] + [Message("system", Some(content), [])] == [Message("system", Some(content), [])];
    var piece := t.roles["user"].0 + t.roles["system"].0 + content + t.roles["system"].1;
    ConcatAssociative(piece, "", "");
  }

  /** LLAMA2: the user's message after a first message with a content has no opening. */
  lemma LlamaUserSecond(t: ChatTemplate, format: ListFormat, first: Message, content: string)
    requires t.style == Llama2 && "user" in t.roles && first.content.Some?
    ensures t.Prompt(format, [first] + [Message("user", Some(content), [])]) ==
            t.Prompt(format, [first]) + (content + t.roles["user"].1)
  {
    PromptSnoc(t, format, [first], Message("user", Some(content), []));
    assert "" + content + t.roles["user"].1 == content + t.roles["user"].1;
  }

  /** LLAMA2: every other message is printed as in PLAIN. */
  lemma LlamaOtherwise(t: ChatTemplate, format: ListFormat, messages: seq<Message>, role: string, content: string)
    requires t.style == Llama2 && role in t.roles
    requires !(messages == [] && role == "system") && !(|messages| == 1 && messages[0].content.Some? && role == "user")
    ensures t.Prompt(format, messages + [Message(role, Some(content), [])]) ==
            t.Prompt(format, messages) + (t.roles[role].0 + content + t.roles[role].1)
  {
    PromptSnoc(t, format, messages, Message(role, Some(content), []));
  }

  /** A system message without content is printed with the default prompt, or not at all; any other as the word None. */
  lemma MissingContent(t: ChatTemplate, format: ListFormat, messages: seq<Message>, role: string)
    ensures var prompt := t.Prompt(format, messages + [Message(role, None, [])]);
            if role == "system" && t.defaultSystem.None? then prompt == t.Prompt(format, messages)
            else prompt == t.Prompt(format, messages + [Message(role, if role == "system" then t.defaultSystem else Some("None"), [])])
  {
    PromptSnoc(t, format, messages, Message(role, None, []));
    PromptSnoc(t, format, messages, Message(role, if role == "system" then t.defaultSystem else Some("None"), []));
    ConcatAssociative(t.Prompt(format, messages), "", "");
  }

  /** A message with images is printed as one whose content is its formatted list. */
  lemma ImageMessage(t: ChatTemplate, format: ListFormat, messages: seq<Message>, role: string, content: string, images: seq<string>)
    requires images != []
    ensures t.Prompt(format, messages + [Message(role, Some(content), images)]) ==
            t.Prompt(format, messages + [Message(role, Some(format(content, images)), [])])
  {
    PromptSnoc(t, format, messages, Message(role, Some(content), images));
    PromptSnoc(t, format, messages, Message(role, Some(format(content, images)), []));
  }

  function Piece(t: ChatTemplate, messages: seq<Message>, i: nat): string
    requires i < |messages| && messages[i].content.Some?
  {
    OpeningAt(t, i, messages[i].role) + messages[i].content.value + Closing(t, messages[i].role)
  }

  function Pieces(t: ChatTemplate, messages: seq<Message>): seq<string>
    requires Simple(messages)
  {
    seq(|messages|, i requires 0 <= i < |messages| => assert messages[i] in messages; Piece(t, messages, i))
  }

  /** The whole prompt of a conversation, in both styles. */
  lemma {:induction false} PromptInPieces(t: ChatTemplate, format: ListFormat, messages: seq<Message>)
    requires Simple(messages)
    ensures t.Prompt(format, messages) == Join(Pieces(t, messages))
    decreases |messages|
  {
    if messages != [] {
      var last := |messages| - 1;
      var (hist, m) := (messages[..last], messages[last]);
      assert messages == hist + [m];
      assert m in messages;
      PromptInPieces(t, format, hist);
      PromptSnoc(t, format, hist, m);
      assert Pieces(t, messages) == Pieces(t, hist) + [Piece(t, messages, last)];
      JoinAppend(Pieces(t, hist), [Piece(t, messages, last)]);
      JoinOne(Piece(t, messages, last));
      PieceIsPrinted(t, format, messages, last);
    }
  }

  lemma JoinOne(part: string)
    ensures Join([part]) == part
  {
    assert [part][1..] == [];
    ConcatAssociative(part, "", "");
  }

  lemma PieceIsPrinted(t: ChatTemplate, format: ListFormat, messages: seq<Message>, i: nat)
    requires Simple(messages) && i < |messages| && messages[i].content.Some?
    ensures t.Print(format, messages[i], messages[..i]) == Piece(t, messages, i)
  {
    assert messages[i] in messages;
    DelimitersAt(t, messages[i].role, messages[..i]);
  }

  lemma DelimitersAt(t: ChatTemplate, role: string, hist: seq<Message>)
    requires forall m :: m in hist ==> m.content.Some?
    ensures t.PrefixAndSuffix(role, hist) == (OpeningAt(t, |hist|, role), Closing(t, role))
  {
    if |hist| == 1 {
      assert hist[0] in hist;
    }
  }

  // ---------- A run, block by block ----------

  /** Between two blocks of a run that has not failed. */
  predicate AtRest(s: Exec) {
    !s.raised && s.curRole.None? && s.curImages == [] && forall m :: m in s.messages ==> m.content.Some?
  }

  predicate Inserts(t: ChatTemplate, s: Exec, role: string) {
    s.messages == [] && role != "system" && t.defaultSystem.Some? && t.defaultSystem.value != ""
  }

  /** The default system message, where it is inserted. */
  function InsertedText(t: ChatTemplate, s: Exec, role: string): string {
    if Inserts(t, s, role) then OpeningAt(t, 0, "system") + t.defaultSystem.value + Closing(t, "system") else ""
  }

  function InsertedMessages(t: ChatTemplate, s: Exec, role: string): seq<Message> {
    if Inserts(t, s, role) then [Message("system", Some(LStrip(t.defaultSystem.value)), [])] else []
  }

  lemma RoleBeginWrites(c: Config, b: Backend, s: Exec, role: string)
    requires AtRest(s)
    ensures var (t, begun) := (c.template, Execute(c, b, s, RoleBegin(role)));
            && !begun.raised && begun.curRole == Some(role) && begun.curImages == []
            && begun.messages == s.messages + InsertedMessages(t, s, role)
            && begun.text == s.text + InsertedText(t, s, role) + OpeningAt(t, |begun.messages|, role)
            && begun.beginPos == Some(|begun.text|)
  {
    var t := c.template;
    var ready := Ready(c, s, role);
    if Inserts(t, s, role) {
      DefaultSystemWrites(c, s);
      assert InsertedMessages(t, s, role)[0] in ready.messages;
    } else {
      ConcatAssociative(s.text, "", "");
      ConcatAssociative(s.messages, [], []);
    }
    DelimitersAt(t, role, ready.messages);
  }

  lemma DefaultSystemWrites(c: Config, s: Exec)
    requires AtRest(s) && c.template.defaultSystem.Some? && s.messages == []
    ensures var (t, u) := (c.template, WithDefaultSystem(c, s));
            && !u.raised && u.curRole.None? && u.curImages == []
            && u.messages == [Message("system", Some(LStrip(t.defaultSystem.value)), [])]
            && u.text == s.text + (OpeningAt(t, 0, "system") + t.defaultSystem.value + Closing(t, "system"))
  {
    var (t, entered) := (c.template, EnterRole(c, s, "system"));
    var written := Fill(entered, t.defaultSystem.value);
    DelimitersAt(t, "system", []);
    assert Content(written) == t.defaultSystem.value;
    ConcatAssociative(s.text, OpeningAt(t, 0, "system"), t.defaultSystem.value);
    ConcatAssociative(s.text, OpeningAt(t, 0, "system") + t.defaultSystem.value, Closing(t, "system"));
  }

  /**
  A block appends the inserted default system message if it is due, the opening of its role, what its body writes, and the closing;
  the message recorded is what the body wrote, stripped.
  */
  lemma BlockWrites(c: Config, b: Backend, s: Exec, block: Block, raw: string)
    requires AtRest(s) && AllPlain(block.body)
    requires var begun := Execute(c, b, s, RoleBegin(block.role)); ExecuteAll(c, b, begun, block.body).text == begun.text + raw
    requires !Execute(c, b, s, BlockExpr(block)).raised
    ensures var (t, done) := (c.template, Execute(c, b, s, BlockExpr(block)));
            var before := s.messages + InsertedMessages(t, s, block.role);
            && done.messages == before + [Message(block.role, Some(LStrip(raw)), [])]
            && done.text == s.text + InsertedText(t, s, block.role) + OpeningAt(t, |before|, block.role) + raw + Closing(t, block.role)
            && AtRest(done)
  {
    var begun := Execute(c, b, s, RoleBegin(block.role));
    var written := ExecuteAll(c, b, begun, block.body);
    RoleBeginWrites(c, b, s, block.role);
    BlockInThreeSteps(c, b, s, block);
    BodyKeepsBlock(c, b, begun, block.body);
    RoleEndWrites(c, b, written, block.role, raw);
    assert forall m :: m in InsertedMessages(c.template, s, block.role) ==> m.content.Some?;
  }

  lemma RoleEndWrites(c: Config, b: Backend, s: Exec, role: string, raw: string)
    requires forall m :: m in s.messages ==> m.content.Some?
    requires s.beginPos.Some? && s.beginPos.value <= |s.text| && s.text[s.beginPos.value..] == raw
    ensures var t := Execute(c, b, s, RoleEnd(role));
            !t.raised ==> !s.raised && t.curRole.None? && t.curImages == [] && t.text == s.text + Closing(c.template, role)
                          && t.messages == s.messages + [Message(role, Some(LStrip(raw)), s.curImages)]
  {
    DelimitersAt(c.template, role, s.messages);
  }

  lemma TextBlockWrites(c: Config, b: Backend, s: Exec, role: string, text: string)
    requires AtRest(s)
    ensures var (t, done) := (c.template, Execute(c, b, s, BlockExpr(Block(role, [ConstantText(text)]))));
            var before := s.messages + InsertedMessages(t, s, role);
            && !done.raised
            && done.messages == before + [Message(role, Some(LStrip(text)), [])]
            && done.text == s.text + InsertedText(t, s, role) + OpeningAt(t, |before|, role) + text + Closing(t, role)
  {
    var (block, begun) := (Block(role, [ConstantText(text)]), Execute(c, b, s, RoleBegin(role)));
    RoleBeginWrites(c, b, s, role);
    assert block.body[1..] == [];
    assert ExecuteAll(c, b, begun, block.body) == Fill(begun, text);
    BlockInThreeSteps(c, b, s, block);
    assert AllPlain(block.body) by {
      assert Printer.Plain(ConstantText(text)) && AllPlain(block.body[1..]);
    }
    BlockWrites(c, b, s, block, text);
  }

  /** A role call with a text, as a program submits it. */
  lemma TextInRoleWrites(c: Config, b: Backend, args: Arguments, s: Exec, role: string, text: string)
    requires AtRest(s)
    ensures var (t, ran) := (c.template, RunStmt(c, b, args, s, RoleCall(role, Lit(text))));
            var before := s.messages + InsertedMessages(t, s, role);
            && !ran.aborted && !ran.s.raised
            && ran.s.messages == before + [Message(role, Some(LStrip(text)), [])]
            && ran.s.text == s.text + InsertedText(t, s, role) + OpeningAt(t, |before|, role) + text + Closing(t, role)
  {
    var e := BlockExpr(Block(role, [ConstantText(text)]));
    RoleCallSubmits(args, s, role, text);
    NothingAnnounced(role, text);
    TextBlockWrites(c, b, InitEvents(s, {}), role, text);
  }

  lemma RoleCallSubmits(args: Arguments, s: Exec, role: string, text: string)
    ensures Eval(args, s.variables, InRole(role, Lit(text))) == Some(PNode(BlockExpr(Block(role, [ConstantText(text)]))))
  {
    var body := Lit(text);
    assert Eval(args, s.variables, body) == Some(PStr(text));
    assert [RoleBegin(role)] + [ConstantText(text)] + [RoleEnd(role)] == [RoleBegin(role), ConstantText(text), RoleEnd(role)];
  }

  lemma NothingAnnounced(role: string, text: string)
    ensures Announced(BlockExpr(Block(role, [ConstantText(text)]))) == {}
  {
    AnnouncedCons(RoleEnd(role), []);
    AnnouncedCons(ConstantText(text), [RoleEnd(role)]);
    AnnouncedCons(RoleBegin(role), [ConstantText(text)] + [RoleEnd(role)]);
    ConcatAssociative([RoleBegin(role)], [ConstantText(text)], [RoleEnd(role)]);
    ConcatAssociative([RoleEnd(role)], [], []);
  }

  lemma AnnouncedCons(e: Expr, es: seq<Expr>)
    ensures AnnouncedAll([e] + es) == Announced(e) + AnnouncedAll(es)
  {
    assert ([e] + es)[1..] == es;
  }
}
