/** Chat templates: the role delimiters, and the printer from messages to a prompt. */
module ChatTemplates {
  import opened Options

  datatype Style = Plain | Llama2

  /** A chat message; `images` are the image parts of an OpenAI vision message. */
  datatype Message = Message(role: string, content: Option<string>, images: seq<string>)

  /** How Python writes the list of a text part and image parts. */
  type ListFormat = (string, seq<string>) -> string

  /** The content as it goes into a prompt. */
  function Shown(format: ListFormat, message: Message): Option<string> {
    if message.images != [] && message.content.Some? then Some(format(message.content.value, message.images)) else message.content
  }

  datatype ChatTemplate = ChatTemplate(
    defaultSystem: Option<string>,
    roles: map<string, (string, string)>,
    style: Style,
    imageToken: string)
  {
    function Delimiters(role: string): (string, string) {
      if role in roles then roles[role] else ("", "")
    }

    function PrefixAndSuffix(role: string, hist: seq<Message>): (string, string) {
      var (prefix, suffix) := Delimiters(role);
      if style == Llama2 && role == "system" && hist == [] then
        (Delimiters("user").0 + prefix, suffix)
      else if style == Llama2 && role == "user" && |hist| == 1 && hist[0].content.Some? then
        ("", suffix)
      else
        (prefix, suffix)
    }

    /** The printed form of one message, given those before it. */
    function Print(format: ListFormat, message: Message, hist: seq<Message>): string {
      var content := if message.role == "system" && Shown(format, message).None? then defaultSystem else Shown(format, message);
      if content.None? && message.role == "system" then ""
      else
        var (prefix, suffix) := PrefixAndSuffix(message.role, hist);
        prefix + (if content.Some? then content.value else "None") + suffix
    }

    function Prompt(format: ListFormat, messages: seq<Message>): string {
      if messages == [] then ""
      else
        var hist := messages[..|messages| - 1];
        Prompt(format, hist) + Print(format, messages[|messages| - 1], hist)
    }

    method GetPrompt(format: ListFormat, messages: seq<Message>) returns (prompt: string)
      ensures prompt == Prompt(format, messages)
    {
      prompt := "";
      for i := 0 to |messages|
        invariant prompt == Prompt(format, messages[..i])
      {
        PromptNext(this, format, messages, i);
        var message := messages[i];
        var content := Shown(format, message);
        if message.role == "system" && content.None? {
          content := defaultSystem;
          if content.None? {
            continue;
          }
        }
        var (prefix, suffix) := PrefixAndSuffix(message.role, messages[..i]);
        prompt := prompt + (prefix + (if content.Some? then content.value else "None") + suffix);
      }
      assert messages[..|messages|] == messages;
    }
  }

  lemma PromptNext(t: ChatTemplate, format: ListFormat, messages: seq<Message>, i: nat)
    requires i < |messages|
    ensures t.Prompt(format, messages[..i + 1]) == t.Prompt(format, messages[..i]) + t.Print(format, messages[i], messages[..i])
  {
    assert messages[..i + 1][..i] == messages[..i];
  }

  /** The delimiters depend on the history only through its length, once every message has a content. */
  lemma DelimitersNeedOnlyLength(t: ChatTemplate, role: string, h1: seq<Message>, h2: seq<Message>)
    requires |h1| == |h2|
    requires forall m :: m in h1 || m in h2 ==> m.content.Some?
    ensures t.PrefixAndSuffix(role, h1) == t.PrefixAndSuffix(role, h2)
  {
    if |h1| == 1 {
      assert h1[0] in h1 && h2[0] in h2;
    }
  }
}
