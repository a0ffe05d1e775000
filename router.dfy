/**
 * The command router of `handleMessage`: keep only the bot account's own
 * messages, require the configured prefix, split off the command name and
 * the argument suffix, and pick the first registered command of that name.
 */
module Router {
  import opened JsString
  import opened Plugins

  /** An inbound message: the id of its author and its text. */
  datatype Message = Message(author: string, content: string)

  /** A command line split into the command name and its argument suffix. */
  datatype Parsed = Parsed(name: string, suffix: string)

  /** A command to run and the suffix it receives. */
  datatype Invocation = Invocation(command: CommandEntry, suffix: string)

  /** The parse part of `handleMessage`. */
  function Parse(selfUser: string, prefix: string, msg: Message): (r: Option<Parsed>)
    ensures r.None? <==> msg.author != selfUser || !StartsWith(Trim(msg.content), prefix)
    ensures r.Some? ==> IsTrimmed(r.value.name) && IsTrimmed(r.value.suffix)
    ensures r.Some? ==> NoTokenBreak(r.value.name)
  {
    if msg.author != selfUser then None
    else
      var contents := Trim(msg.content);
      if !StartsWith(contents, prefix) then None
      else
        var base := FirstToken(contents);
        var name := Trim(From(base, |prefix|));
        assert NoTokenBreak(From(base, |prefix|));
        TrimKeepsNoTokenBreak(From(base, |prefix|));
        Some(Parsed(name, Trim(From(contents, |base|))))
  }

  /** `commands.find(element => element.name === name)`, as an index. */
  function FindCommand(commands: seq<CommandEntry>, name: string): (r: Option<nat>)
    ensures r.Some? ==> r.value < |commands| && commands[r.value].name == name
    ensures r.Some? ==> forall j :: 0 <= j < r.value ==> commands[j].name != name
    ensures r.None? ==> forall j :: 0 <= j < |commands| ==> commands[j].name != name
  {
    if commands == [] then None
    else if commands[0].name == name then Some(0)
    else
      match FindCommand(commands[1..], name)
      case None => None
      case Some(k) => Some(k + 1)
  }

  /** `c` is the first entry of `commands` with its name. */
  predicate FirstNamed(commands: seq<CommandEntry>, c: CommandEntry) {
    exists i :: 0 <= i < |commands| && commands[i] == c &&
      forall k :: 0 <= k < i ==> commands[k].name != c.name
  }

  lemma {:induction false} FoundFirst(commands: seq<CommandEntry>, name: string, i: nat)
    requires FindCommand(commands, name) == Some(i)
    ensures i < |commands| && FirstNamed(commands, commands[i])
  {
    assert commands[i].name == name;
  }

  /** What `handleMessage` runs for a message, given the current command list;
      `None` means the message is dropped silently. */
  function Route(selfUser: string, prefix: string, commands: seq<CommandEntry>, msg: Message): (r: Option<Invocation>)
    ensures msg.author != selfUser ==> r.None?
    ensures !StartsWith(Trim(msg.content), prefix) ==> r.None?
    ensures r.Some? ==> r.value.command in commands
    ensures r.Some? ==> FindCommand(commands, r.value.command.name).Some? &&
                        commands[FindCommand(commands, r.value.command.name).value] == r.value.command
    ensures r.Some? ==> Parse(selfUser, prefix, msg) == Some(Parsed(r.value.command.name, r.value.suffix))
    ensures r.None? && Parse(selfUser, prefix, msg).Some? ==>
              forall c :: c in commands ==> c.name != Parse(selfUser, prefix, msg).value.name
  {
    match Parse(selfUser, prefix, msg)
    case None => None
    case Some(p) =>
      match FindCommand(commands, p.name)
      case None => None
      case Some(i) => Some(Invocation(commands[i], p.suffix))
  }

  /** How `Parse` reads a message of the bot, given the pieces it cuts. */
  lemma {:induction false} ParseParts(selfUser: string, prefix: string, text: string, contents: string, head: string, name: string, suffix: string)
    requires Trim(text) == contents && StartsWith(contents, prefix) && FirstToken(contents) == head
    requires Trim(From(head, |prefix|)) == name && Trim(From(contents, |head|)) == suffix
    ensures Parse(selfUser, prefix, Message(selfUser, text)) == Some(Parsed(name, suffix))
  {
  }

  lemma {:induction false} ConcatEmpty(a: string, b: string)
    requires b == []
    ensures a + b == a
  {
  }

  /** `trim` drops the blank after a lone command. */
  lemma {:induction false} TrimBareCommand(head: string)
    requires head != [] && IsTrimmed(head)
    ensures Trim(head + " ") == head
  {
    var text := head + " ";
    TrimStartOfSpaceFree(text);
    assert text[..|text| - 1] == head;
    TrimEndOfSpaceFree(head);
  }

  /** A trimmed line with arguments is left as it is by `trim`. */
  lemma {:induction false} TrimCommandLine(head: string, suffix: string)
    requires head != [] && IsTrimmed(head) && suffix != [] && IsTrimmed(suffix)
    ensures Trim(head + " " + suffix) == head + " " + suffix
  {
    TrimOfTrimmed(head + " " + suffix);
  }

  /** A message `prefix + name + " " + suffix` by the bot itself parses back
      into `name` and `suffix`. */
  lemma {:induction false} ParseCommandLine(selfUser: string, prefix: string, name: string, suffix: string)
    requires prefix + name != [] && IsTrimmed(prefix + name) && NoTokenBreak(prefix + name)
    requires IsTrimmed(name) && IsTrimmed(suffix)
    ensures Parse(selfUser, prefix, Message(selfUser, prefix + name + " " + suffix)) == Some(Parsed(name, suffix))
  {
    if suffix == [] {
      ConcatEmpty(prefix + name + " ", suffix);
      ParseBareCommand(selfUser, prefix, name, prefix + name);
    } else {
      ParseCommandWithSuffix(selfUser, prefix, name, suffix, prefix + name);
    }
  }

  lemma {:induction false} ParseBareCommand(selfUser: string, prefix: string, name: string, head: string)
    requires head == prefix + name
    requires head != [] && IsTrimmed(head) && NoTokenBreak(head) && IsTrimmed(name)
    ensures Parse(selfUser, prefix, Message(selfUser, head + " ")) == Some(Parsed(name, []))
  {
    HeadPieces(prefix, name, head);
    TrimBareCommand(head);
    BareCommandPieces(head);
    ParseParts(selfUser, prefix, head + " ", head, head, name, []);
  }

  lemma {:induction false} ParseCommandWithSuffix(selfUser: string, prefix: string, name: string, suffix: string, head: string)
    requires head == prefix + name && suffix != []
    requires head != [] && IsTrimmed(head) && NoTokenBreak(head) && IsTrimmed(name) && IsTrimmed(suffix)
    ensures Parse(selfUser, prefix, Message(selfUser, head + " " + suffix)) == Some(Parsed(name, suffix))
  {
    HeadPieces(prefix, name, head);
    TrimCommandLine(head, suffix);
    var text := head + " " + suffix;
    SuffixPieces(prefix, head, suffix, text);
    ParseParts(selfUser, prefix, text, text, head, name, suffix);
  }

  lemma {:induction false} HeadPieces(prefix: string, name: string, head: string)
    requires head == prefix + name && IsTrimmed(name)
    ensures StartsWith(head, prefix) && Trim(From(head, |prefix|)) == name
  {
    assert From(head, |prefix|) == name;
    TrimOfTrimmed(name);
    StartsWithConcat(prefix, name);
  }

  lemma {:induction false} BareCommandPieces(head: string)
    requires NoTokenBreak(head)
    ensures FirstToken(head) == head && Trim(From(head, |head|)) == []
  {
    FirstTokenOfWhole(head);
    assert From(head, |head|) == [];
  }

  lemma {:induction false} SuffixPieces(prefix: string, head: string, suffix: string, text: string)
    requires text == head + " " + suffix
    requires NoTokenBreak(head) && StartsWith(head, prefix) && IsTrimmed(suffix)
    ensures FirstToken(text) == head && Trim(From(text, |head|)) == suffix && StartsWith(text, prefix)
  {
    TokenAndRest(head, suffix, text);
    StartsWithExtend(head, prefix, " ");
    StartsWithExtend(head + " ", prefix, suffix);
  }

  /** The first scenario of the router: "!code python print(1)" runs the
      first command named "code" with the suffix "python print(1)". */
  lemma {:induction false} RouteCodeExample(selfUser: string, commands: seq<CommandEntry>)
    requires exists c :: c in commands && c.name == "code"
    ensures var r := Route(selfUser, "!", commands, Message(selfUser, "!code python print(1)"));
            && r.Some? && r.value.command.name == "code" && r.value.suffix == "python print(1)"
            && FirstNamed(commands, r.value.command)
  {
    CodeLine();
    RouteCommandLine(selfUser, "!", "code", "python print(1)", commands, "!code python print(1)");
  }

  /** The pieces of "!code python print(1)". */
  lemma {:induction false} CodeLine()
    ensures "!code python print(1)" == "!" + "code" + " " + "python print(1)"
    ensures "!" + "code" != [] && IsTrimmed("!" + "code") && NoTokenBreak("!" + "code")
    ensures IsTrimmed("code") && IsTrimmed("python print(1)")
  {
    assert "!" + "code" == "!code";
  }

  /** A command line of the bot whose name is registered reaches the first
      command of that name with the rest of the line as the suffix. */
  lemma {:induction false} RouteCommandLine(selfUser: string, prefix: string, name: string, suffix: string,
                                             commands: seq<CommandEntry>, text: string)
    requires text == prefix + name + " " + suffix
    requires prefix + name != [] && IsTrimmed(prefix + name) && NoTokenBreak(prefix + name)
    requires IsTrimmed(name) && IsTrimmed(suffix)
    requires exists c :: c in commands && c.name == name
    ensures var r := Route(selfUser, prefix, commands, Message(selfUser, text));
            && r.Some? && r.value.command.name == name && r.value.suffix == suffix
            && FirstNamed(commands, r.value.command)
  {
    ParseCommandLine(selfUser, prefix, name, suffix);
    var r := Route(selfUser, prefix, commands, Message(selfUser, text));
    FoundFirst(commands, name, FindCommand(commands, name).value);
  }
}
