/**
 * The single-module protocol the device imports (messages.py): the same
 * eight commands and reply templates as the package, but with the enum
 * value "SET_CHANNELS" for SET_CHANNEL, no alias table, and a command
 * string that is upper-cased without being stripped.
 */
module Legacy {
  import opened Errors
  import opened PyText
  import opened Utf8
  import opened Commands
  import opened Messages
  import Parser
  import Renderer

  /** The enum value of a member of the legacy Command. */
  function WireToken(c: Command): (t: string)
    ensures IsWord(t) && IsUpperToken(t) && Trimmed(t)
    ensures c != SetChannel ==> t == Token(c)
  {
    if c == SetChannel then
      var t := "SET_CHANNELS";
      UpperTokenShape(t);
      t
    else Token(c)
  }

  /** Command(value) over VALID: each enum value to its member. */
  const Members: map<string, Command> := map[
    "POWER_ON" := PowerOn,
    "POWER_OFF" := PowerOff,
    "GET_CHANNELS" := GetChannels,
    "SET_CHANNELS" := SetChannel,
    "CHANNEL_UP" := ChannelUp,
    "CHANNEL_DOWN" := ChannelDown,
    "GET_STATUS" := GetStatus,
    "QUIT" := Quit
  ]

  /** Upper-case a command string (without stripping it) and look it up among the enum values. */
  function Resolve(token: string): (r: Result<Command>)
    ensures r.Err? ==> r.error == UnknownCommand
    ensures r.Ok? <==> Upper(token) in Members
  {
    var key := Upper(token);
    if key in Members then Ok(Members[key]) else Err(UnknownCommand)
  }

  /**
   * _validate of messages.py, written as that function is: SET_CHANNEL
   * needs exactly one non-negative integer, every other command none.
   */
  function Validate(c: Command, args: seq<string>): (r: Check)
    ensures r == Parser.Validate(c, args)
  {
    if c == SetChannel then
      if |args| != 1 then Fail(InvalidArgument)
      else if !Parser.IsNonNegativeInt(args[0]) then Fail(InvalidArgument)
      else Pass
    else if |args| > 0 then Fail(InvalidArgument)
    else Pass
  }

  /** The str build of messages.py upper-cases: a member is a str whose value is its enum value. */
  function Spelling(command: Parser.CommandInput): (t: string)
    ensures command.Member? ==> Resolve(t) == Ok(command.c)
  {
    match command
    case Member(c) => ResolveWireToken(c); WireToken(c)
    case Text(s) => s
  }

  /** build of messages.py: a member is a str too, so its value is upper-cased and looked up. */
  function Build(command: Parser.CommandInput, args: seq<string>): (r: Result<Message>)
    ensures r.Ok? ==> r.value.args == args && Validate(r.value.command, args).Pass?
    ensures r.Ok? ==> Resolve(Spelling(command)) == Ok(r.value.command)
    ensures r == Err(UnknownCommand) <==> Resolve(Spelling(command)).Err?
    ensures Resolve(Spelling(command)).Ok? && Validate(Resolve(Spelling(command)).value, args).Pass? ==> r.Ok?
    ensures r.Err? ==> r.error == UnknownCommand || r.error == InvalidArgument
  {
    match Resolve(Spelling(command))
    case Err(e) => Err(e)
    case Ok(cmd) =>
      match Validate(cmd, args)
      case Fail(e) => Err(e)
      case Pass => Ok(Message(cmd, args))
  }

  /** parse_line of messages.py. */
  function ParseLine(line: seq<byte>): (r: Result<Message>)
    ensures r == Err(ProtocolError) <==> Decode(line).None? || AllSpace(Decode(line).value)
  {
    match Decode(line)
    case None => Err(ProtocolError)
    case Some(decoded) => ParseText(decoded)
  }

  /** parse_line after decoding: strip, refuse an empty line, split, resolve, validate. */
  function ParseText(decoded: string): (r: Result<Message>)
    ensures r == Err(ProtocolError) <==> AllSpace(decoded)
    ensures r.Ok? ==>
      var parts := Split(decoded);
      && |parts| > 0
      && Resolve(parts[0]) == Ok(r.value.command)
      && r.value.args == parts[1..]
      && Validate(r.value.command, r.value.args).Pass?
  {
    var text := Strip(decoded);
    if text == [] then Err(ProtocolError)
    else
      var parts := Split(text);
      SplitStrip(decoded);
      assert |parts| > 0 by {
        assert !IsSpace(text[0]);
      }
      var args := parts[1..];
      match Resolve(parts[0])
      case Err(e) => Err(e)
      case Ok(cmd) =>
        match Validate(cmd, args)
        case Fail(e) => Err(e)
        case Pass => Ok(Message(cmd, args))
  }

  /** Message.to_line of messages.py: the legacy enum value leads the line. */
  function ToLine(m: Message): (b: seq<byte>)
    ensures |b| > 0 && b[|b| - 1] == 10
    ensures (forall i :: 0 <= i < |m.args| ==> '\n' !in m.args[i]) ==>
              forall i :: 0 <= i < |b| - 1 ==> b[i] != 10
  {
    var token := WireToken(m.command);
    WordExcludesNewline(token);
    FrameBytes(token, m.args);
    Encode(Frame(token, m.args))
  }

  /** REPLY_TEMPLATES of messages.py. */
  const ReplyTemplates: map<Command, Renderer.Template> := map[
    PowerOn := [Renderer.Lit("OK POWER_ON")],
    PowerOff := [Renderer.Lit("OK POWER_OFF")],
    GetChannels := [Renderer.Lit("CHANNELS "), Renderer.Field("channels")],
    SetChannel := Renderer.ChannelTemplate,
    ChannelUp := Renderer.ChannelTemplate,
    ChannelDown := Renderer.ChannelTemplate,
    GetStatus := [Renderer.Lit("STATUS "), Renderer.Field("state"), Renderer.Lit(" CURRENT "),
                  Renderer.Field("index"), Renderer.Lit(" "), Renderer.Field("name")],
    Quit := [Renderer.Lit("OK BYE")]
  ]

  /** render_reply of messages.py: the same replies as the package renderer. */
  function RenderReply(c: Command, fields: map<string, string>): (r: string)
    ensures r == Renderer.RenderReply(c, fields)
  {
    assert ReplyTemplates == Renderer.ReplyTemplates;
    Renderer.RenderWith(ReplyTemplates, c, fields)
  }

  // ---------------------------------------------------------------------------
  // Lemmas

  /** Every enum value resolves to its own member, and every value in VALID is one. */
  lemma ResolveWireToken(c: Command)
    ensures Resolve(WireToken(c)) == Ok(c)
  {
    var t := WireToken(c);
    UpperOfUpperToken(t);
    assert Upper(t) == t;
    if c == SetChannel {
      SetChannelsIsMember();
    } else {
      TokenIsMember(c);
    }
  }

  /** VALID holds enum values and nothing else: each of its keys is the value of the member it names. */
  lemma MembersAreWireTokens(k: string)
    requires k in Members
    ensures WireToken(Members[k]) == k
  {
    var c := Members[k];
    assert k == WireToken(c) by {
      if c == SetChannel {
        assert k == "SET_CHANNELS";
      } else {
        assert k == Token(c);
      }
    }
  }

  /** The legacy reply table is entry for entry the package's. */
  lemma TemplatesAgree()
    ensures ReplyTemplates == Renderer.ReplyTemplates
  {
  }

  lemma SetChannelsIsMember()
    ensures "SET_CHANNELS" in Members && Members["SET_CHANNELS"] == SetChannel
  {
  }

  lemma TokenIsMember(c: Command)
    requires c != SetChannel
    ensures Token(c) in Members && Members[Token(c)] == c
  {
  }

  /** Building from a member yields exactly the validated message. */
  lemma BuildMember(c: Command, args: seq<string>)
    ensures Build(Parser.Member(c), args) == Build(Parser.Text(WireToken(c)), args)
    ensures Build(Parser.Member(c), args) ==
              if Validate(c, args).Pass? then Ok(Message(c, args)) else Err(InvalidArgument)
  {
    ResolveWireToken(c);
  }

  lemma ParseIsBuild(line: seq<byte>, t: string, args: seq<string>)
    requires Decode(line).Some? && Split(Decode(line).value) == [t] + args
    ensures ParseLine(line) == Build(Parser.Text(t), args)
  {
    ParseTextIsBuild(Decode(line).value, t, args);
  }

  lemma ParseTextIsBuild(s: string, t: string, args: seq<string>)
    requires Split(s) == [t] + args
    ensures ParseText(s) == Build(Parser.Text(t), args)
  {
    Parser.FirstTokenOfStripped(s, t, args);
  }

  /**
   * A decodable line whose parts are t and args is accepted by the legacy
   * parser exactly when t is an enum value in some letter case and the
   * arguments suit the command.
   */
  lemma ParseAccepts(line: seq<byte>, t: string, args: seq<string>)
    requires Decode(line).Some? && Split(Decode(line).value) == [t] + args
    ensures ParseLine(line).Ok? <==> Resolve(t).Ok? && Validate(Resolve(t).value, args).Pass?
    ensures ParseLine(line).Ok? ==> ParseLine(line).value == Message(Resolve(t).value, args)
  {
    ParseIsBuild(line, t, args);
  }

  /** Parsing a legacy line built from a command and whitespace-free arguments is building from them. */
  lemma ParseOfLine(c: Command, args: seq<string>)
    requires forall i :: 0 <= i < |args| ==> IsWord(args[i])
    ensures ParseLine(ToLine(Message(c, args))) == Build(Parser.Member(c), args)
  {
    var t := WireToken(c);
    var line := ToLine(Message(c, args));
    ReadFrame(t, args);
    assert line == Encode(Frame(t, args));
    ParseIsBuild(line, t, args);
    BuildMember(c, args);
  }

  /** Round trip of the legacy codec. */
  lemma RoundTrip(line: seq<byte>, m: Message)
    requires ParseLine(line) == Ok(m)
    ensures ParseLine(ToLine(m)) == Ok(m)
  {
    var parts := Split(Decode(line).value);
    assert ParseText(Decode(line).value) == Ok(m);
    assert forall i :: 0 <= i < |m.args| ==> m.args[i] == parts[i + 1];
    ParseOfLine(m.command, m.args);
    BuildMember(m.command, m.args);
  }

  /**
   * The documented SET_CHANNEL token is unknown to the legacy parser: the
   * line the package writes for SET_CHANNEL, whatever its arguments, is
   * refused with UnknownCommand.
   */
  lemma DocumentedTokenRejected(args: seq<string>)
    requires forall i :: 0 <= i < |args| ==> IsWord(args[i])
    ensures ParseLine(Messages.ToLine(Message(SetChannel, args))) == Err(UnknownCommand)
  {
    var t := Token(SetChannel);
    var line := Messages.ToLine(Message(SetChannel, args));
    ReadFrame(t, args);
    assert line == Encode(Frame(t, args));
    ParseIsBuild(line, t, args);
    ResolveDocumented();
  }

  /** "SET_CHANNEL" is not among the legacy enum values. */
  lemma ResolveDocumented()
    ensures Resolve(Token(SetChannel)) == Err(UnknownCommand)
  {
    UpperOfUpperToken(Token(SetChannel));
    NotAMember();
  }

  lemma NotAMember()
    ensures "SET_CHANNEL" !in Members
  {
  }

  /** Conversely, the package parser refuses the line the legacy codec writes for SET_CHANNEL. */
  lemma LegacyLineRejected(args: seq<string>)
    requires forall i :: 0 <= i < |args| ==> IsWord(args[i])
    ensures Parser.ParseLine(ToLine(Message(SetChannel, args))) == Err(UnknownCommand)
  {
    ReadFrame(WireToken(SetChannel), args);
    Parser.ParseIsBuild(ToLine(Message(SetChannel, args)), WireToken(SetChannel), args);
    NormalizeRejectsUnknown();
  }

  /** For every other command the two codecs write and read the same lines. */
  lemma CodecsAgree(m: Message)
    requires m.command != SetChannel
    requires forall i :: 0 <= i < |m.args| ==> IsWord(m.args[i])
    ensures ToLine(m) == Messages.ToLine(m)
    ensures ParseLine(ToLine(m)) == Parser.ParseLine(ToLine(m))
  {
    ParseOfLine(m.command, m.args);
    Parser.ParseOfLine(m.command, m.args);
    BuildMember(m.command, m.args);
    Parser.BuildMember(m.command, m.args);
  }

  /** SET_CHANNEL with a channel number: the package reads its own line, the legacy parser does not. */
  lemma SetChannelTwo()
    ensures Parser.ParseLine(Messages.ToLine(Message(SetChannel, ["2"]))) == Ok(Message(SetChannel, ["2"]))
    ensures ParseLine(Messages.ToLine(Message(SetChannel, ["2"]))) == Err(UnknownCommand)
    ensures ParseLine(ToLine(Message(SetChannel, ["2"]))) == Ok(Message(SetChannel, ["2"]))
  {
    assert NatToString(2) == "2";
    Parser.ChannelArgument(2);
    assert IsWord("2");
    Parser.ParseOfLine(SetChannel, ["2"]);
    Parser.BuildMember(SetChannel, ["2"]);
    DocumentedTokenRejected(["2"]);
    ParseOfLine(SetChannel, ["2"]);
    BuildMember(SetChannel, ["2"]);
  }

  /** The legacy parser takes the enum value in any letter case: "set_channels 2" selects channel 2. */
  lemma LowerCaseAccepted()
    ensures ParseText("set_channels 2") == Ok(Message(SetChannel, ["2"]))
  {
    SplitLowerLine();
    ParseTextIsBuild("set_channels 2", "set_channels", ["2"]);
    BuildLower();
  }

  lemma BuildLower()
    ensures Build(Parser.Text("set_channels"), ["2"]) == Ok(Message(SetChannel, ["2"]))
  {
    ResolveLower();
    ChannelTwoArgument();
  }

  lemma SplitLowerLine()
    ensures Split("set_channels 2") == ["set_channels"] + ["2"]
  {
    SplitTwoWords("set_channels", "2");
    assert "set_channels" + " " + "2" == "set_channels 2";
  }

  lemma SplitTwoWords(w: string, a: string)
    requires IsWord(w) && IsWord(a)
    ensures Split(w + " " + a) == [w] + [a]
  {
    assert [w] + [a] == [w, a];
    SplitJoin([w, a]);
    JoinCons(w, [a], " ");
  }

  lemma ResolveLower()
    ensures Resolve("set_channels") == Ok(SetChannel)
  {
    assert LowerAscii("SET_CHANNELS") == "set_channels";
    ResolveIgnoresCase("SET_CHANNELS");
    ResolveWireToken(SetChannel);
  }

  /** The legacy lookup compares after upper-casing, so the case of ASCII letters does not matter. */
  lemma ResolveIgnoresCase(t: string)
    ensures Resolve(LowerAscii(t)) == Resolve(t)
  {
    UpperIgnoresCase(t);
  }

  lemma ChannelTwoArgument()
    ensures Parser.IsNonNegativeInt("2")
  {
    assert NatToString(2) == "2";
    Parser.ChannelArgument(2);
  }

  /** The legacy codec has no aliases: "ON" is unknown to it, while the package resolves it to POWER_ON. */
  lemma AliasesRejected()
    ensures Build(Parser.Text("ON"), []) == Err(UnknownCommand)
    ensures Parser.Build(Parser.Text("ON"), []) == Ok(Message(PowerOn, []))
  {
    BuildOn();
    AliasExamples();
  }

  lemma BuildOn()
    ensures Build(Parser.Text("ON"), []) == Err(UnknownCommand)
  {
    ResolveOn();
    assert Spelling(Parser.Text("ON")) == "ON";
  }

  lemma ResolveOn()
    ensures Resolve("ON") == Err(UnknownCommand)
  {
    UpperOfUpperToken("ON");
    assert "ON" !in Members;
  }

  /**
   * build upper-cases a string without stripping it: an enum value with a
   * leading blank is unknown to the legacy builder (the package builder
   * strips it, Parser.BuildIgnoresPadding).
   */
  lemma PaddedTokenRejected(c: Command, args: seq<string>)
    ensures Build(Parser.Text(" " + WireToken(c)), args) == Err(UnknownCommand)
  {
    ResolvePaddedToken(WireToken(c));
  }

  lemma ResolvePaddedToken(t: string)
    requires IsUpperToken(t)
    ensures Resolve(" " + t) == Err(UnknownCommand)
  {
    UpperAppend(" ", t);
    UpperOfUpperToken(t);
    assert Upper(" ") == " ";
    if " " + t in Members {
      MembersStartWithLetter(" " + t);
      assert false;
    }
  }

  lemma MembersStartWithLetter(k: string)
    requires k in Members
    ensures |k| > 0 && k[0] != ' '
  {
  }
}
