/**
 * Turning a received line into a validated Message, and building a Message
 * from program values under the same validation (smarttv/protocol/parser.py).
 */
module Parser {
  import opened Errors
  import opened PyText
  import opened Utf8
  import opened Commands
  import opened Messages

  /** What build accepts as its command: a Command member or a string. */
  datatype CommandInput = Member(c: Command) | Text(s: string)

  /** _is_nonnegative_int: int(s) succeeds and the value is not negative. */
  predicate IsNonNegativeInt(s: string)
    ensures |s| > 0 && (forall i :: 0 <= i < |s| ==> IsDigit(s[i])) ==> IsNonNegativeInt(s)
    ensures HasSeparatorControl(s) ==> !IsNonNegativeInt(s)
  {
    PyInt(s).Some? && PyInt(s).value >= 0
  }

  /**
   * _validate: the argument count must equal the arity; the one argument of
   * SET_CHANNEL must be a non-negative integer.
   */
  function Validate(c: Command, args: seq<string>): (r: Check)
    ensures r.Fail? ==> r.error == InvalidArgument
    ensures r.Pass? <==> |args| == Arity(c) && (c == SetChannel ==> IsNonNegativeInt(args[0]))
  {
    var required := Arity(c);
    if required != |args| then
      // "takes no arguments" and "requires exactly n argument(s)" are the same error kind
      Fail(InvalidArgument)
    else if c == SetChannel && !IsNonNegativeInt(args[0]) then
      Fail(InvalidArgument)
    else
      Pass
  }

  /** The str normalize sees: a member is a str whose value is its enum value. */
  function Spelling(command: CommandInput): (t: string)
    ensures command.Member? ==> Normalize(t) == Ok(command.c)
  {
    match command
    case Member(c) => NormalizeToken(c); Token(c)
    case Text(s) => s
  }

  /**
   * build: a Command is a str in the source, so both kinds of input go
   * through normalize; a member contributes its enum value.
   */
  function Build(command: CommandInput, args: seq<string>): (r: Result<Message>)
    ensures r.Ok? ==> r.value.args == args && Validate(r.value.command, args).Pass?
    ensures r.Ok? ==> Normalize(Spelling(command)) == Ok(r.value.command)
    ensures r == Err(UnknownCommand) <==> Normalize(Spelling(command)).Err?
    ensures Normalize(Spelling(command)).Ok? && Validate(Normalize(Spelling(command)).value, args).Pass? ==> r.Ok?
    ensures r.Err? && r.error != UnknownCommand ==> r.error == InvalidArgument
  {
    match Normalize(Spelling(command))
    case Err(e) => Err(e)
    case Ok(cmd) =>
      match Validate(cmd, args)
      case Fail(e) => Err(e)
      case Pass => Ok(Message(cmd, args))
  }

  /**
   * parse_line: decode, then read the text. A line that does not decode as
   * UTF-8 is a protocol error.
   */
  function ParseLine(line: seq<byte>): (r: Result<Message>)
    ensures r == Err(ProtocolError) <==> Decode(line).None? || AllSpace(Decode(line).value)
  {
    match Decode(line)
    case None => Err(ProtocolError)
    case Some(decoded) => ParseText(decoded)
  }

  /**
   * The rest of parse_line on the decoded text: strip, refuse an empty line,
   * split on whitespace, resolve the first token, validate the rest as
   * arguments.
   */
  function ParseText(decoded: string): (r: Result<Message>)
    ensures r == Err(ProtocolError) <==> AllSpace(decoded)
    ensures r.Ok? ==>
      var parts := Split(decoded);
      && |parts| > 0
      && Normalize(parts[0]) == Ok(r.value.command)
      && r.value.args == parts[1..]
      && |r.value.args| == Arity(r.value.command)
      && Validate(r.value.command, r.value.args).Pass?
  {
    var text := Strip(decoded);
    if text == [] then Err(ProtocolError)
    else
      var parts := Split(text);
      SplitStrip(decoded);
      assert |parts| > 0 by {
        assert !IsSpace(text[0]);
      }
      var args := parts[1..];
      match Normalize(parts[0])
      case Err(e) => Err(e)
      case Ok(cmd) =>
        match Validate(cmd, args)
        case Fail(e) => Err(e)
        case Pass => Ok(Message(cmd, args))
  }

  // ---------------------------------------------------------------------------
  // Lemmas

  /**
   * On a decodable, non-blank line, parse_line is build applied to the first
   * whitespace-separated token and the remaining ones: an unknown token
   * fails with UnknownCommand before any argument is looked at, and both
   * paths share one validation.
   */
  lemma ParseIsBuild(line: seq<byte>, t: string, args: seq<string>)
    requires Decode(line).Some? && Split(Decode(line).value) == [t] + args
    ensures ParseLine(line) == Build(Text(t), args)
    ensures Normalize(t).Err? ==> ParseLine(line) == Err(UnknownCommand)
  {
    ParseTextIsBuild(Decode(line).value, t, args);
  }

  lemma ParseTextIsBuild(s: string, t: string, args: seq<string>)
    requires Split(s) == [t] + args
    ensures ParseText(s) == Build(Text(t), args)
  {
    FirstTokenOfStripped(s, t, args);
  }

  lemma FirstTokenOfStripped(s: string, t: string, args: seq<string>)
    requires Split(s) == [t] + args
    ensures Strip(s) != [] && Split(Strip(s))[0] == t && Split(Strip(s))[1..] == args
  {
    SplitStrip(s);
    assert ([t] + args)[1..] == args;
  }

  /**
   * A decodable line whose parts are t and args is accepted exactly when t
   * resolves (alias, letter case and all) and the arguments suit the
   * command; the message then holds that command and the arguments.
   */
  lemma ParseAccepts(line: seq<byte>, t: string, args: seq<string>)
    requires Decode(line).Some? && Split(Decode(line).value) == [t] + args
    ensures ParseLine(line).Ok? <==> Normalize(t).Ok? && Validate(Normalize(t).value, args).Pass?
    ensures ParseLine(line).Ok? ==> ParseLine(line).value == Message(Normalize(t).value, args)
  {
    ParseIsBuild(line, t, args);
  }

  /** build with a member agrees with build on its canonical token and yields exactly the validated pair. */
  lemma BuildMember(c: Command, args: seq<string>)
    ensures Build(Member(c), args) == Build(Text(Token(c)), args)
    ensures Build(Member(c), args) ==
              if Validate(c, args).Pass? then Ok(Message(c, args)) else Err(InvalidArgument)
  {
    NormalizeToken(c);
  }

  /** build strips a string command first: whitespace around a canonical token changes nothing. */
  lemma BuildIgnoresPadding(p: string, c: Command, q: string, args: seq<string>)
    requires AllSpace(p) && AllSpace(q)
    ensures Build(Text(p + Token(c) + q), args) == Build(Member(c), args)
  {
    NormalizeIgnoresPadding(p, Token(c), q);
    BuildMember(c, args);
  }

  /** A zero-arity command given an argument, or SET_CHANNEL given other than one, is refused. */
  lemma ArityEnforced(c: Command, args: seq<string>)
    ensures c != SetChannel && |args| > 0 ==> Build(Member(c), args) == Err(InvalidArgument)
    ensures c == SetChannel && |args| != 1 ==> Build(Member(c), args) == Err(InvalidArgument)
  {
    BuildMember(c, args);
  }

  /** The decimal form of any n is a valid channel argument, and "-" before a positive one is not. */
  lemma ChannelArgument(n: nat)
    ensures IsNonNegativeInt(NatToString(n))
    ensures n > 0 ==> !IsNonNegativeInt("-" + NatToString(n))
  {
    NatToStringRoundTrip(n);
    NatToStringValue(n);
    PyIntNegative(NatToString(n));
  }

  /**
   * Lines a client may type are accepted as the command they name: the first
   * word may be an alias key, in any ASCII letter case, and the message holds
   * the aliased command.
   */
  lemma ParseAliasAnyCase(line: seq<byte>, k: string, args: seq<string>)
    requires k in Aliases && Validate(Aliases[k], args).Pass?
    requires Decode(line).Some? && Split(Decode(line).value) == [LowerAscii(k)] + args
    ensures ParseLine(line) == Ok(Message(Aliases[k], args))
  {
    NormalizeIgnoresCase(k);
    NormalizeAlias(k);
    ParseAccepts(line, LowerAscii(k), args);
  }

  /** An information separator before a channel number makes it invalid, as int() refuses it. */
  lemma SeparatorArgumentRejected()
    ensures Build(Member(SetChannel), ["\U{1C}5"]) == Err(InvalidArgument)
  {
    SeparatorNotSkipped();
    BuildMember(SetChannel, ["\U{1C}5"]);
  }

  /** Parsing a line built from a command and whitespace-free arguments is building from them. */
  lemma ParseOfLine(c: Command, args: seq<string>)
    requires forall i :: 0 <= i < |args| ==> IsWord(args[i])
    ensures ParseLine(ToLine(Message(c, args))) == Build(Member(c), args)
  {
    ReadFrame(Token(c), args);
    ParseIsBuild(ToLine(Message(c, args)), Token(c), args);
    BuildMember(c, args);
  }

  /** Round trip: re-parsing the serialisation of a parsed message gives the same message. */
  lemma RoundTrip(line: seq<byte>, m: Message)
    requires ParseLine(line) == Ok(m)
    ensures ParseLine(ToLine(m)) == Ok(m)
  {
    var parts := Split(Decode(line).value);
    assert ParseText(Decode(line).value) == Ok(m);
    assert forall i :: 0 <= i < |m.args| ==> m.args[i] == parts[i + 1];
    ParseOfLine(m.command, m.args);
    BuildMember(m.command, m.args);
  }

  /** Bytes that are not the UTF-8 encoding of any text fail with ProtocolError. */
  lemma InvalidUtf8Rejected(line: seq<byte>)
    requires forall s: string :: Encode(s) != line
    ensures ParseLine(line) == Err(ProtocolError)
  {
    NotAnEncodingIsRejected(line);
  }
}
