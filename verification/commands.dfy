/**
 * The command vocabulary: the closed set of commands, their canonical wire
 * tokens, the case-insensitive alias table and the argument count of each
 * command (smarttv/protocol/commands.py).
 */
module Commands {
  import opened Errors
  import opened PyText

  datatype Command =
    | PowerOn
    | PowerOff
    | GetChannels
    | SetChannel
    | ChannelUp
    | ChannelDown
    | GetStatus
    | Quit

  /** The enum value of a command: its canonical wire token. */
  function Token(c: Command): (t: string)
    ensures IsWord(t) && IsUpperToken(t) && Trimmed(t)
  {
    var t := match c
      case PowerOn => "POWER_ON"
      case PowerOff => "POWER_OFF"
      case GetChannels => "GET_CHANNELS"
      case SetChannel => "SET_CHANNEL"
      case ChannelUp => "CHANNEL_UP"
      case ChannelDown => "CHANNEL_DOWN"
      case GetStatus => "GET_STATUS"
      case Quit => "QUIT";
    UpperTokenShape(t);
    t
  }

  /** Upper-case token to command; every canonical token maps to its own command. */
  const Aliases: map<string, Command> := map[
    "POWER_ON" := PowerOn, "ON" := PowerOn, "TURN_ON" := PowerOn,
    "POWER_OFF" := PowerOff, "OFF" := PowerOff, "TURN_OFF" := PowerOff,
    "GET_CHANNELS" := GetChannels, "LIST" := GetChannels, "CHANNELS" := GetChannels,
    "SET_CHANNEL" := SetChannel, "SET" := SetChannel,
    "CHANNEL_UP" := ChannelUp, "UP" := ChannelUp,
    "CHANNEL_DOWN" := ChannelDown, "DOWN" := ChannelDown,
    "GET_STATUS" := GetStatus, "STATUS" := GetStatus,
    "QUIT" := Quit, "EXIT" := Quit
  ]

  /** Resolve an inbound token: strip it, upper-case it, look it up among the aliases. */
  function Normalize(token: string): (r: Result<Command>)
    ensures r.Err? ==> r.error == UnknownCommand
    ensures r.Ok? <==> Upper(Strip(token)) in Aliases
  {
    var key := Upper(Strip(token));
    if key in Aliases then Ok(Aliases[key]) else Err(UnknownCommand)
  }

  /** Number of arguments a command requires. */
  function Arity(c: Command): (n: nat)
    ensures n <= 1
  {
    if c == SetChannel then 1 else 0
  }

  function ExpectsArgs(c: Command): (b: bool)
    ensures b <==> c == SetChannel
  {
    Arity(c) > 0
  }

  // ---------------------------------------------------------------------------
  // Lemmas

  lemma AliasKeyShape(k: string)
    requires k in Aliases
    ensures IsUpperToken(k) && Trimmed(k)
  {
    assert IsUpperToken(k) && |k| > 0;
    UpperTokenShape(k);
  }

  /** Every alias key is already stripped and upper-case, so resolution finds it as written. */
  lemma AliasKeysAreCanonical(k: string)
    requires k in Aliases
    ensures Strip(k) == k && Upper(k) == k
  {
    AliasKeyShape(k);
    CanonicalForm(k);
  }

  /** Every canonical token is its own alias. */
  lemma TokenIsOwnAlias(c: Command)
    ensures Token(c) in Aliases && Aliases[Token(c)] == c
  {
  }

  /** normalize(c.value) == c for all eight commands. */
  lemma NormalizeToken(c: Command)
    ensures Normalize(Token(c)) == Ok(c)
  {
    var t := Token(c);
    CanonicalForm(t);
    TokenIsOwnAlias(c);
    assert Upper(Strip(t)) == t;
  }

  /** Every alias resolves to the command its canonical token resolves to. */
  lemma NormalizeAlias(k: string)
    requires k in Aliases
    ensures Normalize(k) == Ok(Aliases[k]) == Normalize(Token(Aliases[k]))
  {
    AliasKeysAreCanonical(k);
    NormalizeToken(Aliases[k]);
  }

  /** The friendly aliases the protocol advertises resolve as documented. */
  lemma AliasExamples()
    ensures Normalize("ON") == Ok(PowerOn)
    ensures Normalize("EXIT") == Ok(Quit)
  {
    assert "ON" in Aliases && Aliases["ON"] == PowerOn;
    NormalizeAlias("ON");
    assert "EXIT" in Aliases && Aliases["EXIT"] == Quit;
    NormalizeAlias("EXIT");
  }

  /** Surrounding whitespace never changes how a token resolves. */
  lemma NormalizeIgnoresPadding(p: string, t: string, q: string)
    requires AllSpace(p) && AllSpace(q)
    ensures Normalize(p + t + q) == Normalize(t)
  {
    StripAbsorbsPadding(p, t, q);
  }

  /** The case of ASCII letters never changes how a token resolves. */
  lemma NormalizeIgnoresCase(t: string)
    ensures Normalize(LowerAscii(t)) == Normalize(t)
  {
    LowerAsciiStrip(t);
    UpperIgnoresCase(Strip(t));
  }

  /** Resolving the canonical token of a resolved command resolves to it again. */
  lemma NormalizeIdempotent(t: string)
    requires Normalize(t).Ok?
    ensures Normalize(Token(Normalize(t).value)) == Normalize(t)
  {
    NormalizeToken(Normalize(t).value);
  }

  /** A token outside the table, such as the legacy wire token SET_CHANNELS, is unknown. */
  lemma NormalizeRejectsUnknown()
    ensures Normalize("SET_CHANNELS") == Err(UnknownCommand)
    ensures Normalize("") == Err(UnknownCommand)
  {
    var t := "SET_CHANNELS";
    assert IsUpperToken(t) && Trimmed(t);
    CanonicalForm(t);
    NotAliases();
  }

  lemma NotAliases()
    ensures "" !in Aliases && "SET_CHANNELS" !in Aliases
  {
  }
}
