/**
 * The message value and its serialisation as one line of the wire format
 * (smarttv/protocol/message.py).
 */
module Messages {
  import opened Errors
  import opened PyText
  import opened Utf8
  import opened Commands

  /**
   * A resolved command with its arguments. The frozen dataclass forbids
   * rebinding its two fields, as a datatype value does; its args list stays a
   * mutable Python list, which a sequence value does not model.
   */
  datatype Message = Message(command: Command, args: seq<string>)

  /** The text of a line: the token, one space before each argument, the terminator. */
  function Frame(token: string, args: seq<string>): (t: string)
    ensures t == Join([token] + args, " ") + "\n"
  {
    if args != [] then
      JoinCons(token, args, " ");
      token + " " + Join(args, " ") + "\n"
    else
      token + "\n"
  }

  /** A framed line ends in the single terminator byte 0x0A and has no other one. */
  lemma FrameBytes(token: string, args: seq<string>)
    ensures |Encode(Frame(token, args))| > 0
    ensures Encode(Frame(token, args))[|Encode(Frame(token, args))| - 1] == 10
    ensures '\n' !in token && (forall i :: 0 <= i < |args| ==> '\n' !in args[i]) ==>
              forall i :: 0 <= i < |Encode(Frame(token, args))| - 1 ==> Encode(Frame(token, args))[i] != 10
  {
    var j := Join([token] + args, " ");
    EncodeAppend(j, "\n");
    assert Encode("\n") == [10];
    if '\n' !in token && (forall i :: 0 <= i < |args| ==> '\n' !in args[i]) {
      forall i | 0 <= i < |[token] + args|
        ensures '\n' !in ([token] + args)[i]
      {
        if i > 0 { assert ([token] + args)[i] == args[i - 1]; }
      }
      JoinExcludes([token] + args, " ", '\n');
      EncodeNoNewline(j);
    }
  }

  /** Reading a framed line back: it decodes to its text, which splits into the token and the arguments. */
  lemma ReadFrame(token: string, args: seq<string>)
    requires IsWord(token) && forall i :: 0 <= i < |args| ==> IsWord(args[i])
    ensures Decode(Encode(Frame(token, args))) == Some(Frame(token, args))
    ensures Split(Frame(token, args)) == [token] + args
  {
    var ws := [token] + args;
    assert forall i :: 0 <= i < |ws| ==> IsWord(ws[i]) by {
      forall i | 0 <= i < |ws| ensures IsWord(ws[i]) {
        if i > 0 { assert ws[i] == args[i - 1]; }
      }
    }
    var j := Join(ws, " ");
    DecodeEncode(Frame(token, args));
    SplitTrailingSpace(j, "\n");
    SplitJoin(ws);
  }

  /** The text Message.to_line encodes. */
  function LineText(m: Message): (t: string)
    ensures |t| > 0 && t[|t| - 1] == '\n'
    ensures (forall i :: 0 <= i < |m.args| ==> IsWord(m.args[i])) ==>
              Split(t) == [Token(m.command)] + m.args
  {
    if forall i :: 0 <= i < |m.args| ==> IsWord(m.args[i]) then
      ReadFrame(Token(m.command), m.args);
      Frame(Token(m.command), m.args)
    else
      Frame(Token(m.command), m.args)
  }

  /** Message.to_line: the UTF-8 bytes of the line. */
  function ToLine(m: Message): (b: seq<byte>)
    ensures |b| > 0 && b[|b| - 1] == 10
    ensures (forall i :: 0 <= i < |m.args| ==> '\n' !in m.args[i]) ==>
              forall i :: 0 <= i < |b| - 1 ==> b[i] != 10
  {
    var token := Token(m.command);
    WordExcludesNewline(token);
    FrameBytes(token, m.args);
    Encode(LineText(m))
  }
}
