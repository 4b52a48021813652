# Smart TV remote-control protocol, modelled in Dafny

The system is a line-oriented text protocol for driving a simulated
television over TCP. A client sends one command per line, UTF-8 encoded and
terminated by `\n`: a command token, optionally followed by
whitespace-separated arguments. The server parses the line into a `Message`
(a `Command` and its argument strings) and hands it to a `SmartTV` object,
which updates its power flag and current-channel index in place. It answers
with one reply line rendered from a per-command template, or an `ERR …`
line.

There are two copies of the protocol layer, and both are modelled:

- the package `smarttv/protocol/` (commands, message, parser, renderer).
  It has a case-insensitive alias table, strips tokens, and uses the
  wire token `SET_CHANNEL`;
- the single module `messages.py` that `smart_tv.py` imports. It has the same
  commands, validation and reply templates. It has no aliases, upper-cases
  without stripping, and its enum value for SET_CHANNEL is `SET_CHANNELS`.

Modules, one per source file, plus two for the Python built-ins they use:

| module | file | models |
|---|---|---|
| `Errors` | errors.dfy | the three exception classes of the protocol as error kinds; `Option`, `Result` |
| `PyText` | pytext.dfy | `str.strip()`, `str.split()`, `sep.join`, `str.upper()` (as far as lookups observe it), `int(s)`, `str(n)` |
| `Utf8` | utf8.dfy | `str.encode("utf-8")` and strict `bytes.decode("utf-8")` (Unicode Standard, Table 3-7) |
| `Commands` | commands.dfy | `smarttv/protocol/commands.py` |
| `Messages` | messages.dfy | `smarttv/protocol/message.py` |
| `Parser` | parser.dfy | `smarttv/protocol/parser.py` |
| `Renderer` | renderer.dfy | `smarttv/protocol/renderer.py` |
| `Legacy` | legacy.dfy | `messages.py` |
| `Device` | device.dfy | `smart_tv.py`: the class `SmartTV`, whose `Handle` changes its fields in place and is proved against the pure `Step` |

Raised exceptions become `Err(kind)` results. Parse errors that do not
decode or are blank give `ProtocolError`. An unknown token gives
`UnknownCommand`. A wrong argument count or type gives `InvalidArgument`.
`render_reply`'s `KeyError` becomes the `ERR TEMPLATE_MISSING_DATA` string,
as in the source.

## Model

| member | source | states |
|---|---|---|
| PyText.Strip | smarttv/protocol/parser.py:17 | the result begins and ends with non-whitespace, and is empty exactly when the input is all whitespace (Python's `str.isspace` set) |
| PyText.StripPadded | smarttv/protocol/parser.py:17 | stripping `p + t + q` with whitespace `p`, `q` and a trimmed `t` gives back `t` |
| PyText.StripAbsorbsPadding | smarttv/protocol/commands.py:36 | extra whitespace around any string does not change its stripped form |
| PyText.Split | smarttv/protocol/parser.py:24 | every part is a non-empty whitespace-free word; the result is empty exactly when the input is all whitespace |
| PyText.SplitLeadingSpace | smarttv/protocol/parser.py:24 | leading whitespace does not change the split |
| PyText.SplitTrailingSpace | smarttv/protocol/parser.py:24 | trailing whitespace (such as the terminator) does not change the split |
| PyText.SplitStrip | smarttv/protocol/parser.py:17-24 | splitting the stripped text gives the same parts as splitting the raw text |
| PyText.SplitWordThen | smarttv/protocol/parser.py:24 | a word followed by whitespace is split off as the first part |
| PyText.SplitJoin | smarttv/protocol/message.py:16 | joining words with single spaces and splitting again gives back the words (split is the inverse of join on words) |
| PyText.JoinWordsShape | smarttv/protocol/message.py:16 | a space-join of words is non-empty, trimmed and starts with the first word |
| PyText.JoinExcludes | smarttv/protocol/message.py:16 | a character absent from the parts and the separator is absent from the join |
| PyText.JoinCons | smarttv/protocol/message.py:16 | joining `[w] + ws` is `w`, the separator, then the join of `ws` |
| PyText.UpperChar | smarttv/protocol/commands.py:36 | ASCII lower-case letters map to their upper-case letters, other ASCII characters are kept |
| PyText.UpperAppend | smarttv/protocol/commands.py:36 | upper-casing distributes over concatenation |
| PyText.UpperOfUpperToken | smarttv/protocol/commands.py:36 | upper-casing leaves a token of `A`-`Z` and `_` unchanged |
| PyText.UpperTokenShape | smarttv/protocol/commands.py:16-17 | a non-empty token of `A`-`Z` and `_` is a word and is trimmed |
| PyText.CanonicalForm | smarttv/protocol/commands.py:36 | strip and upper leave a canonical token unchanged |
| PyText.UpperIgnoresCase | smarttv/protocol/commands.py:19 | the ASCII letter case of a token does not change its upper-cased form |
| PyText.LowerAsciiStrip | smarttv/protocol/commands.py:36 | lower-casing commutes with stripping |
| PyText.SpaceIsNoTokenChar | smarttv/protocol/parser.py:24 | the whitespace `split()` and `strip()` remove is never a digit, sign, letter or underscore |
| PyText.Join | smarttv/protocol/message.py:16 | joining a single part gives that part, with no separator |
| PyText.Upper | smarttv/protocol/commands.py:36 | the result is at least as long as the input and at most three times as long; ASCII text keeps its length |
| PyText.PyInt | smarttv/protocol/parser.py:42-46 | a non-empty string of ASCII digits parses to its decimal value; a string holding an information separator (U+001C to U+001F) is refused |
| PyText.SeparatorNotSkipped | smarttv/protocol/parser.py:44 | `int()` refuses `"\x1c5"` although `strip()` reduces it to `"5"`: the separators are whitespace to `str` but not to `int()` |
| PyText.PyIntNegative | smarttv/protocol/parser.py:44 | `-` followed by digits parses to the negated value |
| PyText.NatToString | smart_tv.py:30 | `str(n)` is a non-empty run of digits without a leading zero |
| PyText.NatToStringValue | smart_tv.py:30 | the digits of `str(n)` have the value `n` |
| PyText.NatToStringRoundTrip | smarttv/protocol/parser.py:44 | `int(str(n)) == n` for every natural `n` |
| Utf8.EncodeChar | smarttv/protocol/message.py:19 | a code point encodes to 1 to 4 bytes, and to one byte equal to it exactly when it is ASCII; every byte of a longer encoding is at least 0x80 |
| Utf8.Encode | smarttv/protocol/message.py:19 | the encoding is at least as long as the text |
| Utf8.Decode | smarttv/protocol/parser.py:17 | decoded text has at most one character per byte |
| Utf8.DecodeFirst | smarttv/protocol/parser.py:17 | a decoded code point consumes between 1 byte and the rest of the input |
| Utf8.DecodeFirstEncodeChar | smarttv/protocol/parser.py:17 | the decoder reads back the first encoded character and its length |
| Utf8.EncodeCharDecodeFirst | smarttv/protocol/parser.py:17 | whatever the decoder accepts is exactly the encoding of the decoded character (no overlong forms, no surrogates) |
| Utf8.DecodeEncode | smarttv/protocol/parser.py:17 | decoding the encoding of any text gives the text |
| Utf8.EncodeDecode | smarttv/protocol/parser.py:16-19 | bytes that decode are the encoding of what they decode to |
| Utf8.NotAnEncodingIsRejected | smarttv/protocol/parser.py:16-19 | bytes that are the encoding of no text fail to decode |
| Utf8.EncodeAppend | smarttv/protocol/message.py:19 | encoding distributes over concatenation |
| Utf8.EncodeNoNewline | smarttv/protocol/message.py:7 | text without `\n` encodes to bytes without 0x0A |
| Utf8.EncodeAscii | smarttv/protocol/message.py:19 | ASCII text encodes to one byte per character, with the same values |
| Commands.Token | smarttv/protocol/commands.py:6-14 | each command's enum value is a non-empty, trimmed, upper-case word |
| Commands.Normalize | smarttv/protocol/commands.py:34-41 | succeeds exactly when the stripped and upper-cased token is an alias key; every failure is UnknownCommand |
| Commands.Arity | smarttv/protocol/commands.py:43-47 | every command takes at most one argument |
| Commands.ExpectsArgs | smarttv/protocol/commands.py:49-50 | true exactly for SET_CHANNEL |
| Commands.AliasKeyShape | smarttv/protocol/commands.py:20-32 | every alias key is upper-case and trimmed |
| Commands.AliasKeysAreCanonical | smarttv/protocol/commands.py:19-36 | strip and upper leave every alias key unchanged, so each is reachable |
| Commands.TokenIsOwnAlias | smarttv/protocol/commands.py:20-32 | each enum value is an alias key for its own command |
| Commands.NormalizeToken | smarttv/protocol/commands.py:34-41 | `normalize(c.value) == c` for all eight commands |
| Commands.NormalizeAlias | smarttv/protocol/commands.py:20-41 | every alias resolves to the command its canonical token resolves to |
| Commands.AliasExamples | smarttv/protocol/commands.py:22-31 | `ON` resolves to POWER_ON and `EXIT` to QUIT |
| Commands.NormalizeIgnoresPadding | smarttv/protocol/commands.py:36 | whitespace around a token does not change how it resolves |
| Commands.NormalizeIgnoresCase | smarttv/protocol/commands.py:19 | the ASCII letter case of a token does not change how it resolves |
| Commands.NormalizeIdempotent | smarttv/protocol/commands.py:34-41 | resolving the enum value of a resolved command gives the same command |
| Commands.NormalizeRejectsUnknown | smarttv/protocol/commands.py:37-40 | `SET_CHANNELS` and the empty token are unknown |
| Messages.Frame | smarttv/protocol/message.py:15-18 | the line text is the token and the arguments joined by single spaces, then `\n` |
| Messages.FrameBytes | smarttv/protocol/message.py:7 | the line's last byte is 0x0A, and it is its only 0x0A when no part contains `\n` |
| Messages.ReadFrame | smarttv/protocol/message.py:14-19 | the line bytes decode to the line text, which splits into the token and the arguments |
| Messages.LineText | smarttv/protocol/message.py:14-18 | the text ends in `\n` and, for word arguments, splits back into the enum value and the arguments |
| Messages.ToLine | smarttv/protocol/message.py:14-19 | the line ends in the terminator, and that is the only terminator when no argument contains `\n` |
| Parser.Validate | smarttv/protocol/parser.py:30-40 | passes exactly when the argument count equals the arity and SET_CHANNEL's argument is a non-negative integer; every failure is InvalidArgument |
| Parser.IsNonNegativeInt | smarttv/protocol/parser.py:42-46 | every non-empty run of ASCII digits is accepted; a string holding an information separator is not |
| Parser.Spelling | smarttv/protocol/parser.py:10 | a member given to `build` is its enum value, which normalizes back to the member |
| Parser.Build | smarttv/protocol/parser.py:8-12 | UnknownCommand exactly when `normalize` fails; on success the command is the normalized one, the arguments are kept and validation passes; when the token resolves and validation passes, the message is built; every other failure is InvalidArgument |
| Parser.ParseAccepts | smarttv/protocol/parser.py:14-28 | a line whose parts are `t` and `args` is accepted exactly when `t` resolves and the arguments pass validation, and then gives `Message(normalize(t), args)` |
| Parser.ParseAliasAnyCase | smarttv/protocol/parser.py:14-28 | a line whose first word is an alias key in any ASCII letter case (such as ` on ` or `set_channel 2`) gives the aliased command with its arguments |
| Parser.SeparatorArgumentRejected | smarttv/protocol/parser.py:38-46 | `build(SET_CHANNEL, "\x1c5")` fails with InvalidArgument |
| Parser.ParseLine | smarttv/protocol/parser.py:14-28 | ProtocolError exactly when the bytes are not UTF-8 or the text is all whitespace |
| Parser.ParseText | smarttv/protocol/parser.py:17-28 | ProtocolError exactly on blank text; on success the first part resolves to the command, the arguments are the remaining parts in order, and their count is the arity |
| Parser.ParseIsBuild | smarttv/protocol/parser.py:14-28 | parsing a line whose parts are `t` and `args` is `build(t, *args)`, so an unknown `t` fails with UnknownCommand whatever the arguments |
| Parser.ParseTextIsBuild | smarttv/protocol/parser.py:17-28 | the same for decoded text |
| Parser.FirstTokenOfStripped | smarttv/protocol/parser.py:24-25 | the stripped text is non-empty and its parts are the same first token and arguments |
| Parser.BuildMember | smarttv/protocol/parser.py:10 | building from a member equals building from its enum value, and is the message exactly when validation passes, InvalidArgument otherwise |
| Parser.BuildIgnoresPadding | smarttv/protocol/parser.py:10 | whitespace around a canonical token given to `build` changes nothing |
| Parser.ArityEnforced | smarttv/protocol/parser.py:32-35 | a zero-arity command with arguments, or SET_CHANNEL with other than one, is InvalidArgument |
| Parser.ChannelArgument | smarttv/protocol/parser.py:38-46 | the decimal form of any `n` is a valid channel argument, and `-` before a positive one is not |
| Parser.ParseOfLine | smarttv/protocol/parser.py:14-28 | parsing `to_line` of a command with word arguments is building from them |
| Parser.RoundTrip | smarttv/protocol/parser.py:14-28 | re-parsing the line of a parsed message gives the same message |
| Parser.InvalidUtf8Rejected | smarttv/protocol/parser.py:16-19 | bytes that encode no text fail with ProtocolError |
| Renderer.Format | smarttv/protocol/renderer.py:41 | filling a template succeeds exactly when every field it names is supplied |
| Renderer.RenderWith | smarttv/protocol/renderer.py:30-43 | no template gives UNHANDLED, a missing field gives TEMPLATE_MISSING_DATA, and otherwise the result is the filled-in template |
| Renderer.RenderReply | smarttv/protocol/renderer.py:30-43 | every command has a template; the filled-in template when the fields cover it, TEMPLATE_MISSING_DATA otherwise |
| Renderer.RenderError | smarttv/protocol/renderer.py:45-46 | the reply is `ERR ` followed by the reason |
| Renderer.AllCommandsHaveTemplates | smarttv/protocol/renderer.py:19-28 | every command has a reply template, so UNHANDLED is never rendered |
| Renderer.FormatIgnoresExtraFields | smarttv/protocol/renderer.py:41 | extra supplied fields do not change a filled-in template |
| Renderer.FormatMissingField | smarttv/protocol/renderer.py:42-43 | a template whose first field is not supplied cannot be filled |
| Renderer.ConstantReplies | smarttv/protocol/renderer.py:20-27 | POWER_ON, POWER_OFF and QUIT render `OK POWER_ON`, `OK POWER_OFF` and `OK BYE` whatever is supplied |
| Renderer.ChannelReply | smarttv/protocol/renderer.py:23-25 | the three channel commands render `OK CHANNEL <index> <name>` |
| Renderer.ChannelReplyMissing | smarttv/protocol/renderer.py:42-43 | a channel reply without the index or the name is TEMPLATE_MISSING_DATA |
| Renderer.ChannelsReply | smarttv/protocol/renderer.py:22 | GET_CHANNELS renders `CHANNELS <channels>`, or TEMPLATE_MISSING_DATA without it |
| Renderer.StatusReply | smarttv/protocol/renderer.py:26 | GET_STATUS renders `STATUS <state> CURRENT <index> <name>` |
| Legacy.WireToken | messages.py:23-31 | each enum value is an upper-case word; it is the package token for every command but SET_CHANNEL |
| Legacy.Resolve | messages.py:79-83 | succeeds exactly when the upper-cased (unstripped) token is an enum value; failure is UnknownCommand |
| Legacy.ResolveWireToken | messages.py:33 | each enum value resolves to its own member |
| Legacy.ResolveIgnoresCase | messages.py:79 | the ASCII letter case of a token does not change how it resolves |
| Legacy.Validate | messages.py:90-105 | the legacy validation accepts and rejects exactly what the package validation does |
| Legacy.MembersAreWireTokens | messages.py:33 | every key of VALID is the enum value of the member it names |
| Legacy.Spelling | messages.py:55-58 | a member given to `build` is its enum value, which resolves back to the member |
| Legacy.Build | messages.py:51-62 | UnknownCommand exactly when the upper-cased token is not in VALID; on success the command is the resolved one, the arguments are kept and validation passes; when the token resolves and validation passes, the message is built; every failure is UnknownCommand or InvalidArgument |
| Legacy.ParseAccepts | messages.py:66-86 | a line whose parts are `t` and `args` is accepted exactly when upper-cased `t` is in VALID and the arguments pass validation, and then gives that command with `args` |
| Legacy.BuildMember | messages.py:55-62 | building from a member equals building from its enum value, and is the message exactly when validation passes |
| Legacy.ParseLine | messages.py:66-86 | ProtocolError exactly when the bytes are not UTF-8 or the text is all whitespace |
| Legacy.ParseText | messages.py:71-86 | ProtocolError exactly on blank text; on success the first part resolves to the command and the arguments are the remaining parts |
| Legacy.ParseIsBuild | messages.py:66-86 | parsing a line whose parts are `t` and `args` is building from them |
| Legacy.ToLine | messages.py:42-47 | the line ends in the terminator, and that is the only terminator when no argument contains `\n` |
| Legacy.ParseOfLine | messages.py:42-86 | parsing the legacy line of a command with word arguments is building from them |
| Legacy.RoundTrip | messages.py:66-86 | re-parsing the legacy line of a parsed message gives the same message |
| Legacy.TemplatesAgree | messages.py:129-138 | the legacy reply table is entry for entry the package's |
| Legacy.RenderReply | messages.py:140-154 | the legacy renderer gives the same replies as the package renderer |
| Legacy.DocumentedTokenRejected | messages.py:27 | the line `SET_CHANNEL …` is UnknownCommand to the legacy parser, whatever the arguments |
| Legacy.LegacyLineRejected | messages.py:27 | the legacy line `SET_CHANNELS …` is UnknownCommand to the package parser |
| Legacy.CodecsAgree | messages.py:23-47 | for every other command both codecs write the same line and read it the same way |
| Legacy.SetChannelTwo | messages.py:27 | the package reads `SET_CHANNEL 2`, the legacy parser refuses it and reads `SET_CHANNELS 2` |
| Legacy.LowerCaseAccepted | messages.py:79-86 | the legacy parser reads `set_channels 2` as SET_CHANNEL with argument `2` |
| Legacy.AliasesRejected | messages.py:55-58 | `ON` is unknown to the legacy builder, while the package builds POWER_ON from it |
| Legacy.PaddedTokenRejected | messages.py:55-58 | an enum value with a leading blank is unknown to the legacy builder |
| Device.Initial | smart_tv.py:4-7 | off, the four default channels, index 0 |
| Device.ChannelFields | smart_tv.py:30 | supplies exactly `index` (as `str` renders it) and `name` of the current channel |
| Device.StatusFields | smart_tv.py:45-46 | also supplies `state`, `ON` or `OFF` |
| Device.Step | smart_tv.py:9-51 | keeps the index valid and the channel list unchanged; only POWER_ON and POWER_OFF change the power flag; the index changes only through the three channel commands while on |
| Device.SmartTV.constructor | smart_tv.py:4-7 | the new object is in the initial state |
| Device.SmartTV.Handle | smart_tv.py:9-51 | the fields and the reply after the call are `Step` of the fields before it |
| Device.ParsedMessagesFit | smart_tv.py:26 | every message the legacy parser accepts can be handled (`int(args[0])` does not raise) |
| Device.ParsedMessagesFitPackage | smart_tv.py:26 | the same for the package parser |
| Device.PowerAndQuit | smart_tv.py:10-49 | POWER_ON and POWER_OFF only set the flag and reply `OK POWER_ON` and `OK POWER_OFF`; QUIT changes nothing and replies `OK BYE` |
| Device.PowerGating | smart_tv.py:18-40 | while off, GET_CHANNELS, SET_CHANNEL, CHANNEL_UP and CHANNEL_DOWN change nothing and reply `ERR TV_OFF` |
| Device.ChannelsOutcome | smart_tv.py:18-21 | GET_CHANNELS changes nothing and lists the names joined by commas |
| Device.SetChannelOutcome | smart_tv.py:23-30 | SET_CHANNEL n selects channel n and names it when it is in range, otherwise changes nothing and replies `ERR INVALID_CHANNEL` |
| Device.ChannelUpOutcome | smart_tv.py:32-36 | CHANNEL_UP moves to the next channel, from the last back to the first, and names it |
| Device.ChannelDownOutcome | smart_tv.py:38-42 | CHANNEL_DOWN moves to the previous channel, from the first round to the last, and names it |
| Device.StatusOutcome | smart_tv.py:44-46 | GET_STATUS changes nothing and reports the power state, the index and the name |
| Device.UpDownInverse | smart_tv.py:35-41 | CHANNEL_DOWN undoes CHANNEL_UP and the other way round |
| Device.Press | smart_tv.py:32-42 | repeated channel steps keep the state valid, the list and the power flag unchanged |
| Device.PressUp | smart_tv.py:35 | up to one round, k CHANNEL_UP presses add k to the index modulo the channel count |
| Device.FullCycle | smart_tv.py:35 | one CHANNEL_UP per channel comes back to the starting state |
| Device.PressDown | smart_tv.py:41 | up to one round, k CHANNEL_DOWN presses subtract k from the index modulo the channel count |
| Device.FullCycleDown | smart_tv.py:41 | one CHANNEL_DOWN per channel comes back to the starting state |
| Device.RepliesAreHandled | smart_tv.py:10-51 | no command reaches the UNHANDLED fallback and no reply is TEMPLATE_MISSING_DATA |
| Device.SelectTwo | smart_tv.py:23-30 | with the set on, `SET_CHANNEL 2` selects index 2 and replies `OK CHANNEL 2 TV2` |
| Device.StatusOnTwo | smart_tv.py:44-46 | then GET_STATUS replies `STATUS ON CURRENT 2 TV2` |
| Device.UpFromTwo | smart_tv.py:32-36 | from index 2, CHANNEL_UP replies `OK CHANNEL 3 TV3` |
| Device.UpFromThree | smart_tv.py:32-36 | from the last index, CHANNEL_UP wraps to `OK CHANNEL 0 NRK1` |
| Device.Session | smart_tv.py:9-51 | from the initial state: power on, select 2, status, up twice, power off, then GET_CHANNELS replies `ERR TV_OFF` |

## Left out

- Sockets, the server's accept/session loop, the interactive client and its argument parsing are I/O. `smarttv/app/server.py` and `smarttv/app/client.py` are not part of this model.
- Concurrency: the server handles one client at a time, and nothing is shared between threads.
- Exception message texts are left out. Only the error kind is modelled: `repr` of tokens, `UnicodeDecodeError` details and the server's `ERR PROTOCOL …` wrapping are dropped.
- `COMMAND_DESCRIPTIONS` in both `renderer.py` and `messages.py` is static help text with no behaviour.
- PyText.Upper: maps ASCII letters and the ten non-ASCII characters whose upper-case form is all ASCII, and keeps every other character. That decides every lookup among the ASCII alias keys and enum values exactly, but it is not Python's full `str.upper()`.
- PyText.PyInt: accepts surrounding whitespace other than the information separators U+001C to U+001F, a sign, ASCII digits and single underscores between digits. Python's `int()` also accepts non-ASCII decimal digits (such as Arabic-Indic digits), and the model rejects those.
- PyText.PyInt: has no limit on the number of digits. Python's `int()` raises `ValueError` above `sys.int_info.default_max_str_digits` (4300) digits, a limit that can be changed at run time, so a channel argument that long is accepted by the model and refused by the source.
- Renderer.Format: templates are held as sequences of literal text and named fields. The reply templates use no other `str.format` syntax (escapes, conversions, format specifications), so none is modelled.
- Renderer.RenderError: also stands for `render_error` in `messages.py` (lines 156-158), which is the same function.
- Device.SmartTV.Handle: requires that a SET_CHANNEL given to a powered set has a first argument that `int()` accepts. In Python, `handle` raises otherwise. Device.ParsedMessagesFit proves that every message either parser returns meets this.
- Device.Step: the index is an unbounded integer, so Python's `%` with a positive divisor is Dafny's `%`. The reply renders the index with `str()`, modelled by PyText.NatToString.
- Messages.ToLine: `str.encode("utf-8")` raises `UnicodeEncodeError` for a lone surrogate (U+D800 to U+DFFF). A Dafny `char` holds only Unicode scalar values, so such an argument cannot be built and that error is not modelled. The same holds for Legacy.ToLine.
- The frozen `Message` dataclass forbids rebinding `command` and `args`, but `args` is a mutable Python list that a caller can change in place. The model's message is a value, so this aliasing is not modelled.
- The channel list of `smart_tv.py` puts `TV2` at index 2, so `SET_CHANNEL 2` answers `OK CHANNEL 2 TV2` (Device.SelectTwo).

## Findings

| source | as written | input that shows it | evidently intended | confidence | as-written member | corrected member |
|---|---|---|---|---|---|---|
| messages.py:27 | the enum value of `Command.SET_CHANNEL` is `"SET_CHANNELS"`, so the legacy parser and builder accept only `SET_CHANNELS` | the line `SET_CHANNEL 2\n`, which the legacy `parse_line` refuses with UnknownCommand | the documented token `SET_CHANNEL`, as in `smarttv/protocol/commands.py:10` and the module's own help text at `messages.py:119`; against this, `smarttv/app/client.py:33` and `smarttv/app/server.py:56` advertise `SET_CHANNELS 2` | not executed; medium, since the app's own prompts use the other token | Legacy.DocumentedTokenRejected | Parser.ParseOfLine |
