/**
 * Server replies: one template per command, filled in from named values the
 * device supplies, and the uniform error reply (smarttv/protocol/renderer.py).
 */
module Renderer {
  import opened Errors
  import opened Commands

  /**
   * A piece of a reply template: literal text, or a replacement field
   * written {name} in the template string. The reply templates contain no
   * other str.format syntax (no escaped braces, no conversions, no format
   * specifications), so a template is held as its sequence of pieces.
   */
  datatype Piece = Lit(text: string) | Field(name: string)

  type Template = seq<Piece>

  /** The names a template refers to. */
  function FieldNames(t: Template): set<string> {
    if t == [] then {}
    else match t[0]
      case Lit(_) => FieldNames(t[1..])
      case Field(n) => {n} + FieldNames(t[1..])
  }

  /**
   * template.format(**fields): None where Python raises KeyError because the
   * template names a field the caller did not supply. Fields the template
   * does not name are ignored.
   */
  function Format(t: Template, fields: map<string, string>): (r: Option<string>)
    ensures r.Some? <==> FieldNames(t) <= fields.Keys
  {
    if t == [] then Some("")
    else
      var head := match t[0] case Lit(x) => Some(x) case Field(n) => if n in fields then Some(fields[n]) else None;
      match head
      case None => None
      case Some(x) =>
        match Format(t[1..], fields)
        case None => None
        case Some(rest) => Some(x + rest)
  }

  /** REPLY_TEMPLATES: every command has a template. */
  const ReplyTemplates: map<Command, Template> := map[
    PowerOn := [Lit("OK POWER_ON")],
    PowerOff := [Lit("OK POWER_OFF")],
    GetChannels := [Lit("CHANNELS "), Field("channels")],
    SetChannel := ChannelTemplate,
    ChannelUp := ChannelTemplate,
    ChannelDown := ChannelTemplate,
    GetStatus := [Lit("STATUS "), Field("state"), Lit(" CURRENT "), Field("index"), Lit(" "), Field("name")],
    Quit := [Lit("OK BYE")]
  ]

  /** "OK CHANNEL {index} {name}", shared by the three channel-changing commands. */
  const ChannelTemplate: Template := [Lit("OK CHANNEL "), Field("index"), Lit(" "), Field("name")]

  const Unhandled: string := "ERR UNHANDLED"
  const MissingData: string := "ERR TEMPLATE_MISSING_DATA"

  /**
   * render_reply against a given template table: the UNHANDLED reply for a
   * command without a template, the missing-data reply when the template
   * names a field not supplied, otherwise the filled-in template.
   */
  function RenderWith(table: map<Command, Template>, c: Command, fields: map<string, string>): (r: string)
    ensures c !in table ==> r == Unhandled
    ensures c in table && !(FieldNames(table[c]) <= fields.Keys) ==> r == MissingData
    ensures c in table && FieldNames(table[c]) <= fields.Keys ==> Format(table[c], fields) == Some(r)
  {
    if c !in table then Unhandled
    else
      match Format(table[c], fields)
      case None => MissingData
      case Some(text) => text
  }

  /** render_reply: the shared table has a template for every command, so UNHANDLED never comes back. */
  function RenderReply(c: Command, fields: map<string, string>): (r: string)
    ensures c in ReplyTemplates
    ensures FieldNames(ReplyTemplates[c]) <= fields.Keys ==> Format(ReplyTemplates[c], fields) == Some(r)
    ensures !(FieldNames(ReplyTemplates[c]) <= fields.Keys) ==> r == MissingData
  {
    AllCommandsHaveTemplates(c);
    RenderWith(ReplyTemplates, c, fields)
  }

  /** render_error: the reason after the prefix "ERR ". */
  function RenderError(reason: string): (r: string)
    ensures |r| == 4 + |reason| && r[..4] == "ERR " && r[4..] == reason
  {
    "ERR " + reason
  }

  // ---------------------------------------------------------------------------
  // Lemmas

  lemma AllCommandsHaveTemplates(c: Command)
    ensures c in ReplyTemplates
  {
  }

  /** Supplying more named values than a template needs changes nothing. */
  lemma {:induction false} FormatIgnoresExtraFields(t: Template, f: map<string, string>, g: map<string, string>)
    requires FieldNames(t) <= f.Keys
    requires forall n :: n in f ==> n in g && g[n] == f[n]
    ensures Format(t, g) == Format(t, f)
    decreases |t|
  {
    if t != [] {
      FormatIgnoresExtraFields(t[1..], f, g);
    }
  }

  /** The replies that take no values are fixed strings, whatever is supplied. */
  lemma ConstantReplies(fields: map<string, string>)
    ensures RenderReply(PowerOn, fields) == "OK POWER_ON"
    ensures RenderReply(PowerOff, fields) == "OK POWER_OFF"
    ensures RenderReply(Quit, fields) == "OK BYE"
  {
    FormatSingle("OK POWER_ON", fields);
    FormatSingle("OK POWER_OFF", fields);
    FormatSingle("OK BYE", fields);
  }

  lemma FormatSingle(x: string, fields: map<string, string>)
    ensures Format([Lit(x)], fields) == Some(x)
  {
    assert [Lit(x)][1..] == [];
    assert x + "" == x;
  }

  lemma FormatLit(x: string, t: Template, fields: map<string, string>)
    ensures Format([Lit(x)] + t, fields) == if Format(t, fields).Some? then Some(x + Format(t, fields).value) else None
  {
    assert ([Lit(x)] + t)[1..] == t;
  }

  lemma FormatField(n: string, t: Template, fields: map<string, string>)
    requires n in fields
    ensures Format([Field(n)] + t, fields) == if Format(t, fields).Some? then Some(fields[n] + Format(t, fields).value) else None
  {
    assert ([Field(n)] + t)[1..] == t;
  }

  lemma FormatMissingField(n: string, t: Template, fields: map<string, string>)
    requires n !in fields
    ensures Format([Field(n)] + t, fields) == None
  {
    assert ([Field(n)] + t)[1..] == t;
  }

  /** The channel replies spell out the index and the name of the channel. */
  lemma ChannelReply(c: Command, fields: map<string, string>)
    requires c == SetChannel || c == ChannelUp || c == ChannelDown
    requires "index" in fields && "name" in fields
    ensures RenderReply(c, fields) == "OK CHANNEL " + fields["index"] + " " + fields["name"]
  {
    var i, n := fields["index"], fields["name"];
    FormatField("name", [], fields);
    assert [Field("name")] + [] == [Field("name")];
    assert n + "" == n;
    FormatLit(" ", [Field("name")], fields);
    FormatField("index", [Lit(" "), Field("name")], fields);
    FormatLit("OK CHANNEL ", [Field("index"), Lit(" "), Field("name")], fields);
    assert ChannelTemplate == [Lit("OK CHANNEL ")] + ([Field("index")] + ([Lit(" ")] + [Field("name")]));
    assert "OK CHANNEL " + (i + (" " + n)) == "OK CHANNEL " + i + " " + n;
  }

  /** A channel reply without the index or the name is the missing-data reply. */
  lemma ChannelReplyMissing(c: Command, fields: map<string, string>)
    requires c == SetChannel || c == ChannelUp || c == ChannelDown
    requires "index" !in fields || "name" !in fields
    ensures RenderReply(c, fields) == MissingData
  {
    assert "index" in FieldNames(ChannelTemplate) && "name" in FieldNames(ChannelTemplate) by {
      var t := ChannelTemplate;
      assert t[1..] == [Field("index"), Lit(" "), Field("name")];
      assert t[1..][1..] == [Lit(" "), Field("name")];
      assert t[1..][1..][1..] == [Field("name")];
    }
  }

  /** The channel list reply. */
  lemma ChannelsReply(fields: map<string, string>)
    ensures "channels" in fields ==> RenderReply(GetChannels, fields) == "CHANNELS " + fields["channels"]
    ensures "channels" !in fields ==> RenderReply(GetChannels, fields) == MissingData
  {
    assert ReplyTemplates[GetChannels] == [Lit("CHANNELS ")] + ([Field("channels")] + []);
    if "channels" in fields {
      FormatField("channels", [], fields);
      assert fields["channels"] + "" == fields["channels"];
      FormatLit("CHANNELS ", [Field("channels")], fields);
    } else {
      FormatMissingField("channels", [], fields);
      FormatLit("CHANNELS ", [Field("channels")], fields);
    }
  }

  /** The status reply spells out the power state, the index and the name. */
  lemma StatusReply(fields: map<string, string>)
    requires "state" in fields && "index" in fields && "name" in fields
    ensures RenderReply(GetStatus, fields)
            == "STATUS " + fields["state"] + " CURRENT " + fields["index"] + " " + fields["name"]
  {
    var st, i, n := fields["state"], fields["index"], fields["name"];
    FormatField("name", [], fields);
    assert [Field("name")] + [] == [Field("name")];
    assert n + "" == n;
    var t3 := [Lit(" "), Field("name")];
    FormatLit(" ", [Field("name")], fields);
    FormatField("index", t3, fields);
    var t2 := [Field("index")] + t3;
    FormatLit(" CURRENT ", t2, fields);
    var t1 := [Lit(" CURRENT ")] + t2;
    FormatField("state", t1, fields);
    FormatLit("STATUS ", [Field("state")] + t1, fields);
    assert ReplyTemplates[GetStatus] == [Lit("STATUS ")] + ([Field("state")] + t1);
    assert "STATUS " + (st + (" CURRENT " + (i + (" " + n))))
        == "STATUS " + st + " CURRENT " + i + " " + n;
  }
}
