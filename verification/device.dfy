/**
 * The television the server drives (smart_tv.py): a power flag, a fixed
 * list of channel names and the index of the current channel, changed in
 * place by one handler per command. Replies come from the renderer of
 * messages.py.
 */
module Device {
  import opened PyText
  import opened Commands
  import Utf8
  import Errors
  import Renderer
  import Legacy
  import Parser

  const DefaultChannels: seq<string> := ["NRK1", "NRK2", "TV2", "TV3"]

  /** A snapshot of the television's fields. */
  datatype TvState = TvState(on: bool, channels: seq<string>, idx: int)

  /** The current index always names a channel. */
  predicate ValidState(s: TvState) {
    |s.channels| > 0 && 0 <= s.idx < |s.channels|
  }

  /** What __init__ sets up: off, the four default channels, the first one current. */
  function Initial(): (s: TvState)
    ensures ValidState(s) && !s.on && s.idx == 0 && s.channels == DefaultChannels
  {
    TvState(false, DefaultChannels, 0)
  }

  /** The new fields of the television and the reply line handle returns. */
  datatype Outcome = Outcome(state: TvState, reply: string)

  /**
   * What handle needs of its arguments: with the television on, SET_CHANNEL
   * reads args[0] with int(), which raises unless there is a first argument
   * and it is an integer literal. Every message the parsers accept meets it.
   */
  predicate ArgsFit(s: TvState, cmd: Command, args: seq<string>) {
    cmd == SetChannel && s.on ==> |args| > 0 && PyInt(args[0]).Some?
  }

  /** index=self.idx (rendered by str()) and name=self.channels[self.idx]. */
  function ChannelFields(s: TvState): (f: map<string, string>)
    requires ValidState(s)
    ensures f.Keys == {"index", "name"}
    ensures f["index"] == NatToString(s.idx) && f["name"] == s.channels[s.idx]
  {
    map["index" := NatToString(s.idx), "name" := s.channels[s.idx]]
  }

  function StatusFields(s: TvState): (f: map<string, string>)
    requires ValidState(s)
    ensures f.Keys == {"state", "index", "name"}
    ensures f["state"] == (if s.on then "ON" else "OFF")
    ensures f["index"] == NatToString(s.idx) && f["name"] == s.channels[s.idx]
  {
    ChannelFields(s)["state" := if s.on then "ON" else "OFF"]
  }

  const TvOff: string := Renderer.RenderError("TV_OFF")
  const InvalidChannel: string := Renderer.RenderError("INVALID_CHANNEL")

  /**
   * SmartTV.handle as a function of the old fields: the new fields and the
   * reply. The three channel commands and GET_CHANNELS answer TV_OFF while
   * the television is off; GET_STATUS and QUIT answer whatever the power.
   */
  function Step(s: TvState, cmd: Command, args: seq<string>): (o: Outcome)
    requires ValidState(s) && ArgsFit(s, cmd, args)
    ensures ValidState(o.state) && o.state.channels == s.channels
    ensures o.state.on == (cmd == PowerOn || (cmd != PowerOff && s.on))
    ensures o.state.idx != s.idx ==> s.on && (cmd == SetChannel || cmd == ChannelUp || cmd == ChannelDown)
  {
    match cmd
    case PowerOn =>
      Outcome(s.(on := true), Legacy.RenderReply(PowerOn, map[]))
    case PowerOff =>
      Outcome(s.(on := false), Legacy.RenderReply(PowerOff, map[]))
    case GetChannels =>
      if !s.on then Outcome(s, TvOff)
      else Outcome(s, Legacy.RenderReply(GetChannels, map["channels" := Join(s.channels, ",")]))
    case SetChannel =>
      if !s.on then Outcome(s, TvOff)
      else
        var n := PyInt(args[0]).value;
        if !(0 <= n < |s.channels|) then Outcome(s, InvalidChannel)
        else
          var t := s.(idx := n);
          Outcome(t, Legacy.RenderReply(SetChannel, ChannelFields(t)))
    case ChannelUp =>
      if !s.on then Outcome(s, TvOff)
      else
        var t := s.(idx := (s.idx + 1) % |s.channels|);
        Outcome(t, Legacy.RenderReply(ChannelUp, ChannelFields(t)))
    case ChannelDown =>
      if !s.on then Outcome(s, TvOff)
      else
        var t := s.(idx := (s.idx - 1) % |s.channels|);
        Outcome(t, Legacy.RenderReply(ChannelDown, ChannelFields(t)))
    case GetStatus =>
      Outcome(s, Legacy.RenderReply(GetStatus, StatusFields(s)))
    case Quit =>
      Outcome(s, Legacy.RenderReply(Quit, map[]))
  }

  /** The television object of smart_tv.py. */
  class SmartTV {
    var on: bool
    var channels: seq<string>
    var idx: int

    ghost predicate Valid()
      reads this
    {
      ValidState(State())
    }

    function State(): TvState
      reads this
    {
      TvState(on, channels, idx)
    }

    constructor ()
      ensures Valid() && State() == Initial()
    {
      on := false;
      channels := DefaultChannels;
      idx := 0;
    }

    /** handle: update the fields in place and return the reply line. */
    method Handle(cmd: Command, args: seq<string>) returns (reply: string)
      requires Valid() && ArgsFit(State(), cmd, args)
      modifies this
      ensures Valid()
      ensures Outcome(State(), reply) == Step(old(State()), cmd, args)
    {
      match cmd
      case PowerOn =>
        on := true;
        reply := Legacy.RenderReply(PowerOn, map[]);
      case PowerOff =>
        on := false;
        reply := Legacy.RenderReply(PowerOff, map[]);
      case GetChannels =>
        if !on {
          reply := TvOff;
        } else {
          reply := Legacy.RenderReply(GetChannels, map["channels" := Join(channels, ",")]);
        }
      case SetChannel =>
        if !on {
          reply := TvOff;
        } else {
          var n := PyInt(args[0]).value;
          if !(0 <= n < |channels|) {
            reply := InvalidChannel;
          } else {
            idx := n;
            reply := Legacy.RenderReply(SetChannel, ChannelFields(State()));
          }
        }
      case ChannelUp =>
        if !on {
          reply := TvOff;
        } else {
          idx := (idx + 1) % |channels|;
          reply := Legacy.RenderReply(ChannelUp, ChannelFields(State()));
        }
      case ChannelDown =>
        if !on {
          reply := TvOff;
        } else {
          idx := (idx - 1) % |channels|;
          reply := Legacy.RenderReply(ChannelDown, ChannelFields(State()));
        }
      case GetStatus =>
        reply := Legacy.RenderReply(GetStatus, StatusFields(State()));
      case Quit =>
        reply := Legacy.RenderReply(Quit, map[]);
    }
  }

  // ---------------------------------------------------------------------------
  // Lemmas

  /** Every message either parser accepts can be handed to handle. */
  lemma ParsedMessagesFit(s: TvState, line: seq<Utf8.byte>)
    ensures Legacy.ParseLine(line).Ok? ==>
              ArgsFit(s, Legacy.ParseLine(line).value.command, Legacy.ParseLine(line).value.args)
  {
    if Legacy.ParseLine(line).Ok? {
      var m := Legacy.ParseLine(line).value;
      var d := Utf8.Decode(line).value;
      assert Legacy.ParseText(d) == Legacy.ParseLine(line);
    }
  }

  /** The same holds for the package parser. */
  lemma ParsedMessagesFitPackage(s: TvState, line: seq<Utf8.byte>)
    ensures Parser.ParseLine(line).Ok? ==>
              ArgsFit(s, Parser.ParseLine(line).value.command, Parser.ParseLine(line).value.args)
  {
    if Parser.ParseLine(line).Ok? {
      var d := Utf8.Decode(line).value;
      assert Parser.ParseText(d) == Parser.ParseLine(line);
    }
  }

  /** Power commands set the flag whatever it was and touch nothing else; QUIT changes nothing. */
  lemma PowerAndQuit(s: TvState, args: seq<string>)
    requires ValidState(s)
    ensures Step(s, PowerOn, args) == Outcome(s.(on := true), "OK POWER_ON")
    ensures Step(s, PowerOff, args) == Outcome(s.(on := false), "OK POWER_OFF")
    ensures Step(s, Quit, args) == Outcome(s, "OK BYE")
  {
    Renderer.ConstantReplies(map[]);
  }

  /** While the television is off, the channel commands change nothing and answer TV_OFF. */
  lemma PowerGating(s: TvState, cmd: Command, args: seq<string>)
    requires ValidState(s) && !s.on
    requires cmd == GetChannels || cmd == SetChannel || cmd == ChannelUp || cmd == ChannelDown
    ensures Step(s, cmd, args) == Outcome(s, "ERR TV_OFF")
  {
  }

  /** GET_CHANNELS lists the channel names separated by commas. */
  lemma ChannelsOutcome(s: TvState, args: seq<string>)
    requires ValidState(s) && s.on
    ensures Step(s, GetChannels, args) == Outcome(s, "CHANNELS " + Join(s.channels, ","))
  {
    Renderer.ChannelsReply(map["channels" := Join(s.channels, ",")]);
  }

  /**
   * SET_CHANNEL n selects channel n when 0 <= n < the number of channels and
   * answers with its index and name; any other integer changes nothing and
   * answers INVALID_CHANNEL.
   */
  lemma SetChannelOutcome(s: TvState, args: seq<string>)
    requires ValidState(s) && s.on && |args| > 0 && PyInt(args[0]).Some?
    ensures var n := PyInt(args[0]).value;
            Step(s, SetChannel, args) ==
              if 0 <= n < |s.channels| then
                Outcome(s.(idx := n), "OK CHANNEL " + NatToString(n) + " " + s.channels[n])
              else Outcome(s, "ERR INVALID_CHANNEL")
  {
    var n := PyInt(args[0]).value;
    if 0 <= n < |s.channels| {
      var t := s.(idx := n);
      var f := ChannelFields(t);
      Renderer.ChannelReply(SetChannel, f);
      assert Step(s, SetChannel, args) == Outcome(t, Legacy.RenderReply(SetChannel, f));
    } else {
      assert Step(s, SetChannel, args) == Outcome(s, InvalidChannel);
    }
  }

  /** CHANNEL_UP moves to the next channel, from the last one back to the first. */
  lemma ChannelUpOutcome(s: TvState, args: seq<string>)
    requires ValidState(s) && s.on
    ensures var i := if s.idx == |s.channels| - 1 then 0 else s.idx + 1;
            Step(s, ChannelUp, args) ==
              Outcome(s.(idx := i), "OK CHANNEL " + NatToString(i) + " " + s.channels[i])
  {
    var n := |s.channels|;
    var i := if s.idx == n - 1 then 0 else s.idx + 1;
    if s.idx == n - 1 { ModSelf(n); } else { ModSmall(s.idx + 1, n); }
    assert (s.idx + 1) % n == i;
    Renderer.ChannelReply(ChannelUp, ChannelFields(s.(idx := i)));
  }

  /** CHANNEL_DOWN moves to the previous channel, from the first one round to the last. */
  lemma ChannelDownOutcome(s: TvState, args: seq<string>)
    requires ValidState(s) && s.on
    ensures var i := if s.idx == 0 then |s.channels| - 1 else s.idx - 1;
            Step(s, ChannelDown, args) ==
              Outcome(s.(idx := i), "OK CHANNEL " + NatToString(i) + " " + s.channels[i])
  {
    var n := |s.channels|;
    var i := if s.idx == 0 then n - 1 else s.idx - 1;
    if s.idx == 0 { ModMinusOne(n); } else { ModSmall(s.idx - 1, n); }
    assert (s.idx - 1) % n == i;
    Renderer.ChannelReply(ChannelDown, ChannelFields(s.(idx := i)));
  }

  lemma ModSmall(x: int, n: int)
    requires 0 <= x < n
    ensures x % n == x
  {
  }

  lemma ModSelf(n: int)
    requires 0 < n
    ensures n % n == 0
  {
  }

  lemma ModMinusOne(n: int)
    requires 0 < n
    ensures (-1) % n == n - 1
  {
  }

  /** GET_STATUS reports the power state and the current channel, on or off, and changes nothing. */
  lemma StatusOutcome(s: TvState, args: seq<string>)
    requires ValidState(s)
    ensures Step(s, GetStatus, args) ==
              Outcome(s, "STATUS " + (if s.on then "ON" else "OFF") + " CURRENT "
                         + NatToString(s.idx) + " " + s.channels[s.idx])
  {
    Renderer.StatusReply(StatusFields(s));
  }

  /** CHANNEL_DOWN undoes CHANNEL_UP and the other way round. */
  lemma UpDownInverse(s: TvState, args: seq<string>)
    requires ValidState(s) && s.on
    ensures Step(Step(s, ChannelUp, args).state, ChannelDown, args).state == s
    ensures Step(Step(s, ChannelDown, args).state, ChannelUp, args).state == s
  {
    ChannelUpOutcome(s, args);
    ChannelDownOutcome(Step(s, ChannelUp, args).state, args);
    ChannelDownOutcome(s, args);
    ChannelUpOutcome(Step(s, ChannelDown, args).state, args);
  }

  /** The state after pressing CHANNEL_UP or CHANNEL_DOWN k times. */
  function Press(s: TvState, cmd: Command, k: nat): (t: TvState)
    requires ValidState(s) && (cmd == ChannelUp || cmd == ChannelDown)
    ensures ValidState(t) && t.channels == s.channels && t.on == s.on
    decreases k
  {
    if k == 0 then s else Press(Step(s, cmd, []).state, cmd, k - 1)
  }

  /**
   * Up to one full round, k presses of CHANNEL_UP advance the index by k,
   * wrapping past the last channel to the first.
   */
  lemma {:induction false} PressUp(s: TvState, k: nat)
    requires ValidState(s) && s.on && k <= |s.channels|
    ensures Press(s, ChannelUp, k).idx ==
              if s.idx + k < |s.channels| then s.idx + k else s.idx + k - |s.channels|
    decreases k
  {
    if k > 0 {
      var t := Step(s, ChannelUp, []).state;
      ChannelUpOutcome(s, []);
      assert t.idx == if s.idx == |s.channels| - 1 then 0 else s.idx + 1;
      assert Press(s, ChannelUp, k) == Press(t, ChannelUp, k - 1);
      PressUp(t, k - 1);
    }
  }

  /** Pressing CHANNEL_UP once per channel comes back to the channel one started from. */
  lemma FullCycle(s: TvState)
    requires ValidState(s) && s.on
    ensures Press(s, ChannelUp, |s.channels|) == s
  {
    PressUp(s, |s.channels|);
  }

  /**
   * Up to one full round, k presses of CHANNEL_DOWN move the index back by
   * k, wrapping past the first channel to the last.
   */
  lemma {:induction false} PressDown(s: TvState, k: nat)
    requires ValidState(s) && s.on && k <= |s.channels|
    ensures Press(s, ChannelDown, k).idx ==
              if s.idx - k >= 0 then s.idx - k else s.idx - k + |s.channels|
    decreases k
  {
    if k > 0 {
      var t := Step(s, ChannelDown, []).state;
      ChannelDownOutcome(s, []);
      assert t.idx == if s.idx == 0 then |s.channels| - 1 else s.idx - 1;
      assert Press(s, ChannelDown, k) == Press(t, ChannelDown, k - 1);
      PressDown(t, k - 1);
    }
  }

  /** Pressing CHANNEL_DOWN once per channel also comes back to the start. */
  lemma FullCycleDown(s: TvState)
    requires ValidState(s) && s.on
    ensures Press(s, ChannelDown, |s.channels|) == s
  {
    PressDown(s, |s.channels|);
  }

  /**
   * Every command the television knows has a branch of its own and every
   * template gets the values it names: handle never falls through to the
   * UNHANDLED reply and never answers TEMPLATE_MISSING_DATA.
   */
  lemma RepliesAreHandled(s: TvState, cmd: Command, args: seq<string>)
    requires ValidState(s) && ArgsFit(s, cmd, args)
    ensures Step(s, cmd, args).reply != Renderer.Unhandled
    ensures Step(s, cmd, args).reply != Renderer.MissingData
  {
    var r := Step(s, cmd, args).reply;
    if cmd == PowerOn || cmd == PowerOff || cmd == Quit {
      PowerAndQuit(s, args);
      assert r[0] == 'O';
    } else if !s.on && cmd != GetStatus {
      PowerGating(s, cmd, args);
      assert |r| == 10;
    } else if cmd == GetChannels {
      ChannelsOutcome(s, args);
      assert ("CHANNELS " + Join(s.channels, ","))[0] == 'C';
    } else if cmd == GetStatus {
      StatusOutcome(s, args);
      assert r[0] == 'S';
    } else if cmd == SetChannel {
      SetChannelOutcome(s, args);
      var n := PyInt(args[0]).value;
      if 0 <= n < |s.channels| {
        ChannelLine(NatToString(n), s.channels[n]);
      } else {
        assert |r| == 19;
      }
    } else if cmd == ChannelUp {
      ChannelUpOutcome(s, args);
      var i := if s.idx == |s.channels| - 1 then 0 else s.idx + 1;
      ChannelLine(NatToString(i), s.channels[i]);
    } else {
      ChannelDownOutcome(s, args);
      var i := if s.idx == 0 then |s.channels| - 1 else s.idx - 1;
      ChannelLine(NatToString(i), s.channels[i]);
    }
  }

  lemma ChannelLine(i: string, name: string)
    ensures ("OK CHANNEL " + i + " " + name)[0] == 'O'
  {
  }

  /** A session from power-up: select channel 2, ask for the status, zap up twice, switch off. */
  lemma Session()
    ensures var s0 := Initial();
            var o1 := Step(s0, PowerOn, []);
            var o2 := Step(o1.state, SetChannel, ["2"]);
            var o3 := Step(o2.state, GetStatus, []);
            var o4 := Step(o3.state, ChannelUp, []);
            var o5 := Step(o4.state, ChannelUp, []);
            var o6 := Step(o5.state, PowerOff, []);
            var o7 := Step(o6.state, GetChannels, []);
            && o1.reply == "OK POWER_ON"
            && o2.reply == "OK CHANNEL 2 TV2"
            && o3.reply == "STATUS ON CURRENT 2 TV2"
            && o4.reply == "OK CHANNEL 3 TV3"
            && o5.reply == "OK CHANNEL 0 NRK1"
            && o7.reply == "ERR TV_OFF"
  {
    PowerAndQuit(Initial(), []);
    SelectTwo();
    StatusOnTwo();
    UpFromTwo();
    UpFromThree();
    PowerAndQuit(TvState(true, DefaultChannels, 0), []);
    PowerGating(TvState(false, DefaultChannels, 0), GetChannels, []);
  }

  lemma SelectTwo()
    ensures Step(TvState(true, DefaultChannels, 0), SetChannel, ["2"])
            == Outcome(TvState(true, DefaultChannels, 2), "OK CHANNEL 2 TV2")
  {
    var s := TvState(true, DefaultChannels, 0);
    TwoIsChannelTwo();
    SetChannelOutcome(s, ["2"]);
    assert s.channels[2] == "TV2";
    assert "OK CHANNEL " + "2" + " " + "TV2" == "OK CHANNEL 2 TV2";
  }

  lemma TwoIsChannelTwo()
    ensures NatToString(2) == "2" && PyInt("2") == Errors.Some(2)
  {
    assert NatToString(2) == "2";
    NatToStringRoundTrip(2);
  }

  lemma StatusOnTwo()
    ensures Step(TvState(true, DefaultChannels, 2), GetStatus, [])
            == Outcome(TvState(true, DefaultChannels, 2), "STATUS ON CURRENT 2 TV2")
  {
    var s := TvState(true, DefaultChannels, 2);
    StatusOutcome(s, []);
    assert NatToString(2) == "2";
    assert s.channels[s.idx] == "TV2";
    StatusTwoText();
  }

  lemma StatusTwoText()
    ensures "STATUS " + "ON" + " CURRENT " + "2" + " " + "TV2" == "STATUS ON CURRENT 2 TV2"
  {
  }

  lemma UpFromTwo()
    ensures Step(TvState(true, DefaultChannels, 2), ChannelUp, [])
            == Outcome(TvState(true, DefaultChannels, 3), "OK CHANNEL 3 TV3")
  {
    assert NatToString(3) == "3";
    ChannelUpOutcome(TvState(true, DefaultChannels, 2), []);
  }

  lemma UpFromThree()
    ensures Step(TvState(true, DefaultChannels, 3), ChannelUp, [])
            == Outcome(TvState(true, DefaultChannels, 0), "OK CHANNEL 0 NRK1")
  {
    assert NatToString(0) == "0";
    ChannelUpOutcome(TvState(true, DefaultChannels, 3), []);
  }
}
