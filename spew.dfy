/**
 * The spew colorizer that the plugin installs as tier0's spew output
 * function on a dedicated POSIX server. Given the spew type, the colour
 * tier0 reports for the current spew and the message, it either hands the
 * message to the original output function untouched or hands it a copy
 * wrapped in an ANSI 24-bit foreground escape (ECMA-48 SGR `38;2;R;G;B`)
 * whose reset is moved in front of a trailing newline.
 */
module Spew {
  import opened Wrappers
  import opened Decimal

  type Byte = x: int | 0 <= x < 256

  /** The red, green and blue channels of tier0's Color (alpha is never read here). */
  datatype Color = Color(r: Byte, g: Byte, b: Byte)

  /** tier0's SpewType_t, in declaration order. */
  datatype SpewType = SpewMessage | SpewWarning | SpewAssert | SpewError | SpewLog

  const SpewTypeCount: nat := 5

  function Index(t: SpewType): (i: nat)
    ensures i < SpewTypeCount
  {
    match t
    case SpewMessage => 0
    case SpewWarning => 1
    case SpewAssert => 2
    case SpewError => 3
    case SpewLog => 4
  }

  /** tier0's default output colour; a spew in this colour has not asked for one. */
  const White: Color := Color(255, 255, 255)

  /**
   * Fallback colour per spew type. The table has SPEW_TYPE_COUNT slots and
   * four initialisers, so the slot of SPEW_LOG is an empty Optional too.
   */
  const DefaultSpewColors: seq<Option<Color>> :=
    [None, Some(Color(255, 90, 90)), Some(Color(255, 20, 20)), Some(Color(20, 70, 255)), None]

  const Esc: char := '\U{1B}'
  /** Everything of the SGR true-colour foreground escape before the red channel. */
  const SgrIntro: string := [Esc] + "[38;2;"
  /** SGR 0: all attributes off. */
  const Reset: string := [Esc] + "[0m"

  /** One channel in decimal followed by the character that ends it. */
  function ChannelText(n: Byte, terminator: char): string {
    Digits(n) + [terminator]
  }

  /** `R;G;Bm` in decimal. */
  function Channels(c: Color): string {
    ChannelText(c.r, ';') + ChannelText(c.g, ';') + ChannelText(c.b, 'm')
  }

  function ColorPrefix(c: Color): string {
    SgrIntro + Channels(c)
  }

  predicate EndsWithNewline(s: string) {
    |s| > 0 && s[|s| - 1] == '\n'
  }

  /** What the colorizer hands to the original output function. */
  datatype Forward = PassThrough | Recolored(text: string)

  /** The colour the escape carries, or None when the message is to be left alone. */
  function ChosenColor(t: SpewType, current: Color): (c: Option<Color>)
    ensures t == SpewLog ==> c.None?
    ensures t != SpewLog && current != White ==> c == Some(current)
    ensures t != SpewLog && current == White ==> c == DefaultSpewColors[Index(t)]
  {
    if t == SpewLog then None
    else if current == White then DefaultSpewColors[Index(t)]
    else Some(current)
  }

  /** The message followed by the reset, with the reset moved in front of a trailing newline. */
  function Enclose(msg: string): (r: string)
    ensures |r| == |msg| + |Reset|
    ensures EndsWithNewline(r) <==> EndsWithNewline(msg)
    ensures EndsWithNewline(msg) ==> r[..|msg| - 1] == msg[..|msg| - 1] && r[|r| - 1 - |Reset|..|r| - 1] == Reset
    ensures !EndsWithNewline(msg) ==> r[..|msg|] == msg && r[|r| - |Reset|..] == Reset
  {
    if EndsWithNewline(msg) then msg[..|msg| - 1] + Reset + "\n" else msg + Reset
  }

  /** The message in the colour escape. */
  function Wrap(c: Color, msg: string): string {
    ColorPrefix(c) + Enclose(msg)
  }

  /** The colorizer as a function of (spew type, current colour, message). */
  function Colorize(t: SpewType, current: Color, msg: string): (f: Forward)
    ensures f.PassThrough? <==> t == SpewLog || (current == White && DefaultSpewColors[Index(t)].None?)
    ensures f.Recolored? ==> Decolorize(f.text) == Some((ChosenColor(t, current).value, msg))
  {
    match ChosenColor(t, current)
    case None => PassThrough
    case Some(c) =>
      DecolorizeWrap(c, msg);
      Recolored(Wrap(c, msg))
  }

  /** The text the original output function receives. */
  function Forwarded(t: SpewType, current: Color, msg: string): (out: string)
    ensures t == SpewLog ==> out == msg
    ensures Colorize(t, current, msg).PassThrough? ==> out == msg
  {
    match Colorize(t, current, msg)
    case PassThrough => msg
    case Recolored(text) => text
  }

  // ---------------------------------------------------------------------
  // An independent reader of colorized output, used as the partner of Wrap.

  /** Reads one channel value followed by `terminator`. */
  function ParseChannel(s: string, terminator: char): Option<(Byte, string)> {
    match ParseNat(s)
    case None => None
    case Some((n, rest)) =>
      if n < 256 && |rest| > 0 && rest[0] == terminator then Some((n as Byte, rest[1..])) else None
  }

  /** Reads `R;G;Bm` and returns the colour and what follows the `m`. */
  function ParseChannels(s: string): Option<(Color, string)> {
    match ParseChannel(s, ';')
    case None => None
    case Some((r, s1)) =>
      match ParseChannel(s1, ';')
      case None => None
      case Some((g, s2)) =>
        match ParseChannel(s2, 'm')
        case None => None
        case Some((b, body)) => Some((Color(r, g, b), body))
  }

  /** Takes the reset off the body, putting a trailing newline back where it was. */
  function Unreset(body: string): Option<string> {
    if EndsWithNewline(body) then
      if |body| >= |Reset| + 1 && body[|body| - 1 - |Reset|..|body| - 1] == Reset
      then Some(body[..|body| - 1 - |Reset|] + "\n")
      else None
    else if |body| >= |Reset| && body[|body| - |Reset|..] == Reset
    then Some(body[..|body| - |Reset|])
    else None
  }

  /** Recovers the colour and the original message from colorized text. */
  function Decolorize(s: string): Option<(Color, string)> {
    if |s| < |SgrIntro| || s[..|SgrIntro|] != SgrIntro then None
    else
      match ParseChannels(s[|SgrIntro|..])
      case None => None
      case Some((c, body)) =>
        match Unreset(body)
        case None => None
        case Some(msg) => Some((c, msg))
  }

  lemma ParseChannelText(n: Byte, terminator: char, rest: string)
    requires !IsDigit(terminator)
    ensures ParseChannel(ChannelText(n, terminator) + rest, terminator) == Some((n, rest))
  {
    var tail := [terminator] + rest;
    assert ChannelText(n, terminator) + rest == Digits(n) + tail;
    ParseDigits(n, tail);
    assert tail[1..] == rest;
  }

  lemma ParseChannelsText(c: Color, body: string)
    ensures ParseChannels(Channels(c) + body) == Some((c, body))
  {
    var s2 := ChannelText(c.b, 'm') + body;
    var s1 := ChannelText(c.g, ';') + s2;
    assert Channels(c) + body == ChannelText(c.r, ';') + s1;
    ParseChannelText(c.r, ';', s1);
    ParseChannelText(c.g, ';', s2);
    ParseChannelText(c.b, 'm', body);
  }

  lemma ParsePrefix(c: Color, body: string)
    ensures ParseChannels((ColorPrefix(c) + body)[|SgrIntro|..]) == Some((c, body))
  {
    assert (ColorPrefix(c) + body)[|SgrIntro|..] == Channels(c) + body;
    ParseChannelsText(c, body);
  }

  lemma DecolorizePrefixed(c: Color, body: string)
    ensures Decolorize(ColorPrefix(c) + body)
         == match Unreset(body) case None => None case Some(msg) => Some((c, msg))
  {
    assert (ColorPrefix(c) + body)[..|SgrIntro|] == SgrIntro;
    ParsePrefix(c, body);
  }

  /** Unreset undoes Enclose. */
  lemma UnresetEnclose(msg: string)
    ensures Unreset(Enclose(msg)) == Some(msg)
  {
    var body := Enclose(msg);
    if EndsWithNewline(msg) {
      assert body[..|body| - 1 - |Reset|] == msg[..|msg| - 1];
      assert msg[..|msg| - 1] + "\n" == msg;
    } else {
      assert body[..|body| - |Reset|] == msg;
    }
  }

  /** Decolorize undoes Wrap: the colour and the message come back unchanged. */
  lemma DecolorizeWrap(c: Color, msg: string)
    ensures Decolorize(Wrap(c, msg)) == Some((c, msg))
  {
    DecolorizePrefixed(c, Enclose(msg));
    UnresetEnclose(msg);
  }

  /** A SPEW_LOG message reaches the original output function byte for byte, whatever the colour. */
  lemma LogNeverTouched(current: Color, msg: string)
    ensures Colorize(SpewLog, current, msg) == PassThrough
    ensures Forwarded(SpewLog, current, msg) == msg
  {
  }

  lemma NewlineAtEnd(p: string, e: string)
    requires |e| > 0
    ensures EndsWithNewline(p + e) <==> EndsWithNewline(e)
  {
    assert (p + e)[|p + e| - 1] == e[|e| - 1];
  }

  /**
   * Exact shape of a recoloured message: prefix, message without its
   * newline, reset, newline; or prefix, message, reset. Either way the
   * output ends in a newline exactly when the message does.
   */
  lemma {:induction false} RecoloredShape(t: SpewType, current: Color, msg: string)
    requires ChosenColor(t, current).Some?
    ensures var p := ColorPrefix(ChosenColor(t, current).value);
            var out := Forwarded(t, current, msg);
            && (EndsWithNewline(msg) ==> out == p + (msg[..|msg| - 1] + Reset + "\n"))
            && (!EndsWithNewline(msg) ==> out == p + (msg + Reset))
            && (EndsWithNewline(out) <==> EndsWithNewline(msg))
  {
    var p := ColorPrefix(ChosenColor(t, current).value);
    var e := Enclose(msg);
    assert Forwarded(t, current, msg) == p + e;
    NewlineAtEnd(p, e);
  }

  /** Whatever colour was chosen, decolorizing the forwarded text recovers it and the message. */
  lemma ForwardedRoundTrip(t: SpewType, current: Color, msg: string)
    requires ChosenColor(t, current).Some?
    ensures Decolorize(Forwarded(t, current, msg)) == Some((ChosenColor(t, current).value, msg))
  {
    var c := ChosenColor(t, current).value;
    assert Forwarded(t, current, msg) == Wrap(c, msg);
    DecolorizeWrap(c, msg);
  }

  /** The colour in the escape is the spew's own colour unless that is white, else the table's slot. */
  lemma {:induction false} EscapeColor(t: SpewType, current: Color, msg: string)
    requires t != SpewLog
    ensures current != White ==> Decolorize(Forwarded(t, current, msg)) == Some((current, msg))
    ensures current == White && t == SpewWarning ==> Decolorize(Forwarded(t, current, msg)) == Some((Color(255, 90, 90), msg))
    ensures current == White && t == SpewAssert ==> Decolorize(Forwarded(t, current, msg)) == Some((Color(255, 20, 20), msg))
    ensures current == White && t == SpewError ==> Decolorize(Forwarded(t, current, msg)) == Some((Color(20, 70, 255), msg))
    ensures current == White && t == SpewMessage ==> Forwarded(t, current, msg) == msg
  {
    if ChosenColor(t, current).Some? {
      ForwardedRoundTrip(t, current, msg);
    }
  }
}
