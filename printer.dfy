/**
 * The console printer the plugin gives the scripting runtime: a
 * `console.*` call is joined into one line and routed, by log level, to
 * one of the host's three console sinks.
 */
module Printer {
  import opened Wrappers
  import Spew

  /** The runtime's console log levels. */
  datatype LogLevel =
    | Assert | Count | CountReset | Debug | Dir | DirXML | Error | Group
    | GroupCollapsed | Info | Log | TimeEnd | TimeLog | Trace | Warn

  /**
   * What the runtime hands the printer: a group header, a stack trace, or
   * the call's values (each already rendered as text).
   */
  datatype PrinterArguments =
    | GroupArguments(heading: string)
    | TraceArguments(heading: string, stack: seq<string>)
    | ValueArguments(values: seq<string>)

  /** The host sinks: ConColorMsg with a colour, Msg, Warning. */
  datatype Sink = ColorMsg(color: Spew.Color) | Msg | Warning

  datatype Emission = Emission(sink: Sink, text: string)

  const DebugColor: Spew.Color := Spew.Color(50, 170, 80)
  const ErrorColor: Spew.Color := Spew.Color(255, 0, 0)
  const InfoColor: Spew.Color := Spew.Color(170, 220, 255)

  /** The sink for each level; every level not named falls back to Msg. */
  function SinkFor(level: LogLevel): (s: Sink)
    ensures s == ColorMsg(DebugColor) <==> level == Debug
    ensures s == ColorMsg(ErrorColor) <==> level == Error || level == Assert
    ensures s == ColorMsg(InfoColor) <==> level == Info
    ensures s.Warning? <==> level == Warn || level == CountReset
    ensures s.Msg? <==> !(level in {Debug, Error, Assert, Info, Warn, CountReset})
  {
    match level
    case Debug => ColorMsg(DebugColor)
    case Error | Assert => ColorMsg(ErrorColor)
    case Info => ColorMsg(InfoColor)
    case Log => Msg
    case Warn | CountReset => Warning
    case _ => Msg
  }

  /** The values with `sep` between neighbours. */
  function Join(values: seq<string>, sep: char): string {
    if |values| == 0 then ""
    else if |values| == 1 then values[0]
    else values[0] + [sep] + Join(values[1..], sep)
  }

  /** The values contain no space, so the joined text can be split apart again. */
  predicate SpaceFree(values: seq<string>) {
    forall i :: 0 <= i < |values| ==> ' ' !in values[i]
  }

  /**
   * What the printer emits: the values joined by spaces and ended by a
   * newline, on the level's sink; nothing for groups and traces.
   */
  function Print(level: LogLevel, args: PrinterArguments): (e: Option<Emission>)
    ensures e.Some? <==> args.ValueArguments?
    ensures e.Some? ==> e.value.sink == SinkFor(level)
    ensures e.Some? ==> |e.value.text| > 0 && e.value.text[|e.value.text| - 1] == '\n'
    ensures e.Some? ==> e.value.text == Join(args.values, ' ') + "\n"
    ensures e.Some? && |args.values| == 0 ==> e.value.text == "\n"
    ensures e.Some? && |args.values| > 0 && SpaceFree(args.values) ==>
              Split(e.value.text[..|e.value.text| - 1], ' ') == args.values
  {
    match args
    case ValueArguments(values) =>
      var line := Join(values, ' ');
      assert (line + "\n")[..|line|] == line;
      assert |values| > 0 && SpaceFree(values) ==> Split(line, ' ') == values by {
        if |values| > 0 && SpaceFree(values) {
          SplitJoin(values, ' ');
        }
      }
      Some(Emission(SinkFor(level), line + "\n"))
    case _ => None
  }

  // ---------------------------------------------------------------------
  // Splitting on the separator is the partner of Join.

  function IndexOf(s: string, c: char): (r: Option<nat>)
    ensures r.Some? ==> r.value < |s| && s[r.value] == c && c !in s[..r.value]
    ensures r.None? ==> c !in s
  {
    if |s| == 0 then None
    else if s[0] == c then Some(0)
    else
      match IndexOf(s[1..], c)
      case None => None
      case Some(i) =>
        assert s[..i + 1] == [s[0]] + s[1..][..i];
        Some(i + 1)
  }

  function Split(s: string, c: char): (parts: seq<string>)
    ensures |parts| > 0
    decreases |s|
  {
    match IndexOf(s, c)
    case None => [s]
    case Some(i) => [s[..i]] + Split(s[i + 1..], c)
  }

  lemma {:induction false} IndexOfFirst(v: string, c: char, rest: string)
    requires c !in v
    ensures IndexOf(v + [c] + rest, c) == Some(|v|)
  {
    if |v| > 0 {
      assert (v + [c] + rest)[1..] == v[1..] + [c] + rest;
      IndexOfFirst(v[1..], c, rest);
    }
  }

  /** Splitting the joined line on the separator gives back the values, when none contains it. */
  lemma {:induction false} SplitJoin(values: seq<string>, c: char)
    requires |values| > 0
    requires forall i :: 0 <= i < |values| ==> c !in values[i]
    ensures Split(Join(values, c), c) == values
  {
    if |values| == 1 {
      assert IndexOf(values[0], c).None?;
    } else {
      var v, j := values[0], Join(values[1..], c);
      IndexOfFirst(v, c, j);
      var s := v + [c] + j;
      assert s[..|v|] == v && s[|v| + 1..] == j;
      SplitJoin(values[1..], c);
    }
  }
}
