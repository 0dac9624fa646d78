/** `ConsoleWriter.WriteMessage` as the list of console actions it performs, and a small
    console whose colours those actions change, to say what the list means. */
module ConsoleWriter {
  import opened Wrappers

  /** `System.ConsoleColor`. */
  datatype Color =
    | Black | DarkBlue | DarkGreen | DarkCyan | DarkRed | DarkMagenta | DarkYellow | Gray
    | DarkGray | Blue | Green | Cyan | Red | Magenta | Yellow | White

  /** One call on the console: set a colour, write a line, or restore the default colours. */
  datatype ConsoleAction =
    | SetForeground(fg: Color)
    | SetBackground(bg: Color)
    | WriteLine(text: string)
    | ResetColor

  /** The texts written by `actions`, in order. */
  function Written(actions: seq<ConsoleAction>): seq<string> {
    if actions == [] then []
    else (if actions[0].WriteLine? then [actions[0].text] else []) + Written(actions[1..])
  }

  /** How many times `actions` restores the default colours. */
  function Resets(actions: seq<ConsoleAction>): nat {
    if actions == [] then 0
    else (if actions[0].ResetColor? then 1 else 0) + Resets(actions[1..])
  }

  /** Writes a (nullable) message, in the given colours when they are supplied, and
      restores the default colours afterwards when it changed any. */
  function WriteMessage(message: Option<string>, fg: Option<Color>, bg: Option<Color>): (r: seq<ConsoleAction>)
    ensures message.None? <==> r == []
    ensures message.Some? ==> Written(r) == [message.value]
    ensures Resets(r) == (if message.Some? && (fg.Some? || bg.Some?) then 1 else 0)
    ensures forall i :: 0 <= i < |r| && r[i].SetForeground? ==> fg == Some(r[i].fg)
    ensures forall i :: 0 <= i < |r| && r[i].SetBackground? ==> bg == Some(r[i].bg)
  {
    match message
    case None => []
    case Some(text) =>
      var colours := (if fg.Some? then [SetForeground(fg.value)] else [])
                   + (if bg.Some? then [SetBackground(bg.value)] else []);
      var r := colours + [WriteLine(text)] + (if fg.Some? || bg.Some? then [ResetColor] else []);
      WrittenResetsAppend(colours, [WriteLine(text)]);
      WrittenResetsAppend(colours + [WriteLine(text)], if fg.Some? || bg.Some? then [ResetColor] else []);
      r
  }

  lemma {:induction false} WrittenResetsAppend(a: seq<ConsoleAction>, b: seq<ConsoleAction>)
    ensures Written(a + b) == Written(a) + Written(b)
    ensures Resets(a + b) == Resets(a) + Resets(b)
  {
    if a == [] {
      assert a + b == b;
    } else {
      assert (a + b)[1..] == a[1..] + b;
      WrittenResetsAppend(a[1..], b);
    }
  }

  /** The console's current colours. */
  datatype Colors = Colors(fg: Color, bg: Color)

  /** A line as it appears on the console: its text and the colours it was written in. */
  datatype Styled = Styled(text: string, fg: Color, bg: Color)

  /** What the console shows after `actions`: the lines written, in order and in the
      colours current at the time, and the colours left current at the end.
      `ResetColor` restores `defaults`. */
  datatype Screen = Screen(lines: seq<Styled>, current: Colors)

  function Render(actions: seq<ConsoleAction>, current: Colors, defaults: Colors): Screen
    decreases |actions|
  {
    if actions == [] then Screen([], current)
    else
      var next := match actions[0]
        case SetForeground(c) => current.(fg := c)
        case SetBackground(c) => current.(bg := c)
        case WriteLine(_) => current
        case ResetColor => defaults;
      var rest := Render(actions[1..], next, defaults);
      if actions[0].WriteLine? then
        Screen([Styled(actions[0].text, current.fg, current.bg)] + rest.lines, rest.current)
      else rest
  }

  /** A message is shown once, in the supplied colours (the current ones where none is
      supplied); afterwards the console is back at its defaults if any colour was
      supplied and untouched otherwise. A null message shows nothing and changes nothing. */
  lemma WriteMessageShows(message: Option<string>, fg: Option<Color>, bg: Option<Color>, current: Colors, defaults: Colors)
    ensures message.None? ==> Render(WriteMessage(message, fg, bg), current, defaults) == Screen([], current)
    ensures message.Some? ==>
      Render(WriteMessage(message, fg, bg), current, defaults)
        == Screen([Styled(message.value, fg.GetOr(current.fg), bg.GetOr(current.bg))],
                  if fg.Some? || bg.Some? then defaults else current)
  {
    if message.Some? {
      var m := message.value;
      var r := WriteMessage(message, fg, bg);
      var reset := if fg.Some? || bg.Some? then [ResetColor] else [];
      var tail := [WriteLine(m)] + reset;
      var shown := Colors(fg.GetOr(current.fg), bg.GetOr(current.bg));
      var final := if fg.Some? || bg.Some? then defaults else current;
      assert Render(reset, shown, defaults) == Screen([], final) by {
        if reset != [] {
          assert reset[1..] == [];
        }
      }
      assert tail[1..] == reset;
      assert Render(tail, shown, defaults) == Screen([Styled(m, shown.fg, shown.bg)], final);
      if fg.Some? && bg.Some? {
        assert r == [SetForeground(fg.value), SetBackground(bg.value)] + tail;
        assert r[1..] == [SetBackground(bg.value)] + tail;
        assert r[1..][1..] == tail;
      } else if fg.Some? {
        assert r == [SetForeground(fg.value)] + tail;
        assert r[1..] == tail;
      } else if bg.Some? {
        assert r == [SetBackground(bg.value)] + tail;
        assert r[1..] == tail;
      } else {
        assert r == tail;
      }
    }
  }
}
