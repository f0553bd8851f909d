/**
 * Rendering: each `FormatItem::format` and `LogFormatter::format`. The time
 * item's `localtime_r` + `strftime` is the parameter `strftime`, a function
 * of (format, timestamp).
 */
module Render {
  import opened Text
  import opened Levels
  import opened Pattern
  import opened Items
  import opened Records

  /** `localtime_r` followed by `strftime`: a function of the format and the timestamp. */
  type Strftime = (string, u32) -> string

  /** The text one item appends to the stream for an event dispatched at `level`. */
  function RenderItem(it: Item, level: Level, e: Event, strftime: Strftime): (r: string)
    ensures it.Str? ==> r == it.text
    ensures it == Message ==> r == e.content
    ensures it == LevelName ==> r == ToString(level)
    ensures it == Tab ==> r == "\t"
    ensures it == NewLine ==> r == "\n"
    ensures it == Name ==> r == e.name
    ensures it == File ==> r == e.file
    ensures it.Time? ==> r == strftime(it.format, e.time)
    ensures it == Elapse ==> r == NatToString(e.elapse)
    ensures it == ThreadId ==> r == NatToString(e.threadId)
    ensures it == FiberId ==> r == NatToString(e.fiberId)
    ensures it == Line ==> r == IntToString(e.line)
    ensures it in {Elapse, ThreadId, FiberId, Line} ==> r != [] && forall k :: 1 <= k < |r| ==> IsDigit(r[k])
  {
    match it
    case Message => e.content
    case LevelName => ToString(level)
    case Elapse => NatToString(e.elapse)
    case ThreadId => NatToString(e.threadId)
    case NewLine => "\n"
    case Time(format) => strftime(format, e.time)
    case File => e.file
    case Line => IntToString(e.line)
    case Tab => "\t"
    case FiberId => NatToString(e.fiberId)
    case Name => e.name
    case Str(text) => text
  }

  /** The items' texts, concatenated in order. */
  function Render(items: seq<Item>, level: Level, e: Event, strftime: Strftime): string
  {
    if items == [] then []
    else RenderItem(items[0], level, e, strftime) + Render(items[1..], level, e, strftime)
  }

  /** Rendering a concatenation of item lists concatenates the renderings. */
  lemma {:induction false} RenderAppend(a: seq<Item>, b: seq<Item>, level: Level, e: Event,
                                        strftime: Strftime)
    ensures Render(a + b, level, e, strftime) == Render(a, level, e, strftime) + Render(b, level, e, strftime)
    decreases |a|
  {
    if a == [] {
      assert a + b == b;
    } else {
      assert (a + b)[1..] == a[1..] + b;
      RenderAppend(a[1..], b, level, e, strftime);
    }
  }

  /**
   * `LogFormatter::format`: every item writes into one stream, in order; the
   * result is the rendering of the whole item list.
   */
  method Format(f: Formatter, level: Level, e: Event, strftime: Strftime) returns (out: string)
    ensures out == Render(f.items, level, e, strftime)
  {
    out := [];
    var k := 0;
    while k < |f.items|
      invariant 0 <= k <= |f.items|
      invariant out == Render(f.items[..k], level, e, strftime)
    {
      RenderPrefix(f.items, k, level, e, strftime);
      out := out + RenderItem(f.items[k], level, e, strftime);
      k := k + 1;
    }
    assert f.items[..k] == f.items;
  }

  /** Rendering one more item of a list extends the rendering of the prefix by that item's text. */
  lemma RenderPrefix(items: seq<Item>, k: nat, level: Level, e: Event, strftime: Strftime)
    requires k < |items|
    ensures Render(items[..k + 1], level, e, strftime)
         == Render(items[..k], level, e, strftime) + RenderItem(items[k], level, e, strftime)
  {
    RenderAppend(items[..k], [items[k]], level, e, strftime);
    assert items[..k + 1] == items[..k] + [items[k]];
    assert Render([items[k]], level, e, strftime) == RenderItem(items[k], level, e, strftime) + Render([], level, e, strftime);
  }

  /** Rendering reads the level it is given, never the event's own level. */
  lemma {:induction false} RenderIgnoresEventLevel(items: seq<Item>, level: Level, e: Event, l: Level,
                                                   strftime: Strftime)
    ensures Render(items, level, e, strftime) == Render(items, level, e.(level := l), strftime)
    decreases |items|
  {
    if items != [] {
      RenderIgnoresEventLevel(items[1..], level, e, l, strftime);
    }
  }

  /** The formatter's output as a value, for use in specifications. */
  function FormatText(f: Formatter, level: Level, e: Event, strftime: Strftime): string {
    Render(f.items, level, e, strftime)
  }

  /** A pattern without `%` renders as itself, whatever the event. */
  lemma NoPercentRendersItself(p: string, level: Level, e: Event, strftime: Strftime)
    requires forall m :: 0 <= m < |p| ==> p[m] != '%'
    ensures Render(Compile(p), level, e, strftime) == p
  {
    NoPercentCompiles(p);
    if p != [] {
      assert Render([Str(p)], level, e, strftime) == p + Render([], level, e, strftime);
    }
  }

  /** `%m%n` against the content "hello" renders exactly "hello\n". */
  lemma MessageNewLineExample(level: Level, e: Event, strftime: Strftime)
    requires e.content == "hello"
    ensures Render(Compile("%m%n"), level, e, strftime) == "hello\n"
  {
    var p := "%m%n";
    SimpleDirectiveStep(p, 0, "", []);
    assert p[1..2] == "m";
    SimpleDirectiveStep(p, 2, "", [Directive("m", "")]);
    assert p[3..4] == "n";
    assert Entries(p) == [Directive("m", ""), Directive("n", "")];
    assert Compile(p) == [Message, NewLine];
    assert [Message, NewLine][1..] == [NewLine];
    assert Render([NewLine], level, e, strftime) == "\n" + Render([], level, e, strftime);
  }

  /** `%d{%Y}` renders the strftime of "%Y" and nothing else. */
  lemma YearOnlyExample(level: Level, e: Event, strftime: Strftime)
    ensures Render(Compile("%d{%Y}"), level, e, strftime) == strftime("%Y", e.time)
  {
    TimeBlockExample();
    assert Render([Time("%Y")], level, e, strftime) == strftime("%Y", e.time) + Render([], level, e, strftime);
  }
}
