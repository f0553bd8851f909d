/**
 * The eleven `FormatItem` renderers plus the literal item, the key table of
 * `LogFormatter::init`, and the compiled formatter.
 */
module Items {
  import opened Wrappers
  import opened Text
  import opened Pattern

  /** The `FormatItem` subclasses as a closed set of variants. */
  datatype Item =
    | Message            // %m  the event's content
    | LevelName          // %p  the dispatch level's name
    | Elapse             // %r  elapsed milliseconds
    | ThreadId           // %t
    | NewLine            // %n
    | Time(format: string)  // %d{fmt}  strftime of the event's timestamp
    | File               // %f
    | Line               // %l
    | Tab                // %T
    | FiberId            // %F
    | Name               // %N  the logger's name copied into the event
    | Str(text: string)  // StringFormatItem: literal text and diagnostics

  /** The time format `TimeFormatItem` falls back to. */
  const DefaultTimeFormat: string := "%Y-%m-%d %H:%M:%S"

  /** The keys of the `s_format_items` table. */
  const Keys: set<string> := {"m", "p", "r", "t", "n", "d", "f", "l", "T", "F", "N"}

  /** The literal item an unknown key becomes. */
  function ErrorFormat(key: string): string {
    "<<error_format %" + key + ">>"
  }

  /** The `TimeFormatItem` constructor: an empty format means the default one. */
  function TimeItem(fmt: string): (r: Item)
    ensures r.Time? && r.format != []
    ensures fmt != [] ==> r.format == fmt
    ensures fmt == [] ==> r.format == DefaultTimeFormat
  {
    Time(if fmt == [] then DefaultTimeFormat else fmt)
  }

  /** The directive key naming each non-literal variant. */
  function KeyOf(it: Item): (k: string)
    requires !it.Str?
    ensures k in Keys
  {
    match it
    case Message => "m"
    case LevelName => "p"
    case Elapse => "r"
    case ThreadId => "t"
    case NewLine => "n"
    case Time(_) => "d"
    case File => "f"
    case Line => "l"
    case Tab => "T"
    case FiberId => "F"
    case Name => "N"
  }

  /**
   * A lookup in `s_format_items`: the item a key builds from its argument, or
   * `None` when the key is not in the table. Only `d` uses the argument.
   */
  function MakeItem(key: string, arg: string): (r: Option<Item>)
    ensures r.Some? <==> key in Keys
    ensures r.Some? ==> !r.value.Str? && KeyOf(r.value) == key
    ensures r.Some? && r.value.Time? ==> r.value == TimeItem(arg)
  {
    if key == "m" then Some(Message)
    else if key == "p" then Some(LevelName)
    else if key == "r" then Some(Elapse)
    else if key == "t" then Some(ThreadId)
    else if key == "n" then Some(NewLine)
    else if key == "d" then Some(TimeItem(arg))
    else if key == "f" then Some(File)
    else if key == "l" then Some(Line)
    else if key == "T" then Some(Tab)
    else if key == "F" then Some(FiberId)
    else if key == "N" then Some(Name)
    else None
  }

  /** Only `d` looks at its argument. */
  lemma ArgumentIgnored(key: string, a: string, b: string)
    requires key != "d"
    ensures MakeItem(key, a) == MakeItem(key, b)
  {
  }

  /** Every key of the table is a single letter. */
  lemma KeysAreLetters(key: string)
    requires key in Keys
    ensures |key| == 1 && IsAlpha(key[0])
  {
  }

  /** The argument that rebuilds an item from its key. */
  function ArgOf(it: Item): string {
    if it.Time? then it.format else ""
  }

  /** Every non-literal item is rebuilt by looking up its own key. */
  lemma KeyRoundTrip(it: Item)
    requires !it.Str?
    requires it.Time? ==> it.format != []
    ensures MakeItem(KeyOf(it), ArgOf(it)) == Some(it)
  {
  }

  /** The second loop of `init`: an entry becomes its item. */
  function Resolve(e: Entry): (r: Item)
    ensures e.Literal? ==> r == Str(e.text)
    ensures e.Directive? && e.key in Keys ==> !r.Str? && KeyOf(r) == e.key
    ensures e.Directive? && e.key in Keys ==> r == MakeItem(e.key, e.arg).value
    ensures e.Directive? && e.key == "d" ==> r == TimeItem(e.arg)
    ensures e.Directive? && e.key !in Keys ==> r == Str(ErrorFormat(e.key))
  {
    match e
    case Literal(text) => Str(text)
    case Directive(key, arg) =>
      match MakeItem(key, arg)
      case Some(it) => it
      case None => Str(ErrorFormat(key))
  }

  /** Resolves every entry, in order. */
  function ResolveAll(es: seq<Entry>): (r: seq<Item>)
    ensures |r| == |es|
    ensures forall k :: 0 <= k < |es| ==> r[k] == Resolve(es[k])
  {
    seq(|es|, k requires 0 <= k < |es| => Resolve(es[k]))
  }

  /** Resolution distributes over concatenation of entry lists. */
  lemma ResolveAllAppend(a: seq<Entry>, b: seq<Entry>)
    ensures ResolveAll(a + b) == ResolveAll(a) + ResolveAll(b)
  {
  }

  /** `LogFormatter::init`: the items a pattern compiles to. */
  function Compile(p: string): (r: seq<Item>)
    ensures |r| == |Entries(p)|
    ensures forall k :: 0 <= k < |r| && Entries(p)[k].Literal? ==> r[k] == Str(Entries(p)[k].text)
    ensures forall k :: 0 <= k < |r| && Entries(p)[k].Directive? && Entries(p)[k].key in Keys ==>
              !r[k].Str? && KeyOf(r[k]) == Entries(p)[k].key
    ensures forall k :: 0 <= k < |r| && Entries(p)[k].Directive? && Entries(p)[k].key !in Keys ==>
              r[k] == Str(ErrorFormat(Entries(p)[k].key))
    ensures forall k :: 0 <= k < |r| ==> r[k] == Resolve(Entries(p)[k])
  {
    ResolveAll(Entries(p))
  }

  /** A `LogFormatter`: its pattern and the items compiled once at construction. */
  datatype Formatter = Formatter(pattern: string, items: seq<Item>)

  /** The `LogFormatter` constructor. */
  function NewFormatter(pattern: string): (f: Formatter)
    ensures f.pattern == pattern
    ensures |f.items| == |Entries(pattern)|
    ensures forall k :: 0 <= k < |f.items| ==> f.items[k] == Resolve(Entries(pattern)[k])
  {
    Formatter(pattern, Compile(pattern))
  }

  /** A diagnostic item: `<<pattern_error>>` or `<<error_format %K>>`. */
  ghost predicate IsDiagnostic(it: Item) {
    it.Str? && (it.text == PatternError || exists key :: it.text == ErrorFormat(key))
  }

  // ---------------------------------------------------------------------------
  // Properties of compilation

  /** A pattern without `%` compiles to at most one literal: the pattern itself. */
  lemma NoPercentCompiles(p: string)
    requires forall m :: 0 <= m < |p| ==> p[m] != '%'
    ensures Compile(p) == (if p == [] then [] else [Str(p)])
  {
    NoPercentEntries(p);
  }

  /** A lone directive with a key from the table compiles to that key's item, never a diagnostic. */
  lemma KnownKeyCompiles(key: string)
    requires key in Keys
    ensures Compile("%" + key) == [MakeItem(key, "").value]
    ensures !IsDiagnostic(Compile("%" + key)[0])
  {
    var p := "%" + key;
    KeysAreLetters(key);
    assert p[0] == '%' && p[1] == key[0] && p[1..2] == key;
    SimpleDirectiveStep(p, 0, "", []);
    assert Entries(p) == [Directive(key, "")];
  }

  /** `%%m` renders a `%` and then the message. */
  lemma EscapeCompiles()
    ensures Compile("%%m") == [Str("%"), Message]
  {
    EscapeThenDirective();
    assert ResolveAll([Literal("%"), Directive("m", "")]) == [Str("%"), Message];
  }

  /** `a%%b` keeps `a%` and turns `b` into an unknown directive. */
  lemma EscapeUnknownCompiles()
    ensures Compile("a%%b") == [Str("a%"), Str("<<error_format %b>>")]
  {
    EscapeSwallowsNothing();
    assert ErrorFormat("b") == "<<error_format %b>>";
    assert ResolveAll([Literal("a%"), Directive("b", "")]) == [Str("a%"), Str(ErrorFormat("b"))];
  }

  /** `%5m` is an empty-key diagnostic followed by the literal `5m`. */
  lemma EmptyKeyCompiles()
    ensures Compile("%5m") == [Str("<<error_format %>>"), Str("5m")]
  {
    EmptyKey();
    assert ErrorFormat("") == "<<error_format %>>";
    assert ResolveAll([Directive("", ""), Literal("5m")]) == [Str(ErrorFormat("")), Str("5m")];
  }

  /** `%d{%Y` compiles to `<<pattern_error>>`, `d{`, `<<error_format %Y>>`. */
  lemma UnterminatedCompiles()
    ensures Compile("%d{%Y") == [Str(PatternError), Str("d{"), Str("<<error_format %Y>>")]
  {
    UnterminatedRescans();
    assert ErrorFormat("Y") == "<<error_format %Y>>";
    assert ResolveAll([Literal(PatternError), Literal("d{"), Directive("Y", "")])
        == [Str(PatternError), Str("d{"), Str(ErrorFormat("Y"))];
  }

  /** A block after an unknown key is dropped with the key's diagnostic. */
  lemma UnknownBlockExample()
    ensures Compile("%Q{abc}") == [Str("<<error_format %Q>>")]
  {
    assert ErrorFormat("Q") == "<<error_format %Q>>";
    var p := "%Q{abc}";
    assert CloseAt(p, 3) == 6;
    BlockDirectiveStep(p, 0, 6, "", []);
    assert p[1..2] == "Q" && p[3..6] == "abc";
  }

  /** An empty block gives the timestamp its default format. */
  lemma EmptyBlockExample()
    ensures Compile("%d{}") == [Time(DefaultTimeFormat)]
  {
    var p := "%d{}";
    assert CloseAt(p, 3) == 3;
    BlockDirectiveStep(p, 0, 3, "", []);
    assert p[1..2] == "d" && p[3..3] == "";
  }

  /** No block at all gives the same default format. */
  lemma NoBlockExample()
    ensures Compile("%d") == [Time(DefaultTimeFormat)]
  {
    var p := "%d";
    SimpleDirectiveStep(p, 0, "", []);
    assert p[1..2] == "d";
  }

  /** The block's text is the timestamp's format, `%` signs included. */
  lemma TimeBlockExample()
    ensures Compile("%d{%Y}") == [Time("%Y")]
  {
    var p := "%d{%Y}";
    assert CloseAt(p, 3) == 5;
    BlockDirectiveStep(p, 0, 5, "", []);
    assert p[1..2] == "d" && p[3..5] == "%Y";
  }
}
