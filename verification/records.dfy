/**
 * The state of the logging pipeline as immutable values: appenders, loggers
 * and the events that flow through them. Pointer identity of an appender
 * (`shared_ptr` equality) is its `id`.
 */
module Records {
  import opened Wrappers
  import opened Text
  import opened Levels
  import opened Items
  import opened DefaultFormat

  /** Where an appender writes: `std::cout` or the file opened for `filename`. */
  datatype Sink = Stdout | FileSink(filename: string)

  /**
   * A `LogAppender`: its threshold `m_level`, its formatter (null until set)
   * and its destination.
   */
  datatype Appender = Appender(id: nat, sink: Sink, level: Level, formatter: Option<Formatter>)

  /** A `Logger`: name, threshold, appenders in attachment order, default formatter. */
  datatype Logger = Logger(name: string, level: Level, appenders: seq<Appender>, formatter: Formatter)

  /** A `LogEvent`; only `content` (the string stream) changes after construction. */
  datatype Event = Event(
    file: string,
    line: i32,
    elapse: u32,
    threadId: u32,
    fiberId: u32,
    time: u32,
    content: string,
    name: string,
    logger: Logger,
    level: Level)

  /** The `LogEvent` constructor: the name is copied from the logger; the content starts empty. */
  function NewEvent(logger: Logger, level: Level, file: string, line: i32,
                    elapse: u32, threadId: u32, fiberId: u32, time: u32): (e: Event)
    ensures e.file == file && e.line == line && e.elapse == elapse
    ensures e.threadId == threadId && e.fiberId == fiberId && e.time == time
    ensures e.logger == logger && e.level == level
    ensures e.name == logger.name
    ensures e.content == []
  {
    Event(file, line, elapse, threadId, fiberId, time, [], logger.name, logger, level)
  }

  /** Streaming text into `getSS()`: appends to the content and changes nothing else. */
  function AppendContent(e: Event, s: string): (r: Event)
    ensures r.content == e.content + s
    ensures r.(content := e.content) == e
  {
    e.(content := e.content + s)
  }

  /** Two insertions into the stream are one insertion of both texts. */
  lemma AppendContentTwice(e: Event, a: string, b: string)
    ensures AppendContent(AppendContent(e, a), b) == AppendContent(e, a + b)
  {
    assert e.content + a + b == e.content + (a + b);
  }

  /**
   * A freshly constructed event with text streamed in keeps every constructor
   * argument: the getters return them unchanged and the content is the text.
   */
  lemma StreamedEventKeepsArguments(logger: Logger, level: Level, file: string, line: i32,
                                    elapse: u32, threadId: u32, fiberId: u32, time: u32, s: string)
    ensures var e := AppendContent(NewEvent(logger, level, file, line, elapse, threadId, fiberId, time), s);
            && e.file == file && e.line == line && e.elapse == elapse
            && e.threadId == threadId && e.fiberId == fiberId && e.time == time
            && e.logger == logger && e.level == level && e.name == logger.name
            && e.content == s
  {
    assert [] + s == s;
  }

  /**
   * A `StdoutLogAppender`. Its threshold depends on how it is created: zero
   * (UNKNOW) under `new StdoutLogAppender()`, indeterminate under
   * `new StdoutLogAppender`, so it is a parameter.
   */
  function NewStdoutAppender(id: nat, level: Level): (a: Appender)
    ensures a.id == id && a.sink == Stdout && a.level == level && a.formatter == None
  {
    Appender(id, Stdout, level, None)
  }

  /**
   * A `FileLogAppender` for `filename`. Its constructor never sets the
   * threshold, so it is a parameter.
   */
  function NewFileAppender(id: nat, filename: string, level: Level): (a: Appender)
    ensures a.id == id && a.sink == FileSink(filename) && a.level == level && a.formatter == None
  {
    Appender(id, FileSink(filename), level, None)
  }

  /** `LogAppender::setLevel`. */
  function SetAppenderLevel(a: Appender, level: Level): (r: Appender)
    ensures r.level == level
    ensures r.(level := a.level) == a
  {
    a.(level := level)
  }

  /** `LogAppender::setFormatter`. */
  function SetAppenderFormatter(a: Appender, f: Formatter): (r: Appender)
    ensures r.formatter == Some(f)
    ensures r.(formatter := a.formatter) == a
  {
    a.(formatter := Some(f))
  }

  /** The name a `Logger` gets when none is given. */
  const RootName: string := "root"

  /** The `Logger` constructor: threshold DEBUG, no appenders, the default pattern. */
  function NewLogger(name: string): (l: Logger)
    ensures l.name == name && l.level == DEBUG && l.appenders == []
    ensures l.formatter.pattern == DefaultPattern
    ensures l.formatter.items == DefaultItems()
  {
    DefaultPatternCompiles();
    Logger(name, DEBUG, [], NewFormatter(DefaultPattern))
  }

  /** A default-constructed logger is "root" at DEBUG, and its formatter has no diagnostic item. */
  lemma DefaultLogger()
    ensures NewLogger(RootName).name == "root"
    ensures NewLogger(RootName).level == DEBUG
    ensures Clean(NewLogger(RootName).formatter.items)
  {
    DefaultPatternClean();
  }
}
