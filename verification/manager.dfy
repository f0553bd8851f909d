/**
 * `LogManager`: a map from name to logger that nothing fills, and a root
 * logger created with one stdout appender. The singleton accessor is replaced
 * by passing the manager explicitly.
 */
module Manager {
  import opened Wrappers
  import opened Levels
  import opened Records
  import opened Items
  import opened DefaultFormat
  import opened Render
  import opened Loggers
  import opened Macros
  import opened Text

  datatype LogManager = LogManager(loggers: map<string, Logger>, root: Logger)

  /**
   * The `LogManager` constructor: a default logger with a fresh stdout
   * appender, `stdoutId` being its identity. The appender is built by
   * `new StdoutLogAppender()`, whose defaulted constructor value-initialises
   * it, so its threshold is zero: UNKNOW, which every level reaches.
   */
  function NewManager(stdoutId: nat): (m: LogManager)
    ensures m.loggers == map[]
    ensures m.root.name == RootName && m.root.level == DEBUG
    ensures m.root.formatter == NewLogger(RootName).formatter
    ensures m.root.appenders == [Appender(stdoutId, Stdout, UNKNOW, Some(m.root.formatter))]
    ensures Attached(m.root)
  {
    LogManager(map[], AddAppender(NewLogger(RootName), NewStdoutAppender(stdoutId, UNKNOW)))
  }

  /** `getLogger`: the registered logger, or the root on a miss. */
  function GetLogger(m: LogManager, name: string): (r: Logger)
    ensures name in m.loggers ==> r == m.loggers[name]
    ensures name !in m.loggers ==> r == m.root
  {
    if name in m.loggers then m.loggers[name] else m.root
  }

  /** `getRoot`: the logger every unregistered name falls back to. */
  function GetRoot(m: LogManager): (r: Logger)
    ensures forall name :: name !in m.loggers ==> GetLogger(m, name) == r
  {
    m.root
  }

  /**
   * Nothing inserts into the map, so every name, the empty one included,
   * gives the root, which has exactly one stdout appender.
   */
  lemma EveryNameIsRoot(stdoutId: nat, name: string)
    ensures var m := NewManager(stdoutId);
            && GetLogger(m, name) == GetRoot(m)
            && GetLogger(m, "") == GetRoot(m)
            && GetRoot(m).name == RootName
            && |GetRoot(m).appenders| == 1
            && GetRoot(m).appenders[0].sink == Stdout
  {
  }

  /**
   * A record sent to the root logger is written once to stdout, in the
   * default format, exactly when it passes the root's DEBUG threshold (the
   * stdout appender's UNKNOW threshold passes everything); otherwise nothing
   * is written.
   */
  lemma RootWritesOneLine(stdoutId: nat, level: Level, e: Event, strftime: Strftime)
    ensures var root := GetRoot(NewManager(stdoutId));
            var r := LoggerLog(root, level, e, strftime);
            && (Le(DEBUG, level) ==> r == [Write(Stdout, stdoutId, Render.Render(DefaultItems(), level, e, strftime))])
            && (!Le(DEBUG, level) ==> r == [])
  {
    var root := GetRoot(NewManager(stdoutId));
    var a := root.appenders[0];
    assert root.appenders[1..] == [];
    if Le(DEBUG, level) {
      assert Dispatch(root.appenders, level, e, strftime) == AppenderLog(a, level, e, strftime) + [];
    }
  }

  /**
   * The statement of the logging test: `SLTJ_LOG_DEBUG` on `getLogger("")`
   * reaches the root and always writes one stdout line, in the default
   * format, whose message is "test 111".
   */
  lemma DebugOnUnnamedLogger(stdoutId: nat, file: string, line: i32, threadId: int,
                             fiberId: u32, now: int, strftime: Strftime)
    ensures var m := NewManager(stdoutId);
            var lg := GetLogger(m, "");
            var e := StatementEvent(lg, DEBUG, file, line, threadId, fiberId, now, "test 111");
            var r := LogStatement(lg, DEBUG, file, line, threadId, fiberId, now, "test 111", strftime);
            && e.content == "test 111" && e.name == "root"
            && r == [Write(Stdout, stdoutId, Render.Render(DefaultItems(), DEBUG, e, strftime))]
  {
    var m := NewManager(stdoutId);
    var lg := GetLogger(m, "");
    var e := StatementEvent(lg, DEBUG, file, line, threadId, fiberId, now, "test 111");
    assert [] + "test 111" == "test 111";
    RootWritesOneLine(stdoutId, DEBUG, e, strftime);
  }
}
