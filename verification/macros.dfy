/**
 * The logging macros and `LogEventWrap`: a statement builds an event only when
 * the logger's threshold admits the level, the caller streams text into it,
 * and the wrapper's destructor forwards it once to its own logger.
 */
module Macros {
  import opened Text
  import opened Levels
  import opened Records
  import opened Render
  import opened Loggers

  /** The macro's test `logger->getLevel() <= level`. */
  predicate Gate(lg: Logger, level: Level) {
    Le(lg.level, level)
  }

  /**
   * The event the macro constructs. The elapsed time is the literal 0; the
   * thread id and `time(0)` are converted to `uint32_t`.
   */
  function MacroEvent(lg: Logger, level: Level, file: string, line: i32,
                      threadId: int, fiberId: u32, now: int): (e: Event)
    ensures e.logger == lg && e.level == level && e.name == lg.name
    ensures e.file == file && e.line == line && e.fiberId == fiberId
    ensures e.elapse == 0
    ensures e.threadId == ToU32(threadId) && e.time == ToU32(now)
    ensures e.content == []
  {
    NewEvent(lg, level, file, line, 0, ToU32(threadId), fiberId, ToU32(now))
  }

  /** A `LogEventWrap`: holds exactly one event. */
  datatype EventWrap = EventWrap(event: Event)

  /** `getEvent`, and what `getSS() << text` does to the held event. */
  function Stream(w: EventWrap, text: string): (r: EventWrap)
    ensures r.event == AppendContent(w.event, text)
  {
    EventWrap(AppendContent(w.event, text))
  }

  /** `~LogEventWrap`: the held event goes to its own logger, at its own level. */
  function Release(w: EventWrap, strftime: Strftime): (r: seq<Write>)
    requires Le(w.event.logger.level, w.event.level) ==> Ready(w.event.logger.appenders, w.event.level)
    ensures !Le(w.event.logger.level, w.event.level) ==> r == []
    ensures Le(w.event.logger.level, w.event.level) ==>
              && r == Dispatch(w.event.logger.appenders, w.event.level, w.event, strftime)
              && |r| == |Accepting(w.event.logger.appenders, w.event.level)|
              && forall k :: 0 <= k < |r| ==>
                   Accepting(w.event.logger.appenders, w.event.level)[k].formatter.Some? &&
                   r[k] == Emit(Accepting(w.event.logger.appenders, w.event.level)[k], w.event.level, w.event, strftime)
  {
    var e := w.event;
    if Le(e.logger.level, e.level) then
      DispatchMatchesAccepting(e.logger.appenders, e.level, e, strftime);
      LoggerLog(e.logger, e.level, e, strftime)
    else []
  }

  /**
   * One statement `SLTJ_LOG_LEVEL(logger, level) << text;`: nothing is built
   * when the gate fails; otherwise the event is built, filled and released.
   */
  function LogStatement(lg: Logger, level: Level, file: string, line: i32, threadId: int,
                        fiberId: u32, now: int, text: string, strftime: Strftime): (r: seq<Write>)
    requires Gate(lg, level) ==> Ready(lg.appenders, level)
    ensures !Gate(lg, level) ==> r == []
    ensures Gate(lg, level) ==>
              r == Dispatch(lg.appenders, level, StatementEvent(lg, level, file, line, threadId, fiberId, now, text), strftime)
  {
    if Gate(lg, level) then
      Release(Stream(EventWrap(MacroEvent(lg, level, file, line, threadId, fiberId, now)), text), strftime)
    else []
  }

  /** The event a passing statement releases. */
  function StatementEvent(lg: Logger, level: Level, file: string, line: i32, threadId: int,
                          fiberId: u32, now: int, text: string): Event
  {
    AppendContent(MacroEvent(lg, level, file, line, threadId, fiberId, now), text)
  }

  /**
   * The macro's gate is the logger's own test, so an event that is built is
   * never dropped by the logger: every accepting appender writes it exactly
   * once, in attachment order, with the streamed text as its content. A
   * failing gate writes nothing.
   */
  lemma StatementForwardsOnce(lg: Logger, level: Level, file: string, line: i32, threadId: int,
                              fiberId: u32, now: int, text: string, strftime: Strftime)
    requires Gate(lg, level) ==> Ready(lg.appenders, level)
    ensures var r := LogStatement(lg, level, file, line, threadId, fiberId, now, text, strftime);
            var e := StatementEvent(lg, level, file, line, threadId, fiberId, now, text);
            && (!Gate(lg, level) ==> r == [])
            && (Gate(lg, level) ==>
                  && e.content == text && e.level == level && e.logger == lg
                  && r == Dispatch(lg.appenders, level, e, strftime)
                  && |r| == |Accepting(lg.appenders, level)|
                  && forall k :: 0 <= k < |r| ==>
                       Accepting(lg.appenders, level)[k].formatter.Some? &&
                       r[k] == Emit(Accepting(lg.appenders, level)[k], level, e, strftime))
  {
    if Gate(lg, level) {
      var e := StatementEvent(lg, level, file, line, threadId, fiberId, now, text);
      assert [] + text == text;
      DispatchMatchesAccepting(lg.appenders, level, e, strftime);
    }
  }

  /** The macros always pass 0 as the elapsed time, so `%r` renders "0". */
  lemma ElapsedIsZero(lg: Logger, level: Level, file: string, line: i32, threadId: int,
                      fiberId: u32, now: int, text: string, strftime: Strftime)
    ensures RenderItem(Items.Elapse, level, StatementEvent(lg, level, file, line, threadId, fiberId, now, text), strftime)
         == "0"
  {
  }
}
