/**
 * `Logger` and `LogAppender` operations: the two threshold gates, dispatch to
 * the appenders in order, and the updates of the appender list and formatter.
 * Every lock on this path is a no-op mutex, so the model is sequential; each
 * line an appender emits is a `Write` to its sink.
 */
module Loggers {
  import opened Wrappers
  import opened Levels
  import opened Items
  import opened Records
  import opened Render

  /** One rendered line written by appender `appender` to `sink`. */
  datatype Write = Write(sink: Sink, appender: nat, text: string)

  /** An appender passes a record at `level` when `level >= m_level`. */
  predicate Accepts(a: Appender, level: Level) {
    Le(a.level, level)
  }

  /** Every appender that would emit at `level` has a formatter to emit with. */
  predicate Ready(apps: seq<Appender>, level: Level) {
    forall k :: 0 <= k < |apps| && Accepts(apps[k], level) ==> apps[k].formatter.Some?
  }

  /** Every attached appender has a formatter, as `addAppender` guarantees. */
  predicate Attached(lg: Logger) {
    forall k :: 0 <= k < |lg.appenders| ==> lg.appenders[k].formatter.Some?
  }

  /** The line an accepting appender writes. */
  function Emit(a: Appender, level: Level, e: Event, strftime: Strftime): Write
    requires a.formatter.Some?
  {
    Write(a.sink, a.id, FormatText(a.formatter.value, level, e, strftime))
  }

  /** `StdoutLogAppender::log` / `FileLogAppender::log`: one line when `level >= m_level`, else nothing. */
  function AppenderLog(a: Appender, level: Level, e: Event, strftime: Strftime): (r: seq<Write>)
    requires Accepts(a, level) ==> a.formatter.Some?
    ensures Accepts(a, level) <==> |r| == 1
    ensures !Accepts(a, level) <==> r == []
    ensures |r| == 1 ==> r[0].sink == a.sink && r[0].appender == a.id
    ensures |r| == 1 ==> r[0].text == FormatText(a.formatter.value, level, e, strftime)
  {
    if Le(a.level, level) then [Emit(a, level, e, strftime)] else []
  }

  /** The appenders that pass a record at `level`, in attachment order. */
  function Accepting(apps: seq<Appender>, level: Level): (r: seq<Appender>)
    ensures |r| <= |apps|
  {
    if apps == [] then []
    else (if Accepts(apps[0], level) then [apps[0]] else []) + Accepting(apps[1..], level)
  }

  /** The accepting appenders are exactly the attached ones whose threshold the level reaches. */
  lemma {:induction false} AcceptingMembers(apps: seq<Appender>, level: Level)
    ensures forall a :: a in Accepting(apps, level) <==> a in apps && Accepts(a, level)
    decreases |apps|
  {
    if apps != [] {
      AcceptingMembers(apps[1..], level);
      assert apps == [apps[0]] + apps[1..];
    }
  }

  /**
   * The loop over `m_appenders` in `Logger::log`: each appender's `log` in turn.
   * The writes are exactly one line per accepting appender, in attachment order.
   */
  function Dispatch(apps: seq<Appender>, level: Level, e: Event, strftime: Strftime): (r: seq<Write>)
    requires Ready(apps, level)
    ensures |r| == |Accepting(apps, level)|
    decreases |apps|
  {
    if apps == [] then []
    else AppenderLog(apps[0], level, e, strftime) + Dispatch(apps[1..], level, e, strftime)
  }

  /** Dispatch writes exactly one line per accepting appender, in attachment order. */
  lemma {:induction false} DispatchMatchesAccepting(apps: seq<Appender>, level: Level, e: Event, strftime: Strftime)
    requires Ready(apps, level)
    ensures var r := Dispatch(apps, level, e, strftime);
            var acc := Accepting(apps, level);
            |r| == |acc| &&
            forall k :: 0 <= k < |r| ==> acc[k].formatter.Some? && r[k] == Emit(acc[k], level, e, strftime)
    decreases |apps|
  {
    if apps != [] {
      ReadyTail(apps, level);
      DispatchMatchesAccepting(apps[1..], level, e, strftime);
      DispatchUnfold(apps, level, e, strftime);
      var rest, accRest := Dispatch(apps[1..], level, e, strftime), Accepting(apps[1..], level);
      if Accepts(apps[0], level) {
        assert Accepting(apps, level) == [apps[0]] + accRest;
        assert Dispatch(apps, level, e, strftime) == [Emit(apps[0], level, e, strftime)] + rest;
        EmitCons(apps[0], accRest, rest, level, e, strftime);
      } else {
        assert Accepting(apps, level) == [] + accRest;
        assert Dispatch(apps, level, e, strftime) == [] + rest;
      }
    }
  }

  /** Prepending an appender and its line keeps the lines matched to the appenders. */
  lemma EmitCons(a: Appender, acc: seq<Appender>, r: seq<Write>, level: Level, e: Event, strftime: Strftime)
    requires a.formatter.Some?
    requires |r| == |acc|
    requires forall k :: 0 <= k < |r| ==> acc[k].formatter.Some? && r[k] == Emit(acc[k], level, e, strftime)
    ensures var r', acc' := [Emit(a, level, e, strftime)] + r, [a] + acc;
            |r'| == |acc'| &&
            forall k :: 0 <= k < |r'| ==> acc'[k].formatter.Some? && r'[k] == Emit(acc'[k], level, e, strftime)
  {
    var r', acc' := [Emit(a, level, e, strftime)] + r, [a] + acc;
    forall k | 0 <= k < |r'|
      ensures acc'[k].formatter.Some? && r'[k] == Emit(acc'[k], level, e, strftime)
    {
      if k > 0 {
        assert r'[k] == r[k - 1] && acc'[k] == acc[k - 1];
      }
    }
  }

  /** `Logger::log`: nothing below the logger's threshold, otherwise dispatch to every appender. */
  function LoggerLog(lg: Logger, level: Level, e: Event, strftime: Strftime): (r: seq<Write>)
    requires Le(lg.level, level) ==> Ready(lg.appenders, level)
    ensures !Le(lg.level, level) ==> r == []
    ensures Le(lg.level, level) ==> r == Dispatch(lg.appenders, level, e, strftime)
  {
    if Le(lg.level, level) then Dispatch(lg.appenders, level, e, strftime) else []
  }

  /**
   * `Logger::log` as the source writes it, a loop over the appender list; it
   * produces what `LoggerLog` specifies.
   */
  method Log(lg: Logger, level: Level, e: Event, strftime: Strftime) returns (out: seq<Write>)
    requires Le(lg.level, level) ==> Ready(lg.appenders, level)
    ensures !Le(lg.level, level) ==> out == []
    ensures out == LoggerLog(lg, level, e, strftime)
  {
    out := [];
    if Le(lg.level, level) {
      out := DispatchLoop(lg.appenders, level, e, strftime);
    }
  }

  /** The `for (auto &i : m_appenders)` loop of `Logger::log`, walking the list from its head. */
  method DispatchLoop(apps: seq<Appender>, level: Level, e: Event, strftime: Strftime) returns (out: seq<Write>)
    requires Ready(apps, level)
    ensures out == Dispatch(apps, level, e, strftime)
  {
    out := [];
    var rest := apps;
    while rest != []
      invariant Ready(rest, level)
      invariant out + Dispatch(rest, level, e, strftime) == Dispatch(apps, level, e, strftime)
      decreases |rest|
    {
      DispatchStep(apps, rest, out, level, e, strftime);
      out := out + AppenderLog(rest[0], level, e, strftime);
      rest := rest[1..];
    }
  }

  /**
   * One turn of the dispatch loop: the head appender's lines join the output,
   * and the rest of the list still completes the dispatch of the whole.
   */
  lemma DispatchStep(apps: seq<Appender>, rest: seq<Appender>, out: seq<Write>, level: Level, e: Event,
                     strftime: Strftime)
    requires Ready(apps, level) && rest != [] && Ready(rest, level)
    requires out + Dispatch(rest, level, e, strftime) == Dispatch(apps, level, e, strftime)
    ensures Ready(rest[1..], level)
    ensures (out + AppenderLog(rest[0], level, e, strftime)) + Dispatch(rest[1..], level, e, strftime)
         == Dispatch(apps, level, e, strftime)
  {
    ReadyTail(rest, level);
    DispatchUnfold(rest, level, e, strftime);
    var head, tail := AppenderLog(rest[0], level, e, strftime), Dispatch(rest[1..], level, e, strftime);
    assert out + (head + tail) == (out + head) + tail;
  }

  /** Dispatch to a non-empty list: the head appender, then the rest. */
  lemma DispatchUnfold(apps: seq<Appender>, level: Level, e: Event, strftime: Strftime)
    requires apps != [] && Ready(apps, level) && Ready(apps[1..], level)
    ensures Dispatch(apps, level, e, strftime)
         == AppenderLog(apps[0], level, e, strftime) + Dispatch(apps[1..], level, e, strftime)
  {
  }

  /** Dropping the head appender keeps the list ready. */
  lemma ReadyTail(apps: seq<Appender>, level: Level)
    requires apps != [] && Ready(apps, level)
    ensures Ready(apps[1..], level)
  {
    forall k | 0 <= k < |apps[1..]| && Accepts(apps[1..][k], level)
      ensures apps[1..][k].formatter.Some?
    {
      assert apps[1..][k] == apps[k + 1];
    }
  }

  /** `Logger::debug` .. `Logger::fatal`: `log` at a fixed level, whatever the event's own level. */
  function Debug(lg: Logger, e: Event, strftime: Strftime): (r: seq<Write>)
    requires Le(lg.level, DEBUG) ==> Ready(lg.appenders, DEBUG)
    ensures !Le(lg.level, DEBUG) ==> r == []
    ensures Le(lg.level, DEBUG) ==> r == Dispatch(lg.appenders, DEBUG, e, strftime)
  {
    LoggerLog(lg, DEBUG, e, strftime)
  }

  function Info(lg: Logger, e: Event, strftime: Strftime): (r: seq<Write>)
    requires Le(lg.level, INFO) ==> Ready(lg.appenders, INFO)
    ensures !Le(lg.level, INFO) ==> r == []
    ensures Le(lg.level, INFO) ==> r == Dispatch(lg.appenders, INFO, e, strftime)
  {
    LoggerLog(lg, INFO, e, strftime)
  }

  function Warn(lg: Logger, e: Event, strftime: Strftime): (r: seq<Write>)
    requires Le(lg.level, WARN) ==> Ready(lg.appenders, WARN)
    ensures !Le(lg.level, WARN) ==> r == []
    ensures Le(lg.level, WARN) ==> r == Dispatch(lg.appenders, WARN, e, strftime)
  {
    LoggerLog(lg, WARN, e, strftime)
  }

  function Error(lg: Logger, e: Event, strftime: Strftime): (r: seq<Write>)
    requires Le(lg.level, ERROR) ==> Ready(lg.appenders, ERROR)
    ensures !Le(lg.level, ERROR) ==> r == []
    ensures Le(lg.level, ERROR) ==> r == Dispatch(lg.appenders, ERROR, e, strftime)
  {
    LoggerLog(lg, ERROR, e, strftime)
  }

  function Fatal(lg: Logger, e: Event, strftime: Strftime): (r: seq<Write>)
    requires Le(lg.level, FATAL) ==> Ready(lg.appenders, FATAL)
    ensures !Le(lg.level, FATAL) ==> r == []
    ensures Le(lg.level, FATAL) ==> r == Dispatch(lg.appenders, FATAL, e, strftime)
  {
    LoggerLog(lg, FATAL, e, strftime)
  }

  /** Dispatch does not depend on the event's own level. */
  lemma {:induction false} DispatchIgnoresEventLevel(apps: seq<Appender>, level: Level, e: Event, l: Level,
                                                     strftime: Strftime)
    requires Ready(apps, level)
    ensures Dispatch(apps, level, e, strftime) == Dispatch(apps, level, e.(level := l), strftime)
    decreases |apps|
  {
    if apps != [] {
      ReadyTail(apps, level);
      DispatchIgnoresEventLevel(apps[1..], level, e, l, strftime);
      if Accepts(apps[0], level) {
        RenderIgnoresEventLevel(apps[0].formatter.value.items, level, e, l, strftime);
      }
    }
  }

  /**
   * The shortcuts dispatch at their own fixed level: `info(event)` behaves as
   * `log(INFO, event)` whatever level the event was built with.
   */
  lemma ShortcutsUseFixedLevel(lg: Logger, e: Event, l: Level, strftime: Strftime)
    requires Attached(lg)
    ensures Debug(lg, e, strftime) == LoggerLog(lg, DEBUG, e.(level := l), strftime)
    ensures Info(lg, e, strftime) == LoggerLog(lg, INFO, e.(level := l), strftime)
    ensures Warn(lg, e, strftime) == LoggerLog(lg, WARN, e.(level := l), strftime)
    ensures Error(lg, e, strftime) == LoggerLog(lg, ERROR, e.(level := l), strftime)
    ensures Fatal(lg, e, strftime) == LoggerLog(lg, FATAL, e.(level := l), strftime)
  {
    DispatchIgnoresEventLevel(lg.appenders, DEBUG, e, l, strftime);
    DispatchIgnoresEventLevel(lg.appenders, INFO, e, l, strftime);
    DispatchIgnoresEventLevel(lg.appenders, WARN, e, l, strftime);
    DispatchIgnoresEventLevel(lg.appenders, ERROR, e, l, strftime);
    DispatchIgnoresEventLevel(lg.appenders, FATAL, e, l, strftime);
  }

  // ---------------------------------------------------------------------------
  // Threshold properties

  /**
   * For a logger with threshold `t` whose appenders all have threshold at most
   * `t`, a record below `t` produces nothing and a record at or above `t`
   * reaches every appender.
   */
  lemma ThresholdSeparates(lg: Logger, level: Level, e: Event, strftime: Strftime)
    requires Attached(lg)
    requires forall k :: 0 <= k < |lg.appenders| ==> Le(lg.appenders[k].level, lg.level)
    ensures Lt(level, lg.level) ==> LoggerLog(lg, level, e, strftime) == []
    ensures Le(lg.level, level) ==> |LoggerLog(lg, level, e, strftime)| == |lg.appenders|
  {
    if Le(lg.level, level) {
      AllAccept(lg.appenders, level);
      DispatchMatchesAccepting(lg.appenders, level, e, strftime);
    }
  }

  lemma {:induction false} AllAccept(apps: seq<Appender>, level: Level)
    requires forall k :: 0 <= k < |apps| ==> Accepts(apps[k], level)
    ensures Accepting(apps, level) == apps
    decreases |apps|
  {
    if apps != [] {
      AllAccept(apps[1..], level);
      assert [apps[0]] + apps[1..] == apps;
    }
  }

  /**
   * A logger at INFO with one appender at WARN: DEBUG is dropped by the logger,
   * INFO by the appender, and WARN is written once.
   */
  lemma TwoGateScenario(a: Appender, e: Event, strftime: Strftime)
    requires a.level == WARN && a.formatter.Some?
    ensures var lg := Logger("x", INFO, [a], a.formatter.value);
            && LoggerLog(lg, DEBUG, e, strftime) == []
            && AppenderLog(a, INFO, e, strftime) == []
            && LoggerLog(lg, INFO, e, strftime) == []
            && LoggerLog(lg, WARN, e, strftime) == [Emit(a, WARN, e, strftime)]
  {
    var lg := Logger("x", INFO, [a], a.formatter.value);
    assert [a][1..] == [];
    assert Dispatch([a], INFO, e, strftime) == AppenderLog(a, INFO, e, strftime) + [];
    assert Dispatch([a], WARN, e, strftime) == AppenderLog(a, WARN, e, strftime) + [];
  }

  // ---------------------------------------------------------------------------
  // The appender list and the formatter

  /** The appender as it is stored by `addAppender`: it adopts `f` only if it has no formatter. */
  function Adopt(a: Appender, f: Formatter): (r: Appender)
    ensures r.formatter.Some?
    ensures a.formatter.Some? ==> r == a
    ensures a.formatter.None? ==> r == a.(formatter := Some(f))
  {
    if a.formatter.None? then a.(formatter := Some(f)) else a
  }

  /** `Logger::addAppender`: appends the appender at the end, giving it the logger's formatter if it has none. */
  function AddAppender(lg: Logger, a: Appender): (r: Logger)
    ensures r.name == lg.name && r.level == lg.level && r.formatter == lg.formatter
    ensures |r.appenders| == |lg.appenders| + 1
    ensures r.appenders[..|lg.appenders|] == lg.appenders
    ensures r.appenders[|lg.appenders|] == Adopt(a, lg.formatter)
    ensures Attached(lg) ==> Attached(r)
  {
    lg.(appenders := lg.appenders + [Adopt(a, lg.formatter)])
  }

  /** The position of the first appender with identity `id`, or |apps| when there is none. */
  function IndexOf(apps: seq<Appender>, id: nat): (k: nat)
    ensures k <= |apps|
    ensures forall j :: 0 <= j < k ==> apps[j].id != id
    ensures k < |apps| ==> apps[k].id == id
    decreases |apps|
  {
    if apps == [] then 0
    else if apps[0].id == id then 0
    else 1 + IndexOf(apps[1..], id)
  }

  /** The loop of `delAppender`: erases the first entry identical to `id` and stops. */
  function RemoveFirst(apps: seq<Appender>, id: nat): (r: seq<Appender>)
    ensures IndexOf(apps, id) == |apps| ==> r == apps
    ensures IndexOf(apps, id) < |apps| ==>
              r == apps[..IndexOf(apps, id)] + apps[IndexOf(apps, id) + 1..]
    decreases |apps|
  {
    if apps == [] then []
    else if apps[0].id == id then apps[1..]
    else
      var rest := RemoveFirst(apps[1..], id);
      assert IndexOf(apps, id) == 1 + IndexOf(apps[1..], id);
      [apps[0]] + rest
  }

  /** `Logger::delAppender`: removes the first entry with the appender's identity; a no-op without one. */
  function DelAppender(lg: Logger, a: Appender): (r: Logger)
    ensures r.name == lg.name && r.level == lg.level && r.formatter == lg.formatter
    ensures (forall k :: 0 <= k < |lg.appenders| ==> lg.appenders[k].id != a.id) ==> r == lg
    ensures (exists k :: 0 <= k < |lg.appenders| && lg.appenders[k].id == a.id) ==>
              |r.appenders| == |lg.appenders| - 1
    ensures forall x :: x in r.appenders ==> x in lg.appenders
  {
    lg.(appenders := RemoveFirst(lg.appenders, a.id))
  }

  /** Adding an appender whose identity is not attached and then deleting it restores the logger. */
  lemma AddThenDelete(lg: Logger, a: Appender)
    requires forall k :: 0 <= k < |lg.appenders| ==> lg.appenders[k].id != a.id
    ensures DelAppender(AddAppender(lg, a), a) == lg
  {
    var apps := AddAppender(lg, a).appenders;
    assert IndexOf(apps, a.id) == |lg.appenders| by {
      assert apps[|lg.appenders|].id == a.id;
    }
    assert apps[..|lg.appenders|] + apps[|lg.appenders| + 1..] == lg.appenders;
  }

  /** Only the first of two entries with the same identity is removed. */
  lemma DeleteRemovesOnlyFirst(lg: Logger, a: Appender)
    requires forall k :: 0 <= k < |lg.appenders| ==> lg.appenders[k].id != a.id
    ensures var twice := AddAppender(AddAppender(lg, a), a);
            DelAppender(twice, a).appenders == lg.appenders + [Adopt(a, lg.formatter)]
  {
    var once := AddAppender(lg, a);
    var twice := AddAppender(once, a);
    var n := |lg.appenders|;
    assert IndexOf(twice.appenders, a.id) == n by {
      assert twice.appenders[n].id == a.id;
      forall j | 0 <= j < n ensures twice.appenders[j].id != a.id {
        assert twice.appenders[j] == lg.appenders[j];
      }
    }
    assert twice.appenders[..n] == lg.appenders;
    assert twice.appenders[n + 1..] == [Adopt(a, lg.formatter)];
  }

  /** `Logger::setFormatter`: replaces the logger's own formatter only. */
  function SetFormatter(lg: Logger, f: Formatter): (r: Logger)
    ensures r.formatter == f
    ensures r.name == lg.name && r.level == lg.level && r.appenders == lg.appenders
  {
    lg.(formatter := f)
  }

  /** `Logger::setLevel`. */
  function SetLevel(lg: Logger, level: Level): (r: Logger)
    ensures r.level == level
    ensures r.name == lg.name && r.formatter == lg.formatter && r.appenders == lg.appenders
  {
    lg.(level := level)
  }

  /**
   * After `setFormatter(f)`, appenders attached earlier keep their formatters;
   * an appender attached later without one adopts `f`.
   */
  lemma SetFormatterThenAdd(lg: Logger, f: Formatter, a: Appender)
    requires a.formatter.None?
    ensures var r := AddAppender(SetFormatter(lg, f), a);
            && r.appenders[..|lg.appenders|] == lg.appenders
            && r.appenders[|lg.appenders|].formatter == Some(f)
  {
  }
}
