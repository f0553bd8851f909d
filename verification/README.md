# sltj logging core in Dafny

A model of the core of the sltj C++ logging library. It covers:

- **Pattern compiler**: `LogFormatter::init` turns a pattern such as
  `%d{%Y-%m-%d %H:%M:%S} %T%t ... %m %n` into a list of format items.
- **The eleven items and the renderer**: the `%m %p %r %t %n %d %f %l %T %F %N` items, the literal-string item, and `LogFormatter::format`.
- **Levels**: the `LogLevel` enum, its order, and `ToString` / `FromString`.
- **Loggers and appenders**: the level gates of `Logger` and of the stdout and file appenders, and dispatch to the appender list.
- **Appender and formatter updates**: `addAppender` / `delAppender` and `setFormatter`.
- **`LogManager`**: its fall-back to the root logger.
- **Logging macros**: the `SLTJ_LOG_LEVEL` macro, and the `LogEventWrap` that forwards its event once when destroyed.
- **Configuration registry**: `Config::Lookup`, both overloads, and the `ConfigVar` accessors.

Modules, one per component:

| module | file | models |
|---|---|---|
| `Wrappers` | wrappers.dfy | `Option` / `Result` for null pointers and exceptions |
| `Text` | text.dfy | `uint32_t` / `int32_t`, ASCII classes, decimal printing of integers |
| `Levels` | levels.dfy | `LogLevel` |
| `Pattern` | pattern.dfy | the scanning loops of `LogFormatter::init` |
| `Items` | items.dfy | the `FormatItem` table and the resolution of scanned entries into items |
| `DefaultFormat` | defaults.dfy | the pattern every `Logger` starts with |
| `Records` | records.dfy | `LogEvent`, `LogAppender`, `Logger` as values, and their constructors |
| `Render` | render.dfy | `FormatItem::format` and `LogFormatter::format` |
| `Loggers` | loggers.dfy | `Logger::log`, the appenders' `log`, the appender list, the formatter |
| `Macros` | macros.dfy | `SLTJ_LOG_LEVEL` and `LogEventWrap` |
| `Manager` | manager.dfy | `LogManager` |
| `Config` | config.dfy | `ConfigVar`, `Config::Lookup` |

The model follows the code as written, including its quirks:

- `%%` appends a `%` to the pending text but does not skip the second `%`. The second `%` then starts a directive, so `a%%b` compiles to `a%` followed by the diagnostic for key `b`.
- A directive's key is the longest run of letters and `}` characters. It may be empty (`%5m`) and may contain `}` (`%m}x` has key `m}x`).
- A `{` after the key opens a block that runs to the next `}`. The block is consumed even after an unknown key.
- A block with no closing `}` does not stop the scan. It pushes `<<pattern_error>>` ahead of the pending literal text, and scanning resumes at the character after the `%`.
- An unknown key `K` becomes the literal `<<error_format %K>>`.
- `%d` with an empty or absent block uses `%Y-%m-%d %H:%M:%S`.
- `FromString` accepts only the exact all-lower-case or all-upper-case names. `Info` is `UNKNOW`.
- The root logger's stdout appender is built by `new StdoutLogAppender()`. That value-initialises its threshold to `UNKNOW`, so it passes every record the root's DEBUG threshold lets through.

## Model

| member | source | states |
|---|---|---|
| Levels.Rank | src/log.h:61-69 | UNKNOW has rank 0 and is the only level with it; ranks run 0..5 |
| Levels.DeclaredOrder | src/log.h:61-69 | UNKNOW < DEBUG < INFO < WARN < ERROR < FATAL; UNKNOW is the least level and FATAL the greatest |
| Levels.LeIsTotalOrder | src/log.h:61-69 | the `<=` the gates use is reflexive, antisymmetric, transitive and total |
| Levels.RankInjective | src/log.h:61-69 | distinct levels have distinct enum values |
| Levels.ToString | src/log.cc:89-123 | the name is non-empty and upper-case, and it is "UNKNOW" exactly for UNKNOW |
| Levels.ToStringInjective | src/log.cc:89-123 | distinct levels print differently |
| Levels.FromString | src/log.cc:125-146 | a result other than UNKNOW is a level whose upper- or lower-case name is the input |
| Levels.FromStringAccepts | src/log.cc:125-146 | each of the ten spellings (lower- or upper-case name of the five real levels) parses to its level |
| Levels.FromToString | src/log.cc:89-146 | parsing a printed level gives the level back |
| Levels.FromStringExact | src/log.cc:125-146 | the parse succeeds if and only if the input is one of the ten spellings |
| Levels.MixedCaseIsUnknown | src/log.cc:125-146 | "Info", "Debug" and "UNKNOW" all parse to UNKNOW |
| Text.NatToString | src/log.cc:288-296 | an unsigned id prints as a non-empty digit string without a leading zero whose decimal value is the number |
| Text.IntToString | src/log.cc:278-286 | a signed line number prints with a leading `-` exactly when negative, then the digits of its magnitude |
| Text.ToU32 | src/log.h:20-24 | the conversion to `uint32_t` agrees with the input modulo 2^32 and keeps values already in range |
| Pattern.ScanDirective | src/log.cc:397-441 | a closed directive resumes strictly after its `%` and within the pattern |
| Pattern.KeyEnd | src/log.cc:403-409 | the key ends at the first character that is neither a letter nor `}` |
| Pattern.CloseAt | src/log.cc:422-431 | a block ends at the first `}` after it opens, or at the end of the pattern |
| Pattern.KeyPhase | src/log.cc:403-421 | from any point inside the key, the inner loop gives the reference result |
| Pattern.BlockPhase | src/log.cc:422-441 | from any point inside a block, the inner loop closes at the first `}` or is unterminated |
| Pattern.DirectiveMatchesSpec | src/log.cc:397-441 | the inner loop equals the reference definition: maximal key run, then an optional block up to the first `}` |
| Pattern.DirectiveShape | src/log.cc:397-441 | key, block, resume point and the unterminated case, each described by the characters of the pattern |
| Pattern.LiteralStretch | src/log.cc:380-386 | a stretch without `%` is appended verbatim to the pending text |
| Pattern.NoPercentEntries | src/log.cc:380-464 | a pattern without `%` is one literal entry, or none when empty |
| Pattern.ClosedStep | src/log.cc:397-452 | for every pattern, a non-escape `%` whose directive closes flushes the pending run, pushes the directive with its key and block text, and resumes where the directive ends |
| Pattern.SimpleDirectiveStep | src/log.cc:397-452 | `%x` followed by a non-key character flushes the pending text, then adds directive x with no argument |
| Pattern.BlockDirectiveStep | src/log.cc:410-452 | `%x{...}` flushes the pending text, then adds directive x whose argument is the block's text, and resumes after the `}` |
| Pattern.EscapeThenDirective | src/log.cc:388-395 | "%%m" scans to literal "%" then directive m |
| Pattern.EscapeSwallowsNothing | src/log.cc:388-395 | "a%%b" scans to literal "a%" then directive b: the second `%` is not skipped |
| Pattern.EmptyKey | src/log.cc:403-409 | "%5m" scans to a directive with the empty key, then literal "5m" |
| Pattern.BraceInKey | src/log.cc:405-409 | outside a block `}` is a key character: "%m}x" has the key "m}x" |
| Pattern.ScanExtends | src/log.cc:380-464 | `Scan`, the outer loop, only ever appends to the entries it has built |
| Pattern.EntriesHaveNoEmptyLiteral | src/log.cc:376-464 | no literal entry of a compiled pattern (`Entries`) is empty |
| Pattern.ScanKeepsLiteralsNonEmpty | src/log.cc:443-464 | the outer loop pushes a literal run only when it is non-empty, so it never adds an empty literal |
| Pattern.UnterminatedStep | src/log.cc:397-458 | for every pattern, a non-escape `%` whose block never closes pushes `<<pattern_error>>` ahead of the pending run, keeps that run pending, and resumes at the character after the `%` |
| Pattern.UnterminatedKeepsPending | src/log.cc:380-464 | "ab%d{" gives the pattern-error literal first, then the single literal "abd{" |
| Pattern.UnterminatedRescans | src/log.cc:453-458 | "%d{%Y" gives the pattern-error literal first, then literal "d{", then directive Y |
| Items.TimeItem | src/log.cc:301-306 | the time item's format is never empty; an empty argument becomes the default format |
| Items.MakeItem | src/log.cc:465-484 | an item exists exactly for the eleven keys, and that item's key is the one asked for |
| Items.ArgumentIgnored | src/log.cc:228-372 | every item but `%d` ignores its argument |
| Items.KeysAreLetters | src/log.cc:471-481 | every known key is a single letter |
| Items.KeyRoundTrip | src/log.cc:465-484 | building the item from its own key and argument gives the same item back |
| Items.Resolve | src/log.cc:486-504 | a literal becomes a string item; a known key becomes the table's item built from the captured block, so `d` becomes the time item carrying that block (or the default format when it is empty); an unknown key becomes the error string |
| Items.ResolveAll | src/log.cc:486-507 | one item per entry, in order |
| Items.ResolveAllAppend | src/log.cc:486-507 | resolving a concatenation of entry lists resolves each list in turn |
| Items.Compile | src/log.cc:375-509 | the items correspond one-to-one, in order, to the scanned entries, and each item is exactly the resolution of its entry, block argument included |
| Items.NewFormatter | src/log.h:133-136 | the constructor keeps the pattern, and its items are the scanned entries, each resolved, in order |
| Items.NoPercentCompiles | src/log.cc:375-509 | a pattern without `%` compiles to one string item holding it, or to nothing when empty |
| Items.KnownKeyCompiles | src/log.cc:375-509 | `%` plus a known key compiles to exactly that item, which is not a diagnostic |
| Items.EscapeCompiles | src/log.cc:388-395 | "%%m" compiles to "%" then the message item |
| Items.EscapeUnknownCompiles | src/log.cc:388-395 | "a%%b" compiles to "a%" then the diagnostic for key b |
| Items.EmptyKeyCompiles | src/log.cc:494-498 | "%5m" compiles to "<<error_format %>>" then "5m" |
| Items.UnterminatedCompiles | src/log.cc:453-458 | "%d{%Y" compiles to the pattern error, "d{", and the diagnostic for key Y |
| Items.UnknownBlockExample | src/log.cc:410-431 | the block after an unknown key is consumed with it: "%Q{abc}" is only the diagnostic for Q |
| Items.EmptyBlockExample | src/log.cc:301-306 | "%d{}" is a time item with the default format |
| Items.NoBlockExample | src/log.cc:301-306 | "%d" is a time item with the default format |
| Items.TimeBlockExample | src/log.cc:422-431 | "%d{%Y}" is a time item with format "%Y" |
| DefaultFormat.DefaultPatternEntries | src/log.cc:41 | the default pattern scans to its fifteen groups of entries |
| DefaultFormat.DefaultPatternCompiles | src/log.cc:41 | the default pattern compiles to time, thread, fiber, level, name, file, line, message, newline, separated by tabs and literals |
| DefaultFormat.DefaultPatternClean | src/log.cc:41 | the default pattern compiles without any diagnostic item |
| Records.NewEvent | src/log.cc:24-35 | the event keeps every constructor argument, takes its name from the logger, and starts with empty content |
| Records.AppendContent | src/log.h:93 | streaming text extends the content and changes nothing else |
| Records.AppendContentTwice | src/log.h:93 | streaming a then b is streaming a + b |
| Records.StreamedEventKeepsArguments | src/log.cc:24-35 | after streaming, the event still carries every constructor argument and the streamed text as its content |
| Records.NewStdoutAppender | src/log.h:213-221 | a fresh stdout appender has no formatter |
| Records.NewFileAppender | src/log.h:228 | a fresh file appender names its file and has no formatter |
| Records.SetAppenderLevel | src/log.h:169 | only the appender's threshold changes |
| Records.SetAppenderFormatter | src/log.h:167 | only the appender's formatter changes |
| Records.NewLogger | src/log.cc:37-42 | a new logger has threshold DEBUG, no appenders, and the default pattern's items |
| Records.DefaultLogger | src/log.cc:37-42 | the root logger is named "root", has threshold DEBUG, and its formatter has no diagnostic |
| Render.RenderItem | src/log.cc:228-372 | each item's text: content, level name, tab, newline, name, file, strftime of the timestamp, and the decimal elapsed time, thread id, fiber id and signed line number, each printed from its own field |
| Render.RenderAppend | src/log.cc:218-226 | rendering a concatenation of item lists concatenates the renderings |
| Render.RenderPrefix | src/log.cc:221-224 | each turn of the loop appends exactly the next item's text |
| Render.Format | src/log.cc:218-226 | the loop over the items produces the concatenation of their texts, in order |
| Render.RenderIgnoresEventLevel | src/log.cc:238-246 | rendering uses the level passed in, never the event's own level |
| Render.NoPercentRendersItself | src/log.cc:358-372 | a pattern without `%` renders as itself for every event |
| Render.MessageNewLineExample | src/log.cc:228-332 | "%m%n" with content "hello" renders "hello\n" |
| Render.YearOnlyExample | src/log.cc:298-320 | "%d{%Y}" renders strftime("%Y") of the timestamp and nothing else |
| Loggers.AppenderLog | src/log.cc:192-207 | an appender writes one line to its own sink, in its formatter's rendering, exactly when the level reaches its threshold |
| Loggers.Accepting | src/log.cc:192-207 | the appenders that pass a level are exactly those whose threshold it reaches, in order |
| Loggers.Dispatch | src/log.cc:53-56 | the loop over the appender list writes as many lines as there are accepting appenders |
| Loggers.DispatchMatchesAccepting | src/log.cc:53-56 | dispatch writes exactly one line per accepting appender, in attachment order |
| Loggers.LoggerLog | src/log.cc:44-59 | below the logger's threshold nothing is written; otherwise the record goes to every appender |
| Loggers.Log | src/log.cc:44-59 | the looping `log` writes what `LoggerLog` specifies |
| Loggers.DispatchLoop | src/log.cc:53-56 | the loop over the appender list produces the dispatch |
| Loggers.DispatchIgnoresEventLevel | src/log.cc:44-59 | dispatch depends on the level passed in, never on the event's own level |
| Loggers.Debug | src/log.cc:148-151 | `debug` writes nothing below the logger's threshold, and otherwise dispatches at DEBUG |
| Loggers.Info | src/log.cc:152-155 | `info` writes nothing below the logger's threshold, and otherwise dispatches at INFO |
| Loggers.Warn | src/log.cc:156-159 | `warn` writes nothing below the logger's threshold, and otherwise dispatches at WARN |
| Loggers.Fatal | src/log.cc:160-163 | `fatal` writes nothing below the logger's threshold, and otherwise dispatches at FATAL |
| Loggers.Error | src/log.cc:164-167 | `error` writes nothing below the logger's threshold, and otherwise dispatches at ERROR |
| Loggers.ShortcutsUseFixedLevel | src/log.cc:148-167 | `debug`..`fatal` log at their own level, whatever level the event was built with |
| Loggers.ThresholdSeparates | src/log.cc:44-59 | with appender thresholds at most the logger's, a record below the threshold writes nothing and one at or above it writes once per appender |
| Loggers.TwoGateScenario | src/log.cc:44-207 | a logger at INFO with an appender at WARN drops DEBUG at the logger and INFO at the appender, and writes WARN once |
| Loggers.Adopt | src/log.cc:171-175 | an appender without a formatter receives the logger's; one with a formatter keeps it |
| Loggers.AddAppender | src/log.cc:168-177 | the appender is appended at the end, the earlier ones are untouched, and every attached appender has a formatter |
| Loggers.IndexOf | src/log.cc:181-189 | the position of the first appender with the given identity, or the length when there is none |
| Loggers.RemoveFirst | src/log.cc:181-189 | only the first entry with the identity is erased; without one the list is unchanged |
| Loggers.DelAppender | src/log.cc:178-190 | deleting an attached appender shortens the list by one; deleting an unattached one changes nothing |
| Loggers.AddThenDelete | src/log.cc:168-190 | adding an appender that is not attached and then deleting it restores the logger |
| Loggers.DeleteRemovesOnlyFirst | src/log.cc:178-190 | of an appender added twice, one deletion removes only the first copy |
| Loggers.SetFormatter | src/log.cc:536-540 | only the logger's own formatter changes; the appenders keep theirs |
| Loggers.SetLevel | src/log.h:199 | only the threshold changes |
| Loggers.SetFormatterThenAdd | src/log.cc:168-177 | after `setFormatter(f)`, earlier appenders are unchanged and a later appender without a formatter receives f |
| Macros.MacroEvent | src/log.h:20-24 | the macro's event has elapsed time 0, the caller's file and line, the thread id and `time(0)` reduced to 32 bits, and empty content |
| Macros.Stream | src/log.h:121 | writing through the wrapper's stream appends to the held event's content |
| Macros.Release | src/log.cc:61-65 | destroying the wrapper logs the event to its own logger at its own level: nothing below the logger's threshold, otherwise exactly the line each accepting appender renders, in attachment order |
| Macros.LogStatement | src/log.h:20-24 | a statement whose gate fails writes nothing; otherwise it dispatches the event carrying the streamed text |
| Macros.StatementForwardsOnce | src/log.h:20-30 | a statement whose gate fails writes nothing; otherwise each accepting appender writes the event, with the streamed text as its content, exactly once and in order |
| Macros.ElapsedIsZero | src/log.h:22 | `%r` renders "0" for every event built by the macros |
| Manager.NewManager | src/log.cc:511-515 | the manager starts with no named loggers and a root at DEBUG with the default logger's formatter and one stdout appender, of threshold UNKNOW, that has received that formatter |
| Manager.GetLogger | src/log.cc:516-520 | a registered name gives its logger; any other name gives the root |
| Manager.GetRoot | src/log.cc:525-528 | the root is the logger every unregistered name falls back to |
| Manager.EveryNameIsRoot | src/log.cc:511-528 | since nothing registers loggers, every name, the empty one included, gives the root |
| Manager.RootWritesOneLine | src/log.cc:511-515 | the root writes a record once to stdout, in the default format, exactly when the level is DEBUG or above, and otherwise writes nothing |
| Manager.DebugOnUnnamedLogger | test/test.cc:27-28 | `SLTJ_LOG_DEBUG(getLogger(""))` always writes one default-format stdout line, with message "test 111" |
| Config.NewVar | src/config.h:16-35 | `getName`, `getDescription` and `getValue` return the constructor arguments |
| Config.SetValue | src/config.h:63 | the new value has the variable's type |
| Config.SetThenGet | src/config.h:19-20 | `getValue` after `setValue(v)` is v; `getName` and `getDescription` are unchanged; setting the old value back restores the variable |
| Config.FindFirstNotOf | src/config.h:84 | the first position holding a character outside the set, with all earlier characters inside it, or none |
| Config.NameCharsAreNameChar | src/config.h:84 | the allowed set is exactly the ASCII letters, the digits, `.` and `_` |
| Config.ValidNameIff | src/config.h:84-88 | `ValidName`, the `find_first_not_of` test, passes a name if and only if each character is a letter, digit, `.` or `_`; the empty name passes |
| Config.LookupTyped | src/config.h:95-101 | the variable is found exactly when the name is stored with the requested type, else null |
| Config.Lookup | src/config.h:73-93 | the call fails exactly when the name is not stored with the default's type and is invalid. A failure leaves the registry alone. Success stores the result under the name. No other entry changes, and at most the name is added |
| Config.LookupExisting | src/config.h:77-82 | a stored variable of the default's type is returned and the registry is unchanged |
| Config.LookupInvalid | src/config.h:84-88 | a new name with a bad character throws `invalid_argument` and leaves the registry unchanged |
| Config.LookupCreatesThenFinds | src/config.h:90-101 | a valid new name stores a fresh variable with the default, which the typed lookup then finds |
| Config.LookupOverwrites | src/config.h:77-92 | a valid name stored with another type is replaced by a variable holding the default; the old type is no longer found |
| Config.LookupIdempotent | src/config.h:73-93 | a second lookup with the same name and type returns the same variable and changes nothing |
| Config.LookupPreservesWellFormed | src/config.h:73-93 | every variable stays stored under its own name, and every stored name is valid |
| Config.SetStored | src/config.h:63 | setting a value through the returned pointer makes that entry's value v and changes nothing else |
| Config.SetThenLookup | src/config.h:63-82 | after `setValue(v)`, the next lookup of that name and type returns v without a new entry |
| Config.PortRegistration | test/test_config.cc:4 | registering "system.port" with 8080 in an empty registry stores it |
| Config.ValueRegistration | test/test_config.cc:6 | registering "system.value" with 3.14 adds it beside "system.port" |
| Config.TestConfigScenario | test/test_config.cc:4-14 | both variables are found under their own type only, and a repeated lookup returns the stored 8080 |

## Left out

- Threads and locks: every mutex on this path is `NullMutex`, so the model is sequential; `GetThreadId` / `GetFiberId` are parameters.
- `localtime_r` + `strftime`: the time item calls a function parameter `strftime` of (format, timestamp). Because of this the 64-byte buffer is not modelled, nor its overflow case: when the text does not fit, `strftime` returns 0 and leaves the buffer contents indeterminate, and the item streams the buffer anyway (src/log.cc:312-315).
- `time(0)` and the clock: the timestamp is a parameter of the macro model.
- `LogEvent::format` (vasprintf) and the `SLTJ_LOG_FMT_*` macros: C variadic formatting is not modelled. Their gate is the same as `SLTJ_LOG_LEVEL`'s.
- Output streams: `std::cout`, the file stream and `FileLogAppender::reopen` are not modelled. A write is a `Write(sink, appender, text)` value. The flush of `std::endl` is not modelled; its newline is.
- The unopened file stream: the `FileLogAppender` constructor (src/log.h:228) never opens its stream, so in the source its writes are lost until `reopen()`. The model still records them as `Write(FileSink(..), ..)`.
- Levels outside the enum: the model's `Level` has only the six declared values. So the default branch of `ToString` (src/log.cc:119-120) names only `UNKNOW`, and is not reached with an out-of-range value.
- The parse-error message `LogFormatter::init` prints to `std::cout` is not modelled; the pattern-error item it pushes is.
- `shared_ptr` identity: appenders are compared by an `id`. The aliasing between a returned `ConfigVar` pointer and the registry is modelled by `Config.SetStored`.
- Loggers.AddAppender: an appender is copied into the logger as a value, but the source shares one mutable object. `addAppender` sets the formatter on the caller's own appender (src/log.cc:171-174), so a second logger that adds the same appender keeps the first logger's formatter; the model gives it the second logger's.
- Records.SetAppenderLevel: the source changes the shared appender object, so every logger holding it sees the new threshold. The model returns a detached copy that no attached logger sees.
- Records.SetAppenderFormatter: the same loss as `SetAppenderLevel`: loggers that already hold the appender do not see the new formatter.
- `LogEvent::getLogger`: the event holds a copy of its logger taken when it is built. The source reads the logger's state when the wrapper is destroyed, so a change to the logger while text is being streamed is not modelled.
- The appender threshold of a `FileLogAppender`, or of a `StdoutLogAppender` built without `()`: `m_level` is left uninitialised there, so it is an explicit constructor argument.
- `setFormatter(nullptr)` on a logger: the model's logger formatter is never null.
- `setFormatter(nullptr)` on an appender (src/log.h:167): the model cannot express a null formatter on an attached appender. In the source, an accepting appender with a null formatter dereferences it (src/log.cc:197, 205); the model requires a formatter (`Ready`).
- `LoggerMgr` singleton: the manager is passed explicitly.
- `LogManager::init` is empty.
- `ConfigVar::toString` / `fromString`: they depend on `boost::lexical_cast`. Note that `fromString` converts `m_val` rather than its argument (src/config.h:53).
- The log statements inside `Config::Lookup`: this is output only.
- `float` values: these are exact reals; single-precision rounding of `3.14` is not modelled.
- `const char*` file names: the event's file is a string, so a null file name is not modelled.
