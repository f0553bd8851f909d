/**
 * The pattern every `Logger` starts with, and the proof that it compiles to
 * the intended items: timestamp, thread and fiber ids, level, logger name,
 * file, line, message and newline, with no diagnostic among them.
 */
module DefaultFormat {
  import opened Pattern
  import opened Items
  import opened Text

  /** The pattern of the `Logger` constructor. */
  const DefaultPattern: string :=
    // "%d{%Y-%m-%d %H:%M:%S} %T%t %T%F%T [%p] %T [%N] %T %f %l %T %m %n", in pieces
    "%d{" + DefaultTimeFormat + "}" + " %T%t %T%F%T [%p]" + " %T [%N] %T %f %l" + " %T %m %n"

  function Chunk0(): seq<Entry> { [Directive("d", DefaultTimeFormat)] }

  lemma Step0(acc: seq<Entry>)
    ensures Scan(DefaultPattern, 0, "", acc) == Scan(DefaultPattern, 21, "", acc + Chunk0())
  {
    var p := DefaultPattern;
    TimeBlockCloses();
    TimeBlockParts();
    BlockDirectiveStep(p, 0, 20, "", acc);
  }

  /** The timestamp block of the default pattern ends at position 20. */
  lemma TimeBlockCloses()
    ensures DefaultPattern[0] == '%' && IsAlpha(DefaultPattern[1]) && DefaultPattern[2] == '{'
    ensures CloseAt(DefaultPattern, 3) == 20
  {
    var p := DefaultPattern;
    assert forall m :: 3 <= m < 20 ==> p[m] != '}';
    CloseAtFirst(p, 3, 20);
  }

  /** The key and the argument of the timestamp block. */
  lemma TimeBlockParts()
    ensures DefaultPattern[1..2] == "d" && DefaultPattern[3..20] == DefaultTimeFormat
  {
    var p := DefaultPattern;
    assert forall m :: 0 <= m < 17 ==> p[3 + m] == DefaultTimeFormat[m];
  }

  function Chunk1(): seq<Entry> { [Literal(" "), Directive("T", "")] }

  lemma Step1(acc: seq<Entry>)
    ensures Scan(DefaultPattern, 21, "", acc) == Scan(DefaultPattern, 24, "", acc + Chunk1())
  {
    var p := DefaultPattern;
    LiteralStretch(p, 21, 22, "", acc);
    assert "" + p[21..22] == " ";
    assert Flush(acc, " ") == acc + [Literal(" ")];
    SimpleDirectiveStep(p, 22, " ", acc);
    assert p[23..24] == "T";
    assert acc + [Literal(" ")] + [Directive("T", "")] == acc + Chunk1();
  }

  function Chunk2(): seq<Entry> { [Directive("t", "")] }

  lemma Step2(acc: seq<Entry>)
    ensures Scan(DefaultPattern, 24, "", acc) == Scan(DefaultPattern, 26, "", acc + Chunk2())
  {
    var p := DefaultPattern;
    SimpleDirectiveStep(p, 24, "", acc);
    assert p[25..26] == "t";
  }

  function Chunk3(): seq<Entry> { [Literal(" "), Directive("T", "")] }

  lemma Step3(acc: seq<Entry>)
    ensures Scan(DefaultPattern, 26, "", acc) == Scan(DefaultPattern, 29, "", acc + Chunk3())
  {
    var p := DefaultPattern;
    LiteralStretch(p, 26, 27, "", acc);
    assert "" + p[26..27] == " ";
    assert Flush(acc, " ") == acc + [Literal(" ")];
    SimpleDirectiveStep(p, 27, " ", acc);
    assert p[28..29] == "T";
    assert acc + [Literal(" ")] + [Directive("T", "")] == acc + Chunk3();
  }

  function Chunk4(): seq<Entry> { [Directive("F", "")] }

  lemma Step4(acc: seq<Entry>)
    ensures Scan(DefaultPattern, 29, "", acc) == Scan(DefaultPattern, 31, "", acc + Chunk4())
  {
    var p := DefaultPattern;
    SimpleDirectiveStep(p, 29, "", acc);
    assert p[30..31] == "F";
  }

  function Chunk5(): seq<Entry> { [Directive("T", "")] }

  lemma Step5(acc: seq<Entry>)
    ensures Scan(DefaultPattern, 31, "", acc) == Scan(DefaultPattern, 33, "", acc + Chunk5())
  {
    var p := DefaultPattern;
    SimpleDirectiveStep(p, 31, "", acc);
    assert p[32..33] == "T";
  }

  function Chunk6(): seq<Entry> { [Literal(" ["), Directive("p", "")] }

  lemma Step6(acc: seq<Entry>)
    ensures Scan(DefaultPattern, 33, "", acc) == Scan(DefaultPattern, 37, "", acc + Chunk6())
  {
    var p := DefaultPattern;
    LiteralStretch(p, 33, 35, "", acc);
    assert "" + p[33..35] == " [";
    assert Flush(acc, " [") == acc + [Literal(" [")];
    SimpleDirectiveStep(p, 35, " [", acc);
    assert p[36..37] == "p";
    assert acc + [Literal(" [")] + [Directive("p", "")] == acc + Chunk6();
  }

  function Chunk7(): seq<Entry> { [Literal("] "), Directive("T", "")] }

  lemma Step7(acc: seq<Entry>)
    ensures Scan(DefaultPattern, 37, "", acc) == Scan(DefaultPattern, 41, "", acc + Chunk7())
  {
    var p := DefaultPattern;
    LiteralStretch(p, 37, 39, "", acc);
    assert "" + p[37..39] == "] ";
    assert Flush(acc, "] ") == acc + [Literal("] ")];
    SimpleDirectiveStep(p, 39, "] ", acc);
    assert p[40..41] == "T";
    assert acc + [Literal("] ")] + [Directive("T", "")] == acc + Chunk7();
  }

  function Chunk8(): seq<Entry> { [Literal(" ["), Directive("N", "")] }

  lemma Step8(acc: seq<Entry>)
    ensures Scan(DefaultPattern, 41, "", acc) == Scan(DefaultPattern, 45, "", acc + Chunk8())
  {
    var p := DefaultPattern;
    LiteralStretch(p, 41, 43, "", acc);
    assert "" + p[41..43] == " [";
    assert Flush(acc, " [") == acc + [Literal(" [")];
    SimpleDirectiveStep(p, 43, " [", acc);
    assert p[44..45] == "N";
    assert acc + [Literal(" [")] + [Directive("N", "")] == acc + Chunk8();
  }

  function Chunk9(): seq<Entry> { [Literal("] "), Directive("T", "")] }

  lemma Step9(acc: seq<Entry>)
    ensures Scan(DefaultPattern, 45, "", acc) == Scan(DefaultPattern, 49, "", acc + Chunk9())
  {
    var p := DefaultPattern;
    LiteralStretch(p, 45, 47, "", acc);
    assert "" + p[45..47] == "] ";
    assert Flush(acc, "] ") == acc + [Literal("] ")];
    SimpleDirectiveStep(p, 47, "] ", acc);
    assert p[48..49] == "T";
    assert acc + [Literal("] ")] + [Directive("T", "")] == acc + Chunk9();
  }

  function Chunk10(): seq<Entry> { [Literal(" "), Directive("f", "")] }

  lemma Step10(acc: seq<Entry>)
    ensures Scan(DefaultPattern, 49, "", acc) == Scan(DefaultPattern, 52, "", acc + Chunk10())
  {
    var p := DefaultPattern;
    LiteralStretch(p, 49, 50, "", acc);
    assert "" + p[49..50] == " ";
    assert Flush(acc, " ") == acc + [Literal(" ")];
    SimpleDirectiveStep(p, 50, " ", acc);
    assert p[51..52] == "f";
    assert acc + [Literal(" ")] + [Directive("f", "")] == acc + Chunk10();
  }

  function Chunk11(): seq<Entry> { [Literal(" "), Directive("l", "")] }

  lemma Step11(acc: seq<Entry>)
    ensures Scan(DefaultPattern, 52, "", acc) == Scan(DefaultPattern, 55, "", acc + Chunk11())
  {
    var p := DefaultPattern;
    LiteralStretch(p, 52, 53, "", acc);
    assert "" + p[52..53] == " ";
    assert Flush(acc, " ") == acc + [Literal(" ")];
    SimpleDirectiveStep(p, 53, " ", acc);
    assert p[54..55] == "l";
    assert acc + [Literal(" ")] + [Directive("l", "")] == acc + Chunk11();
  }

  function Chunk12(): seq<Entry> { [Literal(" "), Directive("T", "")] }

  lemma Step12(acc: seq<Entry>)
    ensures Scan(DefaultPattern, 55, "", acc) == Scan(DefaultPattern, 58, "", acc + Chunk12())
  {
    var p := DefaultPattern;
    LiteralStretch(p, 55, 56, "", acc);
    assert "" + p[55..56] == " ";
    assert Flush(acc, " ") == acc + [Literal(" ")];
    SimpleDirectiveStep(p, 56, " ", acc);
    assert p[57..58] == "T";
    assert acc + [Literal(" ")] + [Directive("T", "")] == acc + Chunk12();
  }

  function Chunk13(): seq<Entry> { [Literal(" "), Directive("m", "")] }

  lemma Step13(acc: seq<Entry>)
    ensures Scan(DefaultPattern, 58, "", acc) == Scan(DefaultPattern, 61, "", acc + Chunk13())
  {
    var p := DefaultPattern;
    LiteralStretch(p, 58, 59, "", acc);
    assert "" + p[58..59] == " ";
    assert Flush(acc, " ") == acc + [Literal(" ")];
    SimpleDirectiveStep(p, 59, " ", acc);
    assert p[60..61] == "m";
    assert acc + [Literal(" ")] + [Directive("m", "")] == acc + Chunk13();
  }

  function Chunk14(): seq<Entry> { [Literal(" "), Directive("n", "")] }

  lemma Step14(acc: seq<Entry>)
    ensures Scan(DefaultPattern, 61, "", acc) == Scan(DefaultPattern, 64, "", acc + Chunk14())
  {
    var p := DefaultPattern;
    LiteralStretch(p, 61, 62, "", acc);
    assert "" + p[61..62] == " ";
    assert Flush(acc, " ") == acc + [Literal(" ")];
    SimpleDirectiveStep(p, 62, " ", acc);
    assert p[63..64] == "n";
    assert acc + [Literal(" ")] + [Directive("n", "")] == acc + Chunk14();
  }

  /** The entries of the default pattern, step by step. */
  lemma DefaultPatternEntries()
    ensures Entries(DefaultPattern) == Chunk0() + Chunk1() + Chunk2() + Chunk3() + Chunk4() + Chunk5() + Chunk6() + Chunk7() + Chunk8() + Chunk9() + Chunk10() + Chunk11() + Chunk12() + Chunk13() + Chunk14()
  {
    Step0([]);
    Step1([] + Chunk0());
    Step2([] + Chunk0() + Chunk1());
    Step3([] + Chunk0() + Chunk1() + Chunk2());
    Step4([] + Chunk0() + Chunk1() + Chunk2() + Chunk3());
    Step5([] + Chunk0() + Chunk1() + Chunk2() + Chunk3() + Chunk4());
    Step6([] + Chunk0() + Chunk1() + Chunk2() + Chunk3() + Chunk4() + Chunk5());
    Step7([] + Chunk0() + Chunk1() + Chunk2() + Chunk3() + Chunk4() + Chunk5() + Chunk6());
    Step8([] + Chunk0() + Chunk1() + Chunk2() + Chunk3() + Chunk4() + Chunk5() + Chunk6() + Chunk7());
    Step9([] + Chunk0() + Chunk1() + Chunk2() + Chunk3() + Chunk4() + Chunk5() + Chunk6() + Chunk7() + Chunk8());
    Step10([] + Chunk0() + Chunk1() + Chunk2() + Chunk3() + Chunk4() + Chunk5() + Chunk6() + Chunk7() + Chunk8() + Chunk9());
    Step11([] + Chunk0() + Chunk1() + Chunk2() + Chunk3() + Chunk4() + Chunk5() + Chunk6() + Chunk7() + Chunk8() + Chunk9() + Chunk10());
    Step12([] + Chunk0() + Chunk1() + Chunk2() + Chunk3() + Chunk4() + Chunk5() + Chunk6() + Chunk7() + Chunk8() + Chunk9() + Chunk10() + Chunk11());
    Step13([] + Chunk0() + Chunk1() + Chunk2() + Chunk3() + Chunk4() + Chunk5() + Chunk6() + Chunk7() + Chunk8() + Chunk9() + Chunk10() + Chunk11() + Chunk12());
    Step14([] + Chunk0() + Chunk1() + Chunk2() + Chunk3() + Chunk4() + Chunk5() + Chunk6() + Chunk7() + Chunk8() + Chunk9() + Chunk10() + Chunk11() + Chunk12() + Chunk13());
  }

  /** The items the default pattern compiles to. */
  function DefaultItems(): seq<Item> {
    [Time(DefaultTimeFormat)]
      + [Str(" "), Tab]
      + [ThreadId]
      + [Str(" "), Tab]
      + [FiberId]
      + [Tab]
      + [Str(" ["), LevelName]
      + [Str("] "), Tab]
      + [Str(" ["), Name]
      + [Str("] "), Tab]
      + [Str(" "), File]
      + [Str(" "), Line]
      + [Str(" "), Tab]
      + [Str(" "), Message]
      + [Str(" "), NewLine]
  }

  /** The default pattern compiles to timestamp, ids, level, name, file, line and message. */
  lemma DefaultPatternCompiles()
    ensures Compile(DefaultPattern) == DefaultItems()
  {
    DefaultPatternEntries();
    assert ResolveAll(Chunk0()) == [Time(DefaultTimeFormat)];
    assert ResolveAll(Chunk1()) == [Str(" "), Tab];
    assert ResolveAll(Chunk2()) == [ThreadId];
    assert ResolveAll(Chunk3()) == [Str(" "), Tab];
    assert ResolveAll(Chunk4()) == [FiberId];
    assert ResolveAll(Chunk5()) == [Tab];
    assert ResolveAll(Chunk6()) == [Str(" ["), LevelName];
    assert ResolveAll(Chunk7()) == [Str("] "), Tab];
    assert ResolveAll(Chunk8()) == [Str(" ["), Name];
    assert ResolveAll(Chunk9()) == [Str("] "), Tab];
    assert ResolveAll(Chunk10()) == [Str(" "), File];
    assert ResolveAll(Chunk11()) == [Str(" "), Line];
    assert ResolveAll(Chunk12()) == [Str(" "), Tab];
    assert ResolveAll(Chunk13()) == [Str(" "), Message];
    assert ResolveAll(Chunk14()) == [Str(" "), NewLine];
    ResolveAllAppend(Chunk0(), Chunk1());
    ResolveAllAppend(Chunk0() + Chunk1(), Chunk2());
    ResolveAllAppend(Chunk0() + Chunk1() + Chunk2(), Chunk3());
    ResolveAllAppend(Chunk0() + Chunk1() + Chunk2() + Chunk3(), Chunk4());
    ResolveAllAppend(Chunk0() + Chunk1() + Chunk2() + Chunk3() + Chunk4(), Chunk5());
    ResolveAllAppend(Chunk0() + Chunk1() + Chunk2() + Chunk3() + Chunk4() + Chunk5(), Chunk6());
    ResolveAllAppend(Chunk0() + Chunk1() + Chunk2() + Chunk3() + Chunk4() + Chunk5() + Chunk6(), Chunk7());
    ResolveAllAppend(Chunk0() + Chunk1() + Chunk2() + Chunk3() + Chunk4() + Chunk5() + Chunk6() + Chunk7(), Chunk8());
    ResolveAllAppend(Chunk0() + Chunk1() + Chunk2() + Chunk3() + Chunk4() + Chunk5() + Chunk6() + Chunk7() + Chunk8(), Chunk9());
    ResolveAllAppend(Chunk0() + Chunk1() + Chunk2() + Chunk3() + Chunk4() + Chunk5() + Chunk6() + Chunk7() + Chunk8() + Chunk9(), Chunk10());
    ResolveAllAppend(Chunk0() + Chunk1() + Chunk2() + Chunk3() + Chunk4() + Chunk5() + Chunk6() + Chunk7() + Chunk8() + Chunk9() + Chunk10(), Chunk11());
    ResolveAllAppend(Chunk0() + Chunk1() + Chunk2() + Chunk3() + Chunk4() + Chunk5() + Chunk6() + Chunk7() + Chunk8() + Chunk9() + Chunk10() + Chunk11(), Chunk12());
    ResolveAllAppend(Chunk0() + Chunk1() + Chunk2() + Chunk3() + Chunk4() + Chunk5() + Chunk6() + Chunk7() + Chunk8() + Chunk9() + Chunk10() + Chunk11() + Chunk12(), Chunk13());
    ResolveAllAppend(Chunk0() + Chunk1() + Chunk2() + Chunk3() + Chunk4() + Chunk5() + Chunk6() + Chunk7() + Chunk8() + Chunk9() + Chunk10() + Chunk11() + Chunk12() + Chunk13(), Chunk14());
  }

  /** No item of the list is a diagnostic. */
  ghost predicate Clean(items: seq<Item>) {
    forall k :: 0 <= k < |items| ==> !IsDiagnostic(items[k])
  }

  lemma CleanAppend(a: seq<Item>, b: seq<Item>)
    requires Clean(a) && Clean(b)
    ensures Clean(a + b)
  {
    forall k | 0 <= k < |a + b| ensures !IsDiagnostic((a + b)[k]) {
      if k >= |a| {
        assert (a + b)[k] == b[k - |a|];
      }
    }
  }

  /** Items that are not literals, or short literals, are no diagnostics. */
  lemma ChunkClean(items: seq<Item>)
    requires forall k :: 0 <= k < |items| ==> !items[k].Str? || |items[k].text| <= 2
    ensures Clean(items)
  {
    forall k | 0 <= k < |items| && items[k].Str? ensures !IsDiagnostic(items[k]) {
      forall key ensures items[k].text != ErrorFormat(key) {
        assert |ErrorFormat(key)| >= 18;
      }
    }
  }

  /** None of the default pattern's items is `<<pattern_error>>` or `<<error_format %K>>`. */
  lemma DefaultPatternClean()
    ensures Clean(Compile(DefaultPattern))
  {
    DefaultPatternCompiles();
    ChunkClean([Time(DefaultTimeFormat)]);
    ChunkClean([Str(" "), Tab]);
    ChunkClean([ThreadId]);
    ChunkClean([Str(" "), Tab]);
    ChunkClean([FiberId]);
    ChunkClean([Tab]);
    ChunkClean([Str(" ["), LevelName]);
    ChunkClean([Str("] "), Tab]);
    ChunkClean([Str(" ["), Name]);
    ChunkClean([Str("] "), Tab]);
    ChunkClean([Str(" "), File]);
    ChunkClean([Str(" "), Line]);
    ChunkClean([Str(" "), Tab]);
    ChunkClean([Str(" "), Message]);
    ChunkClean([Str(" "), NewLine]);
    CleanAppend([Time(DefaultTimeFormat)], [Str(" "), Tab]);
    CleanAppend([Time(DefaultTimeFormat)] + [Str(" "), Tab], [ThreadId]);
    CleanAppend([Time(DefaultTimeFormat)] + [Str(" "), Tab] + [ThreadId], [Str(" "), Tab]);
    CleanAppend([Time(DefaultTimeFormat)] + [Str(" "), Tab] + [ThreadId] + [Str(" "), Tab], [FiberId]);
    CleanAppend([Time(DefaultTimeFormat)] + [Str(" "), Tab] + [ThreadId] + [Str(" "), Tab] + [FiberId], [Tab]);
    CleanAppend([Time(DefaultTimeFormat)] + [Str(" "), Tab] + [ThreadId] + [Str(" "), Tab] + [FiberId] + [Tab], [Str(" ["), LevelName]);
    CleanAppend([Time(DefaultTimeFormat)] + [Str(" "), Tab] + [ThreadId] + [Str(" "), Tab] + [FiberId] + [Tab] + [Str(" ["), LevelName], [Str("] "), Tab]);
    CleanAppend([Time(DefaultTimeFormat)] + [Str(" "), Tab] + [ThreadId] + [Str(" "), Tab] + [FiberId] + [Tab] + [Str(" ["), LevelName] + [Str("] "), Tab], [Str(" ["), Name]);
    CleanAppend([Time(DefaultTimeFormat)] + [Str(" "), Tab] + [ThreadId] + [Str(" "), Tab] + [FiberId] + [Tab] + [Str(" ["), LevelName] + [Str("] "), Tab] + [Str(" ["), Name], [Str("] "), Tab]);
    CleanAppend([Time(DefaultTimeFormat)] + [Str(" "), Tab] + [ThreadId] + [Str(" "), Tab] + [FiberId] + [Tab] + [Str(" ["), LevelName] + [Str("] "), Tab] + [Str(" ["), Name] + [Str("] "), Tab], [Str(" "), File]);
    CleanAppend([Time(DefaultTimeFormat)] + [Str(" "), Tab] + [ThreadId] + [Str(" "), Tab] + [FiberId] + [Tab] + [Str(" ["), LevelName] + [Str("] "), Tab] + [Str(" ["), Name] + [Str("] "), Tab] + [Str(" "), File], [Str(" "), Line]);
    CleanAppend([Time(DefaultTimeFormat)] + [Str(" "), Tab] + [ThreadId] + [Str(" "), Tab] + [FiberId] + [Tab] + [Str(" ["), LevelName] + [Str("] "), Tab] + [Str(" ["), Name] + [Str("] "), Tab] + [Str(" "), File] + [Str(" "), Line], [Str(" "), Tab]);
    CleanAppend([Time(DefaultTimeFormat)] + [Str(" "), Tab] + [ThreadId] + [Str(" "), Tab] + [FiberId] + [Tab] + [Str(" ["), LevelName] + [Str("] "), Tab] + [Str(" ["), Name] + [Str("] "), Tab] + [Str(" "), File] + [Str(" "), Line] + [Str(" "), Tab], [Str(" "), Message]);
    CleanAppend([Time(DefaultTimeFormat)] + [Str(" "), Tab] + [ThreadId] + [Str(" "), Tab] + [FiberId] + [Tab] + [Str(" ["), LevelName] + [Str("] "), Tab] + [Str(" ["), Name] + [Str("] "), Tab] + [Str(" "), File] + [Str(" "), Line] + [Str(" "), Tab] + [Str(" "), Message], [Str(" "), NewLine]);
  }
}
