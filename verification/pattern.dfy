/**
 * The scanner of `LogFormatter::init`: one left-to-right pass over the pattern
 * that produces an ordered list of literal runs and `%key{arg}` directives.
 * `Scan` mirrors the outer `for` loop and `ScanDirective` the inner `while`
 * loop, quirks included; `DirectiveSpec` is an independent description of
 * what the inner loop recognises, proved equal to it.
 */
module Pattern {
  import opened Text

  /** The diagnostic pushed for a `{` that is never closed. */
  const PatternError: string := "<<pattern_error>>"

  /** One element of the intermediate vector: a literal (type 0) or a directive (type 1). */
  datatype Entry = Literal(text: string) | Directive(key: string, arg: string)

  /** What the inner loop found after a `%` at position i. */
  datatype Scanned =
    | Closed(key: string, arg: string, next: nat)  // `next` is where the outer loop resumes
    | Unterminated                                  // the loop ended inside a `{` block

  /** Characters the inner loop keeps in a key outside a block: letters and `}`. */
  predicate KeyChar(c: char) {
    IsAlpha(c) || c == '}'
  }

  /** Appends the pending literal run, if any, to the entries. */
  function Flush(acc: seq<Entry>, pending: string): (r: seq<Entry>)
    ensures pending == [] ==> r == acc
    ensures pending != [] ==> r == acc + [Literal(pending)]
  {
    if pending != [] then acc + [Literal(pending)] else acc
  }

  /**
   * The inner `while (n < m_pattern.size())` loop for a `%` at index i.
   * `inBlock` is `fmt_status == 1`, `fmtBegin` is `fmt_begin` and `key` is `str`
   * as captured at the `{`. When the loop runs off the end outside a block, the
   * source's `str = m_pattern.substr(i + 1)` gives the key.
   */
  function ScanDirective(p: string, i: nat, n: nat, inBlock: bool, fmtBegin: nat, key: string): (r: Scanned)
    requires i < n <= |p|
    requires inBlock ==> i < fmtBegin < n
    ensures r.Closed? ==> i < r.next <= |p|
    decreases |p| - n
  {
    if n == |p| then
      if inBlock then Unterminated else Closed(p[i + 1..], "", n)
    else if !inBlock && !KeyChar(p[n]) && p[n] != '{' then
      Closed(p[i + 1..n], "", n)
    else if !inBlock && p[n] == '{' then
      ScanDirective(p, i, n + 1, true, n, p[i + 1..n])
    else if inBlock && p[n] == '}' then
      Closed(key, p[fmtBegin + 1..n], n + 1)
    else
      ScanDirective(p, i, n + 1, inBlock, fmtBegin, key)
  }

  /**
   * The outer `for (i = 0; i < m_pattern.size(); ++i)` loop from index i, with the
   * pending literal run `nstr` and the entries `vec` built so far.
   */
  function Scan(p: string, i: nat, pending: string, acc: seq<Entry>): (r: seq<Entry>)
    requires i <= |p|
    decreases |p| - i
  {
    if i == |p| then Flush(acc, pending)
    else if p[i] != '%' then Scan(p, i + 1, pending + [p[i]], acc)
    else if i + 1 < |p| && p[i + 1] == '%' then
      // `%%` adds one `%` to the run but does not skip the second `%`
      Scan(p, i + 1, pending + "%", acc)
    else
      match ScanDirective(p, i, i + 1, false, 0, "")
      case Closed(key, arg, next) =>
        Scan(p, next, "", Flush(acc, pending) + [Directive(key, arg)])
      case Unterminated =>
        // the diagnostic goes in before the pending run, and the scan resumes at i + 1
        Scan(p, i + 1, pending, acc + [Literal(PatternError)])
  }

  /** The entries the whole pattern compiles to. */
  function Entries(p: string): seq<Entry> {
    Scan(p, 0, "", [])
  }

  /** No literal entry of a compiled pattern is empty. */
  lemma EntriesHaveNoEmptyLiteral(p: string)
    ensures NoEmptyLiteral(Entries(p))
  {
    ScanKeepsLiteralsNonEmpty(p, 0, "", []);
  }

  /** The outer loop only ever appends: the entries built so far are a prefix of the result. */
  lemma {:induction false} ScanExtends(p: string, i: nat, pending: string, acc: seq<Entry>)
    requires i <= |p|
    ensures acc <= Scan(p, i, pending, acc)
    decreases |p| - i
  {
    if i == |p| {
    } else if p[i] != '%' {
      ScanExtends(p, i + 1, pending + [p[i]], acc);
    } else if i + 1 < |p| && p[i + 1] == '%' {
      ScanExtends(p, i + 1, pending + "%", acc);
    } else {
      match ScanDirective(p, i, i + 1, false, 0, "")
      case Closed(key, arg, next) =>
        var acc' := Flush(acc, pending) + [Directive(key, arg)];
        ScanExtends(p, next, "", acc');
        assert acc <= acc';
      case Unterminated =>
        ScanExtends(p, i + 1, pending, acc + [Literal(PatternError)]);
        assert acc <= acc + [Literal(PatternError)];
    }
  }

  /** Every literal entry carries some text. */
  predicate NoEmptyLiteral(es: seq<Entry>) {
    forall k :: 0 <= k < |es| && es[k].Literal? ==> es[k].text != []
  }

  /**
   * The outer loop pushes a literal run only when it is non-empty, and the
   * pattern-error literal is non-empty, so it never adds an empty literal.
   */
  lemma {:induction false} ScanKeepsLiteralsNonEmpty(p: string, i: nat, pending: string, acc: seq<Entry>)
    requires i <= |p|
    requires NoEmptyLiteral(acc)
    ensures NoEmptyLiteral(Scan(p, i, pending, acc))
    decreases |p| - i
  {
    if i == |p| {
    } else if p[i] != '%' {
      ScanKeepsLiteralsNonEmpty(p, i + 1, pending + [p[i]], acc);
    } else if i + 1 < |p| && p[i + 1] == '%' {
      ScanKeepsLiteralsNonEmpty(p, i + 1, pending + "%", acc);
    } else {
      match ScanDirective(p, i, i + 1, false, 0, "")
      case Closed(key, arg, next) =>
        ScanKeepsLiteralsNonEmpty(p, next, "", Flush(acc, pending) + [Directive(key, arg)]);
      case Unterminated =>
        ScanKeepsLiteralsNonEmpty(p, i + 1, pending, acc + [Literal(PatternError)]);
    }
  }

  // ---------------------------------------------------------------------------
  // An independent description of a directive

  /** The end of the maximal run of key characters starting at j. */
  function KeyEnd(p: string, j: nat): (k: nat)
    requires j <= |p|
    ensures j <= k <= |p|
    ensures forall m :: j <= m < k ==> KeyChar(p[m])
    ensures k < |p| ==> !KeyChar(p[k])
    decreases |p| - j
  {
    if j == |p| || !KeyChar(p[j]) then j else KeyEnd(p, j + 1)
  }

  /** The index of the first `}` at or after j, or |p| when there is none. */
  function CloseAt(p: string, j: nat): (k: nat)
    requires j <= |p|
    ensures j <= k <= |p|
    ensures forall m :: j <= m < k ==> p[m] != '}'
    ensures k < |p| ==> p[k] == '}'
    decreases |p| - j
  {
    if j == |p| || p[j] == '}' then j else CloseAt(p, j + 1)
  }

  /** `CloseAt` finds the first `}`. */
  lemma CloseAtFirst(p: string, j: nat, k: nat)
    requires j <= k < |p| && p[k] == '}'
    requires forall m :: j <= m < k ==> p[m] != '}'
    ensures CloseAt(p, j) == k
  {
  }

  /**
   * A directive at a `%` in position i: the key is the maximal run of letters
   * and `}` after it; a `{` right after the key opens a block that ends at the
   * next `}` (no nesting), and without such a `}` the directive is unterminated.
   */
  function DirectiveSpec(p: string, i: nat): (r: Scanned)
    requires i < |p|
    ensures r.Closed? ==> i < r.next <= |p|
  {
    var k := KeyEnd(p, i + 1);
    if k < |p| && p[k] == '{' then
      var c := CloseAt(p, k + 1);
      if c < |p| then Closed(p[i + 1..k], p[k + 1..c], c + 1) else Unterminated
    else
      Closed(p[i + 1..k], "", k)
  }

  /** Inside a block, the inner loop ends exactly at the next `}`. */
  lemma {:induction false} BlockPhase(p: string, i: nat, k: nat, n: nat)
    requires i < k < n <= |p| && p[k] == '{'
    requires n <= CloseAt(p, k + 1)
    ensures ScanDirective(p, i, n, true, k, p[i + 1..k])
         == (if CloseAt(p, k + 1) < |p|
             then Closed(p[i + 1..k], p[k + 1..CloseAt(p, k + 1)], CloseAt(p, k + 1) + 1)
             else Unterminated)
    decreases |p| - n
  {
    if n < |p| && p[n] != '}' {
      BlockPhase(p, i, k, n + 1);
    }
  }

  /** Outside a block, the inner loop consumes the key run and then decides. */
  lemma {:induction false} KeyPhase(p: string, i: nat, n: nat)
    requires i < |p| && i < n <= KeyEnd(p, i + 1)
    ensures ScanDirective(p, i, n, false, 0, "") == DirectiveSpec(p, i)
    decreases |p| - n
  {
    var k := KeyEnd(p, i + 1);
    if n < k {
      assert KeyChar(p[n]);
      KeyPhase(p, i, n + 1);
    } else if n < |p| && p[n] == '{' {
      assert ScanDirective(p, i, n, false, 0, "") == ScanDirective(p, i, n + 1, true, n, p[i + 1..n]);
      BlockPhase(p, i, n, n + 1);
      assert DirectiveSpec(p, i)
          == (if CloseAt(p, n + 1) < |p| then Closed(p[i + 1..n], p[n + 1..CloseAt(p, n + 1)], CloseAt(p, n + 1) + 1)
              else Unterminated);
    } else {
      assert DirectiveSpec(p, i) == Closed(p[i + 1..n], "", n);
    }
  }

  /** The inner loop recognises exactly what `DirectiveSpec` describes. */
  lemma DirectiveMatchesSpec(p: string, i: nat)
    requires i < |p|
    ensures ScanDirective(p, i, i + 1, false, 0, "") == DirectiveSpec(p, i)
  {
    KeyPhase(p, i, i + 1);
  }

  /**
   * The key of a closed directive is a maximal run of letters and `}`; a block,
   * if present, is everything up to the next `}` and is consumed whatever the key.
   */
  lemma DirectiveShape(p: string, i: nat)
    requires i < |p|
    ensures var r := ScanDirective(p, i, i + 1, false, 0, "");
            r.Closed? ==>
              && i + 1 + |r.key| <= |p|
              && r.key == p[i + 1..i + 1 + |r.key|]
              && (forall m :: 0 <= m < |r.key| ==> KeyChar(r.key[m]))
              && (r.arg == [] && r.next == i + 1 + |r.key| ==>
                    r.next == |p| || (!KeyChar(p[r.next]) && p[r.next] != '{'))
              && (r.next > i + 1 + |r.key| ==>
                    && p[i + 1 + |r.key|] == '{'
                    && p[r.next - 1] == '}'
                    && r.arg == p[i + 2 + |r.key|..r.next - 1]
                    && (forall m :: 0 <= m < |r.arg| ==> r.arg[m] != '}'))
    ensures ScanDirective(p, i, i + 1, false, 0, "").Unterminated? <==>
              var k := KeyEnd(p, i + 1);
              k < |p| && p[k] == '{' && CloseAt(p, k + 1) == |p|
  {
    DirectiveMatchesSpec(p, i);
  }

  // ---------------------------------------------------------------------------
  // Literal runs

  /** A stretch without `%` is appended verbatim to the pending literal run. */
  lemma {:induction false} LiteralStretch(p: string, i: nat, j: nat, pending: string, acc: seq<Entry>)
    requires i <= j <= |p|
    requires forall m :: i <= m < j ==> p[m] != '%'
    ensures Scan(p, i, pending, acc) == Scan(p, j, pending + p[i..j], acc)
    decreases j - i
  {
    if i < j {
      LiteralStretch(p, i + 1, j, pending + [p[i]], acc);
      assert pending + [p[i]] + p[i + 1..j] == pending + p[i..j];
    } else {
      assert pending + p[i..j] == pending;
    }
  }

  /** A pattern without `%` yields at most one entry: the whole pattern as a literal. */
  lemma NoPercentEntries(p: string)
    requires forall m :: 0 <= m < |p| ==> p[m] != '%'
    ensures Entries(p) == (if p == [] then [] else [Literal(p)])
  {
    LiteralStretch(p, 0, |p|, "", []);
    assert "" + p[0..|p|] == p;
  }

  // ---------------------------------------------------------------------------
  // Single steps of the outer loop over well-formed directives

  /**
   * Any `%` that is not an escape and whose directive closes: the pending run
   * is flushed, the directive is pushed with its key and block text, and the
   * scan resumes where the directive ends.
   */
  lemma ClosedStep(p: string, i: nat, pending: string, acc: seq<Entry>)
    requires i < |p| && p[i] == '%' && !(i + 1 < |p| && p[i + 1] == '%')
    requires DirectiveSpec(p, i).Closed?
    ensures var d := DirectiveSpec(p, i);
            Scan(p, i, pending, acc) == Scan(p, d.next, "", Flush(acc, pending) + [Directive(d.key, d.arg)])
  {
    DirectiveMatchesSpec(p, i);
  }

  /** A one-letter directive followed by a character that ends the key (or by the end). */
  lemma SimpleDirectiveStep(p: string, i: nat, pending: string, acc: seq<Entry>)
    requires i + 2 <= |p| && p[i] == '%' && IsAlpha(p[i + 1])
    requires i + 2 == |p| || (!KeyChar(p[i + 2]) && p[i + 2] != '{')
    ensures Scan(p, i, pending, acc)
         == Scan(p, i + 2, "", Flush(acc, pending) + [Directive(p[i + 1..i + 2], "")])
  {
    DirectiveMatchesSpec(p, i);
    assert KeyEnd(p, i + 2) == i + 2;
  }

  /** A one-letter directive with a closed `{...}` block. */
  lemma BlockDirectiveStep(p: string, i: nat, c: nat, pending: string, acc: seq<Entry>)
    requires i + 3 <= c < |p| && p[i] == '%' && IsAlpha(p[i + 1]) && p[i + 2] == '{'
    requires CloseAt(p, i + 3) == c
    ensures Scan(p, i, pending, acc)
         == Scan(p, c + 1, "", Flush(acc, pending) + [Directive(p[i + 1..i + 2], p[i + 3..c])])
  {
    DirectiveMatchesSpec(p, i);
    assert KeyEnd(p, i + 2) == i + 2;
  }

  /**
   * A `%` that is not an escape and opens a block that never closes: the
   * diagnostic is pushed ahead of the pending run, which stays pending, and
   * the scan resumes at the character after the `%`.
   */
  lemma UnterminatedStep(p: string, i: nat, pending: string, acc: seq<Entry>)
    requires i < |p| && p[i] == '%' && !(i + 1 < |p| && p[i + 1] == '%')
    requires DirectiveSpec(p, i).Unterminated?
    ensures Scan(p, i, pending, acc) == Scan(p, i + 1, pending, acc + [Literal(PatternError)])
  {
    DirectiveMatchesSpec(p, i);
  }

  // ---------------------------------------------------------------------------
  // The quirks, on the inputs that show them

  /** `%%m`: a literal `%`, then the second `%` starts the directive `m`. */
  lemma EscapeThenDirective()
    ensures Entries("%%m") == [Literal("%"), Directive("m", "")]
  {
    var p := "%%m";
    assert ScanDirective(p, 1, 2, false, 0, "") == Closed("m", "", 3) by {
      assert ScanDirective(p, 1, 3, false, 0, "") == Closed(p[2..], "", 3);
    }
    assert "" + "%" == "%";
    assert Scan(p, 0, "", []) == Scan(p, 1, "%", []);
    assert Scan(p, 1, "%", []) == Scan(p, 3, "", [Literal("%"), Directive("m", "")]);
  }

  /** `a%%b`: the escape leaves the second `%` to start the unknown directive `b`. */
  lemma EscapeSwallowsNothing()
    ensures Entries("a%%b") == [Literal("a%"), Directive("b", "")]
  {
    var p := "a%%b";
    assert ScanDirective(p, 2, 3, false, 0, "") == Closed("b", "", 4) by {
      assert ScanDirective(p, 2, 4, false, 0, "") == Closed(p[3..], "", 4);
    }
    assert "" + [p[0]] == "a";
    assert Scan(p, 0, "", []) == Scan(p, 1, "a", []);
    assert "a" + "%" == "a%";
    assert Scan(p, 1, "a", []) == Scan(p, 2, "a%", []);
    assert Scan(p, 2, "a%", []) == Scan(p, 4, "", [Literal("a%"), Directive("b", "")]);
  }

  /** `%5m`: the key is empty and scanning resumes at `5`. */
  lemma EmptyKey()
    ensures Entries("%5m") == [Directive("", ""), Literal("5m")]
  {
    var p := "%5m";
    assert ScanDirective(p, 0, 1, false, 0, "") == Closed("", "", 1);
    assert Scan(p, 0, "", []) == Scan(p, 1, "", [Directive("", "")]);
    assert "" + [p[1]] == "5";
    assert Scan(p, 1, "", [Directive("", "")]) == Scan(p, 2, "5", [Directive("", "")]);
    assert "5" + [p[2]] == "5m";
    assert Scan(p, 2, "5", [Directive("", "")]) == Scan(p, 3, "5m", [Directive("", "")]);
  }

  /** `%m}x`: outside a block `}` belongs to the key. */
  lemma BraceInKey()
    ensures Entries("%m}x") == [Directive("m}x", "")]
  {
    var p := "%m}x";
    assert ScanDirective(p, 0, 1, false, 0, "") == Closed("m}x", "", 4) by {
      assert ScanDirective(p, 0, 4, false, 0, "") == Closed(p[1..], "", 4);
      assert ScanDirective(p, 0, 3, false, 0, "") == ScanDirective(p, 0, 4, false, 0, "");
      assert ScanDirective(p, 0, 2, false, 0, "") == ScanDirective(p, 0, 3, false, 0, "");
    }
  }

  /** `%d{%Y`: the diagnostic precedes the pending run, and scanning resumes after the `%`. */
  lemma UnterminatedRescans()
    ensures Entries("%d{%Y") == [Literal(PatternError), Literal("d{"), Directive("Y", "")]
  {
    var p := "%d{%Y";
    assert ScanDirective(p, 0, 1, false, 0, "") == Unterminated by {
      assert ScanDirective(p, 0, 5, true, 2, "d") == Unterminated;
      assert ScanDirective(p, 0, 4, true, 2, "d") == Unterminated;
      assert ScanDirective(p, 0, 3, true, 2, "d") == Unterminated;
      assert ScanDirective(p, 0, 2, false, 0, "") == ScanDirective(p, 0, 3, true, 2, p[1..2]);
    }
    assert ScanDirective(p, 3, 4, false, 0, "") == Closed("Y", "", 5) by {
      assert ScanDirective(p, 3, 5, false, 0, "") == Closed(p[4..], "", 5);
    }
    var e := [Literal(PatternError)];
    assert Scan(p, 0, "", []) == Scan(p, 1, "", e);
    assert "" + [p[1]] == "d";
    assert Scan(p, 1, "", e) == Scan(p, 2, "d", e);
    assert "d" + [p[2]] == "d{";
    assert Scan(p, 2, "d", e) == Scan(p, 3, "d{", e);
    assert Scan(p, 3, "d{", e) == Scan(p, 5, "", e + [Literal("d{"), Directive("Y", "")]);
  }

  /** `ab%d{`: the diagnostic goes in ahead of "ab", which stays pending and absorbs the rescanned "d{". */
  lemma UnterminatedKeepsPending()
    ensures Entries("ab%d{") == [Literal(PatternError), Literal("abd{")]
  {
    var p := "ab%d{";
    LiteralStretch(p, 0, 2, "", []);
    assert "" + p[0..2] == "ab";
    assert DirectiveSpec(p, 2) == Unterminated by {
      assert KeyEnd(p, 3) == 4;
      assert CloseAt(p, 5) == 5;
    }
    UnterminatedStep(p, 2, "ab", []);
    var e := [Literal(PatternError)];
    assert [] + e == e;
    LiteralStretch(p, 3, 5, "ab", e);
    assert "ab" + p[3..5] == "abd{";
    assert Scan(p, 5, "abd{", e) == [Literal(PatternError), Literal("abd{")];
  }
}
