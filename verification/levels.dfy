/** Severity levels: the `LogLevel::Level` enumeration and its string codec. */
module Levels {
  import opened Text

  /** The enumeration in declaration order; `UNKNOW` is the source's own spelling. */
  datatype Level = UNKNOW | DEBUG | INFO | WARN | ERROR | FATAL

  /** The enumerator's integer value. */
  function Rank(l: Level): (r: nat)
    ensures r <= 5
    ensures r == 0 <==> l == UNKNOW
  {
    match l
    case UNKNOW => 0
    case DEBUG => 1
    case INFO => 2
    case WARN => 3
    case ERROR => 4
    case FATAL => 5
  }

  /** `a <= b` on the enumeration, the comparison every threshold test uses. */
  predicate Le(a: Level, b: Level) {
    Rank(a) <= Rank(b)
  }

  predicate Lt(a: Level, b: Level) {
    Rank(a) < Rank(b)
  }

  /** `Le` is a total order: reflexive, antisymmetric, transitive and total. */
  lemma LeIsTotalOrder()
    ensures forall a :: Le(a, a)
    ensures forall a, b :: Le(a, b) && Le(b, a) ==> a == b
    ensures forall a, b, c :: Le(a, b) && Le(b, c) ==> Le(a, c)
    ensures forall a, b :: Le(a, b) || Le(b, a)
  {
    forall a, b | Le(a, b) && Le(b, a) ensures a == b {
      RankInjective(a, b);
    }
  }

  lemma RankInjective(a: Level, b: Level)
    requires Rank(a) == Rank(b)
    ensures a == b
  {
  }

  /** The declared order UNKNOW < DEBUG < INFO < WARN < ERROR < FATAL. */
  lemma DeclaredOrder()
    ensures Lt(UNKNOW, DEBUG) && Lt(DEBUG, INFO) && Lt(INFO, WARN)
    ensures Lt(WARN, ERROR) && Lt(ERROR, FATAL)
    ensures forall l :: Le(UNKNOW, l) && Le(l, FATAL)
  {
  }

  /** `LogLevel::ToString`: the upper-case enumerator name, "UNKNOW" otherwise. */
  function ToString(l: Level): (r: string)
    ensures r != []
    ensures forall k :: 0 <= k < |r| ==> 'A' <= r[k] <= 'Z'
    ensures l == UNKNOW <==> r == "UNKNOW"
  {
    match l
    case DEBUG => "DEBUG"
    case ERROR => "ERROR"
    case FATAL => "FATAL"
    case INFO => "INFO"
    case WARN => "WARN"
    case UNKNOW => "UNKNOW"
  }

  /** `ToString` never gives two levels the same name. */
  lemma ToStringInjective(a: Level, b: Level)
    requires ToString(a) == ToString(b)
    ensures a == b
  {
  }

  /** The lower-case spellings of the five names. */
  lemma LowerNames()
    ensures Lower(ToString(DEBUG)) == "debug"
    ensures Lower(ToString(INFO)) == "info"
    ensures Lower(ToString(WARN)) == "warn"
    ensures Lower(ToString(ERROR)) == "error"
    ensures Lower(ToString(FATAL)) == "fatal"
  {
    LowerSpell("DEBUG", "debug");
    LowerSpell("INFO", "info");
    LowerSpell("WARN", "warn");
    LowerSpell("ERROR", "error");
    LowerSpell("FATAL", "fatal");
  }

  lemma LowerSpell(up: string, low: string)
    requires |up| == |low|
    requires forall k :: 0 <= k < |up| ==> LowerChar(up[k]) == low[k]
    ensures Lower(up) == low
  {
  }

  /** The spellings `FromString` accepts for a named level: upper case or lower case. */
  predicate NameOf(s: string, l: Level) {
    l != UNKNOW && (s == ToString(l) || s == Lower(ToString(l)))
  }

  /**
   * `LogLevel::FromString`: an exact match against the five lower-case names and
   * then the five upper-case names; anything else is UNKNOW.
   */
  function FromString(s: string): (r: Level)
    ensures r != UNKNOW ==> NameOf(s, r)
  {
    LowerNames();
    if s == "debug" then DEBUG
    else if s == "info" then INFO
    else if s == "warn" then WARN
    else if s == "error" then ERROR
    else if s == "fatal" then FATAL
    else if s == "DEBUG" then DEBUG
    else if s == "INFO" then INFO
    else if s == "WARN" then WARN
    else if s == "ERROR" then ERROR
    else if s == "FATAL" then FATAL
    else UNKNOW
  }

  /** Each accepted spelling of a level parses to that level. */
  lemma FromStringAccepts(s: string, l: Level)
    requires NameOf(s, l)
    ensures FromString(s) == l
  {
    LowerNames();
  }

  /** Printing a level and parsing it back gives the same level, UNKNOW included. */
  lemma FromToString(l: Level)
    ensures FromString(ToString(l)) == l
  {
  }

  /** Parsing succeeds exactly on the ten accepted spellings. */
  lemma FromStringExact(s: string)
    ensures FromString(s) != UNKNOW <==> exists l :: NameOf(s, l)
  {
    if FromString(s) != UNKNOW {
      assert NameOf(s, FromString(s));
    } else {
      forall l | NameOf(s, l) ensures false {
        FromStringAccepts(s, l);
      }
    }
  }

  /** Mixed case is not accepted: "Info" and "Debug" parse to UNKNOW. */
  lemma MixedCaseIsUnknown()
    ensures FromString("Info") == UNKNOW
    ensures FromString("Debug") == UNKNOW
    ensures FromString("UNKNOW") == UNKNOW
  {
  }
}
