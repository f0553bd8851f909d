/**
 * The configuration registry: named, typed variables with a description and
 * a value, kept in one map from name to variable. `Config::Lookup<T>` is
 * generic over the value type; here the type is a `Kind` carried by the value,
 * and the `dynamic_pointer_cast` to `ConfigVar<T>` succeeds exactly when the
 * stored variable's kind is the requested one.
 */
module Config {
  import opened Wrappers
  import opened Text

  /** The value types a variable can be instantiated with. */
  datatype Kind = IntKind | FloatKind | StringKind | BoolKind

  /** A value of one of those types; `float` is an exact real here. */
  datatype Value =
    | IntValue(i: i32)
    | FloatValue(f: real)
    | StringValue(s: string)
    | BoolValue(b: bool)

  function KindOf(v: Value): Kind {
    match v
    case IntValue(_) => IntKind
    case FloatValue(_) => FloatKind
    case StringValue(_) => StringKind
    case BoolValue(_) => BoolKind
  }

  /** `ConfigVar<T>`: the name and description of `ConfigVarBase` and the value. */
  datatype ConfigVar = ConfigVar(name: string, description: string, value: Value)

  /** `Config::m_datas`: the registry, from name to variable. */
  type Registry = map<string, ConfigVar>

  /** The error `Lookup` throws for a name with a character outside the allowed set. */
  datatype ConfigError = InvalidArgument(name: string)

  // ---------------------------------------------------------------------------
  // Accessors

  /** The `ConfigVar` constructor. */
  function NewVar(name: string, description: string, default: Value): (r: ConfigVar)
    ensures GetName(r) == name && GetDescription(r) == description && GetValue(r) == default
  {
    ConfigVar(name, description, default)
  }

  function GetName(c: ConfigVar): string { c.name }

  function GetDescription(c: ConfigVar): string { c.description }

  function GetValue(c: ConfigVar): Value { c.value }

  /** `setValue`: typed by T, so the new value has the variable's kind. */
  function SetValue(c: ConfigVar, v: Value): (r: ConfigVar)
    requires KindOf(v) == KindOf(c.value)
    ensures KindOf(r.value) == KindOf(c.value)
  {
    c.(value := v)
  }

  /** `setValue` then `getValue` gives the value set, and the name and description stay. */
  lemma SetThenGet(c: ConfigVar, v: Value)
    requires KindOf(v) == KindOf(c.value)
    ensures GetValue(SetValue(c, v)) == v
    ensures GetName(SetValue(c, v)) == GetName(c)
    ensures GetDescription(SetValue(c, v)) == GetDescription(c)
    ensures SetValue(SetValue(c, v), c.value) == c
  {
  }

  // ---------------------------------------------------------------------------
  // Name validation

  /** The characters a new name may contain, in the order the source lists them. */
  const NameChars: string :=
    "qwertyuiopasdfghjklzxcvbnm" + "1234567890._" + "QWERTYUIOPASDFGHJKLZXCVBNM"

  /**
   * `std::string::find_first_not_of(chars, from)`: the first position at or
   * after `from` holding a character outside `chars`, or None for `npos`.
   */
  function FindFirstNotOf(s: string, chars: string, from: nat): (r: Option<nat>)
    requires from <= |s|
    ensures r.Some? ==> from <= r.value < |s| && s[r.value] !in chars
    ensures r.Some? ==> forall m :: from <= m < r.value ==> s[m] in chars
    ensures r.None? ==> forall m :: from <= m < |s| ==> s[m] in chars
    decreases |s| - from
  {
    if from == |s| then None
    else if s[from] !in chars then Some(from)
    else FindFirstNotOf(s, chars, from + 1)
  }

  /** The check `Lookup` makes before it creates a variable. */
  predicate ValidName(name: string) {
    FindFirstNotOf(name, NameChars, 0).None?
  }

  /** A character the name check lets through, stated by character class. */
  predicate NameChar(c: char) {
    IsAlpha(c) || IsDigit(c) || c == '.' || c == '_'
  }

  /** The allowed set is exactly the ASCII letters, the digits, `.` and `_`. */
  lemma NameCharsAreNameChar(c: char)
    ensures c in NameChars <==> NameChar(c)
  {
    var lower, middle, upper := "qwertyuiopasdfghjklzxcvbnm", "1234567890._", "QWERTYUIOPASDFGHJKLZXCVBNM";
    assert NameChars == lower + middle + upper;
    assert c in NameChars <==> c in lower || c in middle || c in upper;
    LowerRow(c);
    MiddleRow(c);
    UpperRow(c);
  }

  lemma LowerRow(c: char)
    ensures c in "qwertyuiopasdfghjklzxcvbnm" <==> 'a' <= c <= 'z'
  {
    var s := "qwertyuiopasdfghjklzxcvbnm";
    if 'a' <= c <= 'z' {
      assert c == s[0] || c == s[1] || c == s[2] || c == s[3] || c == s[4] || c == s[5] || c == s[6]
          || c == s[7] || c == s[8] || c == s[9] || c == s[10] || c == s[11] || c == s[12]
          || c == s[13] || c == s[14] || c == s[15] || c == s[16] || c == s[17] || c == s[18]
          || c == s[19] || c == s[20] || c == s[21] || c == s[22] || c == s[23] || c == s[24]
          || c == s[25];
    }
  }

  lemma MiddleRow(c: char)
    ensures c in "1234567890._" <==> IsDigit(c) || c == '.' || c == '_'
  {
    var s := "1234567890._";
    if IsDigit(c) || c == '.' || c == '_' {
      assert c == s[0] || c == s[1] || c == s[2] || c == s[3] || c == s[4] || c == s[5] || c == s[6]
          || c == s[7] || c == s[8] || c == s[9] || c == s[10] || c == s[11];
    }
  }

  lemma UpperRow(c: char)
    ensures c in "QWERTYUIOPASDFGHJKLZXCVBNM" <==> 'A' <= c <= 'Z'
  {
    var s := "QWERTYUIOPASDFGHJKLZXCVBNM";
    if 'A' <= c <= 'Z' {
      assert c == s[0] || c == s[1] || c == s[2] || c == s[3] || c == s[4] || c == s[5] || c == s[6]
          || c == s[7] || c == s[8] || c == s[9] || c == s[10] || c == s[11] || c == s[12]
          || c == s[13] || c == s[14] || c == s[15] || c == s[16] || c == s[17] || c == s[18]
          || c == s[19] || c == s[20] || c == s[21] || c == s[22] || c == s[23] || c == s[24]
          || c == s[25];
    }
  }

  /** A name passes the check iff every character is a letter, a digit, `.` or `_`; the empty name passes. */
  lemma ValidNameIff(name: string)
    ensures ValidName(name) <==> forall m :: 0 <= m < |name| ==> NameChar(name[m])
    ensures ValidName("")
  {
    if ValidName(name) {
      forall m | 0 <= m < |name| ensures NameChar(name[m]) {
        NameCharsAreNameChar(name[m]);
      }
    } else {
      var bad := FindFirstNotOf(name, NameChars, 0).value;
      NameCharsAreNameChar(name[bad]);
    }
  }

  // ---------------------------------------------------------------------------
  // Lookup

  /**
   * `Lookup<T>(name)`: the stored variable when the name is present and holds
   * a T; null (None) when it is absent or holds another type.
   */
  function LookupTyped(reg: Registry, name: string, kind: Kind): (r: Option<ConfigVar>)
    ensures r.Some? <==> name in reg && KindOf(reg[name].value) == kind
    ensures r.Some? ==> r.value == reg[name] && KindOf(r.value.value) == kind
  {
    if name in reg && KindOf(reg[name].value) == kind then Some(reg[name]) else None
  }

  /**
   * `Lookup(name, default_val, description)`: the stored variable of the
   * default's type if there is one; otherwise `invalid_argument` for a name
   * outside the allowed characters; otherwise a fresh variable holding the
   * default, stored under the name (replacing a variable of another type).
   * The second component is the registry afterwards.
   */
  function Lookup(reg: Registry, name: string, default: Value, description: string)
    : (r: (Result<ConfigVar, ConfigError>, Registry))
    ensures r.0.Failure? <==> LookupTyped(reg, name, KindOf(default)).None? && !ValidName(name)
    ensures r.0.Failure? ==> r.0.error == InvalidArgument(name) && r.1 == reg
    ensures r.0.Success? ==> name in r.1 && r.1[name] == r.0.value && KindOf(r.0.value.value) == KindOf(default)
    ensures r.1.Keys == if r.0.Success? then reg.Keys + {name} else reg.Keys
    ensures forall k :: k in reg && k != name ==> r.1[k] == reg[k]
  {
    var found := LookupTyped(reg, name, KindOf(default));
    if found.Some? then (Success(found.value), reg)
    else if !ValidName(name) then (Failure(InvalidArgument(name)), reg)
    else
      var v := NewVar(name, description, default);
      (Success(v), reg[name := v])
  }

  /** A variable of the default's type already stored is returned as it is, and the registry is unchanged. */
  lemma LookupExisting(reg: Registry, name: string, default: Value, description: string)
    requires name in reg && KindOf(reg[name].value) == KindOf(default)
    ensures Lookup(reg, name, default, description) == (Success(reg[name]), reg)
  {
  }

  /** A name that is not stored with the default's type and has a bad character throws and changes nothing. */
  lemma LookupInvalid(reg: Registry, name: string, default: Value, description: string, m: nat)
    requires !(name in reg && KindOf(reg[name].value) == KindOf(default))
    requires m < |name| && !NameChar(name[m])
    ensures Lookup(reg, name, default, description) == (Failure(InvalidArgument(name)), reg)
  {
    ValidNameIff(name);
  }

  /**
   * A valid name not yet stored with the default's type gets a fresh variable
   * holding the default, and `Lookup<T>(name)` then finds it.
   */
  lemma LookupCreatesThenFinds(reg: Registry, name: string, default: Value, description: string)
    requires LookupTyped(reg, name, KindOf(default)).None?
    requires forall m :: 0 <= m < |name| ==> NameChar(name[m])
    ensures var (res, reg') := Lookup(reg, name, default, description);
            && res == Success(ConfigVar(name, description, default))
            && reg' == reg[name := ConfigVar(name, description, default)]
            && LookupTyped(reg', name, KindOf(default)) == Some(ConfigVar(name, description, default))
  {
    ValidNameIff(name);
  }

  /** A valid name stored with another type is replaced: the old variable is gone and the new one holds the default. */
  lemma LookupOverwrites(reg: Registry, name: string, default: Value, description: string)
    requires name in reg && KindOf(reg[name].value) != KindOf(default)
    requires ValidName(name)
    ensures var (res, reg') := Lookup(reg, name, default, description);
            && res.Success? && res.value.value == default
            && LookupTyped(reg', name, KindOf(reg[name].value)).None?
  {
  }

  /** Asking twice for the same name and type gives the same variable and leaves the registry as the first call left it. */
  lemma LookupIdempotent(reg: Registry, name: string, default: Value, default2: Value, description: string,
                         description2: string)
    requires KindOf(default2) == KindOf(default)
    ensures var (res, reg') := Lookup(reg, name, default, description);
            res.Success? ==> Lookup(reg', name, default2, description2) == (res, reg')
  {
  }

  /** Every variable is stored under its own name, and every stored name passes the name check. */
  ghost predicate WellFormed(reg: Registry) {
    forall k :: k in reg ==> reg[k].name == k && ValidName(k)
  }

  /** `Lookup` keeps the registry well formed. */
  lemma LookupPreservesWellFormed(reg: Registry, name: string, default: Value, description: string)
    requires WellFormed(reg)
    ensures WellFormed(Lookup(reg, name, default, description).1)
  {
  }

  /**
   * `setValue` through the pointer `Lookup` returned: the variable is shared
   * with the registry, so the store sees the new value.
   */
  function SetStored(reg: Registry, name: string, v: Value): (r: Registry)
    requires name in reg && KindOf(v) == KindOf(reg[name].value)
    ensures r.Keys == reg.Keys
    ensures forall k :: k in reg && k != name ==> r[k] == reg[k]
    ensures r[name] == reg[name].(value := v)
    ensures GetValue(r[name]) == v
  {
    reg[name := SetValue(reg[name], v)]
  }

  /** After `setValue(v)` on a variable, the next `Lookup` of that name and type returns v, without a new entry. */
  lemma SetThenLookup(reg: Registry, name: string, v: Value, default: Value, description: string)
    requires name in reg && KindOf(v) == KindOf(reg[name].value) && KindOf(default) == KindOf(v)
    ensures var reg' := SetStored(reg, name, v);
            var (res, reg'') := Lookup(reg', name, default, description);
            res.Success? && GetValue(res.value) == v && reg'' == reg'
  {
  }

  /** The `int` variable "system.port" of the configuration test, 8080. */
  function PortVar(): ConfigVar { ConfigVar("system.port", "system.port", IntValue(8080)) }

  /** The `float` variable "system.value" of the configuration test, 3.14. */
  function ValueVar(): ConfigVar { ConfigVar("system.value", "system.value", FloatValue(3.14)) }

  /** The first registration of the configuration test creates "system.port". */
  lemma PortRegistration()
    ensures Lookup(map[], "system.port", IntValue(8080), "system.port")
         == (Success(PortVar()), map["system.port" := PortVar()])
  {
    SampleNameValid("system.port");
    LookupCreatesThenFinds(map[], "system.port", IntValue(8080), "system.port");
  }

  /** The second registration adds "system.value" beside it. */
  lemma ValueRegistration()
    ensures Lookup(map["system.port" := PortVar()], "system.value", FloatValue(3.14), "system.value")
         == (Success(ValueVar()), map["system.port" := PortVar(), "system.value" := ValueVar()])
  {
    var port, value := "system.port", "system.value";
    SampleNameValid(value);
    assert port != value by { assert port[7] != value[7]; }
    LookupCreatesThenFinds(map[port := PortVar()], value, FloatValue(3.14), value);
  }

  /**
   * After both registrations of the configuration test each variable is found
   * under its own type and not under another, and asking again for
   * "system.port" with another default returns the stored 8080.
   */
  lemma TestConfigScenario()
    ensures var reg := map["system.port" := PortVar(), "system.value" := ValueVar()];
            && reg.Keys == {"system.port", "system.value"}
            && LookupTyped(reg, "system.port", IntKind) == Some(PortVar())
            && LookupTyped(reg, "system.port", FloatKind) == None
            && LookupTyped(reg, "system.value", FloatKind) == Some(ValueVar())
            && Lookup(reg, "system.port", IntValue(1), "other") == (Success(PortVar()), reg)
  {
    PortRegistration();
    ValueRegistration();
    var port, value := "system.port", "system.value";
    assert port != value by { assert port[7] != value[7]; }
  }

  /** A name made of lower-case letters and one dot passes the check. */
  lemma SampleNameValid(name: string)
    requires forall m :: 0 <= m < |name| ==> 'a' <= name[m] <= 'z' || name[m] == '.'
    ensures ValidName(name)
    ensures forall m :: 0 <= m < |name| ==> NameChar(name[m])
  {
    ValidNameIff(name);
  }
}
