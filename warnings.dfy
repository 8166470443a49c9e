/** The closed set of warning identifiers of `Config.Warnings.__name`. */
module WarningNames {

  /**
   * The closed set of identifiers `Warnings.__name` accepts, in the order
   * of its list (in groups of 6 so that facts about every member stay
   * cheap to check; `maybe_uninitialized` is listed twice there).
   */
  predicate IsKnownWarning(name: string) {
    KnownA(name) ||
    KnownB(name) ||
    KnownC(name) ||
    KnownD(name) ||
    KnownE(name) ||
    KnownF(name) ||
    KnownG(name) ||
    KnownH(name) ||
    KnownI(name) ||
    KnownJ(name) ||
    KnownK(name) ||
    KnownL(name) ||
    KnownM(name) ||
    KnownN(name) ||
    KnownO(name) ||
    KnownP(name) ||
    KnownQ(name) ||
    KnownR(name)
  }

  predicate KnownA(name: string) {
    name == "address" ||
    name == "aggregate_return" ||
    name == "array_bounds" ||
    name == "cast_align" ||
    name == "cast_qual" ||
    name == "char_subscripts"
  }

  predicate KnownB(name: string) {
    name == "clobbered" ||
    name == "comment" ||
    name == "conversion" ||
    name == "coverage_mismatch" ||
    name == "cxx11_compat" ||
    name == "cxx_compat"
  }

  predicate KnownC(name: string) {
    name == "delete_non_virtual_dtor" ||
    name == "disabled_optimization" ||
    name == "double_promotion" ||
    name == "empty_body" ||
    name == "enum_compare" ||
    name == "fatal_errors"
  }

  predicate KnownD(name: string) {
    name == "float_equal" ||
    name == "format" ||
    name == "format_nonliteral" ||
    name == "format_security" ||
    name == "format_y2k" ||
    name == "ignored_qualifiers"
  }

  predicate KnownE(name: string) {
    name == "implicit" ||
    name == "implicit_function_declaration" ||
    name == "implicit_int" ||
    name == "init_self" ||
    name == "inline" ||
    name == "invalid_pch"
  }

  predicate KnownF(name: string) {
    name == "jump_misses_init" ||
    name == "logical_op" ||
    name == "long_long" ||
    name == "main" ||
    name == "maybe_uninitialized" ||
    name == "maybe_uninitialized"
  }

  predicate KnownG(name: string) {
    name == "mismatched_tags" ||
    name == "missing_braces" ||
    name == "missing_declarations" ||
    name == "missing_field_initializers" ||
    name == "missing_format_attribute" ||
    name == "missing_include_dirs"
  }

  predicate KnownH(name: string) {
    name == "no_attributes" ||
    name == "no_builtin_macro_redefined" ||
    name == "no_cpp" ||
    name == "no_deprecated" ||
    name == "no_deprecated_declarations" ||
    name == "no_div_by_zero"
  }

  predicate KnownI(name: string) {
    name == "no_endif_labels" ||
    name == "no_format_contains_nul" ||
    name == "no_format_extra_args" ||
    name == "no_free_nonheap_object" ||
    name == "no_int_to_pointer_cast" ||
    name == "no_invalid_offsetof"
  }

  predicate KnownJ(name: string) {
    name == "no_mudflap" ||
    name == "no_multichar" ||
    name == "no_overflow" ||
    name == "no_pedantic_ms_format" ||
    name == "no_pointer_to_int_cast" ||
    name == "no_poison_system_directories"
  }

  predicate KnownK(name: string) {
    name == "no_pragmas" ||
    name == "no_unused_result" ||
    name == "nonnull" ||
    name == "overlength_strings" ||
    name == "overloaded_virtual" ||
    name == "packed"
  }

  predicate KnownL(name: string) {
    name == "packed_bitfield_compat" ||
    name == "padded" ||
    name == "parentheses" ||
    name == "pedantic_ms_format" ||
    name == "pointer_arith" ||
    name == "redundant_decls"
  }

  predicate KnownM(name: string) {
    name == "return_type" ||
    name == "sequence_point" ||
    name == "shadow" ||
    name == "sign_compare" ||
    name == "sign_conversion" ||
    name == "stack_protector"
  }

  predicate KnownN(name: string) {
    name == "strict_aliasing" ||
    name == "strict_overflow" ||
    name == "switch" ||
    name == "switch_default" ||
    name == "switch_enum" ||
    name == "sync_nand"
  }

  predicate KnownO(name: string) {
    name == "system_headers" ||
    name == "trampolines" ||
    name == "trigraphs" ||
    name == "type_limits" ||
    name == "undef" ||
    name == "uninitialized"
  }

  predicate KnownP(name: string) {
    name == "unknown_pragmas" ||
    name == "unsafe_loop_optimizations" ||
    name == "unsuffixed_float_constants" ||
    name == "unused" ||
    name == "unused_but_set_parameter" ||
    name == "unused_but_set_variable"
  }

  predicate KnownQ(name: string) {
    name == "unused_function" ||
    name == "unused_label" ||
    name == "unused_local_typedefs" ||
    name == "unused_parameter" ||
    name == "unused_value" ||
    name == "unused_variable"
  }

  predicate KnownR(name: string) {
    name == "variadic_macros" ||
    name == "vector_operation_performance" ||
    name == "vla" ||
    name == "volatile_register_var" ||
    name == "write_strings" ||
    name == "zero_as_null_pointer_constant"
  }

  lemma KnownAHyphenFree(name: string)
    requires KnownA(name)
    ensures '-' !in name
  {
  }

  lemma KnownBHyphenFree(name: string)
    requires KnownB(name)
    ensures '-' !in name
  {
  }

  lemma KnownCHyphenFree(name: string)
    requires KnownC(name)
    ensures '-' !in name
  {
  }

  lemma KnownDHyphenFree(name: string)
    requires KnownD(name)
    ensures '-' !in name
  {
  }

  lemma KnownEHyphenFree(name: string)
    requires KnownE(name)
    ensures '-' !in name
  {
  }

  lemma KnownFHyphenFree(name: string)
    requires KnownF(name)
    ensures '-' !in name
  {
  }

  lemma KnownGHyphenFree(name: string)
    requires KnownG(name)
    ensures '-' !in name
  {
  }

  lemma KnownHHyphenFree(name: string)
    requires KnownH(name)
    ensures '-' !in name
  {
  }

  lemma KnownIHyphenFree(name: string)
    requires KnownI(name)
    ensures '-' !in name
  {
  }

  lemma KnownJHyphenFree(name: string)
    requires KnownJ(name)
    ensures '-' !in name
  {
  }

  lemma KnownKHyphenFree(name: string)
    requires KnownK(name)
    ensures '-' !in name
  {
  }

  lemma KnownLHyphenFree(name: string)
    requires KnownL(name)
    ensures '-' !in name
  {
  }

  lemma KnownMHyphenFree(name: string)
    requires KnownM(name)
    ensures '-' !in name
  {
  }

  lemma KnownNHyphenFree(name: string)
    requires KnownN(name)
    ensures '-' !in name
  {
  }

  lemma KnownOHyphenFree(name: string)
    requires KnownO(name)
    ensures '-' !in name
  {
  }

  lemma KnownPHyphenFree(name: string)
    requires KnownP(name)
    ensures '-' !in name
  {
  }

  lemma KnownQHyphenFree(name: string)
    requires KnownQ(name)
    ensures '-' !in name
  {
  }

  lemma KnownRHyphenFree(name: string)
    requires KnownR(name)
    ensures '-' !in name
  {
  }

  /** No recognised identifier contains a dash. */
  lemma KnownHyphenFree(name: string)
    requires IsKnownWarning(name)
    ensures forall i :: 0 <= i < |name| ==> name[i] != '-'
  {
    if KnownA(name) { KnownAHyphenFree(name); }
    if KnownB(name) { KnownBHyphenFree(name); }
    if KnownC(name) { KnownCHyphenFree(name); }
    if KnownD(name) { KnownDHyphenFree(name); }
    if KnownE(name) { KnownEHyphenFree(name); }
    if KnownF(name) { KnownFHyphenFree(name); }
    if KnownG(name) { KnownGHyphenFree(name); }
    if KnownH(name) { KnownHHyphenFree(name); }
    if KnownI(name) { KnownIHyphenFree(name); }
    if KnownJ(name) { KnownJHyphenFree(name); }
    if KnownK(name) { KnownKHyphenFree(name); }
    if KnownL(name) { KnownLHyphenFree(name); }
    if KnownM(name) { KnownMHyphenFree(name); }
    if KnownN(name) { KnownNHyphenFree(name); }
    if KnownO(name) { KnownOHyphenFree(name); }
    if KnownP(name) { KnownPHyphenFree(name); }
    if KnownQ(name) { KnownQHyphenFree(name); }
    if KnownR(name) { KnownRHyphenFree(name); }
  }
}

/**
 * The warnings table of a C++ configuration (`Config.Warnings` in
 * src/drake/cxx/__init__.py) as an explicit, validated dictionary: a
 * default switch and, in insertion order, a state per recognised warning.
 */
module Warnings {
  import opened WarningNames
  import opened Wrappers
  import opened Seqs
  import opened Strings

  datatype WarningError = UnknownWarning(name: string)

  /** The identifier as given to the compiler: underscores become dashes. */
  function Canonical(name: string): string {
    ReplaceChar(name, '_', '-')
  }

  /** `Warnings.__name`: reject unknown identifiers, canonicalise known ones. */
  function CanonicalName(name: string): (r: Result<string, WarningError>)
    ensures r.Success? <==> IsKnownWarning(name)
    ensures r.Failure? ==> r.error == UnknownWarning(name)
    ensures r.Success? ==> |r.value| == |name| && '_' !in r.value
  {
    if IsKnownWarning(name) then Success(Canonical(name)) else Failure(UnknownWarning(name))
  }

  /** The canonical name determines the identifier: turning dashes back into underscores recovers it. */
  lemma CanonicalNameInverse(name: string)
    requires IsKnownWarning(name)
    ensures CanonicalName(name).Success?
    ensures ReplaceChar(CanonicalName(name).value, '-', '_') == name
  {
    KnownHyphenFree(name);
    var r := ReplaceChar(ReplaceChar(name, '_', '-'), '-', '_');
    assert |r| == |name|;
    forall i | 0 <= i < |name| ensures r[i] == name[i] {
    }
  }

  /** Hence two different identifiers never share a compiler flag name. */
  lemma CanonicalNameInjective(a: string, b: string)
    requires IsKnownWarning(a) && IsKnownWarning(b) && a != b
    ensures CanonicalName(a).value != CanonicalName(b).value
  {
    CanonicalNameInverse(a);
    CanonicalNameInverse(b);
  }

  /** A canonical name whose dash-to-underscore form is a known identifier. */
  predicate IsCanonicalWarning(w: string) {
    '_' !in w && IsKnownWarning(ReplaceChar(w, '-', '_'))
  }

  lemma CanonicalIsCanonical(name: string)
    requires IsKnownWarning(name)
    ensures IsCanonicalWarning(CanonicalName(name).value)
  {
    CanonicalNameInverse(name);
  }

  /** `-Wall` can only come from the default switch: no identifier is `all`. */
  lemma AllIsNotCanonical()
    ensures !IsCanonicalWarning("all")
  {
    var n := ReplaceChar("all", '-', '_');
    assert n == "all";
  }

  /** The value a warning is set to; `None` (unset) is not modelled. */
  datatype WarningState = Error | Enabled | Disabled

  datatype WarningTable = WarningTable(default: bool, entries: seq<(string, WarningState)>)

  /** `Warnings()`: on by default, nothing set. */
  const NoWarnings := WarningTable(true, [])

  /** Every key is a canonical warning name and occurs once. */
  ghost predicate ValidTable(t: WarningTable) {
    && NoDup(Keys(t.entries))
    && forall i :: 0 <= i < |t.entries| ==> IsCanonicalWarning(t.entries[i].0)
  }

  /** `warnings.<name> = state`: validated, then stored under the canonical name. */
  function SetWarning(t: WarningTable, name: string, st: WarningState): (r: Result<WarningTable, WarningError>)
    ensures r.Success? <==> IsKnownWarning(name)
    ensures r.Success? ==> r.value.default == t.default
    ensures r.Success? ==> Get(r.value.entries, CanonicalName(name).value) == Some(st)
    ensures r.Success? ==> forall w :: w != CanonicalName(name).value ==> Get(r.value.entries, w) == Get(t.entries, w)
    ensures r.Success? ==> Keys(r.value.entries) == Add(Keys(t.entries), CanonicalName(name).value)
  {
    match CanonicalName(name)
    case Failure(e) => Failure(e)
    case Success(w) =>
      PutFacts(t.entries, w, st);
      Success(t.(entries := Put(t.entries, w, st)))
  }

  /** Setting a warning keeps the table valid. */
  lemma SetWarningValid(t: WarningTable, name: string, st: WarningState)
    requires ValidTable(t)
    requires IsKnownWarning(name)
    ensures ValidTable(SetWarning(t, name, st).value)
  {
    var w := CanonicalName(name).value;
    CanonicalIsCanonical(name);
    var r := Put(t.entries, w, st);
    PutKeysFrom(t.entries, w, st);
    KeysLength(t.entries);
    forall i | 0 <= i < |r| ensures IsCanonicalWarning(r[i].0) {
      if r[i].0 != w {
        var j :| 0 <= j < |t.entries| && t.entries[j].0 == r[i].0;
      }
    }
    AddNoDup(Keys(t.entries), w);
  }

  /** No entry of a valid table is named `all`, so `-Wall` only ever comes from the default switch. */
  lemma ValidTableHasNoAll(t: WarningTable)
    requires ValidTable(t)
    ensures forall i :: 0 <= i < |t.entries| ==> t.entries[i].0 != "all"
  {
    AllIsNotCanonical();
  }

  /**
   * `warnings.default = value` as `enable_warnings` writes it: the
   * assignment goes through `__setattr__`, which first tries `default` as
   * a warning identifier and, when that is refused, stores an ordinary
   * attribute that `__bool__` never reads.
   */
  function AssignDefaultAsWritten(t: WarningTable, value: bool): WarningTable {
    match SetWarning(t, "default", if value then Enabled else Disabled)
    case Success(u) => u
    case Failure(_) => t
  }

  /** `default` is no warning identifier, so the assignment leaves the table, and its default, as they were. */
  lemma AssignDefaultAsWrittenUnchanged(t: WarningTable, value: bool)
    ensures !IsKnownWarning("default")
    ensures AssignDefaultAsWritten(t, value) == t
  {
  }
}
