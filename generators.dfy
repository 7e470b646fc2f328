/**
 * The shape of the generator registry handed to the ApplicationSet template engine
 * (`getAppSetGenerators` in preview/applicationset.go). What the generators compute is not
 * modelled; only which generator types exist at which nesting level.
 */
module Generators {

  /**
   * A registered generator. Matrix and Merge generators are built over a registry of their own,
   * from which they resolve the generators nested inside them.
   */
  datatype Generator =
    | ListGenerator
    | MatrixGenerator(generators: map<string, Generator>)
    | MergeGenerator(generators: map<string, Generator>)

  /** Generator type name to generator. */
  type Registry = map<string, Generator>

  /** Every chain of nested registries below `g` has at most `d` levels. */
  predicate DepthAtMost(g: Generator, d: nat)
    decreases d
  {
    match g
    case ListGenerator => true
    case MatrixGenerator(reg) => d > 0 && forall k :: k in reg ==> DepthAtMost(reg[k], d - 1)
    case MergeGenerator(reg) => d > 0 && forall k :: k in reg ==> DepthAtMost(reg[k], d - 1)
  }

  predicate RegistryDepthAtMost(reg: Registry, d: nat)
  {
    forall k :: k in reg ==> DepthAtMost(reg[k], d)
  }

  /** The List-only registry that nested Matrix and Merge generators resolve from. */
  function TerminalGenerators(): (reg: Registry)
    ensures reg.Keys == {"List"}
    ensures RegistryDepthAtMost(reg, 0)
  {
    map["List" := ListGenerator]
  }

  /** The registry used inside a top-level Matrix or Merge: its own Matrix and Merge see only List. */
  function NestedGenerators(): (reg: Registry)
    ensures reg.Keys == {"List", "Matrix", "Merge"}
    ensures reg["List"] == TerminalGenerators()["List"]
    ensures reg["Matrix"] == MatrixGenerator(TerminalGenerators())
    ensures reg["Merge"] == MergeGenerator(TerminalGenerators())
    ensures RegistryDepthAtMost(reg, 1) && !RegistryDepthAtMost(reg, 0)
  {
    var terminal := TerminalGenerators();
    map["List" := terminal["List"], "Matrix" := MatrixGenerator(terminal), "Merge" := MergeGenerator(terminal)]
  }

  /**
   * The top-level registry: List is shared by all levels, and Matrix and Merge resolve from the
   * nested registry, so generators compose at most two levels deep.
   */
  function GetAppSetGenerators(): (reg: Registry)
    ensures reg.Keys == {"List", "Matrix", "Merge"}
    ensures reg["List"] == NestedGenerators()["List"] == TerminalGenerators()["List"]
    ensures reg["Matrix"] == MatrixGenerator(NestedGenerators())
    ensures reg["Merge"] == MergeGenerator(NestedGenerators())
    ensures RegistryDepthAtMost(reg, 2) && !RegistryDepthAtMost(reg, 1)
  {
    var terminal := TerminalGenerators();
    var nested := NestedGenerators();
    map["List" := terminal["List"], "Matrix" := MatrixGenerator(nested), "Merge" := MergeGenerator(nested)]
  }

  /** A depth bound also holds for every larger bound. */
  lemma {:induction false} DepthMonotone(g: Generator, d: nat, e: nat)
    requires d <= e && DepthAtMost(g, d)
    ensures DepthAtMost(g, e)
    decreases d
  {
    match g
    case ListGenerator =>
    case MatrixGenerator(reg) =>
      forall k | k in reg ensures DepthAtMost(reg[k], e - 1) { DepthMonotone(reg[k], d - 1, e - 1); }
    case MergeGenerator(reg) =>
      forall k | k in reg ensures DepthAtMost(reg[k], e - 1) { DepthMonotone(reg[k], d - 1, e - 1); }
  }

  /** Whatever bound one allows from two levels up, every generator of the top-level registry meets it. */
  lemma TopLevelBounded(d: nat)
    requires d >= 2
    ensures RegistryDepthAtMost(GetAppSetGenerators(), d)
  {
    var reg := GetAppSetGenerators();
    forall k | k in reg ensures DepthAtMost(reg[k], d) { DepthMonotone(reg[k], 2, d); }
  }
}
