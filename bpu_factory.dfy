/**
 * `BPFactory`: the registry of prediction modes and the builder that turns a
 * mode name and a geometry into a prediction table.
 */
module BpuFactory {

  import opened Wrappers
  import opened Types
  import opened CacheTags
  import opened Bpu

  /** The entry types the registry knows; `Adaptive(k)` is the two-level predictor with `k` history bits. */
  datatype EntryKind = AlwaysTaken | BackwardJumps | OneBit | TwoBit | Adaptive(historyBits: nat)

  /** The fatal configuration error: the rejected name and every supported name, in report order. */
  datatype ConfigError = InvalidMode(name: string, supported: seq<string>)

  const Modes: map<string, EntryKind> := map[
    "static_always_taken" := AlwaysTaken,
    "static_backward_jumps" := BackwardJumps,
    "dynamic_one_bit" := OneBit,
    "dynamic_two_bit" := TwoBit,
    "adaptive_two_level" := Adaptive(2)]

  /** The supported names in the order the registry iterates them (ascending by name). */
  const SupportedModes: seq<string> := [
    "adaptive_two_level",
    "dynamic_one_bit",
    "dynamic_two_bit",
    "static_always_taken",
    "static_backward_jumps"]

  /** Lexicographic `<` on strings, the key order of the registry: `a` is a proper prefix of `b`, or they first differ at `k` with `a[k] < b[k]`. */
  predicate LexLess(a: string, b: string)
  {
    exists k :: 0 <= k <= |a| && k < |b| && a[..k] == b[..k] && (k == |a| || a[k] < b[k])
  }

  /** The report names exactly the registered modes. */
  lemma SupportedModesAreRegistered()
    ensures forall name :: name in SupportedModes <==> name in Modes
    ensures |SupportedModes| == |Modes| == 5
  {
    assert Modes.Keys == {"static_always_taken", "static_backward_jumps", "dynamic_one_bit",
                          "dynamic_two_bit", "adaptive_two_level"};
  }

  /** The report lists the names in strictly ascending order, so each appears once. */
  lemma SupportedModesAscending()
    ensures forall i :: 0 < i < |SupportedModes| ==> LexLess(SupportedModes[i - 1], SupportedModes[i])
  {
    assert SupportedModes[0][..0] == SupportedModes[1][..0];
    assert SupportedModes[1][..8] == SupportedModes[2][..8];
    assert SupportedModes[2][..0] == SupportedModes[3][..0];
    assert SupportedModes[3][..7] == SupportedModes[4][..7];
  }

  /** Name lookup of `create`: an unknown name is the fatal `InvalidMode` error. */
  function Resolve(name: string): (r: Result<EntryKind, ConfigError>)
    ensures r.Ok? <==> name in SupportedModes
    ensures r.Ok? ==> r.value == Modes[name]
    ensures r.Err? ==> r.error == InvalidMode(name, SupportedModes)
  {
    SupportedModesAreRegistered();
    if name in Modes then Ok(Modes[name]) else Err(InvalidMode(name, SupportedModes))
  }

  /**
   * `create`: a table over the entry type the name selects, `ways` columns of
   * `sizeInEntries / ways` entries; an unknown name creates nothing.
   * `algorithms` supplies the entry operations of each kind.
   */
  method Create<T>(algorithms: EntryKind -> EntryAlgorithm<T>, name: string,
                   sizeInEntries: nat, ways: nat, branchIpSizeInBits: nat := 32)
    returns (r: Result<BP<T>, ConfigError>)
    requires name in Modes ==> Acceptable(sizeInEntries, ways, LineSize)
    ensures r.Ok? <==> name in Modes
    ensures r.Err? ==> r.error == InvalidMode(name, SupportedModes)
    ensures r.Ok? ==>
      var bp := r.value;
      && bp.Valid() && fresh(bp.data) && fresh(bp.tags)
      && bp.alg == algorithms(Modes[name])
      && bp.data.Length0 == ways && bp.data.Length1 == sizeInEntries / ways
      && (forall pc :: !bp.tags.Resident(pc))
      && forall pc :: !bp.IsTaken(pc) && bp.GetTarget(pc) == Fallthrough(pc)
  {
    var kind := Resolve(name);
    if kind.Err? {
      return Err(kind.error);
    }
    var bp := new BP(algorithms(kind.value), sizeInEntries, ways, branchIpSizeInBits);
    r := Ok(bp);
  }
}
