/**
 * A client of the prediction table: what a caller can conclude from the
 * contracts of `BP` and the stand-in tag store's set and tag arithmetic.
 */
module BpuScenarios {

  import opened Types
  import opened Wrappers
  import opened Bpu

  /**
   * In a one-way, one-set table, once one address is trained, an address on
   * another line predicts not taken and falls through; those predictions leave
   * the trained address resident, and training the other address evicts it,
   * after which it predicts not taken and falls through.
   */
  method EvictionInOneSlotTable<T>(alg: EntryAlgorithm<T>, a: Addr, b: Addr, target: Addr)
    returns (peekTaken: bool, peekTarget: Addr, peekInfo: BPInterface,
             residentAfterPeeks: bool, takenAfterEviction: bool, targetAfterEviction: Addr)
    requires a as int / LineSize != b as int / LineSize
    ensures !peekTaken && peekTarget == Fallthrough(b)
    ensures peekInfo == BPInterface(b, false, Fallthrough(b))
    ensures residentAfterPeeks
    ensures !takenAfterEviction
    ensures targetAfterEviction == Fallthrough(a)
  {
    var bp := new BP(alg, LineSize, 1, 32);
    assert bp.tags.sets == 1;
    bp.Update(BPInterface(a, true, target));
    assert bp.tags.tags[0][0] == Some(bp.tags.Tag(a));
    assert !bp.tags.Resident(b);
    peekTaken := bp.IsTaken(b);
    peekTarget := bp.GetTarget(b);
    peekInfo := bp.GetBPInfo(b);
    residentAfterPeeks := bp.tags.ReadNoTouch(a).hit;
    bp.Update(BPInterface(b, true, target));
    assert bp.tags.tags[0][0] == Some(bp.tags.Tag(b));
    takenAfterEviction := bp.IsTaken(a);
    targetAfterEviction := bp.GetTarget(a);
  }
}
