/**
 * The branch prediction unit: a set-associative table of prediction entries
 * (`BP<T>`), addressed through a `CacheTagArray`.
 *
 * The entry type `T` stays abstract. Its five operations are supplied as an
 * `EntryAlgorithm<T>` value; an entry's in-place mutation becomes the
 * assignment of the operation's result to the entry's cell of the grid.
 */
module Bpu {

  import opened Wrappers
  import opened Types
  import opened CacheTags

  /** Granularity the table hands to its tag store: addresses are kept per 4-byte line. */
  const LineSize: nat := 4

  /** A prediction or a resolved outcome: the branch's address, its direction and its target. */
  datatype BPInterface = BPInterface(pc: Addr, isTaken: bool, target: Addr)

  /**
   * The operations every entry type offers: its default-constructed state and
   * `reset`, `update_target`, `update`, `is_taken` and `getTarget`.
   */
  datatype EntryAlgorithm<!T> = EntryAlgorithm(
    initial: T,
    reset: T -> T,
    updateTarget: (T, Addr) -> T,
    update: (T, bool, Addr) -> T,
    isTaken: (T, Addr) -> bool,
    getTarget: T -> Addr)

  /** The entry after one training event: on a miss the slot is first reset and seeded with the target. */
  function Trained<T>(alg: EntryAlgorithm<T>, e: T, hit: bool, upd: BPInterface): (e': T)
  {
    var start := if hit then e else alg.updateTarget(alg.reset(e), upd.target);
    alg.update(start, upd.isTaken, upd.target)
  }

  /**
   * When `reset` brings every entry to one cold state, whatever the entry held
   * before, training a newly allocated slot yields the entry a
   * fresh, default-constructed slot would get: nothing of the evicted entry
   * survives reallocation.
   */
  lemma MissTrainingForgetsEvicted<T>(alg: EntryAlgorithm<T>, upd: BPInterface)
    requires forall e :: alg.reset(e) == alg.reset(alg.initial)
    ensures forall evicted :: Trained(alg, evicted, false, upd) == Trained(alg, alg.initial, false, upd)
  {
    forall evicted
      ensures Trained(alg, evicted, false, upd) == Trained(alg, alg.initial, false, upd)
    {
      assert alg.reset(evicted) == alg.reset(alg.initial);
    }
  }

  /** A grid of `sizeInEntries / ways` rows has a row for every set of a tag store of that many 4-byte lines. */
  lemma SetsFitRows(sets: nat, ways: nat, sizeInEntries: nat)
    requires ways > 0
    requires sets * ways * LineSize <= sizeInEntries
    ensures sets <= sizeInEntries / ways
  {
    assert sets * ways <= sets * ways * LineSize;
    var q := sizeInEntries / ways;
    assert sizeInEntries < (q + 1) * ways;
    assert (q + 1) * ways <= sets * ways || sets <= q;
  }

  class BP<T> {
    const alg: EntryAlgorithm<T>
    /** `data[w, s]` is the entry of way `w`, set `s`. */
    const data: array2<T>
    const tags: CacheTagArray

    /**
     * The grid has one column per way and a row for every set of the tag store,
     * and an address is held by at most one way of its set, so every resident
     * address has exactly one entry.
     */
    ghost predicate Valid()
      reads this, tags
    {
      && tags.Valid()
      && tags.lineSize == LineSize
      && data.Length0 == tags.ways
      && tags.sets <= data.Length1
      && tags.Unique()
    }

    constructor (alg: EntryAlgorithm<T>, sizeInEntries: nat, ways: nat, branchIpSizeInBits: nat)
      requires Acceptable(sizeInEntries, ways, LineSize)
      ensures Valid() && fresh(data) && fresh(tags)
      ensures this.alg == alg
      ensures tags.ways == ways && tags.sets * ways * LineSize <= sizeInEntries
      ensures data.Length0 == ways && data.Length1 == sizeInEntries / ways
      ensures forall w, s :: 0 <= w < data.Length0 && 0 <= s < data.Length1 ==> data[w, s] == alg.initial
      ensures forall pc :: !tags.Resident(pc)
      ensures forall pc :: !IsTaken(pc) && GetTarget(pc) == Fallthrough(pc)
    {
      this.alg := alg;
      data := new T[ways, sizeInEntries / ways]((w, s) => alg.initial);
      tags := new CacheTagArray(sizeInEntries, ways, LineSize, branchIpSizeInBits);
      new;
      SetsFitRows(tags.sets, ways, sizeInEntries);
    }

    /** Direction prediction: a miss predicts not taken; a hit asks the entry of the way holding `pc`. */
    function IsTaken(pc: Addr): (r: bool)
      reads this, tags, data
      requires Valid()
      ensures !tags.Resident(pc) ==> !r
      ensures r <==> exists w :: 0 <= w < tags.ways && tags.Holds(w, pc) && alg.isTaken(data[w, tags.Set(pc)], pc)
    {
      var look := tags.ReadNoTouch(pc);
      look.hit && alg.isTaken(data[look.way, tags.Set(pc)], pc)
    }

    /** Target prediction: the resident entry's target when predicted taken, otherwise `PC + 4`. */
    function GetTarget(pc: Addr): (r: Addr)
      reads this, tags, data
      requires Valid()
      ensures !IsTaken(pc) ==> r == Fallthrough(pc)
      ensures forall w :: 0 <= w < tags.ways && tags.Holds(w, pc) && IsTaken(pc) ==> r == alg.getTarget(data[w, tags.Set(pc)])
    {
      var look := tags.ReadNoTouch(pc);
      if look.hit && IsTaken(pc) then alg.getTarget(data[look.way, tags.Set(pc)]) else Fallthrough(pc)
    }

    /** The prediction that a single peek at the tag store yields. */
    function PredictFrom(pc: Addr, look: TagLookup): (r: BPInterface)
      reads this, tags, data
      requires Valid()
      requires look.hit ==> look.way < tags.ways
    {
      if look.hit && alg.isTaken(data[look.way, tags.Set(pc)], pc) then
        BPInterface(pc, true, alg.getTarget(data[look.way, tags.Set(pc)]))
      else
        BPInterface(pc, false, Fallthrough(pc))
    }

    /** Full prediction; its three lookups agree with one peek because peeking changes nothing. */
    function GetBPInfo(pc: Addr): (r: BPInterface)
      reads this, tags, data
      requires Valid()
      ensures r == PredictFrom(pc, tags.ReadNoTouch(pc))
      ensures r.pc == pc
      ensures !r.isTaken ==> r.target == Fallthrough(pc)
    {
      BPInterface(pc, IsTaken(pc), GetTarget(pc))
    }

    /**
     * Training: a touching lookup; on a miss a way is allocated and its entry
     * reset and seeded with the target; then the entry is updated once.
     */
    method Update(upd: BPInterface)
      requires Valid()
      modifies tags, data
      ensures Valid()
      ensures tags.Resident(upd.pc)
      ensures var s, w := tags.Set(upd.pc), tags.ReadNoTouch(upd.pc).way;
        && data[w, s] == Trained(alg, old(data[w, s]), old(tags.Resident(upd.pc)), upd)
        && (forall i, j :: 0 <= i < data.Length0 && 0 <= j < data.Length1 && (i != w || j != s) ==> data[i, j] == old(data[i, j]))
      ensures old(tags.Resident(upd.pc)) ==> tags.tags == old(tags.tags) && tags.ReadNoTouch(upd.pc) == old(tags.ReadNoTouch(upd.pc))
      ensures !old(tags.Resident(upd.pc)) ==>
        var s, w := tags.Set(upd.pc), tags.ReadNoTouch(upd.pc).way;
        tags.tags == old(tags.tags)[s := old(tags.tags)[s][w := Some(tags.Tag(upd.pc))]]
      ensures var s, w := tags.Set(upd.pc), tags.ReadNoTouch(upd.pc).way;
        && tags.lru[s] == Touch(old(tags.lru[s]), w)
        && (forall s' :: 0 <= s' < tags.sets && s' != s ==> tags.lru[s'] == old(tags.lru[s']))
      ensures var s, w := tags.Set(upd.pc), tags.ReadNoTouch(upd.pc).way;
        !old(tags.Resident(upd.pc)) && alg.reset(old(data[w, s])) == alg.reset(alg.initial) ==>
        data[w, s] == Trained(alg, alg.initial, false, upd)
      ensures var w := tags.ReadNoTouch(upd.pc).way;
        && IsTaken(upd.pc) == alg.isTaken(data[w, tags.Set(upd.pc)], upd.pc)
        && GetTarget(upd.pc) == if IsTaken(upd.pc) then alg.getTarget(data[w, tags.Set(upd.pc)]) else Fallthrough(upd.pc)
    {
      var s := tags.Set(upd.pc);
      var look := tags.Read(upd.pc);
      var way := look.way;
      if !look.hit {
        way := tags.Write(upd.pc);
        var e := data[way, s];
        e := alg.reset(e);
        e := alg.updateTarget(e, upd.target);
        data[way, s] := e;
      }
      data[way, s] := alg.update(data[way, s], upd.isTaken, upd.target);
    }
  }
}
