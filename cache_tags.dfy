/**
 * The tag store the branch prediction unit is built on: `CacheTagArray`.
 *
 * Only its interface is modelled. The prediction table relies on nothing but
 * the contracts below: a peek (`ReadNoTouch`) that changes nothing, a touching
 * `Read` that changes only the recency order, a `Write` that allocates a way of
 * the address's set, and a set index that depends on the address alone. The
 * bodies are a plain set-associative array with least-recently-used
 * replacement so that the contracts have something to be proved of.
 */
module CacheTags {

  import opened Wrappers
  import opened Types

  /** Result of a tag lookup: the hit flag and, on a hit, the way that holds the tag. */
  datatype TagLookup = TagLookup(hit: bool, way: nat)

  /** A geometry the stand-in can be built with: at least one set of at least one way. */
  predicate Acceptable(sizeInBytes: nat, ways: nat, lineSize: nat)
  {
    ways > 0 && lineSize > 0 && sizeInBytes / (ways * lineSize) > 0
  }

  /** Index of the first way of `row` holding `tag`, or `|row|` when no way does. */
  function FindWay(row: seq<Option<nat>>, tag: nat, from: nat): (w: nat)
    requires from <= |row|
    ensures from <= w <= |row|
    ensures w < |row| ==> row[w] == Some(tag)
    ensures forall i :: from <= i < w ==> row[i] != Some(tag)
    decreases |row| - from
  {
    if from == |row| then from
    else if row[from] == Some(tag) then from
    else FindWay(row, tag, from + 1)
  }

  /** No element occurs twice in `s`. */
  predicate Distinct(s: seq<nat>)
  {
    forall i, j :: 0 <= i < j < |s| ==> s[i] != s[j]
  }

  /** `order` lists each of the ways `0 .. ways - 1` exactly once. */
  predicate IsOrderOf(order: seq<nat>, ways: nat)
  {
    && |order| == ways
    && Distinct(order)
    && (forall i :: 0 <= i < |order| ==> order[i] < ways)
    && (forall v :: 0 <= v < ways ==> v in order)
  }

  /** `order` without `w`, the other elements in their order. */
  function Remove(order: seq<nat>, w: nat): (r: seq<nat>)
    ensures forall x :: x in r <==> x in order && x != w
    ensures w !in order ==> r == order
    ensures Distinct(order) ==> Distinct(r)
    ensures Distinct(order) && w in order ==> |r| == |order| - 1
  {
    if order == [] then []
    else if order[0] == w then Remove(order[1..], w)
    else
      var t := Remove(order[1..], w);
      assert Distinct(order) ==> Distinct(order[1..]) && order[0] !in t by {
        if Distinct(order) {
          forall k | 0 <= k < |order| - 1
            ensures order[1..][k] != order[0]
          {
            assert order[1..][k] == order[k + 1];
          }
        }
      }
      [order[0]] + t
  }

  /** `order` with `w` moved to (or appended at) the most recently used end. */
  function Touch(order: seq<nat>, w: nat): (r: seq<nat>)
    ensures |r| > 0 && r[|r| - 1] == w
    ensures r[..|r| - 1] == Remove(order, w)
  {
    var r := Remove(order, w) + [w];
    assert r[..|r| - 1] == Remove(order, w);
    r
  }

  /** Touching one of the ways keeps every way listed exactly once. */
  lemma TouchKeepsOrder(order: seq<nat>, w: nat, ways: nat)
    requires IsOrderOf(order, ways) && w < ways
    ensures IsOrderOf(Touch(order, w), ways)
  {
    var r := Touch(order, w);
    var p := Remove(order, w);
    assert r == p + [w];
    forall i | 0 <= i < |r|
      ensures r[i] < ways
    {
      if i < |p| {
        assert r[i] in order;
      }
    }
    forall v | 0 <= v < ways
      ensures v in r
    {
      if v != w {
        assert v in p;
      }
    }
  }

  /** The order of a set no way of which has been used yet. */
  function InitialOrder(ways: nat): (r: seq<nat>)
    ensures IsOrderOf(r, ways)
  {
    var r := seq(ways, i => i);
    assert forall v :: 0 <= v < ways ==> v in r by {
      forall v | 0 <= v < ways
        ensures v in r
      {
        assert r[v] == v;
      }
    }
    r
  }

  class CacheTagArray {
    const ways: nat
    const sets: nat
    const lineSize: nat
    const addrBits: nat

    /** `tags[s][w]` is the tag held by way `w` of set `s`, if any. */
    var tags: seq<seq<Option<nat>>>
    /** `lru[s]` lists the ways of set `s` from least to most recently used. */
    var lru: seq<seq<nat>>

    /** The geometry, fixed at construction. */
    predicate WellFormed()
    {
      ways > 0 && sets > 0 && lineSize > 0
    }

    /** One row of `ways` tags per set. */
    ghost predicate Shaped()
      reads this`tags
    {
      && WellFormed()
      && |tags| == sets
      && (forall s :: 0 <= s < sets ==> |tags[s]| == ways)
    }

    ghost predicate Valid()
      reads this
    {
      && Shaped()
      && |lru| == sets
      && (forall s :: 0 <= s < sets ==> IsOrderOf(lru[s], ways))
    }

    constructor (sizeInBytes: nat, ways: nat, lineSize: nat, addrBits: nat)
      requires Acceptable(sizeInBytes, ways, lineSize)
      ensures Valid()
      ensures this.ways == ways && this.lineSize == lineSize && this.addrBits == addrBits
      ensures sets * ways * lineSize <= sizeInBytes
      ensures forall s, w :: 0 <= s < sets && 0 <= w < ways ==> tags[s][w] == None
      ensures Unique()
      ensures forall pc :: !Resident(pc)
    {
      this.ways := ways;
      this.lineSize := lineSize;
      this.addrBits := addrBits;
      var n := sizeInBytes / (ways * lineSize);
      this.sets := n;
      tags := seq(n, _ => seq(ways, _ => None));
      lru := seq(n, _ => InitialOrder(ways));
      new;
      assert n * (ways * lineSize) <= sizeInBytes;
      assert n * ways * lineSize == n * (ways * lineSize);
    }

    /** The set an address maps to; it reads no mutable state, so it depends on the address only. */
    function Set(pc: Addr): (s: nat)
      requires WellFormed()
      ensures s < sets
    {
      (pc as int / lineSize) % sets
    }

    /** The tag an address is stored under within its set. */
    function Tag(pc: Addr): (t: nat)
      requires WellFormed()
    {
      pc as int / lineSize / sets
    }

    /** Way `w` of the set of `pc` holds the tag of `pc`. */
    ghost predicate Holds(w: nat, pc: Addr)
      reads this`tags
      requires Shaped()
    {
      w < ways && tags[Set(pc)][w] == Some(Tag(pc))
    }

    ghost predicate Resident(pc: Addr)
      reads this`tags
      requires Shaped()
    {
      exists w :: 0 <= w < ways && Holds(w, pc)
    }

    /** No set holds the same tag in two ways. */
    ghost predicate Unique()
      reads this`tags
      requires Shaped()
    {
      forall s, i, j :: 0 <= s < sets && 0 <= i < j < ways && tags[s][i] != None ==> tags[s][i] != tags[s][j]
    }

    /** Lookup that leaves the recency order alone (`read_no_touch`). */
    function ReadNoTouch(pc: Addr): (r: TagLookup)
      reads this`tags
      requires Shaped()
      ensures r.hit <==> Resident(pc)
      ensures r.hit ==> Holds(r.way, pc)
    {
      var w := FindWay(tags[Set(pc)], Tag(pc), 0);
      if w < ways then
        assert Holds(w, pc);
        TagLookup(true, w)
      else
        TagLookup(false, 0)
    }

    /** Touching lookup (`read`): the peek's answer, and on a hit the way becomes most recently used. */
    method Read(pc: Addr) returns (r: TagLookup)
      requires Valid()
      modifies this
      ensures Valid()
      ensures r == old(ReadNoTouch(pc))
      ensures tags == old(tags)
      ensures forall a :: Resident(a) == old(Resident(a)) && ReadNoTouch(a) == old(ReadNoTouch(a))
      ensures forall s :: 0 <= s < sets && s != Set(pc) ==> lru[s] == old(lru[s])
      ensures r.hit ==> lru[Set(pc)] == Touch(old(lru[Set(pc)]), r.way)
      ensures !r.hit ==> lru == old(lru)
    {
      r := ReadNoTouch(pc);
      if r.hit {
        var s := Set(pc);
        TouchKeepsOrder(lru[s], r.way, ways);
        lru := lru[s := Touch(lru[s], r.way)];
      }
    }

    /** Allocation (`write`): the least recently used way of the set now holds the tag. */
    method Write(pc: Addr) returns (way: nat)
      requires Valid()
      modifies this
      ensures Valid()
      ensures way < ways
      ensures tags == old(tags)[Set(pc) := old(tags)[Set(pc)][way := Some(Tag(pc))]]
      ensures Resident(pc)
      ensures old(!Resident(pc)) ==> ReadNoTouch(pc) == TagLookup(true, way)
      ensures old(!Resident(pc) && Unique()) ==> Unique()
      ensures way == old(lru[Set(pc)][0])
      ensures lru == old(lru)[Set(pc) := Touch(old(lru[Set(pc)]), way)]
    {
      var s := Set(pc);
      ghost var wasResident := Resident(pc);
      ghost var row := tags[s];
      way := lru[s][0];
      tags := tags[s := tags[s][way := Some(Tag(pc))]];
      TouchKeepsOrder(lru[s], way, ways);
      lru := lru[s := Touch(lru[s], way)];
      assert Holds(way, pc);
      if !wasResident {
        assert forall i :: 0 <= i < ways ==> row[i] != Some(Tag(pc)) by {
          forall i | 0 <= i < ways ensures row[i] != Some(Tag(pc)) {
            if row[i] == Some(Tag(pc)) {
              assert old(Holds(i, pc));
            }
          }
        }
        var f := FindWay(tags[s], Tag(pc), 0);
        assert f == way;
      }
    }
  }
}
