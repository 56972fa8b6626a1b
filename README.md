# Branch prediction unit of the MIPT-MIPS performance simulator

This project models the branch prediction unit of the simulator
(`simulator/bpu/bpu.h`) in Dafny and proves its contracts.

- `BP<T>` is a set-associative prediction table. It holds a grid of
  `ways × (size_in_entries / ways)` prediction entries and a `CacheTagArray`
  that maps an instruction address to a hit flag, a way and a set. The model
  is the class `Bpu.BP<T>`. The grid is an `array2<T>`. The tag store is a
  `CacheTags.CacheTagArray` object.
- Predictions (`is_taken`, `get_target`, `get_bp_info`) peek at the tag store
  with `read_no_touch`. They are Dafny functions, so they cannot change any
  state: not the tags, not the recency order, not the entries.
- Training (`update`) uses the touching `read`. On a miss it allocates a way
  with `write`, resets the entry there and seeds its target. Then it applies
  exactly one `update(is_taken, target)`. The method's contract states the
  whole new state: which cell changed, to what, and that every other cell
  kept its entry.
- `BPFactory::create` maps five mode names to entry types. An unknown name is
  a fatal configuration error. It is modelled as `Err(InvalidMode(name,
  supported))`, where `supported` lists the names in the order the error
  report prints them.

The entry type `T` stays abstract. Its operations (default construction,
`reset`, `update_target`, `update`, `is_taken`, `getTarget`) come in as a value
of `Bpu.EntryAlgorithm<T>`. An entry's in-place mutation becomes the
assignment of the operation's result to the entry's cell.

The tag store is a collaborator whose source (`infra/cache/cache_tag_array.h`)
is not part of this model. The table relies only on the stand-in's contracts:

- the peek changes nothing, and it hits exactly when the address is resident;
- a hit means the returned way of the address's set holds the address's tag;
- `read` returns what the peek would, keeps every tag, and on a hit makes that
  way the most recent of its set, leaving the other sets' order alone;
- `write` returns the least recently used way of the address's set, below
  `ways`; it sets exactly that tag cell, makes the way the most recent, and
  leaves the address resident, so that after a miss the next peek finds it in
  that way;
- the set index reads no mutable state, so it depends on the address alone.

The bodies behind these contracts are a plain array of optional tags per set,
with least-recently-used replacement. Each set keeps a recency order that lists
every way exactly once; `write` takes its least recently used way.

`BP.Valid()` also keeps one invariant of the table itself: a set never holds
the same tag in two ways. So every resident address has exactly one entry,
and addressing and storage cannot get out of step. The invariant holds because
`update` calls `write` only on a miss.

Addresses are unsigned 32-bit integers (`Types.Addr`): the cache test passes a
`std::vector<uint32>` where a `std::vector<Addr>` is expected
(simulator/infra/cache/t/unit_test.cpp:79, :134, :142). So `PC + 4` wraps at
2^32 (`Types.Fallthrough`), and a miss at `0xFFFF_FFFC` falls through to 0.

## Model

| member | source | states |
|---|---|---|
| `Types.Fallthrough` | simulator/bpu/bpu.h:86 | `PC + 4` on a 32-bit address: the next instruction, wrapping at 2^32, never the address itself |
| `CacheTags.CacheTagArray.constructor` | simulator/bpu/bpu.h:57-63 | the tag store built with the table's entry count, ways, a granularity of 4 and the address width holds no tag, and its sets times ways times line size fit in the size it was given |
| `CacheTags.CacheTagArray.Set` | simulator/bpu/bpu.h:73 | `set(PC)` is below the number of sets and reads no mutable state, so it depends on `PC` only |
| `CacheTags.CacheTagArray.ReadNoTouch` | simulator/bpu/bpu.h:71 | `read_no_touch` hits exactly when the address is resident, and on a hit the returned way holds the address's tag; it changes nothing |
| `CacheTags.CacheTagArray.Read` | simulator/bpu/bpu.h:93 | the touching `read` answers what the peek answers and keeps every tag, so no address's residency or lookup changes; on a hit the returned way becomes the most recently used of the address's set, on a miss the recency order is unchanged, and other sets' order never changes |
| `CacheTags.CacheTagArray.Write` | simulator/bpu/bpu.h:96 | `write` returns the least recently used way of the address's set, puts the tag there and changes no other tag, and makes that way the most recently used; the address is then resident, and if it missed before, the peek now finds it in the returned way and no set holds a tag twice |
| `Bpu.SetsFitRows` | simulator/bpu/bpu.h:56-63 | every set of the tag store has a row in the `size_in_entries / ways` rows of each column, so `data[way][set]` is in bounds |
| `Bpu.BP.constructor` | simulator/bpu/bpu.h:52-64 | `ways` columns of `size_in_entries / ways` entries (integer division), all default-constructed; no address is resident in the tag store, so every address predicts not taken with target `PC + 4` |
| `Bpu.BP.IsTaken` | simulator/bpu/bpu.h:67-74 | a miss predicts not taken; otherwise the prediction is taken exactly when the entry of the way holding `PC` in `set(PC)` predicts taken |
| `Bpu.BP.GetTarget` | simulator/bpu/bpu.h:76-87 | not predicted taken gives `PC + 4`; predicted taken gives the target of the entry of the way holding `PC` |
| `Bpu.BP.GetBPInfo` | simulator/bpu/bpu.h:105-108 | the result carries `PC`, and its separate direction and target lookups agree with the prediction derived from one single peek at the tag store; not taken means target `PC + 4` |
| `Bpu.BP.Update` | simulator/bpu/bpu.h:90-103 | afterwards `PC` is resident; exactly one cell changes: on a hit the cell already holding `PC` gets one `update`, with no reset and no tag change; on a miss the allocated cell is reset, seeded with `update_target(target)`, then updated once, and only that tag changes; if `reset` brings the evicted entry to the cold state of a fresh entry, the trained entry is the one a fresh slot would get; the slot's way becomes the most recently used of its set and no other set's recency order changes; the next prediction for `PC` comes from the trained entry |
| `Bpu.MissTrainingForgetsEvicted` | simulator/bpu/bpu.h:95-102 | when `reset` brings every entry to one cold state whatever it held, training a reallocated slot gives the entry a fresh, default-constructed slot would get, whatever the evicted entry held |
| `BpuFactory.SupportedModesAreRegistered` | simulator/bpu/bpu.h:148-153 | the names the error report lists are exactly the five registered names, each once |
| `BpuFactory.SupportedModesAscending` | simulator/bpu/bpu.h:145-166 | the report lists the names in strictly ascending lexicographic order, the order in which the name-keyed map iterates |
| `BpuFactory.Resolve` | simulator/bpu/bpu.h:156-171 | a name resolves exactly when it is one of the listed modes, to its registered entry kind; any other name is `InvalidMode` carrying the name and the full list of supported names |
| `BpuFactory.Create` | simulator/bpu/bpu.h:156-172 | succeeds exactly for the registered names, with a fresh valid table over the selected entry kind, `ways` columns of `size_in_entries / ways` entries, with no address resident and every address predicting not taken with target `PC + 4`; an unknown name builds nothing and returns the `InvalidMode` error whatever the sizes, since the name is checked before any sizing |
| `BpuScenarios.EvictionInOneSlotTable` | simulator/bpu/bpu.h:67-103 | in a one-way, one-set table, after training one address another line's address predicts not taken with target `PC + 4` (from all three queries), those predictions leave the trained address resident, and training that other address evicts it, after which it predicts not taken with target `PC + 4` |

## Left out

- The entry algorithms of `bpentry.h` (always taken, backward jumps, one-bit, two-bit, adaptive two-level) are not part of this model. `T` stays abstract, and `Create` takes the entry operations of each kind as a parameter.
- The internals of `CacheTagArray` are not part of this model. This covers the set and tag arithmetic and the replacement policy. The stand-in uses `size / (ways * 4)` sets, line-address set indexing and LRU replacement. The table's proofs use only the stand-in's contracts.
- The stand-in ignores the address width: tags are not truncated to `branch_ip_size_in_bits`, so two addresses that differ only above that width stay distinct in the model, and a width of 0 is accepted.
- The geometry checks of `CacheTagArraySizeCheck` are not part of this model. They exit the process on a geometry they reject (a zero size, way count, line size or width; a size, way count or line size that is not a power of two). `BP.constructor`, and `Create` for a registered name, instead require at least one way and at least one set. With zero ways, `size_in_entries / ways` at bpu.h:56 divides by zero before any check runs. An unknown name needs no such requirement: `Create` rejects it before any sizing.
- BpuFactory.Create: the error report on `std::cerr` and the `std::exit(EXIT_FAILURE)` become the `InvalidMode` error value. The value carries the rejected name and the supported names.
- BpuFactory.Create: all five kinds share one entry type `T`. The source uses a different `T` per kind behind the `BaseBP` interface (bpu.h:28-42). The type-erased handle is therefore not modelled separately.
- The heap-allocated creator objects of the registry and their deletion in the factory's destructor are not modelled. They are lifetime management only.
- Integer widths of `uint32` sizes are not modelled; sizes are unbounded naturals.
