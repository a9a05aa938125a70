# Train network simulator — verified model of the core

The simulator moves trains of three lines ('g', 'y', 'b') around a network of
stations. A station has one platform per outgoing track; each platform owns
the outgoing link to the next station, a holding queue of waiting trains and
a dwell slot in which one train unloads. This project models, in Dafny:

- `structs.dfy` (module `Structs`): `Train`, `Pair`, the holding-queue order
  `Compare`, and the classes `Link` and `Platform` with their per-tick steps
  `send_out`, `send_in` and `push_train_to_platform`.
- `graph_indexer.dfy` (module `GraphIndexer`): numbering stations by name,
  counting platforms (nonzero entries of the adjacency matrix) and giving
  every directed edge its platform id in row-major order.
- `line_linker.dfy` (module `LineLinker`): `link_platforms`, which wires each
  platform of a line to its successor and records it as a feeder of that
  successor. The imperative method is proved equal to a sequence of wiring
  steps, and the steps are characterised (successors along the route,
  reversal at both terminals, feeder lists).
- `partitioner.dfy` (module `Partitioner`): the round-robin assignment of
  platform ids to worker processes, proved to partition the ids by residue.
- `state.dfy` (module `StateStrings`) with `decimal.dfy` (module `Decimal`,
  the `std::to_string` rendering of an `int`): the output tokens
  `g1-changi->tampines`, `b0-changi#`, `y12-clementi%`, each proved to read
  back as its line, train id and station names.
- `option.dfy` (module `Optional`): the `Option` type standing for
  `std::optional`.

The platform's holding queue (`std::priority_queue` with `Compare`) is a
sequence in insertion order; `Top` picks an entry no other entry outranks.
The load-time generator `pltg` is a function `loadTime` fixed when the
platform is built.

Both `can_train_leave` checks (`structs.hpp:40-42` for a link,
`structs.hpp:80-82` for a platform) read `enter_time + duration >= tick`. So a
present train may leave at any tick up to its deadline: already one tick after
entering when the duration is at least 1, and at no tick after its entry tick
when the duration is 0. `MayLeave` is that check as written and
`MayLeaveWindow` states exactly which ticks it admits.

## Model

| member | source | states |
|---|---|---|
| Structs.Compare | structs.hpp:20-24 | a ranks below b exactly when b's (tick, train id) is lexicographically smaller than a's |
| Structs.CompareIsKeyOrder | structs.hpp:20-24 | Compare is irreflexive and transitive, and two entries are incomparable iff their keys are equal |
| Structs.Top | structs.hpp:129-131 | the entry the queue hands out: no entry outranks it, and every earlier entry is strictly outranked by it |
| Structs.PopRemovesTop | structs.hpp:131 | popping removes exactly the top entry: one element fewer, the multiset loses just that entry |
| Structs.PopOrderSortedPermutation | structs.hpp:20-24 | draining the queue hands out every entry exactly once (a permutation) in non-decreasing (tick, train id) order |
| Structs.PopOrderExample | structs.hpp:20-24 | entries (t 5, id 3), (t 5, id 1), (t 2, id 9) leave in the order id 9, id 1, id 3 |
| Structs.MayLeaveWindow | structs.hpp:40-42 | the leave check as written admits a present train exactly at the ticks up to entry + duration, already one tick after entry, never for an empty slot |
| Structs.Link.constructor | structs.hpp:34 | a new link has the given travel time, no train and entry tick 0 |
| Structs.Link.IsLinkFree | structs.hpp:36-38 | the link is free exactly when it holds no train, that is exactly when no tick lets a train leave it |
| Structs.Link.CanTrainLeave | structs.hpp:40-42 | true only with a train on the link, and then exactly at the ticks at most its entry tick plus the travel time |
| Structs.Link.TrainLeave | structs.hpp:44-48 | returns the train on the link and leaves the link empty |
| Structs.Link.TrainEnter | structs.hpp:50-53 | the link holds the train, entered at tick |
| Structs.Platform.constructor | structs.hpp:74 | a new platform has empty maps and queue, a free slot and a fresh link with the travel time |
| Structs.Platform.IsPlatformFree | structs.hpp:76-78 | the dwell slot is free exactly when it holds no train, that is exactly when no tick lets a train leave it |
| Structs.Platform.CanTrainLeave | structs.hpp:80-82 | true only with a dwelling train, and then exactly at the ticks at most its entry tick plus the unloading time |
| Structs.Platform.TrainLeave | structs.hpp:84-88 | returns the dwelling train and frees the slot |
| Structs.Platform.TrainEnter | structs.hpp:90-94 | the slot holds the train, entered at tick, with the generator's unloading time for its id |
| Structs.Platform.SendOut | structs.hpp:103-119 | the link releases its train iff it may leave (otherwise the no-train marker 'b'/-1 is returned); the dwelling train moves onto the link iff the link is then free and the train may leave; the destination is output_platforms[line], inserting 0 for a missing line, or 'b' for id -1; no train is lost or duplicated |
| Structs.Platform.SendIn | structs.hpp:121-123 | the arriving trains are appended to the queue, in order, each stamped with tick |
| Structs.Platform.SendInTrain | structs.hpp:125-127 | the one train is appended to the queue stamped with tick |
| Structs.Platform.PushTrainToPlatform | structs.hpp:129-134 | with a nonempty queue and a free slot the top entry leaves the queue and enters the slot at tick; otherwise nothing changes |
| GraphIndexer.StationNameToId | simulate.cc:25-31 | the keys are exactly the listed names; each maps to a position holding that name, the last such position, so with distinct names name i maps to i |
| GraphIndexer.HowManyPlatforms | simulate.cc:35-43 | the count equals the number of nonzero entries of the matrix |
| GraphIndexer.CountNonzeroBound | simulate.cc:35-43 | the platform count is at most rows times columns |
| GraphIndexer.PlatformsToId | simulate.cc:54-73 | out[r][c] exists iff (r, c) is an edge, and then it is the number of edges before it in row-major order; every row present is nonempty |
| GraphIndexer.CellIdOrdered | simulate.cc:59-69 | ids strictly increase along the row-major order of edges, so distinct edges get distinct ids, all below the platform count |
| GraphIndexer.EdgeOfId | simulate.cc:59-69 | every id below the platform count belongs to some edge: the numbering is onto 0..count-1 |
| LineLinker.Wire | simulate.cc:88-89 | one wiring step on the platform objects: the source's successor on the line becomes the target, and the target's feeder list gains the source |
| LineLinker.LinkStep | simulate.cc:84-123 | one loop iteration, in any of its four branches, performs the forward step then the backward step of the uniform rule |
| LineLinker.LinkPlatforms | simulate.cc:76-125 | the platforms' wiring afterwards is the old wiring with all steps of the route applied in order; only output_platforms and input_platforms change |
| LineLinker.StepIsForwardThenBackward | simulate.cc:84-123 | the four branches of the loop body are one rule: s_i->s_i+1 feeds s_i+1->s_i+2 (or turns back at the last station) and s_i+1->s_i feeds s_i->s_i-1 (or turns back at the first) |
| LineLinker.RouteEdgesAt | simulate.cc:83-124 | step 2i is iteration i's forward step and step 2i+1 its backward step |
| LineLinker.RouteEdgesWithin | simulate.cc:83-124 | every step of a route whose platforms lie in the arena stays in the arena |
| LineLinker.ApplyInputs | simulate.cc:89 | a platform's feeder list grows by exactly the sources of the steps into it, in order |
| LineLinker.ApplyOutputs | simulate.cc:88 | a platform's successor map changes only under the line's key, and only if some step leaves it; then it holds the last such step's target |
| LineLinker.InputsAdded | simulate.cc:89 | over the whole arena, the steps add exactly one feeder entry each |
| LineLinker.RouteInputsAdded | simulate.cc:76-125 | wiring a route of n stations adds exactly 2(n-1) feeder entries over the arena |
| LineLinker.FeedersMembers | simulate.cc:89 | x is added as a feeder of k iff some step goes from x to k |
| LineLinker.LastTargetOfUniqueSource | simulate.cc:88 | when no two steps leave the same platform, each step's target is its source's successor |
| LineLinker.TwoStationLine | simulate.cc:84-92 | on a two-station line the two platforms turn back onto each other |
| LineLinker.RouteSuccessors | simulate.cc:76-125 | after wiring a route with distinct platforms, s_i->s_i+1 has successor s_i+1->s_i+2 (or s_i+1->s_i at the end) and s_i+1->s_i has successor s_i->s_i-1 (or s_0->s_1 at the start); other lines' entries are kept |
| LineLinker.RouteFeeders | simulate.cc:76-125 | after wiring, every step's source is listed among its target's feeders |
| Partitioner.AssignPlatformIdsToProcess | simulate.cc:128-134 | the ids rank, rank + P, rank + 2P, ... below the total, in that order |
| Partitioner.OwnedIdsTerms | simulate.cc:130 | the i-th listed id is rank + i * P |
| Partitioner.OwnedIdsBounds | simulate.cc:130 | the list is strictly ascending, within rank..total-1, and stops only when the next id would reach the total |
| Partitioner.OwnedIdsMembers | simulate.cc:130-132 | x is listed iff rank <= x < total and x - rank is a multiple of P |
| Partitioner.OwnershipPartition | simulate.cc:128-134 | for ranks 0..P-1, id x in 0..total-1 is listed for exactly the rank x mod P |
| Partitioner.OwnedIdsCongruent | simulate.cc:128-134 | every id a worker owns is nonnegative and congruent to its rank modulo P |
| Decimal.NatToString | state.hpp:27 | at least one digit, all digits, no leading zero |
| Decimal.IntToString | state.hpp:27 | a leading '-' exactly for negative numbers, followed by digits |
| Decimal.IntToStringRoundTrip | state.hpp:27 | the rendered number reads back as the number |
| Decimal.IntToStringInjective | state.hpp:27 | distinct numbers render differently |
| Decimal.IntToStringExamples | state.hpp:27 | 0, 12 and -7 render as "0", "12" and "-7" |
| StateStrings.HeadRoundTrip | state.hpp:26-28 | line character, rendered id and '-' read back as the line, the id and the remaining text |
| StateStrings.LinkStateToString | state.hpp:24-33 | the token reads back as line, train id and "src->dest", and ends with the destination name |
| StateStrings.HoldingStateToString | state.hpp:35-43 | the token reads back as line, train id and "src#", and ends with '#' |
| StateStrings.PlatformStateToString | state.hpp:45-53 | the token reads back as line, train id and "src%", and ends with '%' |
| StateStrings.StateToString | state.hpp:57-66 | status 0 gives the link token, 1 the holding token, anything else the platform token |
| StateStrings.StateToStringMeaning | state.hpp:57-66 | every token reads back as its line and id followed by the source name and "->dest", "#" or "%" according to the status |
| StateStrings.HoldingTokenInjective | state.hpp:35-43 | equal holding tokens come from the same line, train id and source name |
| StateStrings.HoldingAndPlatformTokensDiffer | state.hpp:35-53 | a holding token never equals a platform token |
| StateStrings.TokenIgnoresTickAndDest | state.hpp:24-66 | the tick is never rendered; the holding and platform tokens ignore the destination |
| StateStrings.LinkTokenExample | test_state.cpp:7-13 | train g1 from changi to tampines renders as "g1-changi->tampines" |
| StateStrings.HoldingTokenExample | test_state.cpp:15-21 | train b0 held at changi renders as "b0-changi#" |
| StateStrings.PlatformTokenExample | test_state.cpp:23-29 | train y12 at clementi renders as "y12-clementi%" |

## Left out

- The commented-out MPI datatype setup (simulate.cc:14-21) and the `simulate` driver (simulate.cc:138-148), which only calls `station_name_to_id` and `platforms_to_id`: they add no behaviour of their own. The per-tick order send_out, then send_in, then push_train_to_platform that the comment at structs.hpp:97-99 prescribes is not composed into one step; each step is modelled on its own.
- `create_platforms`: as written it fills the vector with one shared `Platform` pointer; the model works on an arena of distinct platform objects (`Distinct`) and does not model that aliasing.
- The load-time generator `pltg` (platform_load_time_gen.hpp) is not part of this model: its `next(id)` is the function `loadTime`, fixed when the platform is built, with no further contract. The model therefore gives equal train ids equal unloading times on a platform, whereas a stateful generator may not; no proved property relies on this. The popularity that seeds the generator is not kept.
- GraphIndexer.PlatformsToId: the `Platform` objects the source pushes onto its by-value copy of the vector, and the `popularites` argument they use, are not modelled; that copy is discarded by the caller anyway.
- `which_lines` of `Platform` is never read or written by the modelled code and is not modelled.
- LineLinker.LinkPlatforms: requires the route to have at least one station (the source's `size() - 1` wraps around for an empty route) and requires every `operator[]` lookup of a station name or platform id to hit a present key (`Linked`), rather than modelling the default entries a missed `operator[]` lookup would insert: into the function's own copy of `platform_ids`, which is passed by value, and into the caller's `station_ids`, which is passed by reference.
- LineLinker.RouteSuccessors: assumes the route's platform steps leave distinct platforms; a route that passes the same directed track twice is covered only by ApplyOutputs (the last step wins).
- Structs.Top: `std::priority_queue` leaves the order of entries with equal (tick, train id) unspecified; the model takes the first inserted.
- Integers are unbounded: 32-bit `int` overflow of ticks, ids and counters, and the `size_t`/`int` conversions, are not modelled.
- GraphIndexer.HowManyPlatforms and PlatformsToId: require every row to be at least as long as the first, since the loops index `mat[r][c]` for `c < mat[0].size()`.
- Partitioner.AssignPlatformIdsToProcess: requires at least one process; with zero the source loops forever.
- StateStrings: the lookups `platform_id_to_string[...]` require valid indexes (`ValidSrc`, and `ValidDest` for a link token).
