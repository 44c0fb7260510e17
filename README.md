# Kademlia-style DHT routing and lookup, modelled in Dafny

This project models the routing and lookup core of `dht-simulation.js`, a
simulation of a Kademlia-style distributed hash table, and proves properties
of it. The simulated network maps each participant's URL to a record: the
URL, a 256-bit identifier, and a routing table of 256 buckets of URLs.

- **Metric** (`metric.dfy`). Identifiers are naturals with at most 256 bits.
  The XOR distance is defined bit by bit. The bucket index is -1 for the
  owner itself and otherwise 256 minus the bit length of the distance. It is
  proved equal to the length of the common prefix of the two identifiers.
- **Routing** (`routing.dfy`).
  - `CreateNode` makes a table of 256 empty buckets.
  - `AddNodeToTable` is the saturating bucket insert with K = 8.
  - `UpdateNodeTable` replaces one participant's table.
  - `InsertAll` folds a sequence of inserts.
  - The routing-table invariant `TableInv`: at most K distinct URLs per
    bucket, each in the bucket its identifier selects, never the owner.
- **Selector** (`selector.dfy`). `FindKClosest` removes duplicates (first
  occurrence kept), sorts stably by distance to the target, and keeps the
  first K.
- **Lookup** (`lookup.dfy`). `RunLookup` is the iterative lookup.
  - The shortlist starts from the K closest bootstrap URLs.
  - Each round (`LookupRound`) queries the first ALPHA = 3 unqueried entries
    (`QueryRound`, `QueryNode`). Each queried participant inserts the querier
    into its table and answers with the K closest URLs it knows. URLs new to
    the shortlist are appended.
  - After each round the shortlist is trimmed back to the K closest, and
    every entry keeps its queried flag.
  - The loop (`LookupLoop`) stops when nothing is left to query. The querier
    then inserts the result into its own table (`FinishLookup`).

The lookup is specified against ghost functions:
- `Learnt(dht, q, queried)`: the network once every participant in `queried`
  has inserted the querier `q`;
- `Final`: `Learnt` plus the querier's own table update;
- `Response(dht, q, u, target)`: the answer of participant `u` to a query of
  `q`, the K URLs closest to the target in `u`'s table once `u` has inserted
  `q`;
- `Heard(dht, q, target, queried, seen)`: every URL answered by a participant
  in `queried` is in the set `seen`;
- `Answers(dht, q, target, queried)`: the set of URLs answered by the
  participants in `queried`. `HeardAnswers` proves that `Heard` means
  `Answers(..) <= seen`.

The lookup carries a ghost set `seen`: the bootstrap URLs, and after each
round every URL of the untrimmed shortlist, which holds every answer of the
round. An entry appended in a round is an answer of the round, so `seen` is
exactly the bootstrap URLs plus `Answers` of the queried set, and nothing
else ever enters the shortlist. The loop invariant `ShortlistInv` says four things about the
shortlist:
- its URLs are unique, sorted by distance, at most K of them, and all
  participants;
- an entry is flagged exactly when its URL has been queried;
- every shortlist URL and every queried URL has been seen, and every seen
  URL is a participant;
- a seen URL outside the shortlist is farther than each of its K entries.

Together with `Heard`, the last point says that no bootstrap URL and no
answered URL that the lookup dropped is as close as a returned one. With
injective identifiers the invariant also gives termination: every round
queries a participant not queried before, across the whole lookup.

The model follows these details of the code:
- The bucket index is `256 - bitLength(distance)` (dht-simulation.js:20).
  Read as a common-prefix length, this is in 0..255.
- The initial shortlist comes from the bootstrap URLs only
  (dht-simulation.js:55). The querier's own table is not consulted.
- `runLookup` returns the new network and the result list and nothing else
  (dht-simulation.js:104).

## Model

| member | source | states |
|---|---|---|
| Metric.BitLengthBound | dht-simulation.js:7 | having at most k bits is the same as lying below 2^k, so identifiers are exactly the naturals below 2^256 |
| Metric.Xor | dht-simulation.js:13 | the bitwise exclusive or is zero exactly when the two operands are equal |
| Metric.Distance | dht-simulation.js:13 | the XOR distance fits in 256 bits and is 0 exactly when the two identifiers are equal |
| Metric.DistanceSymmetric | dht-simulation.js:13 | the distance from a to b equals the distance from b to a |
| Metric.DistanceInjective | dht-simulation.js:13 | two identifiers at the same distance from a target are equal |
| Metric.BucketIndex | dht-simulation.js:15-21 | -1 exactly when the identifiers are equal, otherwise an index in 0..255 |
| Metric.BucketIndexIsCommonPrefix | dht-simulation.js:18-20 | for distinct identifiers the index r is the common-prefix length: the first r bits agree and the first r+1 do not |
| Metric.BucketIndexSymmetric | dht-simulation.js:15-21 | the bucket of b in a's table has the same index as the bucket of a in b's table |
| Routing.CreateNode | dht-simulation.js:24 | a fresh node keeps its URL and identifier, has 256 empty buckets, and satisfies the table invariant for any identifier map |
| Routing.Flatten | dht-simulation.js:76 | a URL is in the flattened table exactly when it is in one of its buckets |
| Routing.KnownAreParticipants | dht-simulation.js:76-77 | every URL of a table that names only participants, such as any table of a well-formed network, is a participant |
| Routing.AddNodeToTable | dht-simulation.js:26-34 | the table is unchanged exactly when the bucket index is negative, the URL is already in that bucket, or the bucket holds K; otherwise that bucket gains the URL at its end and every other bucket is identical |
| Routing.AddNodeIdempotent | dht-simulation.js:26-34 | inserting twice gives the same table as inserting once |
| Routing.AddNodePreservesInv | dht-simulation.js:28-32 | inserting a participant under its recorded identifier keeps: at most K per bucket, no duplicates, every URL in its own bucket, never the owner |
| Routing.AddNodeRefersTo | dht-simulation.js:26-34 | an insert adds no URL other than the inserted one |
| Routing.InsertAll | dht-simulation.js:98-101 | inserting a sequence of participants one after the other, in order, keeps 256 buckets |
| Routing.InsertAllPreservesInv | dht-simulation.js:98-101 | a sequence of inserts keeps the table invariant |
| Routing.BucketKeepsFirstK | dht-simulation.js:29-30 | inserting distinct URLs that share a bucket into a fresh table keeps exactly the first K of them, in order |
| Routing.UpdateNodeTable | dht-simulation.js:36-39 | only the table of the given participant changes; its URL and identifier, and every other participant, stay as they were |
| Routing.UpdateSameTable | dht-simulation.js:36-39 | writing back a participant's own table leaves the network equal to what it was |
| Selector.Dedup | dht-simulation.js:42 | the result has no duplicates, the same elements as the input, and keeps the order of first occurrences |
| Selector.InsertByDistance | dht-simulation.js:43-47 | one insertion step of the sort yields a sequence one longer that contains the inserted URL |
| Selector.InsertMultiset | dht-simulation.js:43-47 | one insertion step of the sort adds exactly the inserted element |
| Selector.InsertSorted | dht-simulation.js:43-47 | inserting into a sequence sorted by distance keeps it sorted |
| Selector.SortByDistance | dht-simulation.js:43-47 | the sort keeps the length of its input |
| Selector.SortMultiset | dht-simulation.js:43-47 | the sort is a permutation of its input |
| Selector.SortSorted | dht-simulation.js:43-47 | the sort output is ascending by distance to the target |
| Selector.SortDistinct | dht-simulation.js:43-47 | sorting a duplicate-free sequence adds no duplicate |
| Selector.SortIsStable | dht-simulation.js:43-47 | at every distance, the elements at that distance keep their input order |
| Selector.FindKClosest | dht-simulation.js:41-48 | the result is a duplicate-free selection of input URLs, sorted by distance, of length min(K, number of distinct inputs), and no returned URL is farther than an input left out |
| Selector.FindKClosestStable | dht-simulation.js:41-48 | at each distance the returned URLs are the earliest such URLs of the de-duplicated input, in input order |
| Selector.FindKClosestBelow | dht-simulation.js:41-48 | if K distinct inputs are closer than a bound, K URLs are returned and all of them are closer than the bound |
| Selector.DistSeparates | dht-simulation.js:44-46 | with injective identifiers, two different participants never tie in distance to the target |
| Lookup.FindEntry | dht-simulation.js:64 | returns the first entry with the URL, or none when no entry has it |
| Lookup.Unqueried | dht-simulation.js:59 | the filter keeps exactly the shortlist entries that are not queried |
| Lookup.NodesToQuery | dht-simulation.js:59-60 | at most ALPHA entries, all unqueried shortlist entries; empty exactly when every entry is queried |
| Lookup.NodesToQueryOrder | dht-simulation.js:59 | an unqueried entry is chosen exactly when fewer than ALPHA unqueried entries precede it |
| Lookup.MarkQueried | dht-simulation.js:64-65 | every entry keeps its URL; with unique URLs, exactly the entry of the queried URL becomes flagged and the rest are unchanged |
| Lookup.PushMissing | dht-simulation.js:80-84 | the shortlist is kept as a prefix; every response URL ends up in it; appended entries are unqueried response URLs; URLs stay unique |
| Lookup.Urls | dht-simulation.js:88 | the URL list has one URL per shortlist entry, in shortlist order |
| Lookup.Reattach | dht-simulation.js:88-91 | the trimmed shortlist has the trimmed URLs in order; a URL from the shortlist keeps its entry, any other is flagged by whether it was queried |
| Lookup.ReattachKeepsEntries | dht-simulation.js:90 | the fallback entry is never built: every trimmed entry is one of the shortlist's own entries |
| Lookup.AllQueried | dht-simulation.js:94 | every entry is queried exactly when the filter of unqueried entries is empty |
| Lookup.LearntWellFormed | dht-simulation.js:69-73 | the queried participants' inserts keep the network well formed and every identifier unchanged |
| Lookup.LearntStep | dht-simulation.js:69-73 | querying one more participant is one insert of the querier into that participant's table, written back with updateNodeTable |
| Lookup.StartInv | dht-simulation.js:55-56 | the K bootstrap URLs closest to the target, none queried, satisfy the shortlist invariant with every bootstrap URL seen |
| Lookup.QueryNode | dht-simulation.js:63-84 | one query: the URL joins the queried set; the network is what the queried set has learnt; the old shortlist with that entry marked stays in front; every URL of the participant's Response is in the new shortlist, and the appended entries are unqueried URLs of that Response; the round invariant is kept |
| Lookup.QueryNext | dht-simulation.js:62-85 | the j-th query of a round adds the j-th chosen URL to the queried set, keeps every shortlist URL, adds every URL of that participant's Response to the shortlist, keeps the round invariant, and every entry appended in the round so far is an answer of a participant queried in it |
| Lookup.QueryTarget | dht-simulation.js:62 | the j-th URL to query is a participant in the shortlist, queried neither before the round nor earlier in it |
| Lookup.QueryRound | dht-simulation.js:62-85 | after a round the queried set has grown by exactly the URLs chosen, the network is what that set has learnt, every URL answered by a participant queried in the round is in the shortlist, and every appended entry is such an answer |
| Lookup.TrimRestores | dht-simulation.js:87-91 | with injective identifiers the trim restores the shortlist invariant, with every URL of the untrimmed shortlist added to the seen set, and never shrinks the shortlist |
| Lookup.LookupRound | dht-simulation.js:59-95 | a round queries exactly the chosen URLs and adds exactly their answers to the seen set; it restores the shortlist invariant over the new seen set; every URL answered by a queried participant is in the new shortlist or farther than each of its K entries; the shortlist never shrinks, and the queried set strictly grows within the participants |
| Lookup.LookupLoop | dht-simulation.js:58-96 | the loop ends with every shortlist entry queried and the shortlist invariant holding; the seen set is the starting one plus exactly the answers of every queried participant; an empty shortlist stays empty and nothing more is queried or seen |
| Lookup.HeardCovered | dht-simulation.js:75-91 | under the shortlist invariant every URL that a queried participant answered is in the shortlist or farther than each of its K entries |
| Lookup.InsertResults | dht-simulation.js:98-101 | the final table is the querier's table with every shortlist URL inserted in order |
| Lookup.FinishLookup | dht-simulation.js:97-104 | the result is the shortlist's URLs and the network is Final |
| Lookup.LearntValid | dht-simulation.js:69-73 | the queried participants' inserts keep every table's invariant |
| Lookup.FinalShape | dht-simulation.js:98-102 | after the lookup: the same participants, URLs and identifiers, and a well-formed network |
| Lookup.FinalTables | dht-simulation.js:98-102 | after the lookup, each queried participant's table is its old table with the querier inserted; the querier's table has the result inserted; every other table is unchanged |
| Lookup.FinalUnchanged | dht-simulation.js:98-102 | a lookup that queried nobody and found nothing leaves the network exactly as it was |
| Lookup.FinalValid | dht-simulation.js:98-102 | after the lookup every table still satisfies the bucket invariant |
| Lookup.LookupResult | dht-simulation.js:94 | the final shortlist's URLs are distinct, at most K, sorted, all queried, and closer than any seen or queried URL left out |
| Lookup.RunLookup | dht-simulation.js:51-105 | the result is distinct, at most K, sorted, queried participants only, and never shorter than the initial shortlist; seen is exactly the bootstrap URLs plus every URL a queried participant answered, and holds the result; a seen URL left out means K strictly closer URLs were returned; the network is Final; empty bootstrap gives an empty result with nobody queried; the loop terminates |

## Left out

- The SHA-256 hashing of URLs into identifiers (`sha256`, `getNodeId`) is a
  foreign call. Identifiers are given in the network map instead.
- `hexToBigInt` and the `toString(2).length` bit count are replaced by
  arithmetic on naturals (`Xor`, `BitLength`).
- The driver `main` is not modelled: reading `relay-list.txt`, the random
  shuffle and target, the join sequence and console output. It is I/O,
  randomness and sequencing outside the core.
- JavaScript object identity is not modelled. `oldTable !== newTable` is
  compared by value, so an unchanged table is never written back. Shared
  shortlist entry objects become values that are updated in the sequence.
- RunLookup: requires injective identifiers. The source relies on SHA-256
  being collision-free, and termination is proved only under that
  assumption.
- RunLookup: requires that the querier and every bootstrap URL are
  participants. The source reads `dht[url].id` for each of them without a
  check, so other inputs are outside what it handles.
- RunLookup: requires a well-formed network, in which every table has 256
  buckets and names only participants. On some other networks the source
  throws: the comparator reads `dht[a].id` (dht-simulation.js:44-45) and the
  final inserts read `currentDht[url].id` (dht-simulation.js:100). The
  requirement holds at every call site: `createNode` (dht-simulation.js:24)
  builds 256 empty buckets, and only participants are ever inserted.
- RunLookup: `queried` and `seen` are ghost out-parameters. The source's
  `queriedUrls` set is local and not returned, and the source keeps no set
  of seen URLs.
- Routing.UpdateNodeTable: requires the updated URL to be a participant.
  The source would otherwise create a record with only a table.
- The spread copies in `addNodeToTable` and `updateNodeTable` are modelled
  as values, so sharing between old and new tables is not modelled.
