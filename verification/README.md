# A verified model of the Aerospike client extension for HHVM

The extension compiles PHP values to nodes of a fixed memory pool, shares connections between PHP objects through a
global registry with two reference counters, hands out shared-memory keys, and turns predicates, operation lists and
batch results into what the C client takes and gives. Its test runner has a diff of its own. This project models these
parts and proves what they promise. Where the code does not keep a promise, the exact condition is proved instead.

`dafny verify dfyconfig.toml` checks the whole project.

| part | files |
|---|---|
| values and pools | `PhpValues`, `StaticPool`, `Conversion`, `Accounting`, `Reading`, `RoundTrip`, `Records`, `LastWins` |
| connection registry | `RegistryModel`, `RegistryInvariant`, `RegistryRuns`, `RegistrySequential`, `RegistryReuse`, `Shutdown`, `Registry`, `RegistryExamples` |
| aliases and keys | `Aliases`, `ShmKeys` |
| line diff | `LineCount`, `LineDiff`, `LinePatch`, `LookAhead`, `DiffText`, `Segments` |
| predicates, operations, batches | `Predicates`, `PredicateMeaning`, `Operations`, `OperationMeaning`, `OperationEffects`, `BatchResults` |
| shared | `Common`, `Text` |

## How the parts are modelled

**Values and pools.** A PHP array is a sequence of entries with distinct keys. `StaticPoolManager` is a class with the
five indices of the source; the conversions are mutually recursive methods that advance them. What a conversion asks of
the pool is a sequence of requests, and `StaticPool.Run` serves requests in order. Every method is proved against
these functions, and the accounting is proved about them, against a count of nodes that knows nothing of order, pools
or 16-bit counters. An `as_map` is read back in an arbitrary order.

**Registry.** `RegistryModel` is a state machine: a step is one lock-protected section, or one piece of thread-local
code, of one client object, and a run is any interleaving of any number of objects. The list of aliases keeps the null
entries that `operator[]` inserts on a miss. The state carries a log of writes and frees, so that theorems can say what
happened before. `RegistryInvariant` proves that every enabled step keeps one invariant, and `RegistryRuns` draws the
consequences for all runs. `Registry` holds the imperative code: the classes `Extension` (the globals and the heap, as
a map from addresses to blocks, so that `free` can be seen) and `Client` (one PHP object). Each method updates the real
fields in the order of the source and records the steps it takes; `Extension.Valid` says that the real fields are those
of a state that the recorded run reaches. So all theorems about runs hold of this code. Clients run one after another
there; overlapping runs are the state machine's.

**Line diff.** `count_array_diff` and the scanning loop take the comparison as a parameter: equality in plain mode, any
relation in regex mode. The step budget is a real number, because it is halved. The PHP expression
`$old1[$idx1] = ... $w[$idx1++]` uses the index before the increment here; with the other evaluation order all indices
of both sides move by one together.

**Operators and index types.** The values of `AS_OPERATOR_*` and the bin names it accepts belong to the C client and are
parameters. The index types are 1 (list), 2 (map keys) and 3 (map values), as in the C client. What an operation does to
a bin, and what a clause selects, is stated about the client's operations and clauses; what the PHP caller asks for is
stated about the PHP arguments alone. The main results compare the two.

**Assumptions, stated as hypotheses or built into the types.** PHP's `unserialize` undoes `serialize`
(`RoundTrip.Faithful`). `__construct` runs once per object. A persistent configuration names at least one host; with
none the source passes a null pointer to a string constructor. `malloc` and `aerospike_new` succeed and addresses are
not reused. `aerospike_connect` answers success or failure, nothing else; a connection has a cluster from its first
success on, a private one until it is closed. Signed overflow of the key counter, undefined in C++, wraps in two's
complement. A host's port has 16 bits, as in the C client; only the buffer lemmas look at other ports. PHP and C
integers of 64 bits are unbounded integers; the 16-bit and 32-bit ones are written out where they matter.

## Where the code and its documentation differ

The model follows the code.

- The documentation of `predicateRange` asks for integers. The helper also accepts two strings, and the validator then
  refuses the result (`PredicateMeaning.PipelineOutcome`). A predicate written by hand with a string instead of an array
  does reach the string branch of the compiler (`PredicateMeaning.StringRangeReached`).
- The documentation of `predicateBetween` asks for integers. The check of `max` asks whether `min` is a boolean, so a
  boolean `min` lets any `max` pass (`Predicates.BetweenBounds`).
- The validator lets unknown operators pass, and the compiler then adds no clause
  (`PredicateMeaning.UnknownOperatorIsDropped`).
- The comment above `sweep` speaks of closing when the count reaches 0. A persistent connection is never closed before
  shutdown (`RegistryRuns.PersistentNeverFreed`), and at shutdown only if its host counter equals its number of aliases
  (`Shutdown.ShutdownFrees`).
- `ref_php_object` is documented as the number of objects that hold the connection. It drifts in exactly two cases
  (`RegistryRuns.ObjectCountDrift`), each of which occurs (`RegistryExamples`).

## Model

| member | source | states |
|---|---|---|
| StaticPool.StaticPoolManager.GetAsString | src/aerospike/main/conversions.cpp:77-143 | a string node is handed out exactly if fewer than 4096 were; it is the next slot, and only its own index moves |
| StaticPool.StaticPoolManager.GetAsInteger | src/aerospike/main/conversions.cpp:77-143 | the same for integer nodes |
| StaticPool.StaticPoolManager.GetAsArraylist | src/aerospike/main/conversions.cpp:77-143 | the same for list nodes |
| StaticPool.StaticPoolManager.GetAsHashmap | src/aerospike/main/conversions.cpp:77-143 | the same for map nodes |
| StaticPool.StaticPoolManager.GetAsBytes | src/aerospike/main/conversions.cpp:77-143 | the same for bytes nodes |
| StaticPool.RunOkIffFits | src/aerospike/include/conversions.h:54-75 | a sequence of requests is served exactly if none is a refusal and each pool has room for all requests of its kind |
| StaticPool.FailurePoint | src/aerospike/main/conversions.cpp:809-894 | a failing conversion stops at one definite request: all before it were served, none after it, and no index passed 4096 |
| StaticPool.RunBounded | src/aerospike/include/conversions.h:54-75 | whatever is asked for, no index ever exceeds 4096 |
| Common.WrapKeepsLowBits | src/aerospike/main/conversions.cpp:382-394 | conversion to a C int agrees with the number on its low 32 bits, for every integer |
| PhpValues.ArrayKeyOfNumber | src/aerospike/main/batch_op_manager.cpp:65-90 | a string that prints a 64-bit integer is that integer as an array key |
| PhpValues.ArrayKeyOfText | src/aerospike/main/batch_op_manager.cpp:65-90 | every string that prints none stays a string |
| Conversion.ClassifyArray | src/aerospike/main/conversions.cpp:710-721 | the loop with the 16-bit counter answers whether some key differs from its position modulo 65536 |
| Conversion.IsAssocExact | src/aerospike/main/conversions.cpp:710-721 | for distinct keys that answer is "not exactly 0..n-1 in order", except that lists of more than 65536 entries count as associative |
| Conversion.SerializeBasedOnSerializerPolicy | src/aerospike/main/conversions.cpp:265-308 | takes one bytes slot under the PHP serializer before anything can fail, then fails on an empty serialization; refuses every other policy without touching the pool |
| Conversion.PhpVariantToAsVal | src/aerospike/main/conversions.cpp:739-791 | status, pool indices and tree of a conversion are those of serving the value's requests in order, from any pool state |
| Conversion.PhpListToAsList | src/aerospike/main/conversions.cpp:809-838 | the same for lists: elements in order, stopping at the first failure |
| Conversion.PhpMapToAsMap | src/aerospike/main/conversions.cpp:856-894 | the same for maps: each key before its value, a repeated key replacing the old value |
| Accounting.ConvertsIffFits | src/aerospike/main/conversions.cpp:739-894 | a value converts exactly if its scalars are serializable and, for each of the five kinds, slots used plus its node count is at most 4096; success advances each index by exactly that count |
| Accounting.ConvertedMeansCompact | src/aerospike/main/conversions.cpp:710-721 | on every successful conversion, from any pool state, each array inside the value was classified correctly by the 16-bit counter |
| Accounting.TooLongNeverConverts | src/aerospike/include/conversions.h:54-64 | a value with an array of more than 65536 entries fails from every pool state, because some pool is too small |
| Accounting.FailureCodes | src/aerospike/main/conversions.cpp:77-308 | every failed conversion is a client error with a full pool of strings, integers, lists or maps, or a parameter error with a full bytes pool or a scalar that the serializer does not accept |
| Accounting.SlotsInOrder | src/aerospike/main/conversions.cpp:77-143 | the nodes of a converted tree have strictly increasing slots within each kind, all between the indices before and after: no node shares its slot with another one, earlier or later |
| Reading.AsValToPhpVariant | src/aerospike/main/conversions.cpp:1307-1366 | reading succeeds exactly on trees without blobs and unsupported nodes, and gives a value that the tree denotes, maps in any order; nil gives null; blobs and unsupported nodes fail with codes of their own |
| Reading.AsListToPhpList | src/aerospike/main/conversions.cpp:1192-1232 | the same for the list callback: elements in order under keys 0, 1, 2, ... |
| Reading.AsMapToPhpMap | src/aerospike/main/conversions.cpp:1248-1293 | the same for the map callback, whatever order the map is iterated in |
| RoundTrip.RoundTripIffNulFree | src/aerospike/main/conversions.cpp:739-1366 | every value that converts can be read back, and what comes back is the value, up to entry order inside associative arrays, if and only if no string in it has a NUL character |
| LastWins.MapHoldsLasts | src/aerospike/main/conversions.cpp:856-894 | the map of every converted associative array has no two equal keys; its pairs are exactly those of the entries that are the last with their key, keys ending at their first NUL |
| LastWins.RecordHoldsLasts | src/aerospike/main/conversions.cpp:912-988 | the same for the bins of a record and their names |
| Records.PhpRecordToAsRecord | src/aerospike/main/conversions.cpp:912-988 | bins are set in order, integers and strings without using the pool; integer keys and names over 14 characters fail with their own codes before the value is looked at |
| Records.BinsToPhpBins | src/aerospike/main/conversions.cpp:1382-1424 | reading succeeds exactly if all bins are readable; a name that leads to the same array key as a later one is overwritten |
| Records.RecordConvertsIffFits | src/aerospike/main/conversions.cpp:912-988 | a record converts exactly if all its names are strings of at most 14 characters, its scalars are serializable, and the values that are not inline fit the pools together |
| Records.BadNameStopsRecord | src/aerospike/main/conversions.cpp:912-932 | the first integer key or name over 14 characters stops the record with its own code, before its value takes a node |
| Records.RecordConvertedMeansCompact | src/aerospike/main/conversions.cpp:710-721 | on every successful record conversion, too, each array has at most 65536 entries and was classified correctly |
| Records.RecordRoundTripIffNulFree | src/aerospike/main/conversions.cpp:912-1424 | every record that converts can be read back, and comes back the same, bins in order, if and only if no string in it has a NUL character |
| RegistryInvariant.StepKeepsInv | src/aerospike/main/ext_aerospike.cpp:56-404 | each of the fourteen steps, taken in any good state, follows live pointers only and ends in a good state |
| RegistryInvariant.InvOnRuns | src/aerospike/main/ext_aerospike.cpp:56-404 | the invariant holds after every interleaving |
| RegistryRuns.NoUseAfterFree | src/aerospike/main/ext_aerospike.cpp:56-404 | after every interleaving, any step that an object can take next follows a pointer to an allocated connection |
| RegistryRuns.HostCountSlack | src/aerospike/main/ext_aerospike.cpp:124-236 | in every state of every interleaving, ref_host_entry is the number of aliases of the connection plus its pending increment plus exactly its writes that hit an own alias and its aliases overwritten later; so it is never below the number of aliases |
| RegistryRuns.ObjectCountDrift | src/aerospike/main/ext_aerospike.cpp:176-404 | whenever no operation is in progress, ref_php_object is the number of connected holders, plus creators that found the counter above 1 and never connected, minus failed connects of reused entries |
| RegistryRuns.PersistentNeverFreed | src/aerospike/main/ext_aerospike.cpp:56-84 | a connection that a persistent object holds at any time is never freed, whatever all objects do later |
| RegistryRuns.PrivateFreedOnce | src/aerospike/main/ext_aerospike.cpp:56-84 | a non-persistent object's connection is never in the registry and never shared; its sweep frees it exactly once, and nothing ever reaches it again |
| RegistrySequential.SequentialObjectCount | src/aerospike/main/ext_aerospike.cpp:176-404 | between operations that do not overlap, ref_php_object equals the number of connected holders if and only if no connect of a reused entry has failed on this connection |
| RegistrySequential.OneHostCountsAliases | src/aerospike/main/ext_aerospike.cpp:124-236 | with one-host configurations and operations that do not overlap, ref_host_entry is exactly the number of aliases, and only private connections have none |
| RegistryReuse.ConstructRegistersAllHosts | src/aerospike/main/ext_aerospike.cpp:124-229 | after a persistent construct that runs alone, every host resolves to the object's connection: that of the first host that resolved before, or a new block; nothing else was allocated |
| RegistryReuse.SecondConstructReuses | src/aerospike/main/ext_aerospike.cpp:186-229 | the next persistent construct whose first host is one of those takes the same connection and allocates none |
| RegistryExamples.FailedReuseUndercounts | src/aerospike/main/ext_aerospike.cpp:283-291 | a run in which ref_php_object is 0 although an object holds the connection and is connected |
| RegistryExamples.OverlapStrandsCreator | src/aerospike/main/ext_aerospike.cpp:283-291 | an interleaving of two constructs after which ref_php_object is 2, one object is connected, and nobody ever called connect |
| RegistryExamples.TwoHostsTwiceLeak | src/aerospike/main/ext_aerospike.cpp:124-147 | constructing a two-host configuration twice leaves a host counter of 3 over two aliases, so shutdown does not free it |
| Registry.Client.IterateHostsAddEntry | src/aerospike/main/ext_aerospike.cpp:124-147 | the loop makes every host except the matched one an alias of the object's connection, in order, counts one entry for each, and touches no other connection; its steps are one per host |
| Registry.Client.ConfigureConnection | src/aerospike/main/ext_aerospike.cpp:176-236 | the object takes the connection of its first host that resolves, or a new one; it is marked connected exactly in the first case; the counters of that connection and all others are given |
| Registry.Client.Construct | src/aerospike/main/ext_aerospike.cpp:262-299 | which connection the object takes, whether it is connected, the status, both counters and all other connections, as functions of the registry before; all its hosts resolve to its connection, no other alias and no other client changes |
| Registry.Client.Close | src/aerospike/main/ext_aerospike.cpp:319-354 | succeeds exactly for a connected object whose connection counts a user, takes exactly one user off that connection, and changes no other connection or client; otherwise changes nothing |
| Registry.Client.Reconnect | src/aerospike/main/ext_aerospike.cpp:358-404 | succeeds exactly for a disconnected object whose connection counts no user, if it can be opened or has a cluster, adds exactly one user to that connection, and changes no other connection or client; otherwise changes nothing |
| Registry.Client.SweepObject | src/aerospike/main/ext_aerospike.cpp:56-84 | a persistent connection loses this user if the object was connected, a private one is freed, all other connections and clients stay as they are; a second sweep does nothing |
| Registry.Extension.ModuleShutdown | src/aerospike/main/ext_aerospike.cpp:1558-1592 | whatever the order of the aliases, no freed connection is read, none is freed twice, and the list ends empty |
| Shutdown.ReleaseAliases | src/aerospike/main/ext_aerospike.cpp:1558-1592 | from any list in which no connection has more aliases than its host counter: each alias takes one off, and a connection is freed exactly when the count runs out with its last alias |
| Shutdown.ShutdownFrees | src/aerospike/main/ext_aerospike.cpp:1558-1592 | after any run, shutdown frees a connection exactly if it has aliases and as many as its host counter says; between operations, exactly if it has aliases, never rewrote an own one and never lost one |
| Shutdown.OneHostShutdownFreesAll | src/aerospike/main/ext_aerospike.cpp:1558-1592 | with one-host configurations and operations that do not overlap, exactly the private connections survive shutdown |
| Aliases.HostPortInjective | src/aerospike/main/ext_aerospike.cpp:103-114 | "host:port" names one host and port, whatever characters the host has |
| Aliases.ClusterAliasInjective | src/aerospike/main/conversions.cpp:37-61 | two concatenated aliases are equal exactly if the host lists are, and the users too unless the lists are empty, under any of four conditions: no ':' in hosts and no ';' in users; no ';' in hosts and neither separator in users, so IPv6 hosts are told apart; one user and no ';' in hosts; one user and normal lists, in which no entry but the last begins with a shorter one and the last host name holds none |
| Aliases.ClusterAliasInjectiveForUser | src/aerospike/main/conversions.cpp:425-437 | for one user, whatever characters it has, no ';' in hosts is enough |
| Aliases.EmbeddedHostCollides | src/aerospike/main/conversions.cpp:37-61 | every host whose name holds an entry "n:q:user;" with a 16-bit port gives the same alias as two hosts, whatever follows it in the list |
| Aliases.NormalIsUnique | src/aerospike/main/conversions.cpp:425-437 | for any user, an alias has at most one normal list, however the user's text overlaps with itself |
| Aliases.SameAliasIffSameNormal | src/aerospike/main/conversions.cpp:425-437 | for any user, two lists have the same alias if and only if cutting first entries where a shorter one ends makes them the same list; this leaves exactly the normal lists as they are |
| Aliases.NormalIffNoneEmbeds | src/aerospike/main/conversions.cpp:37-61 | for a user without ';', the normal lists are those in which no host name holds an entry of the user |
| Aliases.SemicolonFreeDoesNotEmbed | src/aerospike/main/conversions.cpp:37-61 | host names without ';' hold no entry of any user, so this safe case is one of the exact ones |
| Aliases.AmbiguousIff | src/aerospike/main/conversions.cpp:425-437 | for any user, a list shares its alias with another list of 16-bit ports if and only if it has at least two hosts or its only host name holds an entry of the user with such a port |
| Aliases.UsersShareAliasIff | src/aerospike/main/conversions.cpp:37-61 | two different users can share an alias, for some hosts, if and only if one of them is the other one behind a 16-bit port number, at its front or behind a ':' |
| Aliases.SameClusterAliasIff | src/aerospike/main/conversions.cpp:404-437 | for any two host lists and any two users, exactly when the aliases are equal: one user and one normal list; a user behind a port number of the other and one normal list once its hosts are read as hosts of the other; or no hosts at all |
| Aliases.PortBuffer | src/aerospike/main/conversions.cpp:40-57 | the 6-byte port buffer holds exactly the numbers above -10000 and below 100000; 65535 fills it |
| Aliases.EntryBufferIsTight | src/aerospike/main/conversions.cpp:45-60 | for any int as port, the alias buffer suffices exactly if the port buffer does; it does for every 16-bit port, and 65535 uses its last byte |
| Aliases.HostPortBuffer | src/aerospike/main/ext_aerospike.cpp:103-114 | the single-alias buffer suffices for up to six characters of port: one byte more than valid ports need |
| Aliases.ClusterBufferSuffices | src/aerospike/main/conversions.cpp:413-437 | the concatenation fits the summed length if and only if there is a host; for none it is one byte short |
| ShmKeys.Pigeonhole | src/aerospike/main/conversions.cpp:382-394 | a table cannot hold more consecutive keys than it has entries, across the 32-bit wrap-around |
| ShmKeys.ShmKeyTable.IsUniqueShmKey | src/aerospike/main/conversions.cpp:363-376 | answers whether no cluster has the key, whatever order the map yields its entries in |
| ShmKeys.ShmKeyTable.GenerateUniqueShmKey | src/aerospike/main/conversions.cpp:382-394 | ends within one round more than the table has keys, with the first key from the counter on that no cluster has, and the counter behind it |
| ShmKeys.ShmKeyTable.VerifyShmKeyStoreIt | src/aerospike/main/conversions.cpp:404-457 | an unknown cluster gets the key it asks for if no cluster has it, and the counter stays; otherwise the first free key from the counter on, and the counter is behind it. Its configuration receives that key; a known cluster's keeps its own. The rest of the table stays |
| ShmKeys.FreeWishIsHonoured | src/aerospike/main/conversions.cpp:438-451 | the same about the table before and after any one call, known clusters and the keys of all others included |
| ShmKeys.FirstCallDecides | src/aerospike/main/conversions.cpp:404-457 | over all calls since the start, the first call for a cluster decides its key: the one it asks for if that is free at that moment, else the first free one; the cluster has it ever after if and only if it is not -1 or nobody asks for the cluster again |
| ShmKeys.CallsKeepKeys | src/aerospike/main/conversions.cpp:438-451 | after any sequence of calls no two aliases share a key, and a key recorded before is still the same if and only if it is not -1 or no call was for its alias |
| ShmKeys.ClustersHaveOwnKeys | src/aerospike/main/conversions.cpp:404-457 | after any calls since the start, two clusters whose aliases can be told apart, by any of the four conditions of ClusterAliasInjective, have the same key exactly if they are the same cluster |
| LineCount.CountArrayDiff | src/aerospike/run-tests.php:2142-2182 | terminates for all texts, positions and budgets, fractional and negative ones included, with the value of the recursive definition |
| LineCount.CountAtMostLcs | src/aerospike/run-tests.php:2142-2182 | the count lies between the run of matching lines ahead and the length of the longest common subsequence, for every comparison and budget |
| LineCount.NoLongerMatching | src/aerospike/run-tests.php:2142-2182 | no list of matching positions, increasing on both sides, is longer than the function Lcs says |
| LineCount.LongestMatching | src/aerospike/run-tests.php:2142-2182 | some such list is as long as Lcs says, so Lcs is the longest common subsequence |
| LineCount.FirstMatchIsOptimal | src/aerospike/run-tests.php:2146-2151 | consuming two matching lines at once never loses a longer subsequence, even if the comparison is not an equivalence |
| LineCount.CountExact | src/aerospike/run-tests.php:2142-2182 | with a budget of 4 * 2^k - 3 steps for k remaining lines the heuristic is exact: it returns the length of the longest common subsequence |
| LineDiff.ScanLines | src/aerospike/run-tests.php:2184-2211 | the scanning loop records exactly the lines of the recursive definition, each under its index, and ends where one text ends |
| LineDiff.Merge | src/aerospike/run-tests.php:2213-2238 | the two-cursor loop terminates with the merge that lets a run of consecutive lines go on |
| LineDiff.GenerateArrayDiff | src/aerospike/run-tests.php:2184-2249 | the diff is the merge of the recorded lines followed by what is left of either text |
| LinePatch.MergeKeepsSides | src/aerospike/run-tests.php:2213-2238 | the merge emits every recorded line exactly once, with each side in its order |
| LinePatch.DeletedRunsStay | src/aerospike/run-tests.php:2219-2222 | two "-" lines with consecutive indices are next to each other in the merge |
| LinePatch.InsertedRunsStay | src/aerospike/run-tests.php:2223-2226 | two "+" lines with consecutive indices are next to each other in the merge |
| LookAhead.MergeOfTwoRuns | src/aerospike/run-tests.php:2213-2238 | of two recorded runs the merge begins with the one of the smaller index, and in a tie with the "+" lines |
| LinePatch.ScanRecords | src/aerospike/run-tests.php:2184-2211 | recorded lines have increasing indices and carry the texts of the expected text and of the output |
| LinePatch.DiffRecords | src/aerospike/run-tests.php:2184-2249 | in the whole diff, each side has strictly increasing indices within its text, with the lines at these indices |
| LinePatch.KeptLinesMatch | src/aerospike/run-tests.php:2184-2249 | in either mode, deleting the "-" lines from the expected text and the "+" lines from the output leaves equally many lines, which match one by one in order |
| LinePatch.EmptyDiffIffMatch | src/aerospike/run-tests.php:2184-2249 | the diff is empty exactly if the texts have equally many lines and match line by line |
| LinePatch.DiffIsPatch | src/aerospike/run-tests.php:2184-2249 | in plain mode, applying the diff to the expected lines gives the output lines, for all texts |
| LookAhead.InsertedBlockAlone | src/aerospike/run-tests.php:2142-2211 | a block of at most ten lines that is inserted before matching lines, the first of which matches none of the block, is reported alone; at the end of the output a block of any length is |
| LookAhead.DeletedBlockAlone | src/aerospike/run-tests.php:2142-2211 | the same for a deleted block of at most six lines, because that side has half the budget |
| LookAhead.InsertedBlockAloneIff | src/aerospike/run-tests.php:2142-2211 | with one line after it, an inserted block is reported alone if and only if it has at most ten lines |
| LookAhead.DeletedBlockAloneIff | src/aerospike/run-tests.php:2142-2211 | with one line after it, a deleted block is reported alone if and only if it has at most six lines |
| LookAhead.AllLinesDiffer | src/aerospike/run-tests.php:2184-2249 | of two texts without any matching lines the diff is exactly: as many "+" lines as the shorter text has, all lines of the expected text, the rest of the output |
| LookAhead.SwappedLines | src/aerospike/run-tests.php:2193-2210 | where both counts are equal and positive the line of the output is reported, so of two swapped lines the second is moved up |
| DiffText.ImplodeExploded | src/aerospike/run-tests.php:2251-2259 | splitting a text into lines loses nothing |
| DiffText.ParseRendered | src/aerospike/run-tests.php:2195-2206 | a printed diff line determines its index, its side and its text |
| DiffText.PrintedLine | src/aerospike/run-tests.php:2195-2206 | a line is printed as its 1-based number with at least three digits and no other leading zeros, "-" or "+" for its side, a space and its text |
| DiffText.GenerateDiff | src/aerospike/run-tests.php:2251-2259 | the printed diff is that of the line diff, joined with carriage return and newline, and has the meaning that RegexDiffMeans and PlainDiffMeans give it in its mode |
| DiffText.ParsePrinted | src/aerospike/run-tests.php:2251-2259 | a printed diff can be read back, although its lines may end in carriage returns themselves |
| DiffText.PrintedDiffRebuildsOutput | src/aerospike/run-tests.php:2251-2259 | in plain mode, for every expected text and every output, the output is determined by the expected text and the printed diff |
| DiffText.RegexDiffMeans | src/aerospike/run-tests.php:2251-2259 | in regex mode, for all texts, patterns and comparisons, the printed diff is empty exactly if each line of the output matches its line of the pattern; the lines it does not mention match in order; its "-" lines show the expected text, its "+" lines the output |
| DiffText.PlainDiffMeans | src/aerospike/run-tests.php:2251-2259 | in plain mode the printed diff is empty exactly if the texts are equal; the lines it does not mention are equal, in order; its lines show both texts |
| Segments.ConvertSections | src/aerospike/run-tests.php:1917-1943 | the loop over the sections terminates with the quoted literals and parenthesized expressions of the segmentation, for any quoting |
| Segments.Lossless | src/aerospike/run-tests.php:1917-1943 | putting the expressions back between markers and joining gives the original text, unbalanced and empty sections included |
| Segments.SegmentsIff | src/aerospike/run-tests.php:1917-1943 | the loop's segmentation is the only one without markers inside literals and expressions, and with at most an unbalanced one at the end, that joins back to the text |
| Segments.ConvertsSectionBySection | src/aerospike/run-tests.php:1917-1943 | on texts: a literal, a section and a rest convert to the quoted literal, the expression in parentheses and the conversion of the rest |
| Segments.ConvertsWithoutSection | src/aerospike/run-tests.php:1917-1943 | a text without two markers is quoted as a whole, with its unbalanced marker |
| Predicates.ConstructEqualsContains | src/aerospike/main/scan_operation.cpp:183-215 | null exactly for a bin that is no non-empty string or a value that is neither integer nor non-empty string; else the array with exactly the documented keys |
| Predicates.ConstructBetweenRange | src/aerospike/main/scan_operation.cpp:231-273 | null exactly for a bad bin or bounds that the mode does not take, with the code's own check of max; else the array with both bounds |
| Predicates.BuildPredicate | src/aerospike/main/ext_aerospike.cpp:1255-1332 | the four helpers on all PHP arguments, index types that are null or no integer included; exactly when each returns null |
| Predicates.IsPredicate | src/aerospike/main/scan_operation.cpp:357-401 | accepts exactly the arrays with the required keys and value types, whoever built them |
| Predicates.InitializeWherePredicate | src/aerospike/main/scan_operation.cpp:415-506 | status and clauses for every validated predicate, with each string cut at its first NUL |
| PredicateMeaning.PipelineOutcome | src/aerospike/main/scan_operation.cpp:183-506 | of the helpers' results, validation refuses exactly ranges of strings and compilation exactly index types other than 1, 2, 3; all others become one clause |
| PredicateMeaning.MeaningPreservedIff | src/aerospike/main/scan_operation.cpp:183-506 | every documented call passes validation and compiles to one clause, which selects exactly the records the call describes (index type 1: elements of a list, 2: keys of a map, 3: values of a map; null and boolean bounds of BETWEEN as 0 and 1) if and only if no string of the call has a NUL character, or the range is empty |
| Operations.SetOperation | src/aerospike/main/conversions.cpp:990-1097 | adds one operation exactly if the value has the operator's type, the name is there and accepted by the client, a value to write converts, and there is room; a value is converted before its name is refused; on a refusal the list stays as it is |
| Operations.CollectFields | src/aerospike/main/conversions.cpp:1107-1133 | the collecting loop fails exactly on an entry with an unknown key or a wrongly typed op, bin or ttl; its flags say which keys are there |
| Operations.SetPhpOperation | src/aerospike/main/conversions.cpp:1099-1157 | one entry is added exactly if it has the keys and types of its operator, no more and no less, an accepted name, a value that converts, and the list has room |
| Operations.PhpOperationsToAsOperations | src/aerospike/main/conversions.cpp:1159-1177 | the result is the translation of all entries in order and the ttl of the last TOUCH, and never exceeds the capacity reserved |
| OperationMeaning.AcceptedIff | src/aerospike/main/conversions.cpp:1099-1157 | an entry is accepted exactly if its keys are the documented ones of its operator, no more and no less, with values of the documented types |
| OperationMeaning.OperationsTranslateIffFit | src/aerospike/main/conversions.cpp:990-1177 | a list is translated exactly if every entry has the documented keys and types and a name that the client accepts, values to write are storable, and all written values fit the pools together |
| OperationMeaning.TranslatedInOrder | src/aerospike/main/conversions.cpp:1159-1177 | the i-th operation is the i-th entry's, its nodes taken after those of the entries before |
| OperationEffects.TranslationFulfilsIff | src/aerospike/main/conversions.cpp:990-1177 | in every translated list, the i-th operation works on the bin that the i-th entry names and does there what the entry asks for (append: old string and value; prepend: value and old string; increment: sum; write: the value, as it is read back; read and touch: nothing) if and only if the bin name and the strings of the value have no NUL character |
| OperationMeaning.LastTouchWins | src/aerospike/main/conversions.cpp:1048-1055 | the ttl is an unsigned 32-bit number that agrees with the ttl of the last TOUCH on its low 32 bits, or 0 without one |
| OperationMeaning.KeyOrderDoesNotMatter | src/aerospike/main/conversions.cpp:1107-1133 | the order of the keys inside an entry changes neither acceptance nor requests nor result nor ttl |
| OperationMeaning.KeyOrderDoesNotMatterInLists | src/aerospike/main/conversions.cpp:1099-1177 | nor, with any permutation inside every entry, the requests, acceptance, operations and ttl of a whole list |
| BatchResults.PopulateResult | src/aerospike/main/batch_op_manager.cpp:65-90 | sets the value under the digest, string or integer of the key, strings cut at NUL and numeric ones as integers; an unknown key type is an error and sets nothing |
| BatchResults.AsKeyToPhpKey | src/aerospike/main/conversions.cpp:1462-1510 | the parts of the key that are there are set in order; an unknown key type is an error and sets no user key, but the digest still |
| BatchResults.AsRecordToPhpRecord | src/aerospike/main/conversions.cpp:1526-1547 | succeeds exactly if all bins are readable, even with a key of unknown type, whose error the next conversions overwrite |
| BatchResults.KeyParts | src/aerospike/main/conversions.cpp:1462-1510 | in a converted key, namespace, set, user key and digest are found under their names exactly if they are there; strings are cut at NUL, the digest is not |
| BatchResults.RecordParts | src/aerospike/main/conversions.cpp:1526-1547 | a converted record has its key, its ttl and generation, and a reading of its bins under their names |
| BatchResults.TerminatesIff | src/aerospike/main/batch_op_manager.cpp:104-133 | a callback's loop ends if and only if there are at most 65535 results or one of the first 65536 is bad |
| BatchResults.BatchExistsCb | src/aerospike/main/batch_op_manager.cpp:104-133 | whenever it ends: the array collects the results before the first bad one; true exactly if every record was found or not found and the last key has a known type |
| BatchResults.BatchGetCb | src/aerospike/main/batch_op_manager.cpp:147-177 | the same for records; true exactly if, besides, every record that was found is readable |
| BatchResults.CollectsPointwise | src/aerospike/main/batch_op_manager.cpp:65-177 | the collected array has exactly the keys of the results, and reading it at a key gives the conversion of the last result of that key, null if that was not found |
| BatchResults.FoundUnderUserKey | src/aerospike/main/batch_op_manager.cpp:65-177 | for both callbacks: a record is found at PHP's key for its NUL-free user string, at its user integer, or without user key at that for its digest, unless a later record leads to the same PHP key; what is found is its ttl and generation, or its bins, or null if there is no such record |
| BatchResults.OnlyUserKeys | src/aerospike/main/batch_op_manager.cpp:65-177 | the array has exactly the PHP keys that the records before the first bad one lead to |

## Left out

- Registry.Client.Construct: calls on different clients do not overlap in the classes; interleavings are covered by the state machine, whose steps these methods record.
- Registry.Extension.ModuleShutdown: the second locking call at the end and what a process does after shutdown are not modelled.
- RegistryRuns.NoUseAfterFree: the unlocked reads of `is_connected` and the counters, and the lookup under a read lock that may insert, are atomic steps; data races inside a step are not modelled.
- PredicateMeaning.MeaningPreservedIff: where a boolean `min` lets a `max` pass that is no integer, boolean or null, PHP's number for it is not fixed here, so only PipelineOutcome covers the call.
- Predicates.InitializeWherePredicate: conversions of other PHP values to integers are a parameter fixed on integers, booleans and null.
- Reading.AsValToPhpVariant: the `AS_REC` case, which casts through an array reference, and blobs read by a user callback are not modelled.
- Conversion.SerializeBasedOnSerializerPolicy: user serializers are foreign code and are not modelled.
- Operations.PhpOperationsToAsOperations: which bin names the C client accepts is a parameter, and the width of its capacity argument is its own matter.
- BatchResults.PopulateResult: a digest is read as a C string; reading past its 20 bytes when it has no NUL is not modelled.
- Conversion.PhpVariantToAsVal: an `as_val` is a value that carries its slot; writing into the slot's memory and the pool's destructor are not modelled, and map keys are integers and strings only.
- Segments.ConvertSections: the later replacements of `%s`, `%d` and the like in the pattern, and preg_quote itself, are not modelled.
- LineCount.CountArrayDiff: preg_match is a parameter; patterns that are not valid regular expressions are not modelled.
- Network calls, scans and queries on the server, UDFs and policies: the C client's behaviour appears only as a success flag.
- `policy.cpp`, `helper.cpp`, `udf_operations.cpp`, `src/LDT`, the PHP stubs: flat overlays, file access and thin wrappers that would add easy members only.
- php_key_to_as_key and the configuration arrays: argument checks without state.
- The rest of `run-tests.php`: process control, reports and mail.
