# A verified model of SSZ++

SSZ++ serializes, deserializes and Merkleizes the objects of Ethereum's consensus layer as `simple-serialize.md` of the
consensus specifications prescribes. This project models its three cores and proves that they do so:

* **Merkleization** (`lib/merkleize.hpp`, `lib/math.hpp`). `MerkleTree` holds the reference, "pad to a power of two and
  hash neighbours", for any hash on any type of nodes. `SparseTree` builds the sparse tree layer by layer in one exactly
  sized buffer, `VectorRoot` is the fork-join divide and conquer for vectors, `ObjectRoot` the root of every kind of
  object, and `Binding` says what a root commits to.
* **Concurrency** (`lib/merkleize.hpp`, `lib/container.hpp`). `Tasks` has the call on any nested object as steps of tasks
  that share one memory: vectors fork, containers and composite elements call for their members one after another.
  `TaskMemory` proves which memory a task may touch, `TaskOutcome` what it will compute, `TaskCost` how many steps and
  threads it takes, and `Interleaving` puts these together for every schedule and every choice of the allocator.
* **Serialization** (`lib/basic_types.hpp`, `lib/lists.hpp`, `lib/container.hpp`). `Schema` has the types, the values and
  the encoding as one recursive function of heads and tails. `Writer` writes in place with two cursors, into a buffer of
  any contents (`Ink` tells the bytes that are overwritten from the bits that are OR-ed in), and `Reader` reads with
  offsets. `EncodingLayout` says where in an encoding each member is, `ReaderMeaning` the same of any bytes that are read.
  `RoundTrips` and `CanonicalBytes` relate writer and reader in both directions, and `ReaderSafety` covers bytes of any
  origin.
* **Bit packing** (`Bits`): bitvectors, bitlists, their delimiter bit and its removal before hashing.

The hash is a parameter `h` everywhere, so every statement holds for every function from two chunks to a chunk; nothing
assumes that it is injective. Methods take an `Engine`, which is a hash with its table of 42 zero hashes. Methods that
write to a buffer say with `Splice`, `Paint` or a sequence update what the whole buffer holds afterwards, so that contents
and frame are one clause.

Four findings, each with an input and the exact condition:

* The guard of the bitlist reader (`lib/lists.hpp:419`) compares 8 times the number of bytes with the limit N and thereby
  rejects the encoding of n bits unless n < 8 * (N / 8). `RoundTrips.ComesBack` states exactly which values come back.
  No attestation by a full committee of 2048 members does (`RoundTrips.FullCommitteeIsLost`), and there are such
  attestations (`RoundTrips.FullCommitteeIsTyped`). With the guard switched off (the parameter `guard` of `Reader.Read`,
  which is always true in the source) everything comes back.
* No other list is checked against its limit when it is read (`RoundTrips.LimitIsIgnored`, `ReaderSafety.TooManyAreRead`).
  What is read is a value of its type if and only if the counts found in the bytes keep the limits
  (`ReaderSafety.ReadIsTyped`).
* The writers of bitlists and bitsets OR into the buffer. `Writer.WrittenIff` states for every value exactly which buffers
  hold its encoding afterwards, `Bits.BitlistNeedsZero` and `Bits.BitsetNeedsClear` for a single bitlist or bitset, and
  `Bits.OldBitsSpoil` shows one buffer each that does not.
* The reader accepts bytes that no value is written as (`CanonicalBytes.PaddingIsAccepted`,
  `CanonicalBytes.TrailingBytesAreAccepted`). They come back when written again if and only if they are canonical
  (`CanonicalBytes.WrittenBackIff`).

Where the code and its documentation differ, the code is modelled: the comment at `lib/merkleize.hpp:117` excludes inputs
of one chunk or less, which `hash_first_layer` handles and is given; the project's README lists 128-bit integers, which
`lib/concepts.hpp:33-38` does not admit.

## Model

| member | source | states |
|---|---|---|
| MathHelpers.Log2CeilLeast | lib/math.hpp:27-34 | log2ceil is the exponent of the smallest power of two not below its argument |
| MathHelpers.Log2CeilAsWritten | lib/math.hpp:32-34 | it is the expression over countl_zero that the source evaluates on 64 bits |
| Bytes.DigitAt | lib/basic_types.hpp:29-37 | byte i of a number is its i-th digit in base 256, the least significant one first |
| SparseTree.ZeroHashArray | lib/merkleize.hpp:83-92 | entry i of the table is the root of a tree of height i over zero chunks |
| SparseTree.ComputeHashtreeSize | lib/merkleize.hpp:103-112 | the size is 32 bytes for every node of every layer, in closed form depth + (c-1) - popcount(c-1) nodes for c chunks that fit the depth |
| SparseTree.ChunkifyAt | lib/merkleize.hpp:119-137 | byte k of chunk j is byte 32 j + k of the data, and zero behind its end |
| SparseTree.HashFirstLayer | lib/merkleize.hpp:119-137 | for any byte length, odd or even chunk count, full or partial last chunk: exactly the pairwise hashes of the zero-padded chunks are written, nothing else changes, and no byte behind the input is read |
| SparseTree.HashWithin | lib/merkleize.hpp:43-46 | hashing inside one buffer with the output behind the input gives the hashes of the pairs as they were before |
| SparseTree.HashNextLayer | lib/merkleize.hpp:157-163 | one more layer is written behind the newest one, an odd last node being joined with the zero hash of that height |
| SparseTree.SparseHashTreeInto | lib/merkleize.hpp:149-164 | the exactly sized buffer ends up holding all layers one after another, and its last node is the root of the padded tree |
| SparseTree.SparseHashTree | lib/merkleize.hpp:175-186 | the last 32 bytes of the result are the root for the given limit, for no chunks, one chunk and any number of chunks |
| MerkleTree.LayerSumClosedForm | lib/merkleize.hpp:103-112 | sum of the ceilings c/2, c/4, ... over the depth equals depth + (c-1) - popcount(c-1) |
| MerkleTree.LayerCount | lib/merkleize.hpp:157-163 | layer k holds exactly ceil(c / 2^k) nodes |
| MerkleTree.LayerNode | lib/merkleize.hpp:149-164 | node j of layer k is the root of its own run of 2^k leaves, zero-padded; every node that is not stored would equal the zero hash of that height |
| MerkleTree.BelowIsRun | lib/merkleize.hpp:149-164 | the leaves below node j of layer k are the j-th run of 2^k leaves |
| MerkleTree.LayerKeepsRoot | lib/merkleize.hpp:157-163 | invariant of the loop over heights: the newest layer, padded with the zero hash of its height, has the root of the whole tree |
| MerkleTree.LayerInBuffer | lib/merkleize.hpp:155-163 | in the buffer layer i comes right behind the layers below it |
| MerkleTree.LastIsRoot | lib/merkleize.hpp:149-164 | at a depth that fits the chunks one node is left, stored last, and it is the root |
| MerkleTree.RaiseIsDeeper | lib/merkleize.hpp:246-248 | folding in the zero hashes of heights d to d+j-1 turns the root for depth d into the root for depth d+j, also for j = 0 |
| MerkleTree.ForkJoin | lib/merkleize.hpp:235-248 | splitting at a power of two, joining and topping up gives the root of the padded whole |
| VectorRoot.BasicSplit | lib/merkleize.hpp:226-238 | from 128 elements on, for every element size, both halves are non-empty, the split is on a chunk boundary, the first half is exactly 2^k chunks, and log2ceil of the chunk count is k + 1 |
| VectorRoot.RootSplit | lib/merkleize.hpp:263-268 | the same for vectors of roots and of composite elements |
| VectorRoot.JoinHalves | lib/merkleize.hpp:235-248 | the halves' roots for limit 2^k, joined and topped up to the limit, are the root for that limit, a limit of 0 standing for the chunk count |
| VectorRoot.HashTreeRootBasic | lib/merkleize.hpp:222-249 | for every cpu count, whatever hardware count 0 stands for, and every limit: the root of the zero-padded chunks, the same on both paths |
| VectorRoot.HashTreeRootRoots | lib/merkleize.hpp:258-279 | the same for vectors of roots |
| ObjectRoot.HashTreeRootComposite | lib/merkleize.hpp:282-309 | the same for vectors of composite elements, whose own roots are computed on one thread each |
| ObjectRoot.HashElements | lib/merkleize.hpp:287-295 | its sequential path |
| ObjectRoot.HashTreeRootVector | lib/merkleize.hpp:222-309 | whichever overload applies, the result is merkleize of the packed elements or of the elements' roots |
| ObjectRoot.HashBitlist | lib/merkleize.hpp:330-344 | the root of a bitlist: merkleize of the plain packing with the chunk limit of N bits, length mixed in |
| ObjectRoot.HashBitvector | lib/merkleize.hpp:347-352 | the root of a bitvector |
| ObjectRoot.HashContainer | lib/container.hpp:199-208 | the root of a container is merkleize of its members' roots |
| ObjectRoot.HashTreeRoot | lib/merkleize.hpp:205-352 | for every nested value and every cpu count the slot receives the root that the Merkleization section defines, and other slots are untouched |
| ObjectRoot.ChunksFit | lib/merkleize.hpp:320-350 | the chunks of a value never exceed the limit computed from its type, and meet it unless the type is a list |
| ObjectRoot.LimitIsMet | lib/merkleize.hpp:318-340 | a list or bitlist with as many members as its limit allows has exactly as many chunks as its tree has room for |
| ObjectRoot.LengthIsNumber | lib/merkleize.hpp:198-202 | the length that is mixed in is hashed as a little-endian number of 32 bytes |
| Tasks.HalvesOf | lib/merkleize.hpp:235-238 | a vector that is forked, of whatever kind: both halves are non-empty and meet the limit they are given, a power of two, and their leaves are those before and behind that many |
| TaskMemory.StepKeepsApart | lib/merkleize.hpp:239-244 | invariant of a run: tasks that run at the same time own different addresses, which none of the others reads; a step changes only what its task owns and hands on what it allocates |
| TaskMemory.MoversApart | lib/merkleize.hpp:239-242 | two tasks that can move at the same time write to different addresses, and to none that the other reads |
| TaskMemory.ActLocal | lib/merkleize.hpp:239-248 | what a task does next depends on no memory but its own and the roots it hashes |
| TaskOutcome.StepKeepsOutcome | lib/merkleize.hpp:205-352 | no step of any task changes what the whole call will compute |
| TaskCost.StepDoesOneUnit | lib/merkleize.hpp:205-352 | every step brings the call one step closer to its end |
| TaskCost.StepKeepsThreads | lib/merkleize.hpp:225-243 | steps never raise the number of threads a task may use, and no call below a fork has the cpu count 0 that means all hardware threads |
| TaskCost.LiveAreMovers | lib/merkleize.hpp:239-244 | the calls counted as running are exactly the tasks that can move |
| Interleaving.HalvesCommute | lib/merkleize.hpp:239-244 | what a half of a fork does is the same before and after a step of the other half |
| Interleaving.StepsCommute | lib/merkleize.hpp:239-244 | any two steps that are possible at the same time, at any depth of nesting, lead to the same memory and the same tasks in either order |
| Interleaving.SomeTaskCanMove | lib/merkleize.hpp:239-248 | no deadlock |
| Interleaving.AnyInterleaving | lib/merkleize.hpp:205-352 | hashing any nested value, under every schedule and every choice of the allocator: a run ends after the same number of steps and never gets stuck, with the root of the value at its place and all other memory as it was; at no time is other memory changed, can more than max(1, cpus) tasks move, or does one below a fork have the cpu count 0 |
| Interleaving.RunningCallsApart | lib/merkleize.hpp:239-242 | at no time of a run do two calls that can move write to the same address or read what the other writes, and none leaves the allocated memory |
| Binding.RootBinds | lib/merkleize.hpp:149-352 | values of one type with equal roots are equal, or a concrete pair of different inputs with equal hashes is found among those hashed for the two roots |
| Binding.TreeBinding | lib/merkleize.hpp:149-164 | the same for layers of a tree |
| Binding.LengthSeparates | lib/merkleize.hpp:198-202 | lists and bitlists that differ in any number of trailing zeros (false bits, numbers 0, elements whose root is zero) have the same root of chunks and differ in the mixed-in length alone |
| Bits.BitIsDigit | lib/lists.hpp:393-414 | bit i of a byte is its i-th binary digit |
| Bits.BitOfOrBit | lib/lists.hpp:237-268 | OR-ing in 1 << k sets bit k and leaves the others |
| Bits.BitOfClearBit | lib/merkleize.hpp:338-339 | clearing 1 << k clears bit k and leaves the others |
| Bits.BitlistBitAt | lib/lists.hpp:237-243 | bit k of the encoding of a bitlist is bit k of the list, the delimiter comes right behind the last one, and then zeros |
| Bits.BitlistRoundTrip | lib/lists.hpp:393-404 | the loop over full bytes and the leading-zero count of the last byte recover the bits |
| Bits.BitlistBytesRoundTrip | lib/lists.hpp:237-243 | bytes whose last one is not zero are the encoding of the bits read from them |
| Bits.BitvectorBytes | lib/lists.hpp:261-268 | zero-padded bytes are the encoding of the bits read from them |
| Bits.BelowTopAsWritten | lib/lists.hpp:402-403 | the number of bits taken from the last byte is CHAR_BIT - countl_zero - 1, or none |
| Bits.StripLeavesPacking | lib/merkleize.hpp:332-340 | popping or clearing the delimiter leaves the plain packing of the bits, for every length |
| Bits.BitlistNeedsZero | lib/lists.hpp:241-242 | what a bitlist leaves in a buffer is its encoding if and only if the delimiter shares its byte with bits or that byte was 0 or 1 |
| Bits.WriteBitlist | lib/lists.hpp:237-243 | exactly these bytes are written, into a buffer with any contents |
| Bits.BitsetOverAt | lib/lists.hpp:261-268 | what a bitset leaves in a buffer of any contents: the bits that were set before and those of the bitset |
| Bits.BitsetNeedsClear | lib/lists.hpp:261-268 | that is its encoding if and only if every bit that was set before is one of those to be set |
| Bits.OldBitsSpoil | lib/lists.hpp:237-268 | the empty bitlist over a byte 2 and the bitset of one clear bit over a byte 1 do not leave their encoding |
| Bits.WriteBitset | lib/lists.hpp:261-268 | exactly these bytes are written, bit by bit, into a buffer with any contents |
| Bits.ReadBitlist | lib/lists.hpp:393-404 | all bits of the full bytes and those below the delimiter are read |
| Bits.ReadBitset | lib/lists.hpp:407-414 | bit i is set if and only if it is set in the bytes; missing bytes give clear bits and surplus ones are ignored |
| Schema.FixedSizeIsLength | lib/lists.hpp:93-99 | all values of a fixed-size type are written in the size of the type |
| EncodingLayout.MembersFound | lib/container.hpp:78-94 | where every member of a vector, list or container is found in the encoding: the heads in order, each a member or the offset of its tail, then the tails, which tile the rest |
| Writer.SizeIsLength | lib/lists.hpp:93-122 | ssz::size, computed with 32-bit sums in containers, is the length of the encoding for every nested value below 2^32 bytes |
| Writer.TotalLengthAddsUp | lib/container.hpp:65-76 | compute_total_length |
| Writer.TotalLengthWraps | lib/container.hpp:65-76 | for sizes of any magnitude it is the sum of all members' sizes and placeholders modulo 2^32 |
| Writer.Write | lib/lists.hpp:148-268 | writing at a position of a buffer with any contents overwrites it with the encoding, but for the bits that are OR-ed in, and changes no other byte |
| Writer.InkBytes | lib/lists.hpp:148-268 | the bytes that are overwritten and those OR-ed in are together the encoding |
| Writer.WrittenIff | lib/lists.hpp:237-268 | the buffer holds the encoding of a nested value afterwards if and only if every bit set before under an OR is a bit of the encoding |
| Writer.NoBitsNoOr | lib/lists.hpp:164-188 | values without bitvectors and bitlists are written by overwriting alone |
| Writer.WriteContainer | lib/container.hpp:78-94 | two cursors, one for members and offsets and one for members of variable size, produce the heads and tails of the encoding, whatever the buffer held |
| Writer.WriteVariableList | lib/lists.hpp:164-176 | offset table and elements of a list of variable-size elements |
| Writer.WriteFixedList | lib/lists.hpp:177-188 | elements of fixed size, one behind the other |
| Writer.RestVariable | lib/container.hpp:86-91 | a step of both cursors: once the offset and the member are written, what is still to be written gives the same buffer as before |
| Writer.SerializeToVector | lib/container.hpp:98-102 | a zeroed vector of ssz::size bytes is filled with exactly the encoding |
| Reader.Deserialize | lib/basic_types.hpp:45-67 | for all bytes the value or error of Read, with the exceptions of the source |
| Reader.DeserializeChunked | lib/lists.hpp:322-348 | elements from consecutive chunks |
| Reader.DeserializeList | lib/lists.hpp:358-376 | the first offset gives the number of elements, consecutive offsets their slices |
| Reader.DeserializeHeads | lib/container.hpp:118-133 | first pass over a container: members of fixed size, and the offsets of the others in order |
| Reader.DeserializeTails | lib/container.hpp:135-152 | second pass: the members of variable size from the slices between consecutive offsets |
| Reader.OneOffsetEach | lib/container.hpp:120-132 | the first pass finds one offset for each member it leaves open |
| ReaderMeaning.BasicRead | lib/basic_types.hpp:45-67 | numbers and bools from any bytes: when too few bytes or a byte other than 0 and 1 throw, and that otherwise the first bytes are the encoding of what is read |
| ReaderMeaning.BitvectorRead | lib/lists.hpp:407-414 | bitvectors are read from any bytes, bit by bit |
| ReaderMeaning.BitlistRead | lib/lists.hpp:393-421 | exactly when bitlists are read or throw, and which bits are read |
| ReaderMeaning.NumberVectorRead | lib/lists.hpp:301-314 | vectors of numbers from any bytes: too few throw, surplus ones are ignored, each element from its own chunk |
| ReaderMeaning.CompositeVectorRead | lib/lists.hpp:322-348 | vectors of composite elements from any bytes: exactly when they are read, each element from its own chunk |
| ReaderMeaning.FixedListRead | lib/lists.hpp:289-332 | lists of elements of fixed size from any bytes: surplus bytes throw, otherwise each element is read from its own chunk |
| ReaderMeaning.VariableListRead | lib/lists.hpp:357-376 | lists of elements of variable size from any bytes: exactly which offset tables are read, and each element from its own offset up to the next |
| ReaderMeaning.ContainerRead | lib/container.hpp:118-160 | containers from any bytes: exactly when they are read, members of fixed size at the position of their heads and the others from their offset up to the next |
| RoundTrips.RoundTrip | lib/container.hpp:78-160 | reading what was written gives the same value at every depth of nesting, or out_of_range if a bitlist is beyond the guard; never anything else |
| RoundTrips.ComesBack | lib/lists.hpp:417-421 | the value comes back if and only if every bitlist in it has fewer than 8 * (N / 8) bits |
| RoundTrips.SerializeInjective | lib/container.hpp:78-94 | different values of a type have different encodings |
| RoundTrips.FullCommitteeIsLost | lib/attestation.hpp:48-56 | an attestation with all 2048 aggregation bits present takes 485 bytes and cannot be read back |
| RoundTrips.FullCommitteeIsTyped | lib/attestation.hpp:48-56 | there is such an attestation |
| RoundTrips.LimitIsIgnored | lib/lists.hpp:316-382 | lists other than bitlists, at any depth inside a type, read the same under any limit |
| CanonicalBytes.WrittenIsCanonical | lib/container.hpp:78-94 | what is written has exact lengths, zero padding, a delimiter, a first offset at the end of the heads, and offsets in order and in range whose slices tile the rest |
| CanonicalBytes.CanonicalIsWritten | lib/container.hpp:118-152 | every such string is the encoding of a value, which the lemma constructs |
| CanonicalBytes.CanonicalIffWritten | lib/container.hpp:78-152 | the canonical strings are exactly the encodings, of one value each |
| CanonicalBytes.ReadThenWrite | lib/lists.hpp:357-421 | a canonical string is given back by reading and writing if all bitlists found in its bytes are below the guard, and the reader throws out_of_range otherwise |
| ReaderSafety.ReadHasShape | lib/container.hpp:118-160 | for bytes of any origin: a value that is read has the shape of its type |
| CanonicalBytes.WrittenBackIff | lib/container.hpp:118-152 | bytes that read, with counts within the limits of all lists, are written back as they were if and only if they are canonical |
| CanonicalBytes.PaddingIsAccepted | lib/lists.hpp:407-414 | a bitvector with a bit set in its padding is read and not written back |
| CanonicalBytes.TrailingBytesAreAccepted | lib/container.hpp:118-133 | a container with bytes behind its last member is read and not written back |
| ReaderSafety.ReadIsTyped | lib/lists.hpp:316-382 | a value read from any bytes is a value of its type if and only if the counts in the bytes (length divided by element size, or first offset divided by 4, in every slice) keep the limits of all lists |
| ReaderSafety.GuardThrowsIff | lib/lists.hpp:417-421 | bytes of any origin that read without the guard read the same with it if and only if every bitlist found in them takes at most limit / 8 bytes, and throw out_of_range otherwise |
| ReaderSafety.TooManyAreRead | lib/lists.hpp:316-319 | a list of limit 0 reads an element |

## Left out

- AnyInterleaving: a step writes its 32 bytes at once, a vector hashed on the sequential path is one step and its tree is not part of the shared memory; how std::async maps tasks to threads is not modelled.
- HashTreeRoot: an array and a vector of roots are told apart from other vectors by their elements being 32-byte vectors, so byte arrays of other element types of one byte take the same path.
- Write: encodings of 2^32 bytes or more, whose offsets the source truncates, are outside its contract, and likewise outside those of RoundTrip and CanonicalIffWritten.
- Deserialize: where the source would read or write outside its range, or would leave members as they were, the result is the error Unspecified instead of an account of the memory.
- Buffers of hashes are arrays of 32-byte units rather than of bytes; the inputs of Merkleization, and all of serialization, are bytes.
- The hash library, which is the parameter h; SHA-256 itself.
- Limits below the number of chunks and limits whose tree is deeper than 42 levels, or than 41 for no chunks, for which the source runs out of its table of zero hashes.
- List types with a limit of exactly 42 levels, whose lists the source can hash as long as none of them is empty; for vectors, SparseTree and VectorRoot cover that depth.
- Wrap-around of 64-bit sizes and limits.
- Zero-size types, vectors of variable-size elements, arrays of bool and std::vector<bool> on its own.
- That a container derives from the base class that fits its members, as line 77 of the README of SSZ++ asks, is assumed: whether a type has variable size is computed from its members.
- Big-endian machines, iterator and overload mechanics, C-style arrays as targets of deserialization.
- YAML decoding, hex strings and the structs of the beacon chain other than attestation_t.
