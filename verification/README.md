# Core code of R1EMU and its bundled headers, modelled and proved in Dafny

R1EMU ships the headers of its libraries (Redis, Jansson, the MySQL client). Some of
them hold real code: inline functions and macros with loops, in-place updates and
fixed-width arithmetic. This project models that code, and from the emulator's own
sources the packet cipher and the inventory, and proves what they are for.

| file | what it models |
|---|---|
| `LittleEndian.dfy` | the reference meaning of low-byte-first strings: value of bytes, bytes of a value |
| `Bits.dfy` | bitwise operators on numbers of any width, and masks as division and remainder |
| `ByteOrder.dfy` | the `korr` readers and `store` writers, and records of several fields |
| `HostOrder.dfy` | stores and loads that depend on the host's memory order |
| `TrailingSpace.dfy` | the two optimised scanners for trailing spaces |
| `Rio.dfy` | the chunked, checksummed stream: the two loops, and what each call adds up to |
| `RioRuns.dfy` | runs of many calls: round trip, state after failures, resuming |
| `Align.dfy` | `MY_ALIGN` |
| `Timespec.dfy` | deadlines, their comparison and difference, on POSIX and Windows |
| `RefCount.dfy` | reference counts with an immortal mark, and the borrowing setters |
| `IoCache.dfy` | the buffered cache: its macros, and runs that mix them with the slow paths |
| `CronGate.dfy` | `run_with_period` |
| `Blowfish.dfy` | the unrolled cipher and its inverse, for any key schedule |
| `BlockModes.dfy` | blocks and bytes, cipher block chaining, runs of calls that carry `ivec` |
| `CbcBuffers.dfy` | `BF_cbc_encrypt` on buffers, in place if wanted, and its macros |
| `CryptPacket.dfy` | `BF_ecb_encrypt` and the decryption of received packets |
| `Inventory.dfy` | a commander's items: table of handles, bags, equipment slots, and what each call keeps |
| `InventoryRuns.dfy` | runs of calls, and the inventory without handles that they amount to |
| `InventoryStream.dfy` | the inventory written to a stream and read back |
| `Wrappers.dfy` | the optional value |

How the model is set up:

- Integer widths are explicit: casts are remainders, shifts are products and quotients,
  signed results are two's complement. `size_t`, `ulonglong` and pointers have 64 bits.
- Where the source updates memory the model does too: the stream, the timespec, the JSON
  value, the cache and the byte buffers are classes or arrays, and each method is proved
  against a function of the old state. Theorems about runs are lemmas about that function.
- The checksum is any function of the current checksum and the next byte, or absent. That is
  as general as any block function that meets the header's requirement that a block can be
  added to the checksum so far.
- A backend's replies are an arbitrary function of the call number, so every pattern of
  refusals is covered. A refused call may still have moved any prefix of its block, because
  the header promises only "zero on error". `RioRuns.AllOrNothing` is the special case.
- `processed_bytes` is a `size_t`; the ghost field `counted` holds all bytes ever moved and
  the class invariant says the former is the latter modulo 2^64. Statements are about
  `counted` and so imply the same for `processed_bytes`.
- The slow paths of the buffered cache are external steps: a run carries what each of them
  hands out and leaves behind, bound by a contract (`IoCache.SlowRead`, `IoCache.SlowWrite`).
- The cipher's words and bytes are numbers with explicit widths; its network is proved for any
  mixing that undoes itself, its modes for any block cipher and its inverse. `BF_ROUNDS` may be 16 or 20.
- The inventory's handles are addresses: one state holds the table, the bags, the cells the
  handles point to, the slots, and which items were destroyed. A fresh handle is a parameter.
- The clock, the tick counter, the host's memory order, the address of a string, and the
  decisions of functions whose bodies are not in the repository are parameters.

Some properties one might expect do not hold in general; each is given with the exact
condition under which it does:

- The checksum of a stream covers exactly what was written, whatever the checksum, if and only
  if no write failed (`RioRuns.ChecksumCoversIff`; for one write, if and only if the backend
  accepts each chunk, `RioRuns.ChecksumCoversWriteIff`). A write that failed and was resumed
  ends with the right count always, with the right log if and only if nothing of the refused
  chunk got through (`RioRuns.ResumedWrite`), and with the right checksum, whatever the checksum,
  if and only if it had not failed after all (`RioRuns.ResumedChecksumIff`; a concrete instance is
  `RioRuns.ResumedWriteMisleads`). Reads, which feed the checksum after the backend call, can be
  resumed (`RioRuns.ResumedRead`). The bounds by 2^64 in these lemmas keep a counting checksum
  from coming round.
- `MY_ALIGN(A, L)` is the least multiple of `L` not below `A` if and only if `A + L` fits the type
  of `L`, because the mask is as wide as `L` (`Align.AlignExact`); beyond that it is that multiple
  modulo the range of the type (`Align.AlignModulo`). When `A` is no wider than `L` the result
  then is 0, so the order of two operands is kept if and only if the smaller is 0 or has no room
  either, or the larger has room (`Align.AlignMonotoneIff`). A signed `L` is sign-extended; for
  it take `L` as wide as `A`.
- The comparison of stamps is the sign of their gap if and only if the nanosecond fields do not
  outweigh the seconds (`Timespec.CmpExact`). A Windows deadline is the POSIX one less the
  nanoseconds of its last tick if and only if the tick count stays below 2^63
  (`Timespec.WindowsBelowPosix`).
- `float8store` is not portable from or to bi-endian hardware, and `doublestore` not from or to
  a big-endian host (`HostOrder.Float8Portability`, `HostOrder.DoublePortability`).
- If the tick counter wraps as a 32-bit two's-complement number, a job keeps its rhythm only
  if its period in ticks divides 2^32 (`CronGate.WrapRegularIff`). C leaves that overflow
  undefined; wrapping is the usual behaviour.
- A call keeps the inventory's table and bags consistent, with no handle dangling, if and only if the
  item that a removal or an equip is going to destroy has the category of the item it is called for
  (`InventoryRuns.StepKeepsSoundIff`). Over any run of such calls the inventory behaves like a plain
  table (`InventoryRuns.RunMirrors`).
- A call keeps each item of the inventory in exactly one bag or slot if and only if, for an item
  taken in, it is refused or not in the inventory yet; for one removed, its key, when present,
  leads to an item of its category; for one equipped, it is found by its own key
  (`InventoryRuns.StepKeepsOnePlaceIff`). Swapping and unequipping always do.
- A swap of two different ids exchanges what the handles point to and not the keys, so keys no
  longer lead to the items of their id (`Inventory.SwapKeepsKeyedIff`). After any run that keeps table
  and bags consistent, calls of all kinds mixed, equips under swapped keys among them, keys that
  were true before are true if and only if each leads back to itself through the swaps
  (`InventoryRuns.RunKeepsKeyedIff`).
- Where no two bag items share an id, a swap exchanges the places of the two ids it is given if and only if their keys lead to the
  items with those ids, in either order (`Inventory.SwapsPlacesIff`). After one swap of the first
  two of three items, a swap of the second and third moves the first (`InventoryRuns.SwapThenSwap`).
- `inventoryEquipItem`, when it succeeds, destroys what the item's own key finds. If the item was
  found by its own key it is destroyed itself, and the slot is left with it; if not, it lives, but
  stays in its bag as well, and another item is destroyed if its own key leads to one
  (`Inventory.EquipOutcome`, `Inventory.EquippedItemGone`). Two adds and one swap reach the second case
  (`InventoryRuns.SwapThenEquip`). Deleting by id likewise destroys the item that was found if and
  only if it was found by its own key (`Inventory.DeleteDestroysIff`).
- The bags hold no destroyed item after a call if and only if no other key leads to the item it
  destroys (`InventoryRuns.StepKeepsBagsAliveIff`), which is so while each item is in one place. A
  swap, an equip, an unequip and a removal reach a bag that shows a destroyed item
  (`InventoryRuns.DestroyedButShown`).
- An index shown to the client is ambiguous if and only if a bag of more than 5000 items reaches the
  span of a later one that is not empty (`Inventory.IndexesSharedIff`).
- Written to a stream and read back, bags come back if and only if the table has as many ids as the
  bags show items (`InventoryStream.BagsComeBackIff`), which is so in every sound inventory
  (`InventoryStream.SoundBagsComeBack`). The table of ids does not come back: no lookup finds
  anything afterwards, so lookups survive if and only if there was nothing to find
  (`InventoryStream.LookupSurvivesIff`), and a second trip loses every item in the bags
  (`InventoryStream.SecondTripEmptiesBags`).

Where a comment and the code differ, the code is followed: the comment of
`skip_trailing_space` promises the last non-space character, the code returns the position
after it.

Run `dafny verify dfyconfig.toml` to check the project.

## Model

| member | source | states |
|---|---|---|
| LittleEndian.ValueOfDigits | include/mysql/my_byteorder.h:20-24 | reading back the k bytes of v gives v modulo 256^k, for every k and v |
| LittleEndian.DigitsOfValue | include/mysql/my_byteorder.h:20-24 | writing the value of a byte string gives that string back |
| ByteOrder.Uint2korr | include/mysql/byte_order_generic.h:38-44 | the two bytes' value, low byte first |
| ByteOrder.Sint2korr | include/mysql/byte_order_generic.h:20-26 | the two's-complement reading of that value |
| ByteOrder.Uint3korr | include/mysql/my_byteorder.h:45-52 | the three bytes' value, low byte first |
| ByteOrder.Uint4korr | include/mysql/byte_order_generic.h:46-54 | the four bytes' value, low byte first |
| ByteOrder.Sint4korr | include/mysql/byte_order_generic.h:28-36 | the two's-complement reading of that value |
| ByteOrder.Uint5korr | include/mysql/my_byteorder.h:54-63 | the five bytes' value: nothing is lost in the 32-bit partial sum |
| ByteOrder.Uint6korr | include/mysql/my_byteorder.h:65-75 | the six bytes' value: nothing is lost in the 32-bit partial sum |
| ByteOrder.Uint8korr | include/mysql/byte_order_generic.h:56-69 | the eight bytes' value, from two 32-bit halves |
| ByteOrder.Sint8korr | include/mysql/byte_order_generic.h:71-74 | the two's-complement reading of that value |
| ByteOrder.Sint3IsTwosComplement | include/mysql/my_byteorder.h:31-43 | the branch on bit 7 and the or-ed masks compute the two's-complement reading of three bytes |
| ByteOrder.Sint3RoundTrip | include/mysql/my_byteorder.h:31-82 | a 32-bit signed value stored in three bytes reads back unchanged if and only if it lies in INT_MIN24..INT_MAX24 |
| ByteOrder.Int2store | include/mysql/byte_order_generic.h:76-81 | exactly two bytes of the buffer change, to the digits of the value |
| ByteOrder.Int3store | include/mysql/my_byteorder.h:77-82 | exactly three bytes change, to the low digits of the value |
| ByteOrder.Int4store | include/mysql/byte_order_generic.h:83-89 | exactly four bytes change, to the digits of the value |
| ByteOrder.Int5store | include/mysql/my_byteorder.h:84-91 | exactly five bytes change, to the low digits of the value |
| ByteOrder.Int6store | include/mysql/my_byteorder.h:93-101 | exactly six bytes change, to the low digits of the value |
| ByteOrder.Int8store | include/mysql/byte_order_generic.h:91-97 | two four-byte stores of the halves write the eight digits of the value |
| ByteOrder.UnsignedRoundTrip | include/mysql/byte_order_generic.h:38-97 | reader after writer of the same width (2, 3, 4, 5, 6, 8) gives v modulo 2^(8k), for every v and buffer |
| ByteOrder.SignedRoundTrip | include/mysql/byte_order_generic.h:20-36 | signed readers of 2, 4 and 8 bytes give back every value of their range |
| ByteOrder.StoreAfterRead | include/mysql/my_byteorder.h:20-24 | storing what was just read changes nothing |
| ByteOrder.FieldsReadBack | include/mysql/my_byteorder.h:77-101 | after storing any number of non-overlapping fields, each reads back its own value |
| ByteOrder.StoreOrderIrrelevant | include/mysql/my_byteorder.h:77-101 | two orders of the same non-overlapping stores leave the same buffer |
| HostOrder.BigFloat4store | include/mysql/big_endian.h:21-25 | on a big-endian host the four bytes stored are those of the bit pattern, low byte first |
| HostOrder.BigFloat4get | include/mysql/big_endian.h:27-33 | on a big-endian host the pattern loaded is the value of the four bytes |
| HostOrder.BigFloat8store | include/mysql/big_endian.h:35-43 | the eight bytes stored are those of the bit pattern, low byte first |
| HostOrder.BigFloat8get | include/mysql/big_endian.h:45-55 | the pattern loaded is the value of the eight bytes |
| HostOrder.BigDoublestore | include/mysql/big_endian.h:102-105 | the eight bytes stored are those of the pattern, high byte first |
| HostOrder.BigShortstore | include/mysql/big_endian.h:77-80 | the two bytes of a signed value, high byte first |
| HostOrder.BigLongstore | include/mysql/big_endian.h:81-85 | the four bytes of a signed value, high byte first |
| HostOrder.BigMachineRoundTrip | include/mysql/big_endian.h:60-85 | shortget and longget give back every value shortstore and longstore wrote |
| HostOrder.LittleFloat4store | include/mysql/little_endian.h:27-30 | on either kind of little-endian host the stored bytes are those of the pattern, low byte first |
| HostOrder.LittleFloat4get | include/mysql/little_endian.h:22-25 | the pattern loaded is the value of the four bytes |
| HostOrder.LittleDoublestore | include/mysql/little_endian.h:45-73 | the stored bytes are those of the pattern, low byte first, also when the host keeps the words swapped |
| HostOrder.LittleDoubleget | include/mysql/little_endian.h:56-71 | the pattern loaded is the value of the eight bytes, also when the host keeps the words swapped |
| HostOrder.Float4Portability | include/mysql/little_endian.h:22-30 | a float stored on any host is read back on any host, and all of them store the same bytes |
| HostOrder.Float8Portability | include/mysql/little_endian.h:32-40 | a double stored by float8store on one host is read back by float8get on another if and only if both or neither are bi-endian, or the two words of the pattern are equal |
| HostOrder.DoublePortability | include/mysql/little_endian.h:45-73 | the same for doublestore and doubleget: both or neither big-endian, or a pattern whose bytes read alike both ways |
| TrailingSpace.Trimmed | include/mysql/m_string.h:308-310 | where the plain backward scan stops: what follows is all spaces, what precedes does not end in one |
| TrailingSpace.TrimmedUnique | include/mysql/m_string.h:247-279 | those facts single the position out |
| TrailingSpace.HostSpaceWordIff | include/mysql/m_string.h:283-290 | a word of 4 or 8 bytes loaded on any host equals SPACE_INT if and only if each byte is a space |
| TrailingSpace.SkipAligned | include/mysql/m_string.h:281-311 | the aligned scanner stops where the plain scan does, for every string, address and word size; loads are aligned and inside the string, the source's assertion holds, and at most 2(W-1) bytes are skipped singly |
| TrailingSpace.SkipUnaligned | include/mysql/m_string.h:318-330 | the unaligned scanner stops where the plain scan does, and its byte loop turns at most 7 times |
| Rio.FeedByte | include/hiredis/rio.h:51-56 | nothing fed leaves the checksum, and each byte is one step of the update function with that byte; without one the checksum stays |
| Rio.StringsToldApart | include/hiredis/rio.h:51-56 | every byte counts: any two different strings of less than 2^64 - 2 bytes have different checksums under some update function |
| Rio.FeedConcat | include/hiredis/rio.h:51-56 | feeding the checksum two blocks is feeding it the two joined |
| Rio.ChunkBounded | include/hiredis/rio.h:98-111 | no block offered exceeds a chunk size that is set, each but the last is exactly that long, and with none set the request is one block |
| Rio.ChunksAreFew | include/hiredis/rio.h:98-111 | the number of blocks is the length over the chunk size, rounded up |
| Rio.CompletedIff | include/hiredis/rio.h:97-121 | a request completes if and only if the backend accepts each chunk; chunk i starts at i times the chunk size |
| Rio.RefusedChunk | include/hiredis/rio.h:98-102 | a request that stops short stopped at one refused chunk of the prescribed size; one that completes left nothing refused |
| Rio.WriteLoopOutcome | include/hiredis/rio.h:97-108 | the chunk loop of rioWrite amounts to one transfer: log and count get the accepted bytes, the checksum also the refused chunk |
| Rio.ReadLoopOutcome | include/hiredis/rio.h:110-121 | the chunk loop of rioRead amounts to one transfer: data, checksum and count all cover exactly the accepted chunks |
| Rio.Stream.Write | include/hiredis/rio.h:97-108 | rioWrite, as a method on the stream object, has that outcome and answer |
| Rio.Stream.Read | include/hiredis/rio.h:110-121 | rioRead has that outcome and answer, fills the buffer with the delivered bytes and touches nothing beyond the request |
| RioRuns.ReadsKeepChecksum | include/hiredis/rio.h:110-121 | over any mix of completed and refused reads the checksum is that of exactly the bytes delivered, and the count is their number |
| RioRuns.CompletedReads | include/hiredis/rio.h:110-121 | completed reads deliver the next bytes of the source in order |
| RioRuns.WritesFeedWhatTheyOffer | include/hiredis/rio.h:98-106 | over any mix of writes the checksum covers all bytes offered, the count those accepted; the two agree if and only if no write failed |
| RioRuns.CompletedWrites | include/hiredis/rio.h:97-108 | completed writes are one transfer of all the data in order |
| RioRuns.WriteReadRoundTrip | include/hiredis/rio.h:97-121 | what completed writes wrote, completed reads in any other partition and chunk sizes read back; the checksum ends equal on both sides, and both counts advance by the same amount |
| RioRuns.ChunkSizeInvisible | include/hiredis/rio.h:64-65 | the chunk sizes, and how the data is split into calls, do not show in checksum or log, nor in how far the count advances |
| RioRuns.FailedWriteState | include/hiredis/rio.h:98-106 | after completed writes and one failure the checksum is ahead of the count by exactly the refused chunk |
| RioRuns.LogIsWhatWasCounted | include/hiredis/rio.h:101-105 | with an all-or-nothing backend any mix of writes leaves in the log exactly the counted bytes |
| RioRuns.DeliveryIsContiguous | include/hiredis/rio.h:113-118 | with an all-or-nothing backend any mix of reads delivers one contiguous stretch of the source |
| RioRuns.ChecksumCoversIff | include/hiredis/rio.h:51-56 | over any run of writes the checksum covers exactly what was written, whatever the checksum, if and only if no write failed |
| RioRuns.ChecksumCoversWriteIff | include/hiredis/rio.h:98-106 | for one write: if and only if the backend accepts each of its chunks |
| RioRuns.ResumedWrite | include/hiredis/rio.h:98-106 | a failed write that was resumed: the count is right, the checksum has the refused chunk twice, and the log is right if and only if nothing of that chunk got through |
| RioRuns.ResumedChecksumIff | include/hiredis/rio.h:98-106 | after a write and, if it failed, one resumption, the checksum is that of the data, whatever the checksum, if and only if the write had not failed |
| RioRuns.ResumedWriteMisleads | include/hiredis/rio.h:100-102 | a concrete resumed write whose checksum differs from that of its own log |
| RioRuns.ResumedRead | include/hiredis/rio.h:111-119 | resuming a failed read that lost nothing ends as if it had never failed |
| RioRuns.ReadCompletesIff | include/hiredis/rio.h:44-46 | with a willing backend a read completes if and only if enough bytes are left, whatever the chunk size |
| Bits.AndHighMask | include/mysql/my_global.h:424 | masking with ones from bit k to w-1 keeps the value modulo 2^w and clears the k low bits |
| Bits.OrDisjoint | include/mysql/my_byteorder.h:34-41 | or-ing a shifted number with one below the shift is addition |
| Align.AlignExact | include/mysql/my_global.h:424 | for L a power of two the result is the least multiple of L not below A if and only if A + L fits the type of L |
| Align.AlignStays | include/mysql/my_global.h:424 | the result is always a multiple of L that leaves room for one more L in that type |
| Align.AlignModulo | include/mysql/my_global.h:424 | for every A, with room or without, it is the least multiple of L not below A modulo the range of the type of L |
| Align.AlignIdempotent | include/mysql/my_global.h:424 | aligning twice is aligning once, for every A and operands of two widths |
| Align.AlignMonotone | include/mysql/my_global.h:424 | for operands of any two widths, aligning keeps order while the larger operand plus L fits the type of L |
| Align.AlignMonotoneIff | include/mysql/my_global.h:424 | when A is no wider than L, order is kept if and only if the smaller operand is 0 or has no room, or the larger has room |
| Align.AlignFallsToZero | include/mysql/my_global.h:424 | when A is no wider than L, the result is 0 if and only if A is 0 or A + L does not fit |
| Align.AlignCoarser | include/mysql/my_global.h:424 | aligning to a power of two and then to a larger one is aligning to the larger one, for every A |
| Timespec.Timespec.SetNsec | include/mysql/my_global.h:672-678 | the stamp of 100 times the wrapped tick count plus the rest of the delay, with nanoseconds in 0..999999999 |
| Timespec.Timespec.SetSec | include/mysql/my_global.h:686-689 | the same for a delay in seconds, whose nanoseconds wrap in 64 bits |
| Timespec.NsecExact | include/mysql/my_global.h:672-678 | the deadline is clock plus delay to the nanosecond if and only if the tick count does not wrap |
| Timespec.SecExact | include/mysql/my_global.h:686-689 | for seconds: if and only if neither the nanoseconds nor the tick count wraps |
| Timespec.CmpExact | include/mysql/my_global.h:698-714 | for any stamps the comparison is the sign of the gap if and only if the nanosecond fields do not outweigh the seconds |
| Timespec.CmpIsSign | include/mysql/my_global.h:698-714 | so it is on normalised stamps |
| Timespec.CmpTotalOrder | include/mysql/my_global.h:691-714 | on normalised stamps it is a total order |
| Timespec.DiffIsGap | include/mysql/my_global.h:716-720 | the wrapping steps compute the gap in nanoseconds modulo 2^64, for any stamps |
| Timespec.DiffChain | include/mysql/my_global.h:716-720 | differences along a chain add up modulo 2^64 |
| Timespec.DiffExact | include/mysql/my_global.h:716-720 | the difference is the gap if and only if the gap lies in 0..2^64-1 |
| Timespec.DiffAfterCmp | include/mysql/my_global.h:698-720 | when the gap is below 2^64, the difference is exact if and only if the comparison is not negative |
| Timespec.MaxTimeoutExact | include/mysql/my_global.h:682 | the millisecond cap survives its 32-bit cast if and only if the delay is below 2^31 ms; otherwise it is what agrees with it modulo 2^32 |
| Timespec.WindowsBelowPosix | include/mysql/my_global.h:672-683 | from one clock reading the Windows deadline is lower by exactly nsec modulo 100 if and only if the tick count, in 64 bits, is below 2^63; beyond, it is lower by 2^64 ticks more |
| Timespec.PlatformsDisagree | include/mysql/my_global.h:698-714 | the platforms order two deadlines differently if and only if just one of the Windows counts is negative, or the deadlines differ within one tick |
| Timespec.PlatformDifferences | include/mysql/my_global.h:716-724 | the two differences agree up to the nanoseconds within a tick, whatever wraps |
| RefCount.CountsWrap | include/jansson/jansson.h:97-113 | off the mark counting adds and takes one in 64 bits, and deletion is due exactly at a count of one; the mark stays |
| RefCount.Json.Incref | include/jansson/jansson.h:97-103 | null and immortal values are left alone, any other count grows by one |
| RefCount.Json.Decref | include/jansson/jansson.h:108-113 | null and immortal values are left alone; deletion happens exactly when the count drops to zero |
| RefCount.Slot.Set | include/jansson/jansson.h:160-203 | effect of the six borrowing setters on slot, value and displaced value, also when value and displaced value are one object; the borrowed value is never deleted |
| RefCount.RunKeepsSound | include/jansson/jansson.h:97-113 | in every run the count is the number of owners unless it is the mark |
| RefCount.NeverDeletedWhileOwned | include/jansson/jansson.h:97-113 | in every run an object with an owner has not been deleted, and none is deleted twice |
| RefCount.SaturatesIff | include/jansson/jansson.h:100-101 | the count becomes the mark for good if and only if that many owners existed at one time |
| RefCount.DeletedIff | include/jansson/jansson.h:108-113 | at any point an object has been deleted if and only if its last owner is gone and the count never saturated |
| RefCount.HeldAfter | include/jansson/jansson.h:160-203 | who holds how many references after each operation, the value displaced by a setter included |
| RefCount.KnownAfter | include/jansson/jansson.h:97-113 | only a constructor makes an object known, and off the mark an object is dead if and only if nobody holds it |
| RefCount.ApplyKeepsBalanced | include/jansson/jansson.h:160-203 | constructors, references, releases and borrowing setters keep: count equals holders for every object without the mark, dead if and only if none |
| RefCount.HoldersAreSafe | include/jansson/jansson.h:160-203 | so over any run no held object is deleted, and counts are exact |
| RefCount.SetterBorrows | include/jansson/jansson.h:160-203 | a rejected setter, or one replacing a value by itself, changes no ownership; one that stores adds one holder |
| IoCache.Cache.Read | include/mysql/my_sys.h:458-462 | fast if and only if the window holds the bytes; then exactly they are copied and the cursor moves |
| IoCache.Cache.Get | include/mysql/my_sys.h:470-473 | fast if and only if a byte is left; then it is returned and the cursor moves by one |
| IoCache.Cache.Write | include/mysql/my_sys.h:464-468 | fast if and only if the bytes fit; then exactly they are laid down at the cursor |
| IoCache.HoldsIff | include/mysql/my_sys.h:458-489 | a request is in the window if and only if it asks for no more than my_b_bytes_in_cache |
| IoCache.FastStep | include/mysql/my_sys.h:458-473 | in runs too, a fast read copies count bytes and a fast get hands out one |
| IoCache.StepReadsFile | include/mysql/my_sys.h:458-473 | a fast read or get hands out the bytes of the file at the position told, as the slow path is assumed to |
| IoCache.FetchesAreFile | include/mysql/my_sys.h:458-476 | over any run of reads and gets, fast and slow mixed, the bytes handed out are one contiguous stretch of the file and my_b_tell advances by their number |
| IoCache.PartitionsAgree | include/mysql/my_sys.h:458-473 | two complete runs from one position that want equally many bytes get the same, however they are cut into calls and wherever their windows lie |
| IoCache.AllFastIff | include/mysql/my_sys.h:458-473 | all calls of a run are fast if and only if one call for all their bytes is |
| IoCache.FastRun | include/mysql/my_sys.h:458-489 | a run the window holds is one copy of the buffer, and my_b_tell plus my_b_bytes_in_cache stays constant |
| IoCache.StepAppends | include/mysql/my_sys.h:464-468 | a fast write appends to what file and buffer hold together, as the slow path is assumed to |
| IoCache.WritesAppend | include/mysql/my_sys.h:464-476 | over any run of writes, fast and slow mixed, file and buffer together grow by exactly the data in order, and my_b_tell advances by its length |
| IoCache.WritesFitIff | include/mysql/my_sys.h:464-468 | all writes of a run are fast if and only if their data fits together, and then they are one write of it |
| IoCache.WrittenThenFetched | include/mysql/my_sys.h:458-476 | what any run of writes wrote, any complete run of reads of that length gets back from a read cache at the same position, once the file holds it |
| CronGate.TickRoundsDown | include/hiredis/redis.h:407 | a tick is the largest number of whole milliseconds of which hz fit in a second |
| CronGate.OncePerPeriod | include/hiredis/redis.h:404-407 | any stretch of one period of ticks runs the job exactly once; with hz in its bounds nothing is divided by zero |
| CronGate.OncePerEachPeriod | include/hiredis/redis.h:404-407 | n periods run it n times |
| CronGate.NominalInterval | include/hiredis/redis.h:404-407 | the nominal interval lies in (ms - tick, ms] |
| CronGate.EveryTick | include/hiredis/redis.h:407 | a period of at most a tick runs at every tick |
| CronGate.WrapRegularIff | include/hiredis/redis.h:407 | with a wrapping 32-bit counter the rhythm holds for ever if and only if the period in ticks divides 2^32 |
| Bits.BitOfAnd | include/mysql/my_byteorder.h:34-41 | and-ing, bit for bit, at any width |
| Bits.BitOfOr | include/mysql/my_byteorder.h:34-41 | or-ing, bit for bit |
| Bits.BitOfXor | src/common/crypto/bf/bf_locl.h:212-217 | xor-ing, bit for bit |
| Bits.XorCancel | src/common/crypto/bf/bf_locl.h:212-217 | applying a mask twice undoes it, at any width |
| Blowfish.TurnsBack | src/common/crypto/bf/bf_enc.c:163-215 | with the halves exchanged, i rounds under the subkeys in reverse order take back the last i of any number of rounds, for any mixing that undoes itself |
| Blowfish.BfEncUndoes | src/common/crypto/bf/bf_locl.h:212-217 | BF_ENC undoes itself, whatever the tables hold |
| Blowfish.RoundByBytes | src/common/crypto/bf/bf_locl.h:212-217 | BF_ENC in the bytes of its word, high byte first: the entries they select in the four tables, added, xor-ed and added again in 32 bits, over the half mixed with the subkey |
| Blowfish.BfEncMacro | src/common/crypto/bf/bf_locl.h:212-217 | the macro's shifts and masks, step by step, compute that |
| Blowfish.OtherEntriesIrrelevant | src/common/crypto/bf/bf_locl.h:212-217 | no other entry of the tables matters |
| Blowfish.OneEntry | src/common/crypto/bf/bf_locl.h:212-217 | each of the four counts: if the other three are zero it is what the round mixes in |
| Blowfish.NetworkByHalves | src/common/crypto/bf/bf_enc.c:73-146 | the cipher is one row of halves, two from the block and each further one the half two back mixed with the one before, and the last two, the first of them under the last subkey, come out |
| Blowfish.ZeroTables | src/common/crypto/bf/bf_enc.c:73-146 | under tables that are zero each half comes out, crossed, under every other subkey |
| Blowfish.CryptInverse | src/common/crypto/bf/bf_enc.c:73-223 | decryption undoes encryption and encryption undoes decryption, for every key schedule and block |
| Blowfish.Encrypt | src/common/crypto/bf/bf_enc.c:73-146 | the 16 or 20 unrolled rounds, with the halves taking turns, are the network under the subkeys in order |
| Blowfish.Decrypt | src/common/crypto/bf/bf_enc.c:150-223 | the unrolled rounds of decryption are the network under the subkeys in reverse order |
| CbcBuffers.N2l | src/common/crypto/bf/bf_locl.h:140-143 | the shifted and or-ed bytes are the word whose bytes are given high byte first |
| BlockModes.WordBytesDigits | src/common/crypto/bf/bf_locl.h:146-149 | the bytes laid down for a word are its digits, high byte first |
| CbcBuffers.L2n | src/common/crypto/bf/bf_locl.h:146-149 | exactly those four bytes of the buffer change |
| BlockModes.BytesOfBlocks | src/common/crypto/bf/bf_locl.h:109-149 | bytes cut into blocks, the last one padded, and written out again come back followed by the padding |
| BlockModes.BlocksOfBytes | src/common/crypto/bf/bf_locl.h:140-149 | blocks written out as bytes are read back, whatever follows them |
| BlockModes.CbcRoundTrip | src/common/crypto/bf/bf_cbc.c:62-135 | data of any length, a partial last block included, comes back from its ciphertext, for every key schedule and ivec |
| BlockModes.UnchainChain | src/common/crypto/bf/bf_cbc.c:77-126 | unchaining undoes chaining block for block, for any block cipher and its inverse |
| BlockModes.ChainWords | src/common/crypto/bf/bf_cbc.c:74-86 | each block of ciphertext enciphers the plaintext whose two words were xor-ed with those of the ciphertext before, the first with ivec |
| BlockModes.UnchainWords | src/common/crypto/bf/bf_cbc.c:107-120 | each word of plaintext is the deciphered word xor-ed with that of the ciphertext before |
| BlockModes.SameCipherIff | src/common/crypto/bf/bf_cbc.c:74-86 | under an injective cipher two blocks of ciphertext agree if and only if plaintext xor previous ciphertext agrees, word by word |
| BlockModes.CbcSplit | src/common/crypto/bf/bf_cbc.c:71-102 | a call may be split after any number of whole blocks when ivec is carried over |
| BlockModes.UnchainFrom | src/common/crypto/bf/bf_cbc.c:104-130 | decryption from any block on needs nothing of what precedes but the block of ciphertext before it |
| BlockModes.RunRoundTrip | src/common/crypto/bf/bf_cbc.c:62-135 | over any run of calls that carries ivec along on both sides, every call comes back, those with a partial block included |
| CbcBuffers.N2ln | src/common/crypto/bf/bf_locl.h:109-122 | the fall-through switch reads the n bytes as the block they make when padded with zeros |
| CbcBuffers.L2nn | src/common/crypto/bf/bf_locl.h:125-137 | the fall-through switch writes the first n bytes of the block and no others |
| CbcBuffers.CbcEncrypt | src/common/crypto/bf/bf_cbc.c:70-102 | the output is exactly the chained ciphertext, padded to whole blocks, and ivec its last block, also within one buffer where no output falls on input not yet read |
| CbcBuffers.CbcDecrypt | src/common/crypto/bf/bf_cbc.c:103-132 | exactly length bytes of plaintext are written, and ivec is the last block of ciphertext, also within one buffer where no output falls on input not yet read |
| CryptPacket.EcbRoundTrip | src/common/crypto/bf/bf_ecb.c:82-100 | decrypting the whole blocks of any string undoes encrypting them, and bytes that fill no block stay as they are |
| CryptPacket.EcbAt | src/common/crypto/crypto.c:79-84 | block i of the result is made of block i alone, and bytes that fill no block stay |
| CryptPacket.EcbEncrypt | src/common/crypto/bf/bf_ecb.c:82-100 | one block is encrypted or decrypted from one buffer to another, or within one however the two overlap, and nothing else changes |
| CryptPacket.DecryptPacket | src/common/crypto/crypto.c:66-87 | accepted if and only if the size holds a header and the size it names, in the host's order, is that of the rest; then the whole blocks are decrypted in place, and otherwise nothing changes; a size below two comes back wrapped |
| CryptPacket.PacketRoundTrip | src/common/crypto/crypto.c:66-87 | a packet encrypted block by block under the same key is accepted if and only if its size fits the header's 16 bits, and its bytes come back |
| Inventory.Inventory.AddItem | src/common/commander/inventory.c:77-99 | a taken key refuses the item; otherwise it is found under its id and is last in the bag of its category |
| Inventory.Inventory.RemoveItem | src/common/commander/inventory.c:101-117 | the handle found by the item's id leaves bag and table, and what it points to is destroyed |
| Inventory.Inventory.UnequipItem | src/common/commander/inventory.c:157-180 | the slot is cleared only if the item could be added |
| Inventory.Inventory.EquipItem | src/common/commander/inventory.c:182-232 | the slot is freed if need be, takes the item, and the item is removed |
| Inventory.Inventory.SwapItems | src/common/commander/inventory.c:274-296 | within a category the contents of the two handles change places |
| Inventory.Inventory.GetBagIndexByActorId | src/common/commander/inventory.c:298-317 | 5000 times the category plus k + 1, where k is the first position whose item has the id, or -1 if none has |
| Inventory.OnePlaceOnly | src/common/commander/inventory.c:77-296 | what the invariant means: an item in a bag is at one position of one bag and in no slot |
| Inventory.LookupFindsIff | src/common/commander/inventory.c:124-141 | when keys are true, a lookup finds an item if and only if it has the id asked for and a bag shows it |
| Inventory.Add | src/common/commander/inventory.c:77-99 | refused if and only if the id is taken; otherwise the item is found under its id and last in its bag, and no other lookup changes |
| Inventory.RemoveKeepsSoundIff | src/common/commander/inventory.c:101-117 | removing an item keeps each handle under one key and in the one bag of its category, if and only if the item's key, when present, leads to an item of its category |
| Inventory.WithoutAt | src/common/commander/inventory.c:101-117 | taking a handle out of a bag leaves those before it and those after it in their order |
| Inventory.RemoveOrder | src/common/commander/inventory.c:101-117 | after a removal the handles after the removed one have moved up by one place, and no other bag has changed |
| Inventory.EquipKeepsSoundIff | src/common/commander/inventory.c:182-232 | so does equipping, if and only if what the item's own key finds once the slot is free, when it finds anything, has the item's category |
| Inventory.EquipDestroys | src/common/commander/inventory.c:182-232 | in any state a successful equip destroys exactly what that key finds, and a refused one nothing |
| Inventory.RemoveKeepsBagsAliveIff | src/common/commander/inventory.c:101-117 | a removal leaves no destroyed item in the bags if and only if no other key leads to what it destroys |
| Inventory.IndexesSharedIff | src/common/commander/inventory.c:298-317 | two bags show items under one index if and only if a bag is long enough to reach the span of a later one that is not empty |
| Inventory.SwapKeepsKeyedIff | src/common/commander/inventory.c:274-296 | a swap keeps keys true if and only if it is refused or the two ids are one |
| Inventory.SwapExchangesItemsIff | src/common/commander/inventory.c:274-296 | a successful swap of keys to two different items exchanges the places of these items and moves no other if and only if no third key leads to one of them |
| Inventory.SwapsPlacesIff | src/common/commander/inventory.c:274-317 | where no two bag items share an id, it exchanges the places of the two ids it is given if and only if these are the ids of those two items, in either order |
| Inventory.DeleteDestroysIff | src/zone_server/zone_handler/zone_handler.c:899-901 | deleting what a lookup found destroys it, and clears the key, if and only if it was found by its own key |
| InventoryRuns.StepKeepsSoundIff | src/common/commander/inventory.c:77-296 | for each kind of call the exact condition under which it keeps table and bags consistent and no handle dangles |
| InventoryRuns.StepKeepsBagsAliveIff | src/common/commander/inventory.c:77-296 | for each kind of such a call the exact condition under which the bags hold no destroyed item |
| InventoryRuns.StepKeepsOnePlaceIff | src/common/commander/inventory.c:77-296 | for each kind of call the exact condition under which it keeps every item in one bag or slot |
| InventoryRuns.RunKeepsOnePlace | src/common/commander/inventory.c:77-296 | so over any run of calls that meet it, real swaps among them, every item stays in exactly one place, table and bags stay consistent, and the bags hold no destroyed item |
| InventoryRuns.StepConserves | src/common/commander/inventory.c:77-296 | only an item added or put into a slot directly enters; only one removed, overwritten, or destroyed by equipping another under a key not its own leaves; all else moves items |
| InventoryRuns.RunMirrors | src/common/commander/inventory.c:77-296 | over any run of calls that keep table and bags consistent, handles, cells and bags behave like a plain table from ids to items with the ids of each bag in display order |
| InventoryRuns.RunLookup | src/common/commander/inventory.c:77-296 | what a lookup finds after any such run: the item that the id, traced back through the swaps, led to before it or entered under in it |
| InventoryRuns.RunKeepsKeyedIff | src/common/commander/inventory.c:77-296 | keys that were true before such a run are true after it if and only if each traces back to itself |
| InventoryRuns.RunShows | src/common/commander/inventory.c:77-317 | what each bag shows after any such run, position by position, in the plain order, where a removal takes one id out of it (`Inventory.WithoutAt`) |
| InventoryRuns.SwapThenEquip | src/common/commander/inventory.c:182-296 | a swap and an equip that leave one item in a slot and a bag and destroy the other; the equip keeps table and bags consistent but not each item in one place |
| InventoryRuns.DestroyedButShown | src/common/commander/inventory.c:101-296 | an unequip and a removal after these leave a key and a bag with a destroyed item |
| InventoryRuns.SwapThenSwap | src/common/commander/inventory.c:274-296 | two swaps, the second of which moves an item it was not asked for |
| InventoryStream.SerializeSPacket | src/common/commander/inventory.c:404-432 | the counts, the items of the slots in order, and the items of the bags in order |
| InventoryStream.UnserializeSPacket | src/common/commander/inventory.c:434-484 | old equipment is destroyed, slots and bags are filled from the records, and the table is left empty |
| InventoryStream.SlotRecordsOrdered | src/common/commander/inventory.c:412-417 | the records of equipped items come in the order of the slots, each with its slot's item |
| InventoryStream.SlotRecordsComplete | src/common/commander/inventory.c:412-417 | and no filled slot is left out |
| InventoryStream.BagRecordsAt | src/common/commander/inventory.c:424-429 | the records of a bag are its items, position by position |
| InventoryStream.BagsRecordsSorted | src/common/commander/inventory.c:424-429 | the bags come in the order of their categories |
| InventoryStream.LoadedMemory | src/common/commander/inventory.c:441-466 | reading destroys the old equipment and nothing else, and frees no handle |
| InventoryStream.LastRecordWins | src/common/commander/inventory.c:441-466 | after reading, a slot is filled if and only if a record names it, and holds what the last such record says |
| InventoryStream.SerializedReadable | src/common/commander/inventory.c:404-484 | what the one writes is in the form the other takes, whatever follows |
| InventoryStream.BagsComeBackIff | src/common/commander/inventory.c:404-484 | the bags come back item for item and in order if and only if the table has as many ids, in 32 bits, as the bags show items |
| InventoryStream.SoundBagsComeBack | src/common/commander/inventory.c:404-484 | which is so in every sound inventory of fewer than 2^32 items |
| InventoryStream.SlotsComeBack | src/common/commander/inventory.c:404-484 | the slots always come back |
| InventoryStream.LookupSurvivesIff | src/common/commander/inventory.c:461-479 | after reading no lookup finds anything and nothing can be removed; lookups answer as before if and only if the table was empty |
| InventoryStream.SecondTripEmptiesBags | src/common/commander/inventory.c:404-484 | reading and writing once more keeps the slots and loses every item in the bags |
| Inventory.EquipOutcome | src/common/commander/inventory.c:182-232 | equipping succeeds if and only if the id is present and the slot is free or can be freed; then the slot holds what the key led to, which leaves its bag if and only if the key is its own, and the displaced item is in a bag unless it has that item's id; a refusal changes nothing |
| Inventory.EquippedItemGone | src/common/commander/inventory.c:182-232 | with live items before, every equipped item is alive afterwards if and only if the call failed or the item was not found by its own key; no other slot is ever affected, and what the item's own key finds is destroyed |

## Left out

- Algorithms the headers only declare (dictionaries, skip lists, compression, decimal arithmetic, reply parsing, checksums): there is no body to model.
- `rioTell`, `rioFlush` and the stream's initialisers: single calls through a pointer, or declared only.
- What an `update_cksum`, `read` or `write` callback might do to the stream besides its documented job, such as changing the chunk size during a call.
- RefCount.Slot.Set: the `_new` setters' bodies are not part of the repository, so their ownership contract (one reference taken over, stored or not) is assumed, and one slot stands for a key or an element; how arrays shift and objects find keys is not modelled.
- Container teardown in `json_delete`: a deletion is counted; the references a dead container held count as held until they are released one by one.
- Threads: the counts are not atomic in the source, so a run is a sequence of whole steps.
- IoCache.Cache.Read: the body of `read_function` is not part of this model; the method answers that it would be called.
- IoCache.Cache.Write: likewise for `write_function`; caches of type SEQ_READ_APPEND, which use two buffers at once, are left out.
- IoCache.StepReadsFile: that `read_function` and `_my_b_get` hand out the next bytes of the file, no more than asked for, and leave a window on the file at the position reached, is assumed (`IoCache.SlowRead`).
- IoCache.StepAppends: that `write_function` puts the bytes after those written before is assumed (`IoCache.SlowWrite`); a `write_function` that fails is left out.
- IoCache.WrittenThenFetched: how a write cache is flushed and turned into a read cache is not part of this model; the lemma assumes a read window, at the position where writing began, on a file that holds what was written.
- Timespec.Timespec.SetNsec: `time_t` is taken to have 64 bits.
- Timespec.DiffIsGap: the signed subtraction of seconds is taken not to overflow, which C leaves undefined.
- Timespec.PlatformDifferences: the signed counts of the Windows branch are taken to wrap in 64 bits, which C leaves undefined.
- The meaning of `float` and `double` values: they are bit patterns. `my_double2ulonglong` is left out.
- `byte_order_generic_x86.h`: casts of pointers, whose meaning is the host's memory order; `ByteOrder` states what they must agree with.
- `ushortget`, `ulongget`, `longlongget`, `longlongstore`, `floatget` and `floatstore`: the same bytes as the operations that are modelled.
- Configuration tables, thread, socket, file, logging and error-text headers.
- Blowfish.CryptInverse: how `BF_set_key` and `cryptoInit` fill the schedule is not modelled, as the results hold for any schedule; `BF_LONG` is taken to have 32 bits.
- CbcBuffers.CbcEncrypt: a negative length, for which the source has no case, is left out; within one buffer, output must not fall on input that is still to be read, as it would be overwritten (`CbcBuffers.Behind`); `ivec` is a buffer of its own.
- CryptPacket.DecryptPacket: the two bytes of the header have to be there in memory, as the source copies them whatever the size.
- Inventory.Inventory.AddItem: failures of allocation are left out, and the hexadecimal key is taken to stand for its id; `zhash` and `zlist` behave as their headers say.
- Inventory.Inventory.SwapItems: both ids have to be present, as the source follows both handles without a check.
- Inventory.Inventory.UnequipItem: an item that was destroyed cannot be unequipped, as the source would read it.
- The field `slot` of an item: it is taken to name the slot that holds the item when it is written to a stream.
- InventoryRuns.RunKeepsOnePlace: runs are of calls that meet the exact condition; what other calls do is in `Inventory.EquipOutcome`, `InventoryRuns.StepConserves` and `InventoryRuns.RunMirrors`. Filling a slot directly is what a new or loaded commander gets (`barrack_handler.c:800-804`).
- InventoryRuns.RunMirrors: after a call that breaks its condition a bag keeps a freed handle, and the source would read it; runs stop before that.
- InventoryStream.UnserializeSPacket: how a single item is encoded, and a stream that ends early or has slots and categories out of range, are left out; the counts are taken to be there.
- The rest of the emulator's own code under `src/`: servers, sessions, packet builders and handlers, database access, static data, and the encoding of single items.
