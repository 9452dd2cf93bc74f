# gomc, modelled and proved

gomc is a Minecraft server that implements its wire formats, its cipher mode, its
chunk encoder and its presence protocol itself. This project models those parts in
Dafny and proves what they promise. For each part there is a specification (functions
on values: what is written, what a reader makes of it, what a state becomes) and, where
the source works by updating things step by step, methods and classes that do the same
and are proved against it.

| file | models |
|---|---|
| `Bytes.dfy`, `Codec.dfy` | fixed-width integers, the cursor reader with its sticky error, the writer, VarInt/VarLong, packed positions |
| `Mutf8.dfy` | Java's modified UTF-8 over UTF-16 |
| `Nbt.dfy`, `NbtProofs.dfy`, `NbtIo.dfy` | NBT trees: the format, its properties, the recursive reader and writer and the ordered compound |
| `TextComponent.dfy`, `ComponentReader.dfy` | text components, their network NBT, and reading it back |
| `UseItem.dfy`, `Digest.dfy` | the backward VarInt scan of Use Item On; the signed-hex digest |
| `Palette.dfy`, `Container.dfy`, `Chunk.dfy`, `World.dfy`, `Terrain.dfy` | paletted containers, chunk columns, the sparse block world, payloads in numbers |
| `Layouts.dfy` | the primitive formats and NBT written out in bytes and bits |
| `Cfb8.dfy`, `Frame.dfy` | the stream cipher and the framed, optionally compressed connection |
| `Hub.dfy`, `HubViews.dfy`, `HubBook.dfy`, `HubRuns.dfy`, `HubLoop.dfy` | the presence hub: events, client replay, exactly what clients list and know of blocks, whole runs, the handlers |
| `Session.dfy`, `SessionScan.dfy`, `SessionProofs.dfy`, `SessionRuns.dfy`, `SessionView.dfy`, `SessionDeeds.dfy`, `SessionLoop.dfy` | one connection in offline mode: packets, the scan over a chunk view, invariants, whole runs, the view along them, an account of all it says and asks, the handlers |

The main results:

* After any sequence of block changes, decoding a chunk's payload shows at every cell the
  state last set at that absolute position, or the flat terrain; this holds exactly when
  every section has at most 256 distinct states or only 15-bit ones, which the game's own
  are (`World.PayloadShowsHistoryIff`, cell by cell `Terrain.PayloadCells`, and for whole
  hub runs `HubRuns.ChunksAfterRun`). Each section announces how many of its positions hold
  anything (`Terrain.PayloadCounts`).
* A tag tree survives network and disk NBT up to the element type of empty lists, and is
  refused exactly when nested deeper than 512; whatever bytes the decoder accepts are a
  bounded, homogeneous tree that a second pass no longer changes.
* Replaying what the hub enqueued for a client rebuilds the hub's registry, over every run
  of events. The client lists a UUID if and only if somebody is online under it and, since
  the client's own join, the last processed join or leave under it was not a leave. A
  block it was told of is current if and only if the last change told of there was made
  there, or made the state the world has there.
* For every mix of packets, compression switches and one switch to encryption, reading the
  wire returns exactly the bodies written if and only if each fits when it is written; the
  sliding-buffer cipher is the textbook one, bit by bit.
* Every text component, children included, is read back field by field from its tag.
* In every session run, wherever a send fails and even inside a scan that never ends, the
  client's columns are the session's, each frame is in the client's mode, and the hub gets
  at most one join, and a leave exactly when the finished session had joined. While it
  reads on in Play, the client's columns are the view around the player's chunk, which is
  the centre it was told; and everything the session says beside the columns and asks of
  the hub is what an account of the received packets says (`SessionDeeds.EveryDeed`).

## How the source is read

* Integers are unbounded with explicit conversions (`AsI32` and the like) wherever the
  source casts. Bit operations on disjoint bit ranges are written as arithmetic.
* Strings are sequences of Unicode scalar values in the NBT part, Dafny strings elsewhere.
* Floats: NBT floats are their bit patterns; hub and session coordinates and angles are reals.
* The hub's channels are unordered relative to each other, so a hub run is the sequence of
  events in processing order. The order in which a Go map is iterated is part of the event,
  or any order at all in the methods. A session's outbound channel is the sequence of
  packets it accepted, the number still waiting, and the number turned away when full.
* The client sides (chunk decoder, NBT reader, packet replay) follow the format comments of
  the source. The replay lets a later profile for a listed UUID replace the earlier one,
  and takes a block update at the position its packed bytes carry.
* A connection's unread and written bytes are sequences; reads return chunks of any size. In
  a session, `room` is the number of sends that still succeed, so each value of it is a run
  that breaks at another place. A scan over a chunk view that never ends is watched for
  `rounds` loop bodies; every value from 306 on, by which a scan that ends has ended, is a
  run seen at another moment, and the methods stop there.

## Where the code and its documentation differ

The model follows the code.

* `internal/protocol/codec/doc.go:1-6` says overlong and overflowing VarInts and VarLongs are
  rejected. Only a fifth (tenth) byte with its continuation bit is; zero-padded encodings are
  read and surplus high bits are dropped (`Codec.OverlongVarIntsAccepted`; exactly which
  encodings, `Codec.VarIntCanonical` and `Codec.VarLongCanonical`).
* An empty frame body is lost without compression and with threshold 0 (`Frame.EmptyBodies`).
* NBT string lengths are cut to 16 bits (`NbtProofs.StringRoundTripIff`; 65536 letters come back
  as none, `NbtProofs.LettersRead`). Overlong modified
  UTF-8 and lone surrogates are accepted (`Mutf8.OverlongAccepted`,
  `Mutf8.LoneSurrogateAccepted`; exactly which accepted bytes change when written again,
  `Mutf8.Mutf8CanonicalIff`).
* A block can be placed where a position cannot be packed: a click at x = 33554431 on the
  east face changes the world at 33554432, and every client is told of a change at
  -33554432. Likewise at the other ends of x and z (`SessionProofs.PlacedFitsIff`,
  `HubRuns.PlacedBeyond`, `HubRuns.PlacedEast`; exactly which events do so,
  `HubViews.StepBlocksIff`).
* Two online players under one UUID: the leave of one unlists the other, everywhere
  (`HubBook.LeaveUnlistsEverywhere`, `HubRuns.SharedUuidUnlists`).
* A leave processed before its join leaves the player registered (`HubRuns.OvertakenLeave`).
  `internal/game/loop/doc.go` describes a single inbound channel; there are five.
* The option for compression is an `int`, sent as an `int32`; one that turns negative there
  puts the client in the wrong mode (`SessionRuns.FramedIff`).
* The scan over the view wraps at the ends of the 32-bit range: an overflowing view is empty
  and unloads everything (`SessionRuns.ViewIsSquareIff`). A view that ends exactly at the
  largest int32, around chunk 2147483639 on the x axis, or on the z axis when the x view does
  not overflow, is scanned without end unless a send fails (`SessionScan.ScanEndsIff`,
  `SessionScan.EndlessCentre`, `SessionRuns.EndlessMove`; a whole run that gets there,
  `SessionView.EndlessRun`).
* An Encryption Response is registered in Login whatever the mode (`internal/protocol/packet/login.go:17`),
  and its handler does not ask for the mode. Offline there is no key pair, and the handler
  dereferences it (`internal/protocol/auth/rsa.go:36-38`): nothing recovers. In the model the
  session ends there, with the invariant kept; that the whole process ends is not modelled.
* Heightmaps stay flat when blocks change; the model keeps them so and claims nothing else.

## Model

| member | source | states |
|---|---|---|
| Codec.VarIntRoundTrip | internal/protocol/codec/writer.go:70-80 | for every int32, reading the written bytes before any suffix returns it and leaves exactly the suffix; 1 to 5 bytes |
| Codec.VarLongRoundTrip | internal/protocol/codec/writer.go:83-93 | the same for int64 in 1 to 10 bytes |
| Codec.VarIntShortest | internal/protocol/codec/reader.go:85-101 | no encoding the reader maps to a value is shorter than the writer's |
| Codec.VarLongShortest | internal/protocol/codec/reader.go:105-121 | the same for VarLong |
| Codec.VarIntCanonical | internal/protocol/codec/reader.go:85-101 | an accepted encoding is the writer's own if and only if it has no zero final group and no surplus bits in a fifth byte |
| Codec.VarLongCanonical | internal/protocol/codec/reader.go:105-121 | the same for VarLong, whose tenth byte has one bit of room |
| Codec.OverlongVarIntsAccepted | internal/protocol/codec/doc.go:1-6 | concrete zero-padded and overflowing VarInts and VarLongs that are read although they are said to be rejected |
| Codec.ParseLebConsumes | internal/protocol/codec/reader.go:85-121 | on every byte string a successful read consumes a prefix of at most the cap, continued by its high bits, and the rest is untouched |
| Codec.LebTooLong | internal/protocol/codec/reader.go:88-100 | a number too large for the cap of groups is refused as too long, never read as another number |
| Codec.OrGroup | internal/protocol/codec/reader.go:93-97 | or-ing a shifted group into the fixed-width register is addition there: no bit is set twice and surplus bits fall off |
| Layouts.Truncations | internal/protocol/codec/reader.go:21-62 | each conversion keeps the value up to multiples of its type's range |
| Layouts.BigEndianByte | internal/protocol/codec/writer.go:27-52 | byte i of k holds bits 8 * (k - 1 - i) and up |
| Layouts.FixedSizes | internal/protocol/codec/writer.go:27-66 | two, four and eight bytes of the value modulo the range of that size |
| Layouts.LebGroup | internal/protocol/codec/writer.go:70-93 | group i holds bits 7 * i and up, and only the last has a clear high bit |
| Layouts.VarIntVectors | internal/protocol/codec/codec_test.go:9-24 | the encodings of 0, 127, 128, 25565 and -1 |
| Layouts.ReadErrors | internal/protocol/codec/reader.go:9-101 | which error a short, negative or endless read gives |
| Layouts.PositionFields | internal/protocol/codec/writer.go:109-112 | 26 bits of x, 26 of z and 12 of y, from the high end |
| Codec.PositionRoundTripIff | internal/protocol/codec/reader.go:169-178 | packing loses nothing exactly on positions that fit 26, 12 and 26 signed bits |
| Codec.PackedBytes | internal/protocol/codec/writer.go:109-112 | for every position, what a reader finds in its eight bytes |
| Codec.PackedFits | internal/protocol/codec/reader.go:169-178 | that is a position that fits, differs by multiples of the fields' ranges, is read back as itself, and is the one written exactly when that fits |
| Codec.PositionBytesRoundTrip | internal/protocol/codec/writer.go:109-112 | a position in range reads back from its eight bytes with the suffix left |
| Codec.ShortRoundTrip | internal/protocol/codec/writer.go:27-31 | big-endian two's-complement 16-bit values read back with the suffix left |
| Codec.IntRoundTrip | internal/protocol/codec/writer.go:41-45 | the same for 32 bits |
| Codec.LongRoundTrip | internal/protocol/codec/writer.go:48-52 | the same for 64 bits |
| Codec.FloatRoundTrip | internal/protocol/codec/writer.go:55-59 | float bit patterns read back |
| Codec.DoubleRoundTrip | internal/protocol/codec/writer.go:62-66 | double bit patterns read back |
| Codec.Writer.VarInt | internal/protocol/codec/writer.go:70-80 | appends exactly the value's encoding |
| Codec.Writer.VarLong | internal/protocol/codec/writer.go:83-93 | appends exactly the value's encoding |
| Codec.Writer.Groups | internal/protocol/codec/writer.go:72-79 | the shared loop appends the little-endian base-128 digits |
| Codec.Writer.Position | internal/protocol/codec/writer.go:109-112 | appends the packed 64-bit value |
| Codec.Reader.Fail | internal/protocol/codec/codec.go:65-69 | the first error sticks |
| Codec.Reader.Raw | internal/protocol/codec/codec.go:74-89 | takes n bytes, or sets the error and takes none; after an error nothing moves |
| Codec.Reader.VarInt | internal/protocol/codec/reader.go:85-101 | reads what the specification parses, or sets the sticky error; after an error the position never moves |
| Codec.Reader.VarLong | internal/protocol/codec/reader.go:105-121 | the same for VarLong |
| Codec.Reader.Groups | internal/protocol/codec/reader.go:88-100 | the shared loop in a register of the given width: the parsed number cut to the register, or the error |
| Codec.Reader.Position | internal/protocol/codec/reader.go:169-178 | reads the three sign-extended fields, or zeros and the error |
| Codec.Reader.Fixed | internal/protocol/codec/reader.go:30-81 | reads a big-endian number of the given size, or sets the error |
| Layouts.UnitForms | internal/protocol/nbt/mutf8.go:14-24 | one, two or three bytes for a unit, with their fixed bits and six bits of it in each but the first |
| Layouts.ScalarForms | internal/protocol/nbt/mutf8.go:12-14 | a high and a low surrogate with ten bits each above 65535 |
| Mutf8.Utf16RoundTrip | internal/protocol/nbt/mutf8.go:13-53 | UTF-16 surrogate pairing and its decoding are inverse on all scalar values |
| Mutf8.Mutf8RoundTrip | internal/protocol/nbt/mutf8.go:12-54 | decoding the encoding of any string of scalar values returns it, NUL and supplementary characters included |
| Mutf8.Mutf8Injective | internal/protocol/nbt/mutf8.go:12-26 | different strings have different encodings |
| Mutf8.Mutf8NeverZero | internal/protocol/nbt/mutf8.go:15-24 | no encoding contains a zero byte |
| Mutf8.OverlongAccepted | internal/protocol/nbt/mutf8.go:33-51 | concrete two- and three-byte forms of every character below 0x80 decode to it |
| Mutf8.LoneSurrogateAccepted | internal/protocol/nbt/mutf8.go:29-54 | every lone surrogate is accepted, read as the replacement character, and changes when written again |
| Mutf8.Mutf8CanonicalIff | internal/protocol/nbt/mutf8.go:12-54 | of all accepted byte strings exactly those with every unit in shortest form and no lone surrogate are the encoder's own; every other one changes when written again |
| Mutf8.Encode | internal/protocol/nbt/mutf8.go:12-26 | the encoding loop produces the specified bytes |
| Mutf8.Decode | internal/protocol/nbt/mutf8.go:29-54 | the decoding loop returns the specified string, or fails exactly when it should |
| NbtProofs.StringRoundTripIff | internal/protocol/nbt/encode.go:28-32 | a string reads back if and only if its encoding has at most 65535 bytes |
| NbtProofs.LettersRead | internal/protocol/nbt/encode.go:28-32 | a text of n letters comes back as n modulo 65536 letters, the other letters left to be read as what follows |
| Layouts.TypeIds | internal/protocol/nbt/tag.go:5-49 | the twelve type bytes |
| Layouts.NetworkVectors | internal/protocol/nbt/nbt_test.go:11-59 | {foo: 42} and "hi" without a root name, byte by byte |
| Layouts.DiskVectors | internal/protocol/nbt/nbt_test.go:61-71 | {x: 1b} under the name "root", byte by byte |
| Layouts.ArrayVectors | internal/protocol/nbt/encode.go:48-82 | byte, int and long arrays, byte by byte |
| Layouts.ListVectors | internal/protocol/nbt/encode.go:54-63 | a list of two shorts, and an empty list whatever its type |
| Layouts.Refusals | internal/protocol/nbt/decode.go:67-172 | depths beyond 512, types 0 and above 12, and negative counts are refused |
| NbtProofs.PayloadRead | internal/protocol/nbt/decode.go:67-172 | at any depth, a written tree reads back normalised with exactly its bytes consumed, or is refused as too deep exactly when it exceeds what is left of the cap |
| NbtProofs.ListRead | internal/protocol/nbt/decode.go:97-115 | the same for a list: every element in order, and the element type of an empty one forgotten |
| NbtProofs.EntriesRead | internal/protocol/nbt/decode.go:116-133 | the same for a compound's entries, read after others under different names: order and names kept |
| NbtProofs.NetworkRoundTrip | internal/protocol/nbt/encode.go:7-14 | every encodable tree reads back normalised before any suffix when nested at most 512 deep, and is refused when deeper; a nil root too |
| NbtProofs.DiskRoundTrip | internal/protocol/nbt/encode.go:18-26 | the same with the root name |
| NbtProofs.PayloadAccepted | internal/protocol/nbt/decode.go:67-172 | on every byte string, an accepted tree has homogeneous lists, distinct keys, nesting at most 512, no more nodes than bytes consumed, and a suffix is left |
| NbtProofs.EntriesAccepted | internal/protocol/nbt/decode.go:116-133 | the same for the entries of a compound, duplicate names replaced |
| NbtProofs.NormSame | internal/protocol/nbt/encode.go:53-62 | normalising the element types of empty lists changes no written byte and is idempotent |
| NbtProofs.DecodingNormalises | internal/protocol/nbt/decode.go:27-37 | any accepted bytes whose strings fit give a tree that writes and reads back to itself up to empty-list types, and then never changes |
| NbtProofs.SetKeeps | internal/protocol/nbt/tag.go:77-83 | replacing or inserting an entry keeps names distinct, values encodable, and the bounds on nesting and nodes |
| NbtIo.SetPresent | internal/protocol/nbt/tag.go:77-83 | an entry whose name is there is replaced where it stands |
| NbtProofs.SetFresh | internal/protocol/nbt/tag.go:77-83 | a new name goes to the end |
| NbtIo.Compound.Set | internal/protocol/nbt/tag.go:77-83 | keys and values stay in step; an existing name is replaced in place, a new one appended |
| NbtIo.Compound.Get | internal/protocol/nbt/tag.go:86-89 | finds the entry of a name, or none |
| NbtIo.WriteString | internal/protocol/nbt/encode.go:28-32 | appends the cut length and the bytes |
| NbtIo.WritePayload | internal/protocol/nbt/encode.go:34-82 | appends exactly the tree's bytes |
| NbtIo.WriteNetwork | internal/protocol/nbt/encode.go:7-14 | appends the nameless-root form |
| NbtIo.WriteDisk | internal/protocol/nbt/encode.go:18-26 | appends the named-root form |
| NbtIo.ReadString | internal/protocol/nbt/decode.go:53-65 | reads a string, or sets the error |
| NbtIo.ReadPayload | internal/protocol/nbt/decode.go:67-172 | terminates on every input and reads exactly what the specification parses, or sets its error |
| NbtIo.ReadList | internal/protocol/nbt/decode.go:97-115 | the element loop, with a claimed count that may exceed the input |
| NbtIo.ReadCompound | internal/protocol/nbt/decode.go:116-133 | the entry loop over the ordered compound |
| NbtIo.ReadNetwork | internal/protocol/nbt/decode.go:27-37 | reads a nameless root or nil |
| NbtIo.ReadDisk | internal/protocol/nbt/decode.go:40-51 | reads a named root or nil |
| TextComponent.ComponentRoundTrip | internal/protocol/text/component.go:37-63 | a component whose strings fit reads back as the same tag up to 255 levels of children, and is refused beyond |
| TextComponent.CompoundGood | internal/protocol/text/component.go:44-63 | the compound has homogeneous lists, distinct keys and only encodable strings, and is its own normal form |
| TextComponent.CompoundNesting | internal/protocol/text/component.go:55-60 | each level of children costs two levels of tags |
| ComponentReader.FieldsFound | internal/protocol/text/component.go:45-63 | under each of the eight literal names is its own field, present if and only if it is set |
| ComponentReader.ReadBack | internal/protocol/text/component.go:38-65 | every component is read back from its tag, children included; the tag is a bare string exactly when there is nothing but text |
| ComponentReader.RenderingInjective | internal/protocol/text/component.go:38-65 | no two components are rendered alike |
| TextComponent.Render | internal/protocol/text/component.go:37-42 | unstyled text becomes a string tag, anything else a compound |
| TextComponent.RenderCompound | internal/protocol/text/component.go:44-63 | the field-by-field rendering builds the specified compound in order |
| TextComponent.SetBool | internal/protocol/text/component.go:65-74 | an unset style is omitted |
| UseItem.TrailingRecoversIff | internal/protocol/packet/inventory.go:59-74 | after any middle bytes the final VarInt is recovered if and only if what the continued bytes just before it add vanishes in the 32-bit register |
| UseItem.TrailingRecovers | internal/protocol/packet/inventory.go:54-58 | in particular after any middle bytes that do not end in a continued one |
| UseItem.TrailingAgreesWithReader | internal/protocol/packet/inventory.go:59-74 | on any tail of up to five groups the backward scan agrees with the forward reader |
| UseItem.UseRoundTripIff | internal/protocol/packet/inventory.go:47-52 | all fields are recovered exactly when the position fits its packed widths and the bytes before the sequence do not disturb it |
| UseItem.UseFields | internal/protocol/packet/inventory.go:47-52 | hand, packed position and face in this order, and the sequence from the end |
| UseItem.TrailingVectors | internal/protocol/packet/inventory_test.go:70-79 | the sequences at the end of three byte strings |
| UseItem.ComputeTrailingVarInt | internal/protocol/packet/inventory.go:59-74 | the two loops compute the specified value |
| UseItem.UseItemOn.Decode | internal/protocol/packet/inventory.go:47-52 | sets the fields the specification parses; on an error the face and the sequence are zero and the error is kept |
| Digest.DigestText | internal/protocol/auth/digest.go:26-32 | the text reads back to the two's-complement value, starts with a minus exactly when the top bit is set, and has no leading zero |
| Digest.TwosComplementRange | internal/protocol/auth/digest.go:27-30 | the value is the unsigned one, or that less 2^(8n), and lies between minus and plus half of it |
| Digest.HexDigits | internal/protocol/auth/digest.go:31 | the sixteen lower-case digits |
| Digest.DigestVectors | internal/protocol/auth/digest.go:26-32 | FF is -1, 80 is -80 and 000F is f |
| Digest.DigestInjective | internal/protocol/auth/digest.go:26-32 | equally long inputs with the same text are equal |
| Digest.MinecraftDigest | internal/protocol/auth/digest.go:26-32 | computes that text |
| Palette.DistinctFacts | internal/game/world/palette.go:31-38 | the palette holds exactly the values, without duplicates |
| Palette.FirstSeenOrder | internal/game/world/palette.go:31-38 | palette positions follow the values' first occurrences |
| Palette.BitsForLeast | internal/game/world/palette.go:90-96 | no smaller width suffices |
| Palette.DistinctCount | internal/game/world/palette.go:31-38 | as many palette entries as there are different values |
| Palette.PackedWords | internal/game/world/palette.go:70-87 | with as many entries to a word as 64 bits hold, entry k of word w starts at bit k * bits |
| Palette.PackedCount | internal/game/world/palette.go:70-87 | and no word is more than the entries need |
| Palette.PackLength | internal/game/world/palette.go:70-86 | ceil(n / per) longs |
| Palette.PackEntry | internal/game/world/palette.go:70-86 | entry i is cut out of long i / per at bit (i mod per) * bits |
| Palette.PackUnusedBits | internal/game/world/palette.go:66-69 | all bits above a long's last entry are zero |
| Palette.PackIs64Bit | internal/game/world/palette.go:71-81 | every word fits 64 bits, so the cast to a long loses nothing |
| Container.ContainerRead | internal/game/world/palette.go:20-64 | decoding any container returns the cells, ids of the direct form cut to its width |
| Container.ContainerRoundTripIff | internal/game/world/palette.go:20-64 | decoding returns the original cells in the single-valued and indirect forms, and in the direct form if and only if every id fits its width |
| Container.BlockWidth | internal/game/world/palette.go:14-60 | the width byte of a block container: 0 for one value, 4 to 8 for up to 256, 15 for more |
| Container.BiomeWidth | internal/game/world/palette.go:14-60 | the width byte of a biome container: 0, 1, 2, 3, or 7 |
| Container.DirectForm | internal/game/world/palette.go:62-64 | beyond 256 values the ids follow at 15 bits, without a palette |
| Container.ComputeBitsFor | internal/game/world/palette.go:90-96 | the loop finds the least sufficient width |
| Container.BuildPalette | internal/game/world/palette.go:31-38 | palette and index map are inverse |
| Container.WriteLongs | internal/game/world/palette.go:70-86 | the accumulator loop writes the packed words |
| Container.WritePalettedContainer | internal/game/world/palette.go:30-64 | writes the specified container in all three regimes |
| Chunk.ColumnRead | internal/game/world/chunk.go:44-90 | the whole body decodes, with nothing left over, to the heightmaps, the 24 sections with their non-air counts, and the light |
| Chunk.ColumnExactIff | internal/game/world/chunk.go:96-119 | every cell shows as overridden or flat if and only if every section fits a palette or 15-bit ids |
| Chunk.SuperflatBlocks | internal/game/world/chunk.go:125-143 | the loop fills in the flat terrain |
| Chunk.OverriddenBlocks | internal/game/world/chunk.go:97-103 | overriding in any iteration order gives the section's cells |
| Chunk.CountNonAir | internal/game/world/chunk.go:104-109 | counts the cells that are not air |
| Chunk.WriteSection | internal/game/world/chunk.go:96-119 | writes the specified section |
| Chunk.BuildPayload | internal/game/world/chunk.go:44-90 | writes the specified column |
| World.AddressOfPosition | internal/game/world/world.go:23-32 | chunk coordinate and column index give back the position |
| World.PositionOfAddress | internal/game/world/world.go:23-32 | every chunk and index is the address of a buildable position |
| World.StoreHoldsHistory | internal/game/world/world.go:37-52 | after any changes each cell holds the state last set at its position, or the flat terrain |
| World.PayloadShowsHistoryIff | internal/game/world/world.go:56-69 | the decoded payload of any chunk shows that history exactly when every section fits |
| World.PayloadShowsHistory | internal/game/world/world.go:56-69 | and always when all states are below 32768 |
| World.LastChangeWins | internal/game/world/world.go:37-53 | the state at a position is that of the last change made there |
| World.TerrainStays | internal/game/world/chunk.go:121-143 | without one it is 85, 10, 10, 9 from the bottom and 0 above |
| Terrain.NonAirCount | internal/game/world/chunk.go:104-109 | the announced count is the number of cells that do not hold 0 |
| Terrain.PayloadCounts | internal/game/world/chunk.go:96-113 | after any changes, each decoded section's count is the number of its positions at which the history left anything |
| Terrain.PayloadCells | internal/game/world/world.go:56-69 | cell y * 256 + z * 16 + x of section s of chunk (cx, cz) is what the history left at (16cx + x, 16s - 64 + y, 16cz + z) |
| Terrain.UntouchedCounts | internal/game/world/world_test.go:28-45 | an untouched column announces 1024 blocks in its floor and none above |
| Terrain.AirSection | internal/game/world/world_test.go:17-26 | a section of air is eight bytes |
| Terrain.FloorSection | internal/game/world/world_test.go:28-55 | the floor section: count, palette of four at four bits, its 256 words, one biome |
| Terrain.Envelope | internal/game/world/chunk.go:44-88 | heightmaps 1, 5 and 4 say 4 in every column, all biomes are 40, the light masks and two full arrays |
| Terrain.FrontForm | internal/game/world/chunk.go:48-62 | the bytes before the sections |
| Terrain.TailForm | internal/game/world/chunk.go:72-88 | the bytes after them |
| Terrain.PayloadForm | internal/game/world/chunk.go:64-70 | the sections after their size, from the bottom up |
| World.BlockWorld.SetBlock | internal/game/world/world.go:37-52 | false and no change outside the buildable height, else the one cell is set |
| World.BlockWorld.ChunkPayload | internal/game/world/world.go:56-69 | the rendered column, from the shared payload when it is untouched |
| Cfb8.XorBit | internal/protocol/frame/cfb8.go:38-45 | each bit of the mask's result is set exactly when one of the two bits is |
| Cfb8.RegisterIsWindow | internal/protocol/frame/cfb8.go:1-55 | the register is the last bytes of the IV followed by the ciphertext so far |
| Cfb8.TextbookForm | internal/protocol/frame/cfb8.go:34-54 | each byte is masked, bit by bit, with the first byte of the block function on the bytes before it in IV and ciphertext |
| Cfb8.SplitStream | internal/protocol/frame/cfb8.go:34-54 | splitting a stream into calls anywhere changes nothing |
| Cfb8.DecryptInverts | internal/protocol/frame/cfb8.go:34-54 | for any block function decryption inverts encryption and both registers stay equal |
| Cfb8.Stream.XORKeyStream | internal/protocol/frame/cfb8.go:34-54 | output and window are those of the textbook mode, also when source and destination are one array |
| Cfb8.Stream.Append | internal/protocol/frame/cfb8.go:45-52 | the window shifts by one byte, across the compaction of the buffer |
| Frame.FrameForms | internal/protocol/frame/frame.go:148-177 | raw, stored after a zero, or deflated after its size, by the threshold |
| Frame.FrameLimits | internal/protocol/frame/frame.go:148-177 | the largest bodies: 2097151 bytes in a frame, 16777216 before deflating |
| Frame.FrameAcceptedIff | internal/protocol/frame/frame.go:81-145 | exactly which bytes are accepted as a frame, and what body they give |
| Frame.FrameRoundTripIff | internal/protocol/frame/frame.go:100-177 | a frame reads back to its body before any suffix if and only if the body fits; thresholds need only agree in sign |
| Frame.EmptyBodies | internal/protocol/frame/frame.go:105-125 | empty bodies are lost without compression and with threshold 0, and survive with threshold 1 |
| Frame.LengthRead | internal/protocol/frame/frame.go:81-107 | a length prefix reads back exactly when it is between 1 and the cap |
| Frame.RunReadsBack | internal/protocol/frame/frame.go:63-177 | for every run of sends, compression switches and one encryption switch, mirrored by the reader, reading returns exactly the bodies in order and leaves what follows |
| Frame.UnfitNeverItself | internal/protocol/frame/frame.go:100-177 | a body that does not fit is refused or read as another body, whatever follows |
| Frame.OneStream | internal/protocol/frame/frame.go:61-78 | between switches all frames are one stream through one cipher state |
| Frame.RunReadsBackIff | internal/protocol/frame/frame.go:63-177 | a mirrored run reads back exactly its bodies, with the rest left, if and only if every body fits when it is sent |
| Frame.TookBoth | internal/protocol/frame/frame.go:75-78 | reading in two chunks is reading in one, for the bytes and the cipher state |
| Frame.Conn.EnableEncryption | internal/protocol/frame/frame.go:67-78 | with 16 bytes both directions continue under the secret as key and IV; otherwise nothing changes |
| Frame.Conn.ReadFull | internal/protocol/frame/frame.go:86-111 | collects n decrypted bytes from chunks of any size, or fails at the end of the stream |
| Frame.Conn.ReadLength | internal/protocol/frame/frame.go:81-96 | reads the length in at most three bytes, or refuses it |
| Frame.Conn.ReadPacket | internal/protocol/frame/frame.go:100-145 | returns the parse of the decrypted stream and takes exactly its bytes |
| Frame.Conn.WritePacket | internal/protocol/frame/frame.go:148-177 | appends exactly one frame, encrypted in stream order |
| Frame.Conn.Performs | internal/protocol/frame/frame.go:61-177 | a run of sends and switches puts exactly the model's wire bytes out |
| Frame.Conn.Receives | internal/protocol/frame/frame.go:61-145 | the mirrored run of reads returns exactly what the model reads from the wire |
| Frame.Exchange | internal/protocol/frame/frame.go:48-177 | two fresh connections over one wire: the bodies one sends in a good run are the bodies the other receives, with the rest untouched |
| Hub.NoDropDelivers | internal/game/loop/hub.go:292-300 | a channel that dropped nothing delivered everything in order |
| Hub.FirstFit | internal/game/loop/hub.go:295-300 | a channel takes packets in order until it is full and then none of the rest |
| Hub.JumpIff | internal/game/loop/hub.go:227-250 | a move is a despawn and respawn if and only if it is eight blocks or more on some axis |
| Hub.MoveTold | internal/game/loop/hub.go:227-271 | which packets each move sends, with deltas of 4096 to the block cut towards zero, and where it is recorded |
| Hub.AngleTurns | internal/game/loop/hub.go:283 | an angle byte is the turn in 256 parts cut towards zero, without whole turns |
| Hub.MoveAccuracy | internal/game/loop/hub.go:227-271 | after every handled move the record is within 1/4096 of the request per axis, equal after a jump or an ignored move, and the angles are the requested ones |
| HubViews.ToldDelivered | internal/game/loop/hub.go:134-271 | a player still online with nothing dropped has received exactly what the event tells it |
| HubViews.RosterAfter | internal/game/loop/hub.go:169-271 | what each event does to the registry, and that everything else of every player stays |
| HubViews.MoveReplayed | internal/game/loop/hub.go:242-271 | replaying a move's packets moves the client's entity exactly as the hub moved its record, head included |
| HubViews.WelcomeShows | internal/game/loop/hub.go:172-183 | a newcomer's first packets list everyone, itself included, before spawning exactly the others |
| HubViews.StepSees | internal/game/loop/hub.go:134-271 | every event keeps every undropped client's entities equal to the hub's, and the blocks it was told of at packable positions inside the hub's world |
| HubViews.StepBlocksIff | internal/game/loop/hub.go:134-142 | an event keeps current blocks current if and only if it does not change the world where a position cannot be packed and tell of a state the world lacks at the packed one |
| HubViews.StepListsIff | internal/game/loop/hub.go:169-210 | an event keeps an exact player list exact, and profiles ahead of entities, if and only if it is not a leave with a shared UUID |
| HubBook.StepBooked | internal/game/loop/hub.go:169-271 | every event keeps a client's list equal to the online UUIDs not booked as left, each with an online owner's profile, keeps count of entities ahead of their profile, and keeps the blocks told of equal to the changes since the join at their packed positions |
| HubBook.PresenceReplay | internal/game/loop/hub.go:111-271 | over every run, an undropped client has exactly the other players' entities; it lists a UUID if and only if it is online and its last processed join or leave since the client's join was not a leave; an entity came ahead of its profile if and only if somebody jumped while unlisted; it knows the blocks changed since its join at their packed positions, and one is current if and only if its last change was made there or made the world's state there |
| HubBook.BlocksWithinLimits | internal/game/loop/hub.go:134-142 | when every change since the join has x and z in 26 bits, all blocks told of are current |
| HubBook.LeaveUnlistsEverywhere | internal/game/loop/hub.go:197-210 | right after any leave no undropped client lists the leaver's UUID, whoever else is online under it |
| HubRuns.PlayerListIsRegistry | internal/game/loop/hub.go:169-210 | while nobody joins under an online UUID, a client's list is the registry, profile by profile |
| HubRuns.SharedUuidUnlists | internal/game/loop/hub.go:204-208 | two players under one UUID: when the first leaves, the second is missing from its own list although nothing was dropped |
| HubRuns.NoDrift | internal/game/loop/hub.go:260-264 | after any moves the record is the last spawn position plus the sum of the sent deltas over 4096 |
| HubRuns.RecordIsOwnMoves | internal/game/loop/hub.go:227-271 | in any run a player's record changes by its own moves only |
| HubRuns.WorldIsHistory | internal/game/loop/hub.go:134-142 | the hub's world is the history of the processed block events |
| HubRuns.ChunksAfterRun | internal/game/loop/hub.go:134-142 | after any run each chunk payload shows the blocks as the run left them |
| HubRuns.ChatReaches | internal/game/loop/hub.go:144-158 | a chat line reaches everyone with room, the sender included, as "<name> line" |
| HubRuns.JoinRecorded | internal/game/loop/hub.go:169-195 | a joining player is recorded as it asked |
| HubRuns.OnlineIff | internal/game/loop/hub.go:117-120 | a player is registered if and only if the last processed of its joins and leaves was a join |
| HubRuns.OvertakenLeave | internal/game/loop/hub.go:114-120 | a leave processed before its join leaves the player registered |
| HubRuns.PlacedBeyond | internal/net/session/session.go:505-554 | for every clicked position whose neighbour cannot be packed: the world changes at the neighbour, the client is told of a change elsewhere, and the world there is still flat |
| HubRuns.PlacedEast | internal/protocol/packet/block.go:38-41 | the input x = 33554431 on the east face: placed at 33554432, told at -33554432 |
| HubLoop.BroadcastTwice | internal/game/loop/hub.go:274-280 | two broadcasts in a row reach each client as one |
| HubLoop.PresenceHub.Tell | internal/game/loop/hub.go:274-280 | enqueues on every channel but the mover's, in any iteration order |
| HubLoop.PresenceHub.OnJoin | internal/game/loop/hub.go:169-195 | performs the model's join |
| HubLoop.PresenceHub.OnLeave | internal/game/loop/hub.go:197-210 | performs the model's leave; unknown players are ignored |
| HubLoop.PresenceHub.OnMove | internal/game/loop/hub.go:227-271 | performs the model's move: ignored, jumped, or stepped with the matching packet |
| HubLoop.PresenceHub.OnChat | internal/game/loop/hub.go:146-156 | tells everyone, the sender included, once |
| HubLoop.PresenceHub.OnSetBlock | internal/game/loop/hub.go:134-142 | updates the world and tells everyone, or does nothing without a world or outside its height |
| HubLoop.PresenceHub.Handles | internal/game/loop/hub.go:113-128 | one event of the select performs the model's step |
| HubLoop.PresenceHub.Serves | internal/game/loop/hub.go:111-129 | the loop performs a run of the model, so the run theorems hold of it |
| SessionScan.LoopEndsIff | internal/net/session/session.go:582-583 | a wrapping int32 counter passes its last value at some time if and only if that is not the largest int32 |
| SessionScan.ScanEndsIff | internal/net/session/session.go:582-593 | the nested loops end at some time exactly when neither runs up to the largest int32, the inner one counting only when the outer one runs |
| SessionScan.EndlessCentre | internal/net/session/session.go:582-583 | the one centre on either axis whose view ends there, and a position in it |
| SessionScan.ScanIsWant | internal/net/session/session.go:581-593 | for every centre: within 306 loop bodies the loops end or never will; ended, they have visited exactly the wanted columns |
| SessionProofs.Recentring | internal/net/session/session.go:577-604 | for every centre nothing wanted is dropped and nothing not visited added; if the scan ends and no send fails, the loaded columns are exactly the wanted ones for one packet more than the two views differ by; if it does not end, it only loads |
| SessionProofs.VisitsLoad | internal/net/session/session.go:582-593 | visiting sends each missing column once and skips the rest |
| SessionProofs.DropsUnload | internal/net/session/session.go:594-601 | each column outside the view is unloaded once |
| SessionProofs.ActKeeps | internal/net/session/session.go:577-663 | every action keeps the session's invariant, whether its send succeeds or fails |
| SessionProofs.ScriptAllowed | internal/net/session/session.go:180-245 | every handler performs only actions that keep the invariant |
| SessionProofs.StepKeeps | internal/net/session/session.go:162-246 | one inbound packet keeps the invariant and advances the phase by at most one step of the lifecycle |
| SessionProofs.FramingChangesInLogin | internal/net/session/session.go:350-358 | the framing changes only in Login, on a Login Start |
| SessionDeeds.EveryDeed | internal/net/session/session.go:162-572 | in every run still reading: position, look, hotbar, selected slot, all answers beside the columns in order, and all posts to the hub in order are those of the account kept from the packets |
| SessionDeeds.StepMatches | internal/net/session/session.go:162-246 | one packet changes the session as it changes the account |
| SessionDeeds.PingAnswered | internal/net/session/session.go:268-273 | a status ping gets its own payload back and the session returns |
| SessionDeeds.EnterParts | internal/net/session/session.go:407-466 | the join sequence in order: Login, the event, the view around (0, 0), the teleport, the hub |
| SessionDeeds.ReadsOnIff | internal/net/session/session.go:130-260 | after which packets the session reads on when its sends succeed |
| SessionDeeds.NoAckNoBlock | internal/net/session/session.go:471-521 | without its acknowledgement a dug or placed block is not passed on |
| SessionDeeds.MovePassedOn | internal/net/session/session.go:559-568 | a move is, before anything is sent |
| SessionDeeds.HeardIff | internal/protocol/packet/login.go:15-18 | the phase each packet is heard in |
| SessionView.ChunkOfBlocks | internal/net/session/session.go:608-610 | a coordinate's chunk is the sixteen blocks it lies in, rounded down |
| SessionProofs.PlacedAdjacent | internal/net/session/session.go:525-554 | a block is placed next to the clicked one along the axis of the clicked face |
| SessionProofs.PlacedBack | internal/net/session/session.go:538-554 | placing back against the opposite face returns to the clicked cell, across the 32-bit ends too |
| SessionProofs.PlacedFitsIff | internal/net/session/session.go:538-554 | next to a position that can be packed, the placed one can too, except beyond the six ends of the range |
| SessionRuns.EveryRun | internal/net/session/session.go:130-160 | over every run, wherever it stops: the client holds exactly the loaded columns, never loaded twice nor unloaded while absent, Play is entered at most once, a finished session posted a leave exactly when it posted a join, and one caught in an endless scan is still in the hub |
| SessionRuns.EndlessMove | internal/net/session/session.go:559-604 | a move to a chunk whose scan never ends: the session never reads on, returning only on a failed send, with the invariant kept and nothing unloaded |
| SessionRuns.EveryFrameFramed | internal/net/session/session.go:350-358 | every frame is in the mode of a client that switches right after each Set Compression |
| SessionRuns.FramedIff | internal/net/session/session.go:352-355 | this holds in all runs if and only if the threshold keeps its sign as an int32 |
| SessionRuns.DisagreeingThreshold | internal/net/session/session.go:352-357 | otherwise the first Login Success is in the wrong mode |
| SessionRuns.ViewIsSquareIff | internal/net/session/session.go:581-593 | a view has the 289 columns at most eight away from its centre, or none when a side overflows 32 bits |
| SessionView.StepCentres | internal/net/session/session.go:559-604 | while the session reads on in Play, every packet leaves the view whole and centred on the player's chunk, and the client told of that centre; a move costs one packet for each column that enters or leaves the view, and one more, if the chunk changed, and none otherwise |
| SessionView.LoadsFirst | internal/net/session/session.go:577-604 | a recentring sends the centre, then columns, and unloads only after them |
| SessionView.EveryView | internal/net/session/session.go:407-604 | in every run still reading in Play, the client's columns are the view around the player's chunk, and the last centre it was told is that chunk |
| SessionView.EveryColumnAimed | internal/net/session/session.go:577-593 | in every run, wherever a send fails, each column was sent after a centre and at most eight columns from the last one, unless the scan around that never ends |
| SessionView.EndlessRun | internal/net/session/session.go:559-604 | for any watch and enough room, a run through login to a move that is still scanning |
| SessionLoop.Endpoint.FinishesLogin | internal/net/session/session.go:350-358 | Set Compression before the switch, Login Success after it, stopping at a failed send |
| SessionLoop.Endpoint.StreamsIn | internal/net/session/session.go:581-593 | the nested loops with wrapping counters load what is missing and collect the visited set, for any centre, ended or watched for the given rounds |
| SessionLoop.Endpoint.Unloads | internal/net/session/session.go:594-601 | the loop over the loaded columns, in any order |
| SessionLoop.Endpoint.UpdatesChunks | internal/net/session/session.go:577-604 | recentres the view as specified for any centre |
| SessionLoop.Endpoint.EntersConfiguration | internal/net/session/session.go:373-385 | the three configuration packets in order |
| SessionLoop.Endpoint.AnswersKnownPacks | internal/net/session/session.go:387-402 | all registries, the tags, then the end of configuration |
| SessionLoop.Endpoint.EntersPlay | internal/net/session/session.go:407-466 | the join sequence, ending with the join of the hub |
| SessionLoop.Endpoint.HandlesMove | internal/net/session/session.go:559-572 | posts the move, and recentres the view exactly when the chunk changed |
| SessionLoop.Endpoint.DigsBlock | internal/net/session/session.go:471-482 | acknowledges a dig and posts the removal when joined |
| SessionLoop.Endpoint.PlacesBlock | internal/net/session/session.go:505-521 | acknowledges, and posts the held block next to the clicked one when there is one |
| SessionLoop.Endpoint.SetsCreativeSlot | internal/net/session/session.go:488-499 | only slots 36 to 44 change the hotbar |
| SessionLoop.Endpoint.CarriesItem | internal/net/session/session.go:233-237 | only slots 0 to 8 are selected, so the hotbar is never read out of range |
| SessionLoop.Endpoint.Handles | internal/net/session/session.go:162-246 | one received frame performs the model's step; ids not registered in the phase are ignored |
| SessionLoop.Endpoint.Serves | internal/net/session/session.go:130-160 | the read loop over any received frames performs a run of the model and, unless caught in an endless scan, the deferred leave |

## Left out

- Codec.Reader.Position: the wide reads `String`, `Identifier`, `UUID`, `ByteArray` and `BitSet` of the reader are not modelled as methods; they are length prefixes over the ones that are.
- NbtProofs.NetworkRoundTrip: asks that every string of the tree fits 65535 bytes. The exact condition is proved for a string; for a tree only this direction is, since misread bytes after an overlong string may by chance give the same tree again.
- NbtProofs.DecodingNormalises: asks the same of the accepted tree.
- Cfb8.Stream.XORKeyStream: source and destination are one array or two, never partly overlapping slices.
- World.BlockWorld.ChunkPayload: the lock and the race between a chunk's payload and a block update on their way to one client are not modelled, so no coherence at the client is claimed beyond the hub's own packets.
- HubViews.StepSees: does not say that the blocks a client was told of are current, because packing changes some positions; `HubViews.StepBlocksIff` and `HubBook.PresenceReplay` say exactly when they are.
- SessionRuns.EveryRun: speaks of what the session posts; a posted move may not reach the hub, which drops moves while its channel is full.
- HubBook.PresenceReplay: says nothing about a client that lost a packet; drops are allowed by design and the session does not resynchronise.
- Compound sharing: a compound in a tree is a value, so two references to one compound, and nil tags inside a tree, are not captured; the class models one compound being built.
- Player records: the hub's records are values in the registry that the handlers replace, not shared pointers.
- zlib, AES, RSA, SHA-1, MD5, JSON and HTTP: library calls, given as parameters; of zlib only that inflating undoes deflating, that nothing deflates to no bytes and, for `Frame.RunReadsBackIff`, that what a frame can hold deflates to less than 4 GiB.
- Floating point: NaN, infinities, rounding, and the conversion of out-of-range floats to integers.
- Online mode: encryption requests, key pairs and the session server; a session here runs offline and has no key pair.
- Concurrency inside a session: the keep-alive and the outbound drainer send under the same lock and change none of the modelled fields.
- Other packets: login, registry, status and known-pack layouts are straight field lists.
- Embedded tables: item-to-block data is a parameter of the session.
- Light and heightmap contents beyond their being the source's constants.
- Listening, contexts, tickers, logging and goroutine start-up.
