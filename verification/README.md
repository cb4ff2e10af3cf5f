# SofaBuffers codec: a verified model

SofaBuffers is a tagged wire format. Its C++ core, `include/sofab/sofab.hpp`, holds a streaming
encoder and a resumable decoder. This project models both and proves that each agrees with a
simpler version of itself, and that they agree with each other.

## What is proved

**The decoder does not see chunks.** `Decoder.IStream` is the decoder as the source has it: an
object whose fields are updated in place, a 30-byte carry for the one item a chunk boundary can
cut, a saved path of field ids to find the way back into the level where the bytes ran out, typed
reads that continue where they stopped, skips that do the same, index gates, a byte budget per
top-level field. `Feed` is proved to return, after any chunks, the verdict and the values that all
the bytes give in one piece.

The proof goes through a machine (`Machine`) that consumes one header, one varint, one float or one
payload byte at a time, never looks past its item, and keeps as its state exactly what has to survive
a chunk boundary. `Progress` says what a run of it does over whole pieces. `Cursor`, `Levels` and
`TopLevel` say what the decoder's fields mean against the machine, transition by transition; the
class (`Decoder`) is then a sequence of those transitions. `Parser` is the one-shot form: a
recursive descent over bytes that are all there. It shares the machine's step over one field header,
and takes every payload and every sequence whole, so it never suspends and never resumes. The machine's
runs are proved to be its parses (`Parser`, `Verdicts`). How far a field reaches is said a third time,
from the bytes alone, without handler or state (`Framing`).

**The encoder does not see buffers.** `Encoder.OStream` writes through fast paths where there is room
and byte by byte where there is not, hands full buffers to a sink that copies them or installs
others, and holds sequence headers back until something is in the sequence. Every call is proved to
be one step of a pure hold-back machine (`Tree.Do`), whatever the buffers; without a sink the output
is a prefix. The hold-back machine is proved to write what an encoder with look-ahead writes
(`Tree.TreeBytes`), for every balanced run of calls.

**They agree.** A message written from a tree, fed to a decoder whose schema takes what is in it, is
complete and leaves the values of the tree at their places, without the sequences that emitted
nothing (`RoundTrip`).

**What is refused, and what is stored.** The decisions of a decode are also stated from outside, over
runs, in numbers and comparisons alone: header words, types, bounds, rooms, ranges, indices, the cap
(`Handlers`, `Admission`, `Values`, `Budget`, `Elements`). Whatever bytes a decode accepts, its destination
conforms to the schema (`Conforming`).

Beside these: the word-parallel varint and UTF-8 kernels against byte-at-a-time references, the field
cap (monotone, after the schema, never charging for what was skipped), framing (reading and skipping
consume the same bytes), declining (a receiver with fewer fields gets the same values of the others),
wrapper arrays, and the fixed and growable containers.

## Modules

| module | content |
|---|---|
| `Varint`, `Words`, `BitKernels`, `VarintReaders`, `ZigZag`, `Utf8` | the byte-level kernels and their references |
| `WireFormat`, `Handlers`, `Destination` | headers and ceilings; what a handler does with a field, as a schema tree; the storage it writes |
| `Machine`, `Progress` | the decode as a small-step machine, and its runs over whole pieces |
| `Cursor`, `Levels`, `TopLevel`, `Decoder` | the resumable decoder |
| `Parser`, `Verdicts`, `Framing`, `Declining`, `Caps` | the recursive parser, chunk independence, framing, declined fields, the cap |
| `Admission`, `Values`, `Conforming`, `Refusals`, `Budget`, `Elements` | what is refused, read and stored, with every comparison written out; what an accepted message can have left |
| `Tree`, `Encoder`, `RoundTrip`, `ArrayTrip` | the encoder and the round trip |
| `Containers`, `Growing` | inline vectors and fixed strings; the destinations a decode sizes |
| `Histories`, `Collectors` | what any accepted bytes do at each place of the destination; wrapper arrays |

A handler is a finite schema tree (`Handlers.Node`): a struct dispatches on the field id, a text or row
array places its element at the index its id gives. The decision a typed read takes from a field's
header (missing bound, tag, declared bound or receiver cap, room) is the function `Handlers.Ask`, in the
order the source takes it. Floats are opaque 32- and 64-bit patterns in wire order. Integers are
unbounded, and the source's 64-bit arithmetic is written out where it can matter (`TopLevel.CapCannotFire`,
`Varint`, `Words`). What the sink will do and which bytes are fed are parameters.

## Model

| member | source | states |
|---|---|---|
| Varint.DecodeEncode | include/sofab/sofab.hpp:1541-1553 | every 64-bit value is decoded from its encoding, whatever bytes follow, and takes at most ten of them |
| BitKernels.GatherSpread | include/sofab/sofab.hpp:325-358 | `gather7` inverts `spread7` on 56 bits |
| BitKernels.LengthFormula | include/sofab/sofab.hpp:1585-1588 | the multiply-shift length is the varint's length, for every bit width |
| BitKernels.EncodeVarintPadded | include/sofab/sofab.hpp:1575-1596 | the padded store writes the reference encoding, and no byte outside its ten-byte window |
| BitKernels.EncodeVarint | include/sofab/sofab.hpp:1541-1553 | the loop encoder is the reference encoder |
| VarintReaders.GetVarintWindowed | include/sofab/sofab.hpp:3260-3313 | the word-parallel decoder gives the reference verdict, value and cursor |
| VarintReaders.GetVarint | include/sofab/sofab.hpp:3356-3399 | so does the checked one; a cut varint leaves the cursor where it was, an over-long one is not taken for a cut one |
| VarintReaders.SkipVarintWindowed | include/sofab/sofab.hpp:3316-3338 | skipping a varint moves the cursor as decoding it does |
| VarintReaders.SkipVarint | include/sofab/sofab.hpp:3409-3424 | the same, bounds-checked |
| ZigZag.ZigZagInverse | include/sofab/sofab.hpp:421-435 | zig-zag is a bijection between signed and unsigned 64-bit values |
| ZigZag.BitsInverse | include/sofab/sofab.hpp:421-435 | its shift-and-xor form is its own inverse pair on every word |
| ZigZag.BitsAreArithmetic | include/sofab/sofab.hpp:421-435 | and on every word it computes the arithmetic form of the two's-complement value |
| Utf8.GrammarIsAutomaton | include/sofab/sofab.hpp:509-559 | the automaton run from ACCEPT accepts exactly the strings of section 4 of RFC 3629 |
| Utf8.RejectAbsorbs | include/sofab/sofab.hpp:509-559 | REJECT is absorbing |
| Utf8.AdvanceSplit | include/sofab/sofab.hpp:552-559 | advancing over the pieces of a payload is advancing over the whole |
| Utf8.Utf8Valid | include/sofab/sofab.hpp:560-605 | the validator that skips ASCII words accepts exactly those strings too |
| Utf8.ClampLength | include/sofab/sofab.hpp:759-766 | a cut keeps the longest prefix that fits and ends on a character boundary, valid if the source was |
| Containers.FixedString.Assign | include/sofab/sofab.hpp:874-883 | a fixed string keeps that prefix, and its terminator |
| Handlers.GateIsAdmission | include/sofab/sofab.hpp:5330-5372 | the one-compare index gate fires exactly when an armed bound is crossed, and reports the tier the collector's own admission reports |
| Handlers.HeaderTable | include/sofab/sofab.hpp:4813-4952 | a field's first word, number by number: ids above 2^31 - 1 malformed, tags 0, 1 and 6 a header, 7 the end of the level |
| Handlers.FixlenTable | include/sofab/sofab.hpp:4852-4868 | a fixlen word, number by number: subtypes 0 and 1 with lengths 4 and 8 only, 2 and 3 with any length up to 2^31 - 1, every other malformed |
| Handlers.ArrayTable | include/sofab/sofab.hpp:4869-4886 | an array's count, up to 2^31 - 1, under tags 3 and 4 |
| Handlers.FloatArrayTable | include/sofab/sofab.hpp:4887-4920 | an array of floats: element words 32 and 65 and no other |
| Machine.StepStable | include/sofab/sofab.hpp:4305-4316 | the machine's verdict on an item does not depend on what follows it |
| Machine.StepLocal | include/sofab/sofab.hpp:3846-3903 | a step looks at no byte past its item |
| Machine.StepGood | include/sofab/sofab.hpp:4003-4048 | every step keeps the saved path re-enterable and the half-read field begun, asked for and unfinished |
| Machine.NeedIsShort | include/sofab/sofab.hpp:3027-3041 | what a reachable state waits for is the start of one item, under thirty bytes |
| Machine.RunSplit | include/sofab/sofab.hpp:4331-4398 | running over a part and then over what it left plus the rest is running over it all |
| Machine.RunGood | include/sofab/sofab.hpp:4615-4633 | a run that is not refused stops in a reachable state, holding a suffix of the bytes that fits the carry |
| Progress.TextEnd | include/sofab/sofab.hpp:3566-3667 | a text taken in one piece is the text taken byte by byte: same bytes, same length, same UTF-8 verdict |
| Progress.FloatItems | include/sofab/sofab.hpp:5406-5448 | a float array moved in bulk is the array read element by element |
| Progress.TollLive | include/sofab/sofab.hpp:4594-4604 | no byte is discounted inside a level that is being read |
| Decoder.ParseFieldHeader | include/sofab/sofab.hpp:3835-3928 | header, metadata and index gate in the source's order read what the specification reads |
| Decoder.IStream.BeginField | include/sofab/sofab.hpp:3835-3928 | a nested level stops (over the cap, cut, malformed, ended) just where the machine does, or has the machine's next field in hand |
| Decoder.IStream.ReadPayload | include/sofab/sofab.hpp:3566-3592 | a typed text read ends consumed, cut or refused as the machine's run over its bytes does |
| Decoder.IStream.ReadPayloadPiece | include/sofab/sofab.hpp:3636-3667 | so does a piece of it, with the UTF-8 state carried |
| Decoder.IStream.ReadIntElements | include/sofab/sofab.hpp:5018-5152 | an integer array in windowed and checked runs, stored and surplus elements alike, is the machine's run element by element |
| Decoder.IStream.ReadArrayElements | include/sofab/sofab.hpp:5750-5884 | a sized array read, fresh or resumed, leaves the machine's values |
| Decoder.IStream.SkipPayload | include/sofab/sofab.hpp:4150-4225 | a declined field is stepped over as the machine steps over it, however it is cut |
| Decoder.IStream.SkipSequence | include/sofab/sofab.hpp:4249-4268 | a sequence nobody asked for is walked with the gate and the span check suspended, and both are restored |
| Decoder.IStream.ReadMessage | include/sofab/sofab.hpp:5268-5405 | a sequence that is read, entered afresh or along the saved path, consumes what the machine consumes and restores its level |
| Decoder.IStream.FinishField | include/sofab/sofab.hpp:3950-3967 | a delivered field is settled: consumed, stepped over and discounted, or recorded where it was cut |
| Decoder.IStream.SuspendHere | include/sofab/sofab.hpp:4003-4022 | the innermost level claims the suspension, the levels above record their ids |
| Decoder.IStream.DeliverPending | include/sofab/sofab.hpp:4061-4091 | the half-delivered field goes on where it stopped |
| Decoder.IStream.DescendResume | include/sofab/sofab.hpp:4103-4135 | replaying one saved id re-enters the level the machine is in |
| Decoder.IStream.DispatchLevel | include/sofab/sofab.hpp:3779-3821 | a nested level, entered or re-entered, ends, suspends or is refused with the machine |
| Decoder.IStream.OfferWithheld | include/sofab/sofab.hpp:4703-4776 | an over-cap field is offered without its payload: refused by its schema, declined and walked, or capped |
| Decoder.IStream.ParseTopLevel | include/sofab/sofab.hpp:4667-4798 | a window is parsed to the machine's end of it |
| Decoder.IStream.ParseWindow | include/sofab/sofab.hpp:4644-4656 | a window leaves the decoder refused, or at rest with a suffix of it unconsumed |
| Decoder.IStream.FeedStitched | include/sofab/sofab.hpp:4352-4391 | the held item and the chunk are parsed as if joined; the branch for a carry that could not be completed is dead |
| Decoder.IStream.Feed | include/sofab/sofab.hpp:4331-4398 | after any chunks the verdict and the values are those of all their bytes in one run; a refusal stays the answer and delivers nothing more |
| Decoder.IStream.Reset | include/sofab/sofab.hpp:4424-4454 | a reset decoder is a new one |
| Admission.BoundDecides | include/sofab/sofab.hpp:5560-5585 | over runs: a text or array over its declared bound is malformed under every cap, over the receiver's bound or the cap a limit, without room a wrong call, and otherwise read |
| Admission.UnboundedRefused | include/sofab/sofab.hpp:5547-5552 | a read that states no bound is refused whatever comes, the cap speaking first |
| Admission.TypeDecides | include/sofab/sofab.hpp:5193-5460 | every other read takes what has its type, unless it is over the cap or a sequence 256 deep |
| Admission.OthersWalked | include/sofab/sofab.hpp:3483-3536 | a field that is no member, or has another type than its member, is walked and changes nothing; only a header without a size is stopped by the cap |
| Admission.MalformedStops | include/sofab/sofab.hpp:4813-4952 | bytes that are no header, and an end marker where nothing is open, end the decode as malformed |
| Values.ScalarDecides | include/sofab/sofab.hpp:5193-5260 | over runs: the integer or boolean stored is the one its varint stands for, zig-zag undone, anything but zero true; an over-long varint is malformed |
| Values.FloatDecides | include/sofab/sofab.hpp:5193-5260 | a float stored is its four or eight bytes |
| Values.TextDecides | include/sofab/sofab.hpp:3566-3667 | a string that is not UTF-8 is malformed; any other payload is stored, its length and every byte of it |
| Values.ArrayDecides | include/sofab/sofab.hpp:5018-5152 | an array whose words are all there is malformed exactly if one of them, wherever it stands, is outside the declared range; otherwise every element is the value of its word |
| Values.ElementsOk | include/sofab/sofab.hpp:5018-5036 | whatever bytes it is decoded from, sized or fixed-room, every element is within its range |
| Conforming.CompleteConforms | include/sofab/sofab.hpp:4331-4398 | whatever bytes a decode accepts, its destination has only places the schema has, and there only values the schema allows: texts within bound and room, strings UTF-8, arrays within bound and room with every element in range, wrapper arrays within their count |
| Refusals.RefusalKeeps | include/sofab/sofab.hpp:4607-4613 | a decode that is refused had taken the bytes up to one item, and what was decoded of them is still there, but for the refused field's own place |
| Parser.PayloadFollows | include/sofab/sofab.hpp:5193-5460 | the machine's run over a payload does what taking it whole does |
| Parser.FieldFollows | include/sofab/sofab.hpp:3779-3821 | its run over a field is the recursive parse of the field |
| Parser.LevelFollows | include/sofab/sofab.hpp:3779-3821 | its run over a sequence is the recursive parse to the end marker |
| Parser.MessageFollows | include/sofab/sofab.hpp:4667-4952 | its run over a message is the recursive parse of the message |
| Verdicts.OneShot | README.md:219-267 | complete exactly when the bytes are whole accepted fields one after another, and then with their values; incomplete exactly when the last is short; refused exactly as the parser refuses |
| Verdicts.LatchHolds | include/sofab/sofab.hpp:4607-4613 | a refusal is final: no further byte changes verdict or values |
| Verdicts.Stitched | include/sofab/sofab.hpp:4352-4391 | a stitched item is still cut, with everything there is, or taken whole, never in part |
| Verdicts.ChunkIndependence | README.md:219-267 | two divisions of the same bytes end in the same outcome |
| TopLevel.CapCannotFireIsSound | include/sofab/sofab.hpp:3670-3684 | the hoisted check says yes exactly when span, window and the largest announceable need fit the budget, in 64-bit arithmetic that may wrap; then no check of the window can fire |
| TopLevel.NeedBound | include/sofab/sofab.hpp:4983-4996 | no header's announced need, the count-times-width product included, reaches 64 bits |
| Budget.OverBudgetStops | include/sofab/sofab.hpp:4703-4776 | behind any complete fields, a header that would be read and is over the cap by itself and what it announces ends the decode with a limit: payload length, count times width, one byte for each integer |
| Budget.OverBoundStops | include/sofab/sofab.hpp:5560-5585 | behind any complete fields, a text or array over its declared bound is malformed, over the receiver's a limit |
| Budget.CompleteWithinLimits | include/sofab/sofab.hpp:4983-4996 | in a decode that completes, every top-level field that was read was within the cap, payload included, and within its bound and room |
| Budget.FieldAccrues | include/sofab/sofab.hpp:4580-4604 | what a field of a sequence costs, told from the bytes: all of it, less what nobody asked for, discounted at least once and exactly once unless it is a sequence |
| Budget.AccruedStops | include/sofab/sofab.hpp:3844-3845 | inside a sequence at any depth, once the bytes read of it are over the cap the next byte ends the decode with a limit |
| Budget.SequenceOverBudget | include/sofab/sofab.hpp:3844-3845 | the same told from the bytes of a whole message |
| Caps.CapMonotone | include/sofab/sofab.hpp:3696-3700 | a run the lower cap does not stop is the same run under the higher cap |
| Caps.SchemaFirst | include/sofab/sofab.hpp:4703-4776 | over whole messages: after complete fields, a header that breaks its schema ends the run as malformed, with the same values, under any two caps the fields before it pass |
| Caps.DeclinedNeverCapped | include/sofab/sofab.hpp:4703-4776 | under a cap of ten bytes or more a run is never stopped by the cap inside a declined field: the field is whole, and it is the rest that was stopped |
| Caps.DeclinedCapped | include/sofab/sofab.hpp:4703-4776 | a declined top-level field, header and payload, however deep, is stopped by the cap exactly when its header states no size and is itself longer than the cap: why ten bytes are needed |
| Caps.ReadsNothing | include/sofab/sofab.hpp:4703-4776 | a receiver that reads nothing is never stopped by such a cap, whatever it is sent |
| Caps.SkippedNeverCharged | include/sofab/sofab.hpp:4580-4604 | the cap stops a field only for bytes that were read of it, or for the announced size of a field that would be |
| Caps.RunsFairly | include/sofab/sofab.hpp:3844-3845 | so over whole runs, with any number and depth of declined children |
| Framing.FieldTaken | include/sofab/sofab.hpp:4150-4268 | every field that is whole ends where the bytes alone say, whoever reads or declines it |
| Framing.ReadAndSkipAgree | include/sofab/sofab.hpp:4150-4268 | two handlers that both get past a field stand at the same byte behind it |
| Declining.FieldBeside | include/sofab/sofab.hpp:3316-3338 | a field one receiver gets past, a receiver with fewer fields gets past: same bytes, no more charged, the same values where it has a place |
| Declining.DecliningKeepsOthers | include/sofab/sofab.hpp:4150-4268 | a message complete for a receiver is complete for every receiver that declines some of its fields, at any depth, and leaves the same values of all the others and nothing else |
| Tree.HoldBackRefines | include/sofab/sofab.hpp:1688-1737 | holding headers back writes what look-ahead writes, and a tree that writes nothing leaves no trace |
| Tree.RunKeepsTally | include/sofab/sofab.hpp:1393-1437 | over every run that ends no sequence it did not begin: the held ids are a suffix of the open ones, the frames in the bytes that have gone out are exactly the others, and headers less end markers gone out are the depth less the held |
| Tree.PushHasRoom | include/sofab/sofab.hpp:1421-1426 | after any run within the depth limit the room for held ids takes one more: a push never fails |
| Tree.BalancedRun | include/sofab/sofab.hpp:2410-2482 | every balanced run of calls is the run of a tree, and writes that tree's bytes |
| Tree.FieldLayout | include/sofab/sofab.hpp:255-284 | the wire form of every kind of field, number by number: tags, subtypes, counts, zig-zag, and the elements in the order they were given |
| Tree.SequenceLayout | include/sofab/sofab.hpp:255-284 | and of a sequence |
| Encoder.OStream.InitBuffer | include/sofab/sofab.hpp:1514-1533 | a buffer is installed after its reserved head, or refused when it has no usable byte behind a sink |
| Encoder.OStream.HandOver | include/sofab/sofab.hpp:1617-1631 | a handover loses no message byte and leaves room for one; a sink that copied has the buffer start over without a head, one that installed another has it start behind the new head |
| Encoder.OStream.PushByte | include/sofab/sofab.hpp:1604-1634 | one byte more, a refusal, or a cut with the buffer full |
| Encoder.OStream.PushBytes | include/sofab/sofab.hpp:1647-1661 | the same for a run of bytes, in one move or one by one; the head reserved at the front of the buffer stays as it was |
| Encoder.OStream.CommitPending | include/sofab/sofab.hpp:1708-1722 | the held headers go out outermost first, or are cut short in order |
| Encoder.OStream.WriteScalar | include/sofab/sofab.hpp:1773-1793 | held headers, header and value, on either path |
| Encoder.OStream.WriteFixlen | include/sofab/sofab.hpp:1804-1834 | the same with a payload |
| Encoder.OStream.WriteIntArray | include/sofab/sofab.hpp:1885-1961 | the same with elements, in unchecked runs where ten bytes are left for each |
| Encoder.OStream.WriteFloatArray | include/sofab/sofab.hpp:1977-2020 | the same with its element word, there even for an empty array |
| Encoder.OStream.Write | include/sofab/sofab.hpp:2244-2305 | an accepted field is one step of the hold-back machine; a refused one is latched |
| Encoder.OStream.SequenceBeginLazy | include/sofab/sofab.hpp:2410-2428 | so is opening a sequence within the limits |
| Encoder.OStream.SequenceEnd | include/sofab/sofab.hpp:2439-2449 | and closing one |
| Encoder.OStream.SequenceEndKeep | include/sofab/sofab.hpp:2475-2482 | and closing one that is there even if empty |
| Encoder.OStream.Flush | include/sofab/sofab.hpp:2141-2159 | a last flush leaves every message byte with the sink, and says how many bytes were in the buffer |
| Encoder.AcceptedFields | include/sofab/sofab.hpp:2244-2305 | a field is refused for its id, its size or a string that is not UTF-8, and for nothing else |
| Encoder.OStream.PerformAll | include/sofab/sofab.hpp:1604-1661 | through any sink, with any buffers, a run of accepted calls delivers the hold-back machine's bytes and touches no reserved head; without a sink it leaves the first bytes that fit, and is good exactly if all do |
| Encoder.CallsWriteTree | include/sofab/sofab.hpp:2410-2482 | and those are the look-ahead bytes of the tree the calls describe |
| RoundTrip.HeaderReads | include/sofab/sofab.hpp:4813-4952 | the header and metadata the encoder writes are read back |
| RoundTrip.FieldReads | include/sofab/sofab.hpp:5193-5460 | every kind of field is read back with its value |
| RoundTrip.RoundTrips | include/sofab/sofab.hpp:1773-2020 | a written message, each of its top-level fields within the cap, is complete for every schema that takes what is in it, and leaves exactly the values of its tree |
| RoundTrip.AcceptedTreesReturn | include/sofab/sofab.hpp:2244-2305 | every tree the encoder takes, one kind to an id, repetitions included, comes back whole under the schema of its own fields |
| RoundTrip.OneKindPerId | include/sofab/sofab.hpp:3513-3536 | and no schema takes a tree with two kinds under one id: a struct that takes one declines the other |
| RoundTrip.PrunedSame | include/sofab/sofab.hpp:2439-2482 | a tree and the tree without its silent sequences are the same bytes and the same values |
| RoundTrip.FieldIsThere | include/sofab/sofab.hpp:5193-5460 | where ids differ, each field is found at its id with the value it was written with, by every kind of read: scalars, floats, strings, blobs, raw buffers, arrays and spans, as far as the reader made room |
| RoundTrip.FieldReturns | include/sofab/sofab.hpp:1773-2020 | the whole way: what was written under an id is there after the decode, every scalar, every byte of a text, element `k` of an array at `k` |
| RoundTrip.SequenceIsThere | include/sofab/sofab.hpp:5268-5405 | and each sequence's content below its id |
| Containers.InlineVector.Resize | include/sofab/sofab.hpp:1243-1258 | resizing clamps, keeps the front and resets every slot that leaves or enters |
| Containers.InlineVector.EmplaceBack | include/sofab/sofab.hpp:1267-1272 | at capacity the last slot is used again |
| Containers.InlineVector.PlaceAt | include/sofab/sofab.hpp:7043-7119 | the placement loop ends for an admitted index, with the old elements kept and defaults up to the index |
| Containers.PlacementEnds | include/sofab/sofab.hpp:1267-1272 | it reaches an index after some number of turns exactly when the capacity holds it |
| Growing.GrowingArray.Deliver | include/sofab/sofab.hpp:5810-5884 | a growable array, of varints or of floats, is never enlarged beyond what has arrived for the field divided by the element's width, nor beyond the count; what it holds is what all the bytes so far decode to |
| Growing.GrowingArray.DeliverAll | include/sofab/sofab.hpp:6376-6416 | over any list of chunks, with what is left over carried along: in just when the bytes hold every element, malformed just when one delivery would be, and then as long as the wire's count with every element decoded |
| Growing.DeliveriesAddUp | include/sofab/sofab.hpp:6376-6416 | by induction over the chunks: deliveries with carry decode what one delivery of their concatenation decodes |
| Growing.SameElements | include/sofab/sofab.hpp:5018-5152 | the elements of a growable array are those the decoder's own array read gives a fixed-room array from the same bytes, declared ranges included |
| Growing.GrowingText.Deliver | include/sofab/sofab.hpp:3566-3667 | a growable string or blob is sized to what has arrived, filled in one move or piece by piece with the UTF-8 state carried, and published when the last byte is in |
| Growing.GrowingText.DeliverAll | include/sofab/sofab.hpp:5565-5585 | over any list of chunks it is the payload, in just when the payload is all there and, for a string, is UTF-8; never enlarged beyond what has arrived or was announced |
| Histories.FieldElsewhere | include/sofab/sofab.hpp:3779-3821 | a field changes nothing but its own place, what is below it, and the length of the array it is in |
| Histories.DecodeComes | include/sofab/sofab.hpp:4667-4952 | whatever bytes a decode accepts, its destination holds at every place what the bytes' own history at that place makes of it |
| Collectors.DeclinedYetPlaced | include/sofab/sofab.hpp:6939-7119 | a declined field has extended its array exactly when its wire type is the row's, its subtype is not, and its index is admitted |
| Collectors.WrongFloatRow | include/sofab/sofab.hpp:6939-7119 | a message for which it happens: rows of floats declared, a row of doubles sent, the decode complete, the array three long with nothing in it |
| Collectors.PlacedIsAdmitted | include/sofab/sofab.hpp:6635-6660 | a refused index never extends the array |
| Collectors.OfferedLength | include/sofab/sofab.hpp:6791-6830 | a field raises its array's length to its index plus one just when it is given its place |
| Collectors.LevelLength | include/sofab/sofab.hpp:6791-6830 | a whole array of any bytes ends as long as it was or as its highest placed index plus one, and the run goes on behind it |
| Collectors.HighestIs | include/sofab/sofab.hpp:7217-7229 | the highest placed index is one of the placed ones and above all others, and there is none just when none was placed |
| Collectors.UnplacedStays | include/sofab/sofab.hpp:6791-6830 | at an index that was not placed, and below it, a whole array of any bytes changes nothing |
| Collectors.ArrayField | include/sofab/sofab.hpp:7043-7119 | an array's field begins it anew, places its placed indices and clears every other |
| Collectors.DecodedLength | include/sofab/sofab.hpp:7217-7229 | whatever bytes a decode accepts, an array at any depth is as long as the highest index given a place since it last began plus one, zero if none was: declined, mistyped and refused elements included |
| Collectors.AbsentIsDefault | include/sofab/sofab.hpp:6791-6830 | whatever bytes a decode accepts, where nothing was placed or stored since an array around it last began the destination holds nothing |
| Elements.TextElement | include/sofab/sofab.hpp:6791-6830 | over runs, an element of an array of strings or blobs, case by case: over an index bound its tier, over the elements' bound malformed or a limit, without bound or room a wrong call, of another type walked, and otherwise given its place and read |
| Elements.RowElement | include/sofab/sofab.hpp:7043-7119 | an element of an array of rows, case by case, with the place made for a row of the wrong subtype |
| Elements.TagStops | include/sofab/sofab.hpp:3853-3928 | an index over its bound is refused at the tag, whatever follows or does not |
| ArrayTrip.TextsReturn | include/sofab/sofab.hpp:6791-6830 | strings and blobs below every bound of their array come back: complete, as long as the highest index plus one, each text at its index with every byte |
| ArrayTrip.RowsReturn | include/sofab/sofab.hpp:7043-7119 | so do rows |

## Left out

- The source's claim that a field skipped for its tag never becomes an element (include/sofab/sofab.hpp:3853-3874) fails for rows whose wire type leaves a subtype open; the code is modelled as it is, with the exact condition (`Collectors.DeclinedYetPlaced`).
- Decoder.IStream.FinishField: after a refusal the source still steps its cursor over the refused field before it looks at the flag; the model returns at once. Cursor and progress after a refusal are not observable.
- Decoder.IStream.Feed: growable destinations are not part of it (their fixed-room forms are); how a growable one is sized and filled is modelled by itself in `Growing.GrowingArray` and `Growing.GrowingText`, and `Growing.SameElements` ties its elements to the machine's.
- Growing.GrowingArray.Deliver: only the reads that size their destination; a vector its caller sized too short can be refused at one moment or another depending on the chunks (include/sofab/sofab.hpp:5832-5840).
- Decoder.IStream.Feed: what a refused field left at its own destination is not specified; everything else is.
- Decoder.IStream.DeliverPending: a handler that answers the same field differently the second time, or whose destination has moved, is outside the documented contract and outside the model.
- Decoder.IStream.Reset: the destination is taken to be a fresh one, as the source asks of its caller.
- The span counters are unbounded naturals: their wrap-around over more than 2^64 fed bytes is not modelled, except in the hoisted cap check.
- Fields of the decoder other than its arrays are kept in one record value, so that a method's whole effect on them is one value.
- Stream contents after a refused encode, beyond that the refusal is latched: the fast paths keep writing then, and nothing is promised about it.
- The `skipped()` counter: it is raised before a cut header is rewound, so it depends on the chunks.
- A `std::string` read that accepts a string or a blob; only the two separate reads are modelled.
- Big-endian stores and loads, and the build that does not check UTF-8.
- Templates, concepts, `std::function`, move semantics and ownership; one element type per width and sign stands for the rest, at 64 bits.
- Generated message classes, the command-line tools, benchmarks and build files.
- bits_equal.hpp: one length check and one comparison of bytes.
