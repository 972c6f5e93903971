# TrUAPI host and playground: a Dafny model

A model of the stateful and byte-level parts of the TrUAPI repository: the UniFFI
bindings of the iOS host, the container that locks down a product's realm, the
playground's chain-head helpers, its chat worker and end-to-end hooks, and the
explorer's type linker. `dafny verify dfyconfig.toml` checks everything.

## What is modelled

| file | contents |
|---|---|
| `BigEndian`, `Utf8` | integers in network order; UTF-8 as in section 3 of RFC 3629, with U+FFFD repair |
| `Wire` | readers with the outcomes Ok, Throw and Trap, writers, and converter combinators with three laws |
| `RendererTree`, `RendererCodec`, `RendererIO` | the recursive `CustomRendererNode` converter: on values, its theorems, and the reader and writer as the code runs them |
| `ReviewCodec` | a nested confirmation review from the same combinators |
| `WireFormat`, `WireWriter` | what each leaf reads on any buffer; the writers without combinators, proved to write the same bytes |
| `Handles`, `HandleMap`, `HostCallbacks` | ownership of Swift objects across the FFI |
| `AsyncCalls`, `AsyncCaller` | async calls into Rust: the interleaved system, and one call's poll loop |
| `ForeignFutures` | async calls from Rust into Swift |
| `ChainHead`, `TransactionContext`, `TransactionOutcome`, `ContextBuilder`, `SharedOperations` | two unary calls racing with follow events; the outcome by the events alone |
| `DotNs`, `DotNsLookup` | the username lookup with its event queue |
| `JsObject`, `Lockdown`, `LockSequence`, `LockHelpers`, `ContainerScript` | JavaScript objects (ECMA-262 sections 6.1.7.3, 10.1.6.3, 10.1.8.1, 10.1.9.2, 10.1.10.1), property locks, the container script |
| `TypeLink` | the tokenising loop of the type linker |
| `MessagePort` | the buffered WebSocket port of the bootstrap script |
| `StatusWaiters`, `ConnectionWait` | promises waiting for a status |
| `RenderInstances`, `Diagnosis`, `DiagnosisReport` | the chat worker |

Protocols appear twice: as a step function on values, about which whole runs are
reasoned, and as a class whose methods change fields the way the source does and
are proved to take exactly those steps. In a run, an event that cannot happen
where it stands is skipped, so every sequence of events is a run. How a run ends is
also stated over its events alone (`AsyncCalls.CompletedOnReady`, `TransactionOutcome`,
`DotNs.LookupOutcome`, `RenderInstances.FatesByEvents`, `Diagnosis.StatusIsVerdict`).

The three laws of a converter (`Wire.Lawful`) are: what was written reads back,
whatever stands around it; what is accepted lies within the buffer and, under the
checks, is exactly what writing would produce; and the checks turn outcomes only
into rejections. They would hold of any self-consistent format; `WireFormat` and
`WireWriter` pin down the one in use. `Checks` names the conditions the Swift readers leave open: Bool
bytes other than 0 and 1, ill-formed strings, negative lengths.

## What came out

- Re-encoding reproduces a buffer exactly when Bool bytes and strings were canonical
  (`RendererCodec.ReproducedIffCanonical`); a negative length is the only way a
  reader traps (`RendererCodec.TrapsIffNegativeLength`, `RendererCodec.NoTrapWithoutNegative`).
- `Bytes32` accepts any length (`ReviewCodec.HashOfAnyLength`).
- A property that is non-configurable but writable, and happens to read right, is
  reported as locked though it is not (`Lockdown.SilentGap`); `Lockdown.PersistsIff`
  says when a lock holds. Pinning NaN is always reported as failed, and the `delete`
  fallback of `freezeAndDelete` has no effect on ordinary objects.
- A container script that reports nothing leaves every named property as the script put it, for
  good wherever it was absent or configurable (`LockSequence.CleanRunContains`).
- A head stream that settles the promise before `subscribe` returns, by a stop or by a first
  event that cannot be used, is never unsubscribed from (`TransactionContext.LeaksIff`).
  Were both calls given one operation id, exactly one of them would wait for ever
  (`SharedOperations.BothServedIff`).
- The linker's comment promises whole-word matches that prefer the longest name. It
  tries only the first occurrence of each name: `TypeLink.LinkedIff` says when a link is
  found, `TypeLink.UnlinkedIsHidden` what is behind every miss, and
  `TypeLink.FirstOccurrenceHidesLater` shows one. A name that begins with a symbol can be
  linked inside a word: `TypeLink.LinkIsWholeIff` says when, and
  `TypeLink.SymbolNamesCanBreak` shows it. The model follows the code.
- A message is lost exactly if the first dialling is made by its post and throws
  (`MessagePort.AcceptsAllIff`); the port never recovers (`MessagePort.FailedDialIsFinal`).
- With `failPending` among the events, their order can decide a status;
  `Diagnosis.OrderMattersIff` says exactly when.
- A message id that is the empty string leaves later render instances waiting
  (`RenderInstances.EmptyIdStrands`).
- Dropping a foreign future sets a flag that the running call may mind: it changes what
  is reported, never whether (`ForeignFutures.DropsChangeReportsIff`), as
  `ForeignFutures.DropCanChangeAReport` shows.

## Model

| member | source | states |
|---|---|---|
| `BigEndian.UintRoundTrip` | ios/truapi-host/Sources/TrUAPIHost/truapi.swift:190-193 | The big-endian bytes of an n-byte integer read back as that integer |
| `BigEndian.BytesRoundTrip` | ios/truapi-host/Sources/TrUAPIHost/truapi.swift:128-142 | Every n bytes are the encoding of exactly the integer that reading them gives, which is below 256^n |
| `BigEndian.Int32RoundTrip` | ios/truapi-host/Sources/TrUAPIHost/truapi.swift:190-193 | Every Int32, negative ones included, survives writing and reading |
| `Utf8.DecodeOfEncode` | ios/truapi-host/Sources/TrUAPIHost/truapi.swift:570-580 | Decoding the UTF-8 of any text gives the text back (section 3 of RFC 3629) |
| `Utf8.EncodedByTable` | ios/truapi-host/Sources/TrUAPIHost/truapi.swift:570-580 | For every scalar: the number of bytes, the marker bits and the place of the bits that the table in section 3 of RFC 3629 gives |
| `Utf8.EncodeOfDecode` | ios/truapi-host/Sources/TrUAPIHost/truapi.swift:570-580 | Well-formed bytes decode to a text whose UTF-8 is those bytes |
| `Utf8.ReproducedIffWellFormed` | ios/truapi-host/Sources/TrUAPIHost/truapi.swift:552-556 | Encoding the decoded bytes reproduces them exactly if they were well formed, U+FFFD repair included |
| `Utf8.RepairIsVisible` | ios/truapi-host/Sources/TrUAPIHost/truapi.swift:552-556 | Unless the bytes are well formed, the decoded text holds a U+FFFD |
| `Utf8.RepairGrowth` | ios/truapi-host/Sources/TrUAPIHost/truapi.swift:552-556 | Repairing ill-formed bytes never yields more than three bytes for each byte read |
| `Wire.ReadInt32Window` | ios/truapi-host/Sources/TrUAPIHost/truapi.swift:128-142 | A four-byte read gives v exactly if the window holds the encoding of v |
| `Wire.UintLawful` | ios/truapi-host/Sources/TrUAPIHost/truapi.swift:7042-7049 | The three laws for unsigned integers of any width: round trip, canonical reading within the buffer, agreement of the checked readers |
| `Wire.BoolLawful` | ios/truapi-host/Sources/TrUAPIHost/truapi.swift:516-535 | The three laws for Bools |
| `Wire.BlobLawful` | ios/truapi-host/Sources/TrUAPIHost/truapi.swift:586-597 | The three laws for length-prefixed data; the reader that checks lengths stops right behind the negative one |
| `Wire.StringLawful` | ios/truapi-host/Sources/TrUAPIHost/truapi.swift:540-581 | The three laws for strings: round trip for every text that fits, canonical bytes under the string check |
| `Wire.OptionalLawful` | ios/truapi-host/Sources/TrUAPIHost/truapi.swift:6567-6585 | Optional of a lawful converter obeys the three laws |
| `Wire.ListLawful` | ios/truapi-host/Sources/TrUAPIHost/truapi.swift:6884-6904 | A counted array of lawful elements is lawful, for any count that fits Int32 |
| `Wire.ReadManyAgrees` | ios/truapi-host/Sources/TrUAPIHost/truapi.swift:6895-6904 | The element loop behaves the same with and without the extra checks until the first rejection |
| `Wire.EnumLawful` | ios/truapi-host/Sources/TrUAPIHost/truapi.swift:4456-4524 | The three laws for an enum without payloads |
| `Wire.PairLawful` | ios/truapi-host/Sources/TrUAPIHost/truapi.swift:1764-1781 | Fields written one after the other read back one after the other: lawful converters compose |
| `Wire.CaseLawful` | ios/truapi-host/Sources/TrUAPIHost/truapi.swift:5583-5679 | The payload of one enum case, made into a value of the enum, keeps the laws and belongs to that case |
| `Wire.VariantLawful` | ios/truapi-host/Sources/TrUAPIHost/truapi.swift:5583-5679 | An enum with lawful case payloads is lawful |
| `WireFormat.Int32Layout` | ios/truapi-host/Sources/TrUAPIHost/truapi.swift:128-142 | Network byte order and two's complement, as arithmetic over the four bytes |
| `WireFormat.BoolReadsOneByte` | ios/truapi-host/Sources/TrUAPIHost/truapi.swift:516-535 | On any buffer: a nonzero byte reads as true; the checked reader rejects exactly the bytes above 1; true and false are written as 1 and 0 |
| `WireFormat.BlobReadsLength` | ios/truapi-host/Sources/TrUAPIHost/truapi.swift:586-597 | On any buffer: a trap exactly on a negative length, a value exactly if length and payload are within the buffer, and then that payload |
| `WireFormat.StringReadsPayload` | ios/truapi-host/Sources/TrUAPIHost/truapi.swift:570-580 | Traps and succeeds with the data reader, decodes its payload, and is reproduced by writing exactly if the payload was well formed |
| `WireFormat.OptionalReadsTag` | ios/truapi-host/Sources/TrUAPIHost/truapi.swift:6567-6585 | On any buffer: tag 0 is nil, 1 precedes a value, any other throws `unexpectedOptionalTag`; the writer puts 0 or 1 |
| `WireFormat.EnumReadsCase` | ios/truapi-host/Sources/TrUAPIHost/truapi.swift:4459-4484 | On any buffer: exactly the numbers from 1 to the number of cases are accepted, in the order listed; others throw `unexpectedEnumCase` |
| `WireFormat.VariantReadsCase` | ios/truapi-host/Sources/TrUAPIHost/truapi.swift:5586-5622 | The same for enums with payloads, whose payload is read as that case |
| `WireFormat.ListReadsCount` | ios/truapi-host/Sources/TrUAPIHost/truapi.swift:6895-6903 | A negative count traps, zero gives the empty array, and a result has as many elements as the count says |
| `WireWriter.Int32IsWritten` | ios/truapi-host/Sources/TrUAPIHost/truapi.swift:190-193 | The four bytes by division are the big-endian two's complement |
| `WireWriter.SizeIsWritten` | ios/truapi-host/Sources/TrUAPIHost/truapi.swift:7047-7049 | The eight bytes of a size by division are its big-endian encoding |
| `WireWriter.EnumIsWritten` | ios/truapi-host/Sources/TrUAPIHost/truapi.swift:4486-4524 | An enum whose writer gives each case its number is written by the combinator in the same way |
| `WireWriter.ModifierIsWritten` | ios/truapi-host/Sources/TrUAPIHost/truapi.swift:5625-5679 | The combinators write a modifier as the spelled-out case numbers and fields |
| `WireWriter.NodeIsWritten` | ios/truapi-host/Sources/TrUAPIHost/truapi.swift:4856-4917 | For every tree that fits, the recursive converter writes exactly the bytes of the writer spelled out case by case, field by field |
| `WireWriter.ReviewIsWritten` | ios/truapi-host/Sources/TrUAPIHost/truapi_platform.swift:1620-1634 | The same for every nested review |
| `RendererTree.DimensionsLawful` | ios/truapi-host/Sources/TrUAPIHost/truapi.swift:1764-1781 | All three laws for `Dimensions`: top, end, optional bottom, optional start |
| `RendererTree.BackgroundLawful` | ios/truapi-host/Sources/TrUAPIHost/truapi.swift:721-735 | All three laws for `Background`, with its colour and optional shape |
| `RendererTree.BorderStyleLawful` | ios/truapi-host/Sources/TrUAPIHost/truapi.swift:798-814 | All three laws for `BorderStyle` |
| `RendererTree.ShapeLawful` | ios/truapi-host/Sources/TrUAPIHost/truapi.swift:6029-6058 | All three laws for the two-case `Shape` |
| `RendererTree.ModifierLawful` | ios/truapi-host/Sources/TrUAPIHost/truapi.swift:5583-5679 | All three laws for the ten-case `Modifier` and for `[Modifier]` |
| `RendererTree.ButtonPropsLawful` | ios/truapi-host/Sources/TrUAPIHost/truapi.swift:952-971 | All three laws for `ButtonProps`, five fields in order |
| `RendererTree.TextFieldPropsLawful` | ios/truapi-host/Sources/TrUAPIHost/truapi.swift:3203-3222 | All three laws for `TextFieldProps` |
| `RendererTree.LayoutPropsLawful` | ios/truapi-host/Sources/TrUAPIHost/truapi.swift:1678-1691 | All three laws for the box, column, row and text properties |
| `RendererTree.HeadLawful` | ios/truapi-host/Sources/TrUAPIHost/truapi.swift:4821-4853 | All three laws for what each of the nine node cases writes before its children |
| `RendererCodec.NodeRoundTrip` | ios/truapi-host/Sources/TrUAPIHost/truapi.swift:4818-4917 | Wherever the encoding of a tree stands in a buffer, the recursive reader returns that tree and stops behind it |
| `RendererCodec.NodeInContext` | ios/truapi-host/Sources/TrUAPIHost/truapi.swift:4818-4917 | For every tree that fits and any bytes before and after: reading gives the tree and the offset right behind it |
| `RendererCodec.LiftOfLower` | ios/truapi-host/Sources/TrUAPIHost/truapi.swift:242-259 | Lifting what was lowered gives the tree, using up the whole buffer |
| `RendererCodec.PrefixFree` | ios/truapi-host/Sources/TrUAPIHost/truapi.swift:4818-4917 | If one encoding is a prefix of another the trees are equal: injective, and none a proper prefix |
| `RendererCodec.NodeReads` | ios/truapi-host/Sources/TrUAPIHost/truapi.swift:4821-4853 | On any bytes the reader stays within the buffer; under the string check it consumed as many bytes as writing the tree takes; under both checks exactly its encoding |
| `RendererCodec.ReproducedIffCanonical` | ios/truapi-host/Sources/TrUAPIHost/truapi.swift:242-259 | Writing a lifted tree reproduces the buffer exactly if every Bool byte was 0 or 1 and every string well formed |
| `RendererCodec.RereadWellFormed` | ios/truapi-host/Sources/TrUAPIHost/truapi.swift:242-259 | With well-formed strings but any Bool bytes: the tree can be written, in as many bytes, and reads back as itself |
| `RendererCodec.RereadRepaired` | ios/truapi-host/Sources/TrUAPIHost/truapi.swift:242-259 | Even ill-formed strings are stable after one repair, for buffers up to a third of Int32.max |
| `RendererCodec.NodeCountBound` | ios/truapi-host/Sources/TrUAPIHost/truapi.swift:4821-4853 | A tree read from any bytes costs at least four bytes for each node |
| `RendererCodec.LiftIsBounded` | ios/truapi-host/Sources/TrUAPIHost/truapi.swift:128-157 | On any bytes: the offset never passes the end, and 4 times the number of nodes is at most the bytes consumed |
| `RendererCodec.NodeAgrees` | ios/truapi-host/Sources/TrUAPIHost/truapi.swift:4821-4853 | The reader with extra checks differs from the Swift reader only by rejecting, and with the length check only where Swift traps, right behind a negative length |
| `RendererCodec.TrapsIffNegativeLength` | ios/truapi-host/Sources/TrUAPIHost/truapi.swift:6895-6903 | The reader traps exactly where the length-checking reader rejects, right behind four bytes that hold a negative number; otherwise the two agree |
| `RendererCodec.NoTrapWithoutNegative` | ios/truapi-host/Sources/TrUAPIHost/truapi.swift:6895-6903 | A buffer without four adjacent bytes that make a negative Int32 never traps the reader |
| `RendererIO.Reader.ReadInt` | ios/truapi-host/Sources/TrUAPIHost/truapi.swift:128-142 | Advances the offset by four on success, throws without moving otherwise |
| `RendererIO.Reader.ReadSequence` | ios/truapi-host/Sources/TrUAPIHost/truapi.swift:6895-6904 | The counting loop returns what the list converter does and leaves the offset there |
| `RendererIO.Reader.ReadNode` | ios/truapi-host/Sources/TrUAPIHost/truapi.swift:4821-4853 | The recursive reader over a moving offset refines `ReadNode` on values |
| `RendererIO.Reader.ReadChildren` | ios/truapi-host/Sources/TrUAPIHost/truapi.swift:6919-6929 | The loop over children, likewise |
| `RendererIO.LiftBuffer` | ios/truapi-host/Sources/TrUAPIHost/truapi.swift:242-250 | Reads one value and throws `incompleteData` if bytes remain |
| `RendererIO.Writer.WriteSequence` | ios/truapi-host/Sources/TrUAPIHost/truapi.swift:6887-6893 | The writing loop appends the list's encoding, or traps exactly if something does not fit |
| `RendererIO.Writer.WriteNode` | ios/truapi-host/Sources/TrUAPIHost/truapi.swift:4856-4917 | The recursive writer appends exactly the tree's encoding, and traps exactly if it does not fit |
| `RendererIO.LowerNode` | ios/truapi-host/Sources/TrUAPIHost/truapi.swift:255-259 | A fresh buffer filled by the writer, handed over with an Int32 length |
| `ReviewCodec.DerivationIndexLawful` | ios/truapi-host/Sources/TrUAPIHost/truapi.swift:4972-5005 | All three laws for `DerivationIndex` |
| `ReviewCodec.TransactionLawful` | ios/truapi-host/Sources/TrUAPIHost/truapi.swift:2658-2677 | All three laws for the transaction fields: hash, call data, extensions, version |
| `ReviewCodec.ReviewLawful` | ios/truapi-host/Sources/TrUAPIHost/truapi_platform.swift:1603-1635 | All three laws for the nested `CreateTransactionReview` |
| `ReviewCodec.ReviewInContext` | ios/truapi-host/Sources/TrUAPIHost/truapi_platform.swift:1603-1635 | A written review reads back as itself in any context |
| `ReviewCodec.ReviewReproducedIffWellFormed` | ios/truapi-host/Sources/TrUAPIHost/truapi_platform.swift:1606-1618 | A review read from any bytes is reproduced by writing it exactly if its strings were well formed |
| `ReviewCodec.HashOfAnyLength` | ios/truapi-host/Sources/TrUAPIHost/truapi.swift:6957-6970 | `Bytes32` is not checked: a hash of any length fits |
| `Handles.EveryRunConserves` | ios/truapi-host/Sources/TrUAPIHost/truapi_server.swift:403-459 | After any run: live handles = inserts + clones - removes; issued ones are odd and below the counter; live exactly if issued and not removed, yielding the object issued for |
| `Handles.IssuedHandleIsFresh` | ios/truapi-host/Sources/TrUAPIHost/truapi_server.swift:419-424 | A new handle was never issued before |
| `Handles.RemovedStaysStale` | ios/truapi-host/Sources/TrUAPIHost/truapi_server.swift:426-452 | A removed handle is stale for get, clone and remove after any further run |
| `Handles.TrapsIffExhausted` | ios/truapi-host/Sources/TrUAPIHost/truapi_server.swift:419-424 | Inserting traps exactly once 2^63 - 1 handles have been issued |
| `Handles.LiveUntilRemoved` | ios/truapi-host/Sources/TrUAPIHost/truapi_server.swift:426-433 | Until somebody removes it, a live handle keeps yielding its object |
| `HandleMap.UniffiHandleMap.Insert` | ios/truapi-host/Sources/TrUAPIHost/truapi_server.swift:412-424 | Hands out the current handle and records the object, or traps on overflow |
| `HandleMap.UniffiHandleMap.Get` | ios/truapi-host/Sources/TrUAPIHost/truapi_server.swift:426-433 | Looks an object up, stale if absent |
| `HandleMap.UniffiHandleMap.Clone` | ios/truapi-host/Sources/TrUAPIHost/truapi_server.swift:435-442 | A second handle for the same object |
| `HandleMap.UniffiHandleMap.Remove` | ios/truapi-host/Sources/TrUAPIHost/truapi_server.swift:444-452 | Takes the object out and gives it back, stale if absent |
| `HostCallbacks.LiftOfLower` | ios/truapi-host/Sources/TrUAPIHost/truapi_server.swift:1890-1909 | Lifting a lowered Swift callback gives it back and leaves the set of live handles unchanged |
| `HostCallbacks.LiftMuchLater` | ios/truapi-host/Sources/TrUAPIHost/truapi_server.swift:1890-1909 | The same with any other traffic in between, as long as nobody else takes the handle |
| `HostCallbacks.CloneOutlivesOriginal` | ios/truapi-host/Sources/TrUAPIHost/truapi_server.swift:1197-1210 | A clone keeps the object alive after the original is freed; freeing both leaves nothing |
| `HostCallbacks.FfiConverterTypeHostCallbacks.LowerCallback` | ios/truapi-host/Sources/TrUAPIHost/truapi_server.swift:1901-1909 | Inserts a Swift object, passes a Rust one through |
| `HostCallbacks.FfiConverterTypeHostCallbacks.LiftCallback` | ios/truapi-host/Sources/TrUAPIHost/truapi_server.swift:1890-1899 | Takes a Swift object out, wraps an even handle |
| `HostCallbacks.FfiConverterTypeHostCallbacks.UniffiFree` | ios/truapi-host/Sources/TrUAPIHost/truapi_server.swift:1197-1203 | Removes a handle; a missing one changes nothing |
| `HostCallbacks.FfiConverterTypeHostCallbacks.UniffiClone` | ios/truapi-host/Sources/TrUAPIHost/truapi_server.swift:1204-1210 | Clones a handle; a missing one is fatal |
| `AsyncCalls.RunKeepsInv` | ios/truapi-host/Sources/TrUAPIHost/truapi_server.swift:6337-6381 | Over every interleaving of calls and callbacks, the map of continuations and the phases of all calls agree, and nothing recorded changes |
| `AsyncCalls.EveryRunIsOrderly` | ios/truapi-host/Sources/TrUAPIHost/truapi_server.swift:6339-6381 | Completion at most once and only after READY; freed exactly when it returned; a call that is not waiting has no handle left |
| `AsyncCalls.StaleCallbackIsIdle` | ios/truapi-host/Sources/TrUAPIHost/truapi_server.swift:6375-6381 | A callback on a resumed or unknown handle changes nothing at all |
| `AsyncCalls.ResumedOnce` | ios/truapi-host/Sources/TrUAPIHost/truapi_server.swift:6375-6381 | A continuation keeps the result of the one callback that resumed it |
| `AsyncCalls.WakePollsAgain` | ios/truapi-host/Sources/TrUAPIHost/truapi_server.swift:6354-6365 | Anything but READY polls again, with a handle never used before |
| `AsyncCalls.ReadyLeadsToReturn` | ios/truapi-host/Sources/TrUAPIHost/truapi_server.swift:6354-6371 | No wake-up is lost: a waiting call resumed with READY completes, frees and returns |
| `AsyncCalls.ResumedByFirstCallback` | ios/truapi-host/Sources/TrUAPIHost/truapi_server.swift:6375-6377 | Over the steps of any run: what a continuation was resumed with is the argument of the first callback made on its handle after it was inserted |
| `AsyncCalls.FirstCallbackResumes` | ios/truapi-host/Sources/TrUAPIHost/truapi_server.swift:6375-6377 | And conversely: the first callback on an inserted handle decides what its continuation is resumed with |
| `AsyncCalls.InsertedByPoll` | ios/truapi-host/Sources/TrUAPIHost/truapi_server.swift:6355-6363 | A handle is made by a poll of the one call it is recorded for, which then waits with it |
| `AsyncCalls.CompletedOnReady` | ios/truapi-host/Sources/TrUAPIHost/truapi_server.swift:6354-6371 | In any run, a completed call was completed by its own step, after Rust had answered a handle made by one of its own polls with READY, in the first callback on it |
| `AsyncCalls.CallbackDecides` | ios/truapi-host/Sources/TrUAPIHost/truapi_server.swift:6354-6365 | A waiting call that is called back with READY leaves the loop, with anything else polls again; other calls and handles stay as they are |
| `AsyncCaller.Caller.UniffiRustCallAsync` | ios/truapi-host/Sources/TrUAPIHost/truapi_server.swift:6339-6371 | The poll loop polls up to the first READY, completes and frees once each, and leaves the map as it found it; fails exactly if the handle counter runs out; the call is a run of `AsyncCalls`: begin, one turn for each result, complete, free |
| `AsyncCaller.Caller.UniffiFutureContinuationCallback` | ios/truapi-host/Sources/TrUAPIHost/truapi_server.swift:6375-6381 | Removes and resumes the continuation if it is still there |
| `ForeignFutures.RunKeepsInv` | ios/truapi-host/Sources/TrUAPIHost/truapi_server.swift:6382-6440 | What every run of tasks, registrations and drops keeps; what was reported stays |
| `ForeignFutures.EveryTaskReportsOnce` | ios/truapi-host/Sources/TrUAPIHost/truapi_server.swift:6382-6440 | An ended task called exactly one of the two handlers, once; it is cancelled exactly if its handle was dropped; live handles = registered - dropped |
| `ForeignFutures.SecondDropIsIdle` | ios/truapi-host/Sources/TrUAPIHost/truapi_server.swift:6456-6466 | Dropping a handle again does nothing, ever after |
| `ForeignFutures.DropsChangeReportsIff` | ios/truapi-host/Sources/TrUAPIHost/truapi_server.swift:6420-6466 | Drops never change whether or how often a task reports; its report differs from the run without drops exactly if it was cancelled by the time it ended and its code, minding the flag, ends with another report |
| `ForeignFutures.ReportTellsTheEnding` | ios/truapi-host/Sources/TrUAPIHost/truapi_server.swift:6420-6434 | Over the steps of any run: a returned value is reported as success, a declared error under code 1 with its lowered form, any other under code 2 with its description; the ending is the one for whether the handle had been dropped by then |
| `ForeignFutures.ForeignFutureTasks.TraitInterfaceCallAsync` | ios/truapi-host/Sources/TrUAPIHost/truapi_server.swift:6413-6440 | Starts a task and registers it, or traps on overflow |
| `ForeignFutures.ForeignFutureTasks.EndTask` | ios/truapi-host/Sources/TrUAPIHost/truapi_server.swift:6420-6434 | One branch, one call, with the code that belongs to it |
| `ForeignFutures.ForeignFutureTasks.UniffiForeignFutureDroppedCallback` | ios/truapi-host/Sources/TrUAPIHost/truapi_server.swift:6456-6466 | Removes and cancels; an unknown handle changes nothing |
| `ChainHead.ResponseKeepsPaired` | playground/src/lib/example-helpers.ts:341-374 | A unary response keeps calls and both maps in the state that the host's words alone determine |
| `ChainHead.FinishKeepsPaired` | playground/src/lib/example-helpers.ts:328-339 | So does a terminal event, whichever comes first |
| `TransactionContext.RunKeepsInv` | playground/src/lib/example-helpers.ts:305-489 | Every run of the whole lookup keeps the pairing and the settlement invariant |
| `TransactionContext.DeliveredExactlyOnce` | playground/src/lib/example-helpers.ts:328-374 | A call that started an operation is delivered that operation's result exactly once, as soon as response and event are both there; no id is ever in both maps |
| `TransactionContext.OrderDoesNotMatter` | playground/src/lib/example-helpers.ts:328-374 | Two runs in which the host said the same end with the same calls and maps, whatever the order |
| `TransactionContext.JoinSettles` | playground/src/lib/example-helpers.ts:394-437 | Once both results are in and subscribe has returned, the continuation can run and settles the promise: with the first that fails of metadata result, nonce result, metadata decoding and nonce decoding, or else with both decodings and the runtime; it unpins exactly on success |
| `TransactionContext.ContextHoldsMatchingPair` | playground/src/lib/example-helpers.ts:398-437 | An ok context holds the metadata decoded from the metadata operation and the nonce decoded from the other, distinct one |
| `TransactionContext.SettlesOnce` | playground/src/lib/example-helpers.ts:317-326 | A settled outcome survives the rest of any run, with at most one unsubscribe |
| `TransactionContext.UnsubscribesWhenSettled` | playground/src/lib/example-helpers.ts:317-326 | If nothing happens before subscribe returns, settling unsubscribes exactly once |
| `TransactionContext.BeforeSubscribing` | playground/src/lib/example-helpers.ts:376-392 | Before subscribe returns, the promise settles exactly on a stop, an end of the stream, or a first Initialized without hash or runtime, and nothing is unsubscribed |
| `TransactionContext.LeaksIff` | playground/src/lib/example-helpers.ts:317-326 | A run that settles has unsubscribed once exactly unless it settled before subscribe returned; the subscription leaks exactly then, if the stream does not close by itself |
| `TransactionOutcome.ResponseWasGiven` | playground/src/lib/example-helpers.ts:362-373 | The response kept for a call is one the host gave to that call, at a moment at which it could |
| `TransactionOutcome.TerminalWasSent` | playground/src/lib/example-helpers.ts:450-466 | The result kept for an operation is one the host sent for it |
| `TransactionOutcome.SettledByFirst` | playground/src/lib/example-helpers.ts:305-488 | A settled promise was settled by the first event that can settle one: a stop, an end, a first Initialized that cannot be used, or both results; with the reason that event gives |
| `TransactionOutcome.FirstSettlingDecides` | playground/src/lib/example-helpers.ts:305-488 | And conversely: the first such event of a run settles the promise, and as it says |
| `TransactionOutcome.ContextHoldsWhatWasSent` | playground/src/lib/example-helpers.ts:394-437 | Over the events: the metadata of a context is decoded from the result sent for the operation that the metadata call was answered with, the nonce from that of the nonce call, and the runtime is that of the first Initialized |
| `SharedOperations.BothServedIff` | playground/src/lib/example-helpers.ts:328-352 | Once both started operations have ended, in any order of answers and events and however the run goes on, both calls are served exactly if the operations differ; with one operation exactly one is served and the other waits for ever |
| `ContextBuilder.Builder.SettlePromise` | playground/src/lib/example-helpers.ts:317-326 | The first result settles and unsubscribes; later ones are ignored |
| `ContextBuilder.Builder.FinishOperation` | playground/src/lib/example-helpers.ts:328-339 | Resolves the waiter, or keeps the result for it |
| `ContextBuilder.Builder.WaitForOperation` | playground/src/lib/example-helpers.ts:341-352 | Takes a kept result, or waits |
| `ContextBuilder.Builder.OnResponse` | playground/src/lib/example-helpers.ts:369-374 | The rest of `callHead` from its response on |
| `ContextBuilder.Builder.OnInitialized` | playground/src/lib/example-helpers.ts:376-397 | Only the first event counts; without hash or runtime the promise fails |
| `ContextBuilder.Builder.OnBothResults` | playground/src/lib/example-helpers.ts:398-437 | First error wins, in the order metadata result, nonce result, metadata decoding, nonce decoding; otherwise unpin and settle with the context of both decodings |
| `ContextBuilder.Builder.Handle` | playground/src/lib/example-helpers.ts:444-487 | One event of the host takes the object one step of the run |
| `ContextBuilder.BuildContext` | playground/src/lib/example-helpers.ts:305-489 | Fed with any possible events, the object ends where the run does and keeps its invariant; whether it is settled, by which event and with what, and what an ok context holds, follow from the events alone |
| `DotNs.RunIsSerialised` | playground/src/lib/example-helpers.ts:123-218 | Every interleaving of arrivals, responses, dispatches and stream errors stands where sequential handling of the items begun so far stands |
| `DotNs.QuiescentRunsAreSequential` | playground/src/lib/example-helpers.ts:139-218 | With nothing pending, the lookup is what handling the items one by one in order of arrival gives: none is dropped for arriving before the response |
| `DotNs.SettlesOnce` | playground/src/lib/example-helpers.ts:127-138 | The promise resolves once and unsubscribes once, in every run |
| `DotNs.SucceedsIff` | playground/src/lib/example-helpers.ts:139-190 | With one Initialized event: success with v exactly if the response started an operation and the first item after Initialized that concerns it, or ends the stream, holds v in its first entry under the key |
| `DotNs.SuccessIsSequential` | playground/src/lib/example-helpers.ts:139-218 | In any run, stream errors included, a success is one the sequential reading gives |
| `DotNs.FindsTheFirst` | playground/src/lib/example-helpers.ts:656-664 | The value found is that of the first entry under the key; without one there is none |
| `DotNs.LookupOutcome` | playground/src/lib/example-helpers.ts:139-218 | With one Initialized event, the full account: the outcome, failures and their reasons included, read off the items in order and the response |
| `DotNs.StreamErrorSettles` | playground/src/lib/example-helpers.ts:207 | A stream error settles an open lookup at once, whatever is queued, and for good |
| `DotNsLookup.Promise.HandleItem` | playground/src/lib/example-helpers.ts:139-190 | One handler, up to its await |
| `DotNsLookup.Promise.ResumeWith` | playground/src/lib/example-helpers.ts:148-157 | What the Initialized handler does with its response |
| `DotNsLookup.Promise.FindValue` | playground/src/lib/example-helpers.ts:656-664 | The value of the first entry under the key, by its index; none if no entry is under it |
| `DotNsLookup.Promise.OnNext` | playground/src/lib/example-helpers.ts:199-218 | Chains the item behind those before it, nothing else |
| `DotNsLookup.Promise.OnError` | playground/src/lib/example-helpers.ts:207 | A stream error settles at once |
| `DotNsLookup.Promise.RunQueue` | playground/src/lib/example-helpers.ts:199-206 | Runs handler after handler until the queue is empty or one awaits |
| `JsObject.DeleteRemoves` | js/container/src/freeze.ts:42 | A delete is refused exactly at a non-configurable own property; otherwise the key is gone and reads as inherited or undefined, and nothing else changes |
| `JsObject.AssignmentIsRead` | js/container/src/freeze.ts:33-87 | An assignment that goes through is read back and can be repeated; one that does not changes nothing, and neither changes another property |
| `JsObject.LastAssignmentIsRead` | js/container/src/freeze.ts:33-87 | Of two assignments the last is read |
| `JsObject.ReflectedSetIsRead` | js/container/src/freeze.ts:33-87 | The same for `Reflect.set` from another target: what the lookup found and the receiver decide |
| `JsObject.DefineRefusedIff` | js/container/src/freeze.ts:35-40 | A definition is refused exactly if it mixes both kinds, adds to a closed object, or would break an invariant of a non-configurable property (section 6.1.7.3) |
| `JsObject.DefineSets` | js/container/src/freeze.ts:35-39 | A definition that goes through sets what its descriptor names, and that is read |
| `JsObject.DefineKeeps` | js/container/src/freeze.ts:80 | What a descriptor leaves open stays, or is off on a new property |
| `JsObject.NoExtensionAfterPreventing` | js/container/src/freeze.ts:33-87 | After extensions are prevented no run adds a property |
| `JsObject.RunKeepsLocked` | js/container/src/freeze.ts:33-87 | A non-configurable accessor or non-writable property is the very same property after every run of assignments, definitions, deletions, `Reflect.set`, freezing and prototype changes |
| `JsObject.LockedIffReadsTheSame` | js/container/src/freeze.ts:33-87 | Locked is exactly what it takes to read the same after every run |
| `Lockdown.LockTakes` | js/container/src/freeze.ts:33-87 | On an absent property of an extensible object, or a configurable one, the lock takes, reads as pinned for good, and records no failure (but for NaN, and unless a custom check rejects) |
| `Lockdown.PersistsIff` | js/container/src/freeze.ts:33-87 | The reading persists exactly if the definition was admissible or the property locked already |
| `Lockdown.FailsIff` | js/container/src/freeze.ts:44-66 | When exactly `freezeAndDelete` and `freezeValue` record a failure, in terms of the object as found |
| `Lockdown.EscapesIff` | js/container/src/freeze.ts:44-66 | A read-back throws out of the helper exactly if nothing could be defined and a getter found there throws |
| `Lockdown.CallersConfigurableWins` | js/container/src/freeze.ts:80 | A `freezeCustom` descriptor with `configurable: true` wins over the default, so it locks nothing |
| `Lockdown.SilentGap` | js/container/src/freeze.ts:44-48 | A non-configurable but writable property that reads right is reported as locked and can be changed afterwards |
| `Lockdown.DeleteFallbackIsIdle` | js/container/src/freeze.ts:40-43 | The delete fallback never removes anything on an ordinary object |
| `LockSequence.SequenceIsDistinct` | js/container/src/index.ts:45-116 | No two locks of the script are about the same property of the same object |
| `LockSequence.AttemptIsLocal` | js/container/src/freeze.ts:33-87 | A lock looks only at its own property and at extensibility |
| `LockSequence.AttemptLeavesOthers` | js/container/src/freeze.ts:33-87 | A lock touches only its own property |
| `LockSequence.RunReaches` | js/container/src/index.ts:45-116 | In the end every property is as its lock, tried alone, would have left it |
| `LockSequence.ReportIsExact` | js/container/src/index.ts:45-122 | Every lock is tried whatever failed before; the list holds in order exactly those that fail; the report throws exactly if there is one |
| `LockSequence.FinishedReadsReturn` | js/container/src/index.ts:45-116 | A sequence that ran to its end met no read-back that throws, going by the realm as found |
| `LockSequence.CleanLockHolds` | js/container/src/index.ts:45-122 | In a run that reports nothing, every lock passes its read-back in the end, and holds for good where the property was absent or configurable |
| `LockSequence.CleanRunContains` | js/container/src/index.ts:45-122 | For the whole realm, property by property: after a run that reports nothing, XMLHttpRequest, EventSource, indexedDB, caches, SharedWorker and the policy read undefined; WebSocket, its prototype's constructor, fetch, sendBeacon, cookie, createElement and a service worker read as what the script put there, all for good where lockable as found; peer connections are as the host decided |
| `LockSequence.DenialRemovesPeerConnections` | js/container/src/webrtc.ts:44-53 | Without an explicit true and with no failure, all three names read undefined, for good if they were absent or configurable |
| `LockHelpers.Recorder.FreezeAndDelete` | js/container/src/freeze.ts:33-48 | The helper in place: object, failure list and escape as for `Absent`; null records nothing |
| `LockHelpers.Recorder.FreezeValue` | js/container/src/freeze.ts:51-66 | The same for `Pinned` |
| `LockHelpers.Recorder.FreezeCustom` | js/container/src/freeze.ts:73-87 | The same for `Custom`; a throwing check is a failure |
| `LockHelpers.Recorder.ConsumeWebRtcPolicy` | js/container/src/webrtc.ts:56-60 | Reads the decision, then removes the global |
| `LockHelpers.Recorder.InstallWebRtcPolicy` | js/container/src/webrtc.ts:44-53 | Does nothing on true, otherwise three removals |
| `LockHelpers.DenialLeavesNone` | js/container/src/webrtc.ts:44-53 | A denial without failures leaves all three names undefined |
| `ContainerScript.Script.LockConnections` | js/container/src/index.ts:45-68 | The first three locks, in place, do what the sequence says |
| `ContainerScript.Script.LockRequests` | js/container/src/index.ts:71-74 | The next three, likewise |
| `ContainerScript.Script.LockStorage` | js/container/src/index.ts:77-89 | The next four, likewise |
| `ContainerScript.Script.LockWorkersAndDom` | js/container/src/index.ts:91-110 | The service worker, if there is one, and `createElement` |
| `ContainerScript.Script.LockPeerConnections` | js/container/src/index.ts:116 | Policy consumed, then applied |
| `ContainerScript.Script.RunScript` | js/container/src/index.ts:45-122 | The whole script in place is the lock sequence run on the four objects as found; its closing report throws exactly what `Report` makes of the failures of that run; and if it does not throw, the four objects are contained as `LockSequence.CleanRunContains` says |
| `TypeLink.SortedNamesAreTheLongNames` | explorer/src/components/TypeLink.tsx:24-36 | The candidates are exactly the names longer than one character, longest first, each with the id of a type of that name |
| `TypeLink.ChooseLink` | explorer/src/components/TypeLink.tsx:43-55 | The inner loop finds the choice that the fold over the sorted names defines |
| `TypeLink.TypeStringParts` | explorer/src/components/TypeLink.tsx:38-76 | The outer loop terminates with the parts |
| `TypeLink.PartsJoinToText` | explorer/src/components/TypeLink.tsx:42-73 | The concatenated parts equal the text |
| `TypeLink.ChosenIsFirst` | explorer/src/components/TypeLink.tsx:46-55 | The choice comes before every name whose first occurrence is whole, and is at least as long as those that share its position |
| `TypeLink.ChosenIsLongest` | explorer/src/components/TypeLink.tsx:24-31 | At the chosen position no longer known name is whole |
| `TypeLink.LinksAreSound` | explorer/src/components/TypeLink.tsx:42-73 | Every link is a known name at a whole-word position of the original text, where no longer name is whole |
| `TypeLink.LinkedText` | explorer/src/components/TypeLink.tsx:38-76 | For names that begin with a word character: parts make up the text and every link is sound |
| `TypeLink.LinkIsWholeIff` | explorer/src/components/TypeLink.tsx:49-52 | For any names: a link is whole in the original text exactly unless it directly follows a link that ends in a word character |
| `TypeLink.LinkedIff` | explorer/src/components/TypeLink.tsx:46-57 | The rest of a text yields a link exactly if the first occurrence of some known name in it is whole |
| `TypeLink.UnlinkedIsHidden` | explorer/src/components/TypeLink.tsx:42-73 | For any names: where a known name stands whole in an unlinked part, it occurs earlier, from the start of that part on, inside a longer word |
| `TypeLink.NothingLeftUnlinked` | explorer/src/components/TypeLink.tsx:42-73 | If every occurrence of every known name in a text is whole, no unlinked part contains a known name |
| `TypeLink.CharacterBehindDecides` | explorer/src/components/TypeLink.tsx:50-52 | A name followed by one character is linked exactly unless that is an ASCII digit, letter or underscore, by their codes |
| `TypeLink.CharacterBeforeDecides` | explorer/src/components/TypeLink.tsx:49-51 | The same for one character in front |
| `TypeLink.LastTypeWins` | explorer/src/components/TypeLink.tsx:32-36 | Of several types with one name the last gives the id |
| `MessagePort.FifoAndLossless` | ios/truapi-host/Sources/TrUAPIHost/TrUAPIHost.swift:203-267 | Before close, sent ++ queued equals posted; at most one socket; nothing queued behind an open one |
| `MessagePort.OpeningFlushes` | ios/truapi-host/Sources/TrUAPIHost/TrUAPIHost.swift:231-237 | Opening sends the whole queue in order, and later posts go out at once |
| `MessagePort.AcceptsAllIff` | ios/truapi-host/Sources/TrUAPIHost/TrUAPIHost.swift:212-229 | In any run a port accepts exactly what was offered, unless the first event that dials is a post whose dialling throws; that post is then the only one lost |
| `MessagePort.NothingIsLostIff` | ios/truapi-host/Sources/TrUAPIHost/TrUAPIHost.swift:203-267 | Before close, sent ++ queued equals everything offered exactly in that case |
| `MessagePort.SentInOrder` | ios/truapi-host/Sources/TrUAPIHost/TrUAPIHost.swift:203-267 | In any run, close included, what was sent is an in-order selection of what was posted |
| `MessagePort.FailedDialIsFinal` | ios/truapi-host/Sources/TrUAPIHost/TrUAPIHost.swift:224-229 | After a dialling that throws, by a post or by start, at any point of a run, no socket is ever made and nothing is ever sent |
| `MessagePort.NothingIsSentAfterClosingIff` | ios/truapi-host/Sources/TrUAPIHost/TrUAPIHost.swift:258-263 | After close, or after the peer closed, nothing is sent in any continuation exactly if the port had been used; an unused port is left as it was |
| `MessagePort.Port.PostMessage` | ios/truapi-host/Sources/TrUAPIHost/TrUAPIHost.swift:212-222 | Dials on first use, then sends or queues |
| `MessagePort.Port.StartPort` | ios/truapi-host/Sources/TrUAPIHost/TrUAPIHost.swift:224-229 | Dials at most once |
| `MessagePort.Port.OnOpen` | ios/truapi-host/Sources/TrUAPIHost/TrUAPIHost.swift:231-237 | The loop over the swapped-out queue sends all of it in order |
| `MessagePort.Port.ClosePort` | ios/truapi-host/Sources/TrUAPIHost/TrUAPIHost.swift:258-263 | Drops the queue and closes the socket |
| `StatusWaiters.RunKeepsInv` | playground/src/lib/e2e-hooks.ts:57-95 | In every reachable state: in the set exactly if unsettled and its timer armed; none waits for a seen status; a resolved one got a history with its status; settled stays settled |
| `StatusWaiters.NotifyResolvesExactly` | playground/src/lib/e2e-hooks.ts:67-75 | A notification resolves exactly the open promises that wait for it, with the full history |
| `StatusWaiters.HistoryIsSinceStart` | playground/src/lib/e2e-hooks.ts:77-95 | The history holds exactly what was notified since the latest start |
| `StatusWaiters.WhatSettles` | playground/src/lib/e2e-hooks.ts:57-186 | For each event and each promise: settled ones stay, and an open one is resolved or rejected, and why, exactly as listed |
| `StatusWaiters.Probe.NotifyAccountStatus` | playground/src/lib/e2e-hooks.ts:67-75 | The loop over a copy of the set |
| `StatusWaiters.Probe.RejectAll` | playground/src/lib/e2e-hooks.ts:60-64 | Rejects everyone, then clears the set |
| `StatusWaiters.Probe.StopAccountConnectionStatusProbe` | playground/src/lib/e2e-hooks.ts:57-65 | Unsubscribes and rejects |
| `StatusWaiters.Probe.StartAccountConnectionStatusProbe` | playground/src/lib/e2e-hooks.ts:77-95 | Stops, clears the history, subscribes or throws |
| `StatusWaiters.Probe.WaitForAccountConnectionStatus` | playground/src/lib/e2e-hooks.ts:163-186 | Resolves at once on a seen status, otherwise arms a timer |
| `ConnectionWait.RunKeepsInv` | playground/src/lib/e2e-hooks.ts:105-161 | Settles once; the timer runs exactly until then; resolves only with the status asked for; unsubscribes exactly once after settling, also if the callback fires inside subscribe |
| `ConnectionWait.NeverStuck` | playground/src/lib/e2e-hooks.ts:117-150 | Once subscribed, the status asked for settles the promise, and so does the timer |
| `ConnectionWait.WhatSettles` | playground/src/lib/e2e-hooks.ts:105-161 | With the status already there: resolved at once, nothing subscribed, no timer; otherwise what each event makes of the open promise, with the last status told in the time-out |
| `ConnectionWait.Waiting.FinishWith` | playground/src/lib/e2e-hooks.ts:117-134 | The first call settles; later ones do nothing |
| `ConnectionWait.Waiting.Subscribe` | playground/src/lib/e2e-hooks.ts:144-159 | The try block with any callbacks made before subscribe returns or throws |
| `RenderInstances.RunKeepsInv` | playground/worker/index.ts:202-241 | After every handler: pending and active disjoint, disposed in neither, every active one carries the id, none pending once the id is known and the loop done, none lost |
| `RenderInstances.FatesAreSettled` | playground/worker/index.ts:202-241 | Once the id is known, an instance is active exactly if still subscribed and asking for it; a subscribed one asking for another was told so exactly once |
| `RenderInstances.FatesByEvents` | playground/worker/index.ts:202-241 | The same read off the events: the ids subscribed for, the first id posted, and who has unsubscribed since |
| `RenderInstances.ServedByOne` | playground/worker/index.ts:225-241 | Each tree handed to an instance comes from its activation or from one rerendering |
| `RenderInstances.DisposedStaysSilent` | playground/worker/index.ts:208-212 | After unsubscribe an observer gets no further tree and no further error |
| `RenderInstances.LoopServesInOrder` | playground/worker/index.ts:218-223 | An undisturbed loop ends after one visit per waiting instance and serves the matching ones in subscription order |
| `RenderInstances.EmptyIdStrands` | playground/worker/index.ts:205-206 | An id that is the empty string counts as none: later subscribers wait for good |
| `RenderInstances.Worker.OnSubscribed` | playground/worker/index.ts:203-214 | Activates at once or waits |
| `RenderInstances.Worker.OnUnsubscribed` | playground/worker/index.ts:208-212 | Disposes and takes out of both sets |
| `RenderInstances.Worker.ActivateRenderInstance` | playground/worker/index.ts:225-241 | Skips the disposed, rejects a mismatch, serves a match |
| `RenderInstances.Worker.ActivatePending` | playground/worker/index.ts:218-223 | The id arrives and the loop empties the pending set, with callbacks unsubscribing in between; the call is a run of the step system |
| `Diagnosis.StatusIsVerdict` | playground/worker/diagnosis.ts:48-67 | The status after any run: failed exactly if a fail, or a failPending not preceded by a pass, occurred; else passed exactly if a pass occurred |
| `Diagnosis.DetailsAreOfTheLast` | playground/worker/diagnosis.ts:48-67 | The details shown are those of the last event that gave the method its status |
| `Diagnosis.OrderDoesNotMatter` | playground/worker/diagnosis.ts:48-57 | Without failPending the statuses do not depend on the order or number of events |
| `Diagnosis.OrderMattersIff` | playground/worker/diagnosis.ts:48-67 | The status of a method is the same for all orders of the events exactly if there is no failPending, or the method fails by itself, or never passes |
| `Diagnosis.StatusesClimb` | playground/worker/diagnosis.ts:48-77 | No event takes a status back, and completeness is permanent |
| `Diagnosis.ReportIsPostedOnce` | playground/worker/index.ts:315-328 | The report is posted at most once, exactly if the diagnosis got complete, and shows the statuses of that moment |
| `Diagnosis.CountsAddUpIffComplete` | playground/worker/diagnosis.ts:69-77 | Success and failed add up to the number of methods exactly if the diagnosis is complete |
| `Diagnosis.ReportHasARowEach` | playground/worker/diagnosis.ts:79-83 | Every report has twelve lines, a row for each method in order |
| `Diagnosis.PostedReportShowsVerdicts` | playground/worker/index.ts:315-328 | The posted text: each method has its row with a check mark and the details of its last pass, or a cross and the error it failed with, as of the event that completed the diagnosis |
| `Diagnosis.ChatDiagnosis.RecordPass` | playground/worker/diagnosis.ts:48-52 | A pass after a failure is ignored, otherwise recorded and announced |
| `Diagnosis.ChatDiagnosis.RecordFail` | playground/worker/diagnosis.ts:54-57 | A failure always overwrites |
| `Diagnosis.ChatDiagnosis.RecordFailPending` | playground/worker/diagnosis.ts:59-67 | The loop fails exactly the running methods |
| `Diagnosis.ChatDiagnosis.IsComplete` | playground/worker/diagnosis.ts:73-77 | True exactly if every method passed or failed |
| `Diagnosis.ChatDiagnosis.OnChange` | playground/worker/index.ts:46-55 | Posts the report on the first complete change |
| `DiagnosisReport.CellRoundTrip` | playground/shared/diagnosis.ts:48-50 | Reading a cell back gives the white-space-collapsed, trimmed details, with the same words |
| `DiagnosisReport.CellIsCell` | playground/shared/diagnosis.ts:48-50 | Whatever the details, the cell is one line with no bar that is not escaped and only single inner spaces |
| `DiagnosisReport.ReportHasOneLineEach` | playground/shared/diagnosis.ts:18-46 | With newline-free ids and title: the six heading lines, then one row for each result in order, n + 6 lines in all |
| `DiagnosisReport.CountsCover` | playground/shared/diagnosis.ts:22-32 | Success + failed is at most n, and n exactly if every result is a pass, a failure or skipped |
| `DiagnosisReport.DecimalIsNumeral` | playground/shared/diagnosis.ts:39 | A printed count is the decimal numeral of that count, without leading zeros |
| `DiagnosisReport.CountsAreOfResults` | playground/shared/diagnosis.ts:22-32 | The counts are the numbers of results that passed, and that failed or were skipped |
| `DiagnosisReport.ReportShowsResults` | playground/shared/diagnosis.ts:18-46 | The third line of the report carries the numerals of those two numbers; each row carries the id, the mark of its status, and its details unless dropped |
| `DiagnosisReport.RenderDiagnosisMarkdown` | playground/shared/diagnosis.ts:18-46 | The loop over counters and rows gives the report |

## Left out

- The FFI itself: `rustCall`, `RustBuffer` allocation and a nil data pointer, checksums, vtable calls other than free and clone.
- `reserveCapacity` with a huge count, memory and stack limits of the recursive reader.
- Swift's canonical equivalence of strings: texts are compared as sequences of Unicode scalars.
- How many U+FFFD the Swift decoder puts for one ill-formed stretch: one for each maximal subpart here; nothing proved depends on more than the bound in `Utf8.RepairGrowth`.
- `FfiConverterDuration`, floats, and the flat enum and record converters not listed: instances of the same combinators.
- The other eleven cases of `UserConfirmationReview`: further instances of `Wire.VariantLawful`.
- ReviewCodec.TransactionLawful: the three fields before `txExtVersion` and it are grouped into one record that both payload cases share; the order of the bytes is that of the source.
- Proxy and exotic objects, links between the prototypes of the four locked objects, and getters that answer differently from call to call; a lookup along the prototype chain is the map `inherited`.
- What the pinned functions of the container do (the gated socket, same-origin fetch, the stubs): they are values here. The reads that only capture natives (`window.fetch`, `document.createElement`) are left out.
- LockHelpers.Recorder.ReportLockdownFailures: the failure entries keep the object's label; how `describe` finds it and the console message are not modelled.
- AsyncCaller.Caller.UniffiRustCallAsync: one call without others in between, on answers that include a READY (without one the loop never ends); all interleavings are in `AsyncCalls`.
- ReviewCodec.ReviewLawful: on values; `RendererIO.Reader.Read` and `RendererIO.Writer.Write` run any such converter over an offset and a buffer, without writing out its branches in place.
- Lifting the result of an async call: only whether it throws.
- ForeignFutures.DropsChangeReportsIff: a cancelled call may also end at another time; that is another run here, as the steps come in any order.
- A rejected promise of `callHead` or `postMessage`, and exceptions of `unsubscribe` or of observer callbacks.
- Decoding of metadata and nonce by libraries (`TransactionContext.Decoders`), `unpinHead` (counted only), storage-key encoding.
- In the DotNS lookup, a stream error raised while `subscribe` runs, where `sub` is not yet initialised.
- Real timers, networking, the clipboard: steps of the environment.
- `nameToId` is a plain JavaScript object in the source; the type name `__proto__` is not treated specially here.
- Characters of JavaScript strings are Dafny characters; lone surrogates have no counterpart.
- RenderInstances.Worker.ActivatePending: its callbacks only unsubscribe; subscribing from a callback is covered by the step system.
- The renderer tree that the worker draws, and its copy status, beyond the fact that copying posts nothing new.
- The worker's refresh and echo commands, its room and bot registration, and the checks on a render request before it is subscribed to. The `pass` that an activation reports is an event of `Diagnosis`.
- User interface, routing, signing and renewal code.
