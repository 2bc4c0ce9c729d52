# alos-http: a verified model

alos-http is an HTTP server and outbound HTTP client written from scratch for
Linux. This project models the parts of it that are hardest to get right and
proves what they promise:

- **HPACK** (RFC 7541): integers, Huffman strings, the dynamic tables of encoder
  and decoder, every representation a block may hold, header blocks over whole
  connections, what a response head holds and the remembered form of it, what a list
  of fields says as a request, and every shortcut of the request decoder against a
  full decode.
- **HTTP/2 sending** (RFC 9113): windowed senders whose vectored writes may be cut
  short at any byte, flow-control windows through SETTINGS and WINDOW_UPDATE,
  parked responses, streaming writers, and header blocks split in place.
- **Event loops**: the multi-producer queue, the sleep and wake protocols of both
  loops, and the hand-off of a loop from a slow inline handler to a successor, each
  as atomic steps under every interleaving.
- **Incremental parsers**: the chunked request decoder with its restarts, the
  upstream response parser with the relay that chunks its output again, and for both
  what they read from every message a peer may write.
- **Single-flight name resolution** of the backend loop.

Files follow the components. `Bytes`, `Bits`, `DistinctLists` and `H2Frames` hold
what several of them share. `HpackWire`, `RequestMeaning`, `CleanPaths`, `HeadFields`,
`ChunkedReading` and `H1Reading` say what decoders and encoders make of messages
without naming the functions those are proved against: they define how a peer writes
a message, or what a list of fields says, and connect the two. State that the source
updates in place is a class whose methods are proved against functions or invariants; goroutines become state machines over
actions, and the theorems quantify over every legal run. Values the outside
decides (what a kernel write accepts, whether a server can be reached, the order
in which a map is walked) are parameters, so the contracts hold for all of them.
Lengths and counters are unbounded; where the width of a machine word matters (HPACK
integers, the Huffman accumulator, windows) it is written out.

Where the code does less than its surroundings suggest, the model follows the code
and says exactly when the promise holds:

- A blocked client loop may leave a completed submission unseen while another thread
  has swapped and not yet left its own submission: before its link, before it looks
  at `sleeping`, or before it writes the descriptor (`MpscLoop.CompletedSubmitUnseen`
  has a run for each). `MpscLoop.CompletedSeenExactly` shows that these three stages
  are the exact condition, and `MpscLoop.SomeSubmitterWakes` that one of the threads
  there wakes the loop.
- The GET-path shortcut counts the sanitized path where the general loop counts the
  path as it came, so under every limit some query makes the two answer differently
  (`RequestDecoder.QueryTipsTheScale`, `RequestDecoder.EveryLimitTips`);
  `RequestDecoder.ShortcutExact` is the exact condition.
- After a table limit that drops and comes back between two blocks, the decoder's
  table is longer than the encoder's (`HpackCodec.TablesMayDiffer`); that the
  encoder's begins it is all that is needed and all that holds.
- The outbound client reads fewer integers than the server
  (`HpackInt.LongIntegerDiffers`); `HpackInt.ReadersAgree` says which by their bytes.
- A block of more than 128 fields is refused by `DecodeInto` although it is sound
  (`HpackCodec.OneTooMany`); `HpackCodec.BlockReads` has both directions.
- Relaying an empty piece would end a chunked body (`Chunked.EmptyPieceEndsBody`).
- A response whose headers hold two dates sends both (`HeadFields.TwoDates`);
  `HeadFields.HeadCounts` says how often every name goes out.
- A slash at the end of a path survives cleaning only if nothing else was to be
  cleaned (`CleanPaths.CleanPathIs`).

## Model

| member | source | states |
|---|---|---|
| `MpscLoop.QueueIsFifo` | core/fp_queue.go:25-56 | in every interleaving of producers split at swap and link with one consumer, returned nodes followed by those still linked are the swap order; no node is listed twice, `queued` marks those listed, and no thread will write into a node that was handed out |
| `MpscLoop.NoLostWakeup` | core/fp_loop.go:54-60 | a loop blocked with no wake token pending and nobody inside a submission has consumed every submission |
| `MpscLoop.UnseenHasInsider` | core/fp_loop.go:54-60 | in every blocked state without token, a completed submission not yet seen has a thread that is past its swap and still inside `submit` |
| `MpscLoop.CompletedSeenExactly` | core/fp_loop.go:54-60 | with threads inside a submission kept to a set of stages, every completed submission is seen by every sleeping loop if and only if the set has only the stages before the swap |
| `MpscLoop.ConsumedIffNoGap` | core/fp_loop.go:84-115 | of everything swapped in, completed or not: with no thread about to look at `sleeping` or to write, a blocked loop without token has consumed it all if and only if no thread is between swap and link |
| `MpscLoop.SomeSubmitterWakes` | core/fp_loop.go:54-60 | whenever the loop sleeps over unconsumed work without a token, one thread inside its submission leaves a token by its own next steps alone |
| `MpscLoop.CompletedSubmitUnseen` | core/fp_queue.go:31-56 | for each of the stages link, wake and write a run in which a completed submission stays unseen by a sleeping loop and the only thread inside a submission is at that stage |
| `MpscLoop.RunKeeps` | core/fp_loop.go:84-184 | the invariant over list, links, owners, history and wake-up state survives every legal run |
| `MpscLoop.SubmitKeeps` | core/fp_queue.go:25-29 | each atomic step of a submission keeps the invariant |
| `MpscLoop.TurnKeeps` | core/fp_queue.go:31-56 | each atomic step of pop, sleep, recheck and wait keeps the invariant |
| `InlineHandoff.OneDriver` | core/epoll_inline_linux_amd64.go:141-265 | at most one goroutine drives a worker's loop; if none does, exactly one party has won the hand-off and owes a successor; each hand-off starts one successor |
| `InlineHandoff.TasksStartOnce` | core/epoll_inline_linux_amd64.go:211-265 | no inline task starts twice, and one not started is in the queue or in the hands of exactly one goroutine |
| `InlineHandoff.LateHandlerCannotWin` | core/epoll_inline_linux_amd64.go:172-185 | a handler whose run no longer owns the loop ends without touching it and cannot win a hand-off |
| `InlineHandoff.StrikesAtSecond` | core/epoll_inline_linux_amd64.go:141-153 | in every run, a tick makes the watchdog strike at a run exactly if the tick before it saw the same run: not sooner and not later |
| `InlineHandoff.RunKeeps` | core/epoll_inline_linux_amd64.go:141-265 | the invariant over driver, sequence numbers, tasks and counts survives every legal run |
| `WorkerWake.NoLostWakeup` | core/epoll_backend_linux_amd64.go:679-739 | while a worker is blocked with no token pending, every posted task has run and every pushed completion is finished, except those whose poster has not returned |
| `WorkerWake.ConsumedInOrder` | core/epoll_backend_linux_amd64.go:703-739 | over all drains together, tasks run in send order and completions finish in push order |
| `WorkerWake.RunKeeps` | core/epoll_backend_linux_amd64.go:941-959 | the invariant over flags, channel, completion list and wait state survives every legal run |
| `WorkerWake.FinishH1Done` | core/epoll_backend_linux_amd64.go:725-739 | turns the intrusive list around in place, finishes the connections in push order and clears every link |
| `HpackInt.EncodeInt` | core/hpack.go:97-110 | writes the integer of section 5.1 of RFC 7541 behind any flags |
| `HpackInt.DecodeInt` | core/hpack.go:1478-1502 | accepts exactly the integers of at most ten continuation bytes below 2^64 and gives their value and length; the overflow guard is neither early nor late |
| `HpackInt.ReadInt` | core/fp_hpack.go:229-256 | the client's reader: the same with at most five continuation bytes |
| `HpackInt.GuardExact` | core/hpack.go:1492-1494 | the shifted comparison rejects exactly the digits whose addition would overflow 64 bits |
| `HpackInt.IntRoundTrip` | core/hpack.go:97-110 | for every 64-bit value, prefix width and following bytes, reading what was written gives the value and its length |
| `HpackInt.ReadersAgree` | core/fp_hpack.go:229-256 | server and client readers differ exactly on integers with a full prefix and six to ten continuation bytes, those of ten worth less than 2^64; the client refuses these |
| `HpackInt.TailLenIs` | core/fp_hpack.go:239-253 | the count of continuation bytes, byte by byte |
| `HpackInt.LongIntegerDiffers` | core/fp_hpack.go:239-253 | an integer the server reads and the client refuses |
| `HuffmanCode.PrefixFree` | core/hpack.go:1591-1660 | no code word of the listed table begins another |
| `HuffmanCode.Listed` | core/hpack.go:1591-1660 | every entry of the table stands in the canonical order of code words |
| `HuffmanCode.NotAllOnes` | core/hpack.go:1659-1659 | no word but the end-of-string word is all ones |
| `Huffman.EncodedLen` | core/hpack.go:120-131 | the unrolled loop gives the length of the coded form |
| `Huffman.Append` | core/hpack.go:133-149 | the unmasked 64-bit accumulator yields the words of the string filled up with ones, for strings of any length |
| `Huffman.BuildTables` | core/hpack.go:1675-1692 | the primary table holds, for each byte, the short word that begins it, and the groups hold every long word |
| `Huffman.Lookup` | core/hpack.go:1694-1716 | finds the one word that begins the pending bits, or none does |
| `Huffman.Decode` | core/hpack.go:1552-1589 | accepts exactly the coded forms and returns the string coded; the early exit loses nothing |
| `Huffman.ClientDecode` | core/fp_hpack.go:281-311 | the same for the client's decoder, which tests at other places |
| `Huffman.Agree` | core/fp_hpack.go:281-311 | both decoders agree on every input, undo the encoder, and what they accept is what the encoder writes |
| `Huffman.CodesUnique` | core/hpack.go:1552-1589 | a coded form has one meaning |
| `Huffman.CodesOnce` | core/hpack.go:133-149 | a string has one coded form |
| `Huffman.FillIsStuck` | core/hpack.go:1585-1587 | filling never yields a symbol |
| `Huffman.Expansion` | core/hpack.go:1062-1066 | a coded form grows by eight fifths at most |
| `HpackTable.EvictLongest` | core/h2_enctable.go:47-60 | eviction drops nothing that could have stayed |
| `HpackTable.AddPrefix` | core/hpack.go:737-758 | a table that begins another still does after both add a field |
| `HpackTable.DynTable.AddEntry` | core/hpack.go:737-758 | the ring refines adding to a newest-first list; a field within the limit is never dropped for want of a slot |
| `HpackTable.DynTable.SetMaxSize` | core/hpack.go:760-770 | the ring refines eviction to a new limit |
| `HpackTable.DynTable.Grow` | core/hpack.go:692-708 | moving to a larger ring keeps the contents, and makes room whenever the limit allows more entries |
| `HpackTable.DynTable.Insert` | core/hpack.go:751-757 | stepping the head back puts the field in front of all others |
| `HpackTable.DynTable.MakeRoom` | core/hpack.go:742-747 | evicts exactly the oldest entries that do not fit beside the new one |
| `HpackTable.DynTable.Get` | core/hpack.go:678-683 | index `i` of the ring is entry `i` of the list |
| `HpackTable.EncTable.EvictTo` | core/h2_enctable.go:47-60 | the slice refines eviction of the list, and an unchanged generation means unchanged entries |
| `HpackTable.EncTable.SetPeerLimit` | core/h2_enctable.go:36-45 | the limit is the peer's up to 4096, entries are evicted to it, a change is marked pending and in the generation |
| `HpackTable.EncTable.Find` | core/h2_enctable.go:66-73 | the dynamic index of the newest such entry, or zero |
| `HpackTable.EncTable.AddField` | core/h2_enctable.go:75-85 | the slice refines adding to the list; every change has a new generation |
| `HpackStatic.StaticNameFold` | core/hpack.go:248-435 | an index it gives is that of a static entry with the folded name |
| `HpackStatic.StaticNameComplete` | core/hpack.go:248-435 | a name is found if and only if some static entry has it, folded |
| `HpackCodec.StringRoundTrip` | core/hpack.go:647-676 | a string written raw or Huffman coded and read back, whatever follows, is itself |
| `HpackCodec.StatusReads` | core/hpack.go:479-502 | any status a word holds is read as `:status` and the digits the source writes, indexed or not |
| `HpackCodec.PlainReads` | core/hpack.go:189-198 | a field written outside the table is read with its name in lower case |
| `HpackCodec.KeepReads` | core/h2_enctable.go:94-117 | a field written through the table is read as itself, and the tables stay in step |
| `HpackCodec.BlockReads` | core/hpack.go:784-882 | a block of any length by an encoder in step decodes to exactly its fields, and `DecodeInto` reads it if and only if it has at most 128 of them; the encoder's table begins the decoder's after it, and equals it if it did once the decoder resized |
| `HpackCodec.CapOnly` | core/hpack.go:784-882 | of a sound block `DecodeInto` makes what a decoder without the field limit makes, or too many headers |
| `HpackCodec.OneTooMany` | core/hpack.go:784-882 | a block of 129 fields is refused |
| `HpackCodec.LimitKeeps` | core/h2_enctable.go:36-45 | a change of the peer's limit keeps the two in step |
| `HpackCodec.EveryConnectionReads` | core/h2_enctable.go:36-117 | over any run of limits and blocks of any length from a fresh connection, every block decodes to exactly its fields, `DecodeInto` refuses those of more than 128 and no others, and the encoder's table stays a newest-first prefix of the decoder's |
| `HpackCodec.TablesMayDiffer` | core/h2_enctable.go:87-92 | several limits between two blocks become one update, after which the decoder's table is longer |
| `HpackEncoder.EncodeString` | core/hpack.go:153-167 | writes the shorter of the two forms, raw below twelve bytes |
| `HpackEncoder.EncodeStringLower` | core/hpack.go:437-467 | writes the folded name in the shorter form |
| `HpackEncoder.FieldCache.Encode` | core/hpack.go:229-246 | whatever the shared cache holds, the field is encoded as without it |
| `HpackEncoder.EncodeHeaderFold` | core/hpack.go:189-198 | writes the literal the codec reads back |
| `HpackEncoder.EncodeStatus` | core/hpack.go:479-502 | writes the status the codec reads back |
| `HpackEncoder.BeginBlock` | core/h2_enctable.go:87-92 | announces the limit in force once, and only then |
| `HpackEncoder.EncodeField` | core/h2_enctable.go:94-117 | writes the form and makes the table change the codec's proof relies on |
| `ResponseHead.EncodeDated` | core/h2_headers.go:91-153 | writes the block of status, date, type, length, headers and server in order, each of the last three once |
| `ResponseHead.EncodeHeaders` | core/h2_headers.go:124-148 | the header loop writes the operations of the headers; what fields those are is `HeadFields.HeadHolds` |
| `ResponseHead.HeadReads` | core/h2_headers.go:91-153 | a head sent to a decoder in step is read as its fields and keeps the two in step; `DecodeInto` refuses it exactly when it has more than 128 |
| `HeadFields.HeadHolds` | core/h2_headers.go:91-153 | the fields of a head are its status, a date if no header is one, its type and its length if given, then every header that is carried in order with its name in lower case and its own value, then a server if no header is one; nothing else |
| `HeadFields.OneHeader` | core/h2_headers.go:124-148 | a header is carried exactly if its name is not empty, not a pseudo-field's and not one of the connection, and a type, length or server was not given before it |
| `HeadFields.HeadFits` | core/h2_headers.go:124-148 | behind the status every name is in lower case and one HTTP/2 carries |
| `HeadFields.HeadCounts` | core/h2_headers.go:105-153 | a type or length goes out once at most, a server once, a date once unless the headers have more, any other name as often as the headers have it |
| `HeadFields.TwoDates` | core/h2_headers.go:96-106 | two dates among the headers both go out |
| `HeadMemo.KeyInjective` | core/h2_headmemo.go:43-69 | equal recorded key, lengths and type length mean equal type, server name and headers, though the server name's length is not recorded |
| `HeadMemo.FlatInjective` | core/h2_headmemo.go:58-69 | recorded lengths take the concatenated headers apart in one way |
| `HeadMemo.Memo.Remember` | core/h2_headmemo.go:71-85 | records the key of the head |
| `HeadMemo.Memo.HeadersMatch` | core/h2_headmemo.go:58-69 | true exactly when lengths and the rest of the key are those of the headers |
| `HeadMemo.Writer.Matches` | core/h2_headmemo.go:43-56 | a match means same generation, date and head, and nothing but an empty block hides one |
| `HeadMemo.Writer.EncodeRemembered` | core/h2_headmemo.go:87-103 | encodes as without memo, and what it keeps is what a fresh encoding against the current table would emit |
| `HeadMemo.Writer.EncodeIndexed` | core/h2_headers.go:77-89 | hit or miss, the block and the table are those of a fresh encoding |
| `HeadMemo.Writer.SetPeerLimit` | core/h2_enctable.go:36-45 | a limit change leaves no memo that could be used wrongly |
| `HeadMemo.SendAll` | core/h2_headers.go:77-153 | over any run of limits and heads, the blocks sent are those of a writer without memo |
| `HpackBound.StringGrowth` | core/hpack.go:1062-1066 | a string read is at most eight fifths of the bytes it took |
| `HpackBound.FieldGrowth` | core/hpack.go:1076-1079 | a field costs at most the largest static entry, the longest dynamic name, the entry referred to and eight fifths of its bytes |
| `HpackBound.BoundHolds` | core/hpack.go:1068-1079 | for every block and table the general loop decodes, the cheap bound is not below the true size |
| `HpackBound.TestIsExact` | core/hpack.go:1076-1079 | so the test in two stages is the exact comparison with the limit |
| `HpackDecoder.Decoder.DecodeInto` | core/hpack.go:784-882 | the loop over ring and string cache computes the block function, errors included, and counts referenced bytes and longest names; a changed table moves the generation and drops the memo |
| `HpackDecoder.Decoder.Turn` | core/hpack.go:791-879 | one representation is read as the block function reads it; the generation tells whether the table changed and a change drops the memo |
| `HpackDecoder.Decoder.DecodeString` | core/hpack.go:647-676 | reads the string in front, or fails, whatever the cache holds |
| `HpackDecoder.Decoder.HuffmanText` | core/hpack.go:660-675 | a cached text is the decoded text |
| `HpackDecoder.Decoder.LookupIndex` | core/hpack.go:710-735 | the static or dynamic entry of an index, or none |
| `HpackDecoder.Decoder.DecodeLiteral` | core/hpack.go:808-832 | a literal field by indexed or spelled name is read as `HpackWire.LiteralIsRead` says for every way to write one, or refused |
| `HpackWire.RepIsRead` | core/hpack.go:791-879 | every representation of section 6 of RFC 7541, with integers in any spelling of up to ten more bytes and 64 bits and strings raw or Huffman, in front of any bytes: an index from 1 to 61 plus the table's length gives its static or dynamic entry, a larger one or zero is refused; a literal gives its spelled or indexed name with its value and enters the table exactly with incremental indexing, keeping the newest entries that fit; a size update comes first and within the limit or is refused |
| `HpackWire.LiteralIsRead` | core/hpack.go:808-832 | a literal with its name by static index, by dynamic index or spelled out is read with that name and its value, and refused exactly for a larger index |
| `HpackWire.RepWasThere` | core/hpack.go:791-879 | whatever is read is one of those representations |
| `HpackWire.NothingElseIsRead` | core/hpack.go:791-879 | so bytes that none of them begins are refused |
| `HpackWire.BlockIsRead` | core/hpack.go:784-882 | a block of representations is read as what they mean one after the other |
| `HpackWire.BlockWasThere` | core/hpack.go:784-882 | and every block that is read is one |
| `HpackWire.OneMeaning` | core/hpack.go:791-879 | a representation means one thing to a decoder |
| `HpackWire.IntIsRead` | core/hpack.go:1478-1502 | an integer behind any flags, groups worth nothing included, is read as its value |
| `HpackWire.IntWasThere` | core/hpack.go:1478-1502 | and whatever is read is such an integer |
| `HpackWire.TextIsRead` | core/hpack.go:647-676 | a string, raw or Huffman, is read as its text |
| `HpackWire.TextWasThere` | core/hpack.go:647-676 | and whatever is read is such a string |
| `H2Request.GeneralIsFull` | core/hpack.go:888-1003 | unless the connection ends, the request loop has decoded the whole block: fields and table are those of a full decode, also for malformed requests |
| `RequestMeaning.EveryBlockJudged` | core/hpack.go:888-1003 | what becomes of any block, by its list of fields alone: an unsound field among the first 129 ends the connection, else more than 128 fields do, else an error of the block; otherwise it is accepted exactly if the list is an ordinary request, a CONNECT or a CONNECT with a protocol, with exactly what the list says, and malformed if not |
| `RequestMeaning.RequestSays` | core/hpack.go:1188-1265 | of a request that is not fatal: no pseudo-field twice or behind another field; method, scheme, authority and path are the values of the fields of that name and the length the number in content-length, empty if there is none; the path is split at its first question mark and cleaned |
| `RequestMeaning.FieldSeen` | core/hpack.go:1188-1265 | one field more is taken exactly if it is sound behind those before it, and then what was read is what the longer list says |
| `RequestMeaning.ValidatesList` | core/hpack.go:1267-1294 | what is required of a request is exactly what is said of its list |
| `RequestMeaning.FoundIsAll` | core/hpack.go:888-1003 | the list is that of a full decode of the block |
| `RequestMeaning.LengthSpelled` | core/utils.go:250-268 | a length is the decimal number written |
| `CleanPaths.CleanPathIs` | core/utils.go:539-591 | a cleaned path is that of the segments that stay when dots are resolved from the last one back; a slash at the end stays exactly if nothing else was to be cleaned |
| `CleanPaths.CleanOnce` | core/utils.go:539-591 | it begins with a slash, has the segments of the path it came from, none of them empty or dots, and cleaning it again changes nothing |
| `H2FastPath.FastAgrees` | core/hpack.go:1005-1039 | the GET-path shortcut gives the method, path, query, scheme, regular fields, table and error of the general loop |
| `H2FastPath.MatchRoot` | core/epoll_h2_linux_amd64.go:1190-1208 | recognises the three indexed fields, each once, in any order |
| `H2FastPath.RootReads` | core/epoll_h2_linux_amd64.go:281-287 | such a block is a GET for the root over https with no regular fields, and leaves the table alone |
| `H2FastPath.SanitizeShorter` | core/utils.go:525-591 | sanitizing never lengthens an absolute path |
| `H2FastPath.FastBound` | core/hpack.go:1457-1459 | on the shortcut, too, the test in two stages is exact |
| `RequestDecoder.Requests.Loop` | core/hpack.go:888-1003 | the general loop over ring and cache computes the request function and its table; what that function makes of the fields is `RequestMeaning.EveryBlockJudged` |
| `RequestDecoder.Requests.Simple` | core/hpack.go:1005-1039 | takes exactly the blocks of its shape and answers as stated for them |
| `RequestDecoder.Requests.Decode` | core/hpack.go:1450-1460 | answers by the exact list size and leaves the table of a full decode |
| `RequestDecoder.Requests.DecodeRequest` | core/hpack.go:1446-1465 | with the memo in front, the answer is that of decoding the block now, and the table that of a full decode |
| `RequestDecoder.Requests.NewStream` | core/epoll_h2_linux_amd64.go:273-317 | whichever shortcut answers a new stream, the answer is one a full decode calls for and the table is that of a full decode |
| `RequestDecoder.Requests.DecodeFields` | core/epoll_h2_linux_amd64.go:403-412 | a plain decode on the decoder that has the memo leaves a memo that answers as decoding does |
| `RequestDecoder.Requests.Trailers` | core/epoll_h2_linux_amd64.go:454-489 | trailers are taken, rejected or end the connection as a full decode of their block calls for |
| `RequestDecoder.TrailerFields` | core/trailers.go:37-46 | accepts exactly lists of permitted fields and hands on those not forbidden, in order |
| `RequestDecoder.FieldListSize` | core/hpack.go:1169-1175 | the size of a header list |
| `RequestDecoder.Requests.Refuse` | core/epoll_backend_linux_amd64.go:1036-1046 | a stream refused while going away still leaves the table of a full decode |
| `RequestDecoder.Requests.Arrive` | core/epoll_h2_linux_amd64.go:259-317 | any header block on any stream: the reply is the one a full decode calls for, and the connection goes on with the table of a full decode or ends when that fails or the stream cannot have it |
| `RequestDecoder.AnswersAgree` | core/hpack.go:1446-1465 | connection error, malformed request, too large a list and a served request each mean the same for a full decode |
| `RequestDecoder.ServeAll` | core/epoll_h2_linux_amd64.go:259-317 | over any run of requests, trailers, refused and discarded blocks the table is that of plain decodes of all of them for as long as the connection goes on, and it ends only where a full decode fails or a block belongs nowhere |
| `RequestDecoder.FullIsPlain` | core/hpack.go:784-882 | full request decodes and plain decodes leave the same table over any run |
| `RequestDecoder.ShortcutExact` | core/hpack.go:1021-1028 | shortcut and general loop answer the same if and only if the limit is not between the list with the sanitized path and the list with the path as it came |
| `RequestDecoder.QueryTipsTheScale` | core/hpack.go:1021-1028 | for every limit from 124 on a block the shortcut serves and the general loop answers as too large |
| `RequestDecoder.EveryLimitTips` | core/h2_shared.go:148-151 | so there is one under the limit of every configuration |
| `H2Fragment.WriteHeaders` | core/fp_h2.go:650-668 | the simple splitter's frames |
| `H2Fragment.FragmentInPlace` | core/h2_shared.go:259-280 | the in-place splitter, whatever the length field held, leaves exactly the simple splitter's frames behind the earlier output |
| `H2Fragment.FinishHeaders` | core/h2_shared.go:250-257 | a block of any length ends up as the simple splitter's frames: within the limit by its length field, beyond it in place in a grown buffer |
| `H2Fragment.AppendHeaderBlock` | core/h2_shared.go:224-233 | a block encoded earlier is appended behind a pending table update, as the simple splitter's frames of the two together |
| `H2Fragment.SpreadOut` | core/h2_shared.go:267-277 | moving from the back never overwrites a chunk that has yet to move |
| `H2Fragment.PlaceFrame` | core/h2_shared.go:268-276 | one round puts a chunk behind its header, in front of the frames already placed, and touches nothing before |
| `H2Fragment.SplitReassembles` | core/epoll_h2_linux_amd64.go:205-257 | the reader gets the block and END_STREAM back from either splitter, whatever follows; it refuses exactly blocks over four times the list limit that needed a second frame |
| `H2Fragment.ContinuationsRead` | core/epoll_h2_linux_amd64.go:240-257 | continuation frames add up to the rest of the block |
| `H2Frames.HeaderReads` | core/h2_shared.go:409-420 | a frame header reads back as its length, type, flags and stream |
| `H2Send.Serve` | core/epoll_h2_linux_amd64.go:1010-1066 | for any mix of direct and buffered sends, streaming writers on other streams, flushes and control frames, whatever lengths the kernel accepts: wire plus waiting bytes read back as exactly the frames emitted, each stream's DATA is its body up to its offset behind one header block, with END_STREAM on the last byte or on the HEADERS of an empty body, and every window is what it was plus what was granted minus what was sent, never overdrawn |
| `H2StreamSend.Run` | core/epoll_h2_stream_linux_amd64.go:273-348 | over any run of handlers, pumps, flushes, increments and other frames: wire plus waiting bytes read back as exactly the frames emitted; the DATA of each writer followed by what it has buffered is what its handler wrote before it closed or failed, behind one HEADERS; END_STREAM is behind everything, only when the handler has ended and all is out, and always once a writer finished without failure |
| `H2StreamSend.Step` | core/epoll_h2_stream_linux_amd64.go:114-216 | each event keeps that and adds to what was written exactly what is accepted |
| `H2StreamSend.Pump` | core/epoll_h2_stream_linux_amd64.go:273-348 | headers first, then a prefix of the buffer that both windows pay for, stopping only for a window or room; a writer that has not failed is finished exactly if its headers are out, it has ended and nothing is buffered |
| `H2StreamSend.PumpHead` | core/epoll_h2_stream_linux_amd64.go:290-306 | the headers have END_STREAM exactly if the writer has ended with nothing buffered |
| `H2StreamSend.PumpData` | core/epoll_h2_stream_linux_amd64.go:311-333 | frames take the buffer from the front within both windows and the frame limit |
| `H2StreamSend.PumpEnd` | core/epoll_h2_stream_linux_amd64.go:343-346 | an empty frame ends a stream whose last byte went out before its handler ended |
| `H2StreamSend.PumpReset` | core/epoll_h2_stream_linux_amd64.go:282-289 | a failed writer sends at most a reset |
| `H2StreamSend.Writer.AllOut` | core/epoll_h2_stream_linux_amd64.go:273-348 | a writer that finished without failure has sent all that was written, and END_STREAM last |
| `H2StreamSend.Writer.WriteChunk` | core/epoll_h2_stream_linux_amd64.go:114-147 | bytes are taken exactly while the writer has neither ended nor failed |
| `H2StreamSend.Writer.Fail` | core/epoll_h2_stream_linux_amd64.go:208-216 | a failure ends a writer at once, a stall at its next pump |
| `H2Send.ReadsBack` | core/epoll_h2_linux_amd64.go:27-46 | the bytes of any emissions read as exactly their frames, in order, with nothing left |
| `H2Send.Stream.EndsOnce` | core/epoll_h2_linux_amd64.go:1109-1138 | END_STREAM is there once when head and body are complete, and not before |
| `H2Send.AppendHead` | core/epoll_h2_linux_amd64.go:1109-1119 | the header block goes out once, split as the header writer does, with END_STREAM if there is no body |
| `H2Send.HeadEncodes` | core/h2_shared.go:250-280 | the frames of a header block are the bytes the header writer puts out |
| `H2Send.SendWindowed` | core/epoll_h2_direct_linux_amd64.go:28-48 | whatever was accepted, both windows drop by exactly what stayed, done means the whole body, and a full write stops only for a window, the budget in bytes or 64 frames |
| `H2Send.Plan` | core/epoll_h2_direct_linux_amd64.go:32-42 | the planned headers are those of frames that carry the next bytes of the body within both windows |
| `H2Send.SendFrames` | core/epoll_h2_direct_linux_amd64.go:50-74 | after a write cut at any byte, a prefix of the planned frames counts as sent and the rest is as if never made |
| `H2Send.Writev` | core/epoll_h2_direct_linux_amd64.go:58-70 | the write itself, cut at any byte: wire, what is kept and the frames that count as sent |
| `H2Send.KeepPartialFrame` | core/epoll_h2_direct_linux_amd64.go:76-90 | what goes back to the buffer completes the frame that was cut |
| `H2Send.Unsent` | core/epoll_h2_direct_linux_amd64.go:92-103 | the payload taken back is that of the frames not kept |
| `H2Send.CutSegments` | core/epoll_h2_direct_linux_amd64.go:50-57 | headers and data are cut into the segments of the frames |
| `H2Send.CutIsWhole` | core/epoll_h2_direct_linux_amd64.go:76-90 | bytes accepted plus bytes kept are whole frames, for every cut |
| `H2Send.EndOnce` | core/epoll_h2_linux_amd64.go:1128-1138 | END_STREAM appears on one frame at most, the one with the last byte |
| `H2Send.EndAt` | core/epoll_h2_linux_amd64.go:1128-1138 | a frame carries END_STREAM exactly when the body is complete with it |
| `H2Send.AppendWindowed` | core/epoll_h2_linux_amd64.go:1049-1066 | the buffered sender: whole frames, windows down by the payload, stopping only for body, window or budget |
| `H2Send.Conn.Flush` | core/epoll_h2_direct_linux_amd64.go:105-128 | a flush of any length keeps wire plus waiting bytes |
| `H2Send.Stream.Chunk` | core/epoll_h2_linux_amd64.go:1128-1138 | a chunk is the least of what is left of the body, both windows and the frame limit, and nothing while a window is closed |
| `H2Flow.Conn.Run` | core/epoll_h2_linux_amd64.go:165-203 | in every state of every run of the events below: streams are placed, windows counted and charges accounted as `Valid` says; no frame sent is forgotten and each fitted both windows; the connection window is what it was plus the increments in the events minus what was sent; and a stream's window is the current initial size plus the increments it was given since it was opened minus what was sent on it, less only once it is abandoned |
| `H2Flow.Conn.Step` | core/epoll_h2_stream_linux_amd64.go:240-457 | an event is accepted exactly when its increment or settings fit; it keeps `Valid`, adds its increment to the account of the connection or of its stream and to no other, opens at most the stream it names, forgets no frame, and does to streams, collections and frames what the rows below say of it |
| `H2Flow.GrantedOn` | core/epoll_h2_linux_amd64.go:599-645 | credits over a run are the increments since a stream was opened, one event at a time |
| `H2Flow.InBalance` | core/epoll_h2_linux_amd64.go:599-645 | so windows balance from any earlier state |
| `H2Flow.Conn.ExactlyOne` | core/epoll_h2_linux_amd64.go:651-669 | a live stream is in exactly one of `streams`, `sending`, busy and finished-handler writers |
| `H2Flow.Conn.Shift` | core/epoll_h2_linux_amd64.go:651-669 | every live stream's window moves by the change, once, and the result says whether one overflowed |
| `H2Flow.Conn.Settings` | core/epoll_h2_linux_amd64.go:165-203 | the last initial window takes effect on all windows and the last frame size on frames; the connection stays open exactly when every value is proper and no window overflows; if windows grew every response is resumed, otherwise nothing is sent |
| `H2Flow.Conn.Consume` | core/epoll_h2_linux_amd64.go:1140-1144 | a DATA frame within both windows lowers both by its length |
| `H2Flow.Conn.EmitWindowed` | core/epoll_h2_linux_amd64.go:1010-1144 | a response advances by what both windows lose, every frame fits both at emission, and it stops only when complete, for a closed window or for lack of room |
| `H2Flow.Conn.Credit` | core/epoll_h2_linux_amd64.go:638-645 | an increment is applied unless it would pass 2^31-1 |
| `H2Flow.Conn.StreamUpdate` | core/epoll_h2_linux_amd64.go:609-636 | an increment reaches the stream wherever it is, and a response being sent goes on as `Resume` says; nothing or too much resets the stream as `Abandon` says |
| `H2Flow.Conn.ConnUpdate` | core/epoll_h2_linux_amd64.go:599-608 | the connection window grows unless it would overflow or the increment is zero, and then every response is resumed |
| `H2Flow.Conn.Settle` | core/epoll_h2_linux_amd64.go:1031-1047 | a parked response is charged what it holds, twice while a window is closed, and is reset exactly when that takes a counter over its cap; the counters are the sums over `sending` and stay within the cap and eight times it |
| `H2Flow.Conn.ReleaseSending` | core/h2_shared.go:379-385 | a released response takes its charges with it |
| `H2Flow.Conn.Resume` | core/epoll_h2_linux_amd64.go:1159-1166 | a response is sent as far as windows and room allow, and stays parked if and only if it is not complete and fits the caps; one that has to go was stalled with more than the cap parked |
| `H2Flow.Conn.ResumeAll` | core/epoll_h2_linux_amd64.go:1146-1157 | in whatever order, every response is sent until it is complete, a window is closed or its room used up: one still in `sending` has bytes left for one of these reasons and is charged for them; one gone is complete, or was stalled with more than the cap parked; no other stream changes or sends |
| `H2Flow.Conn.NewStream` | core/epoll_h2_linux_amd64.go:333-366 | a new stream starts with the initial window, with its handler or among those awaiting a body |
| `H2Flow.Conn.Dispatch` | core/epoll_h2_linux_amd64.go:671-778 | a stream moves from awaiting a body to busy |
| `H2Flow.Conn.FinishBuffered` | core/epoll_h2_linux_amd64.go:930-995 | a buffered response leaves busy, is sent as far as windows and room allow, and is parked if and only if it is not complete and fits the caps; an abandoned one is dropped unsent |
| `H2Flow.Conn.FinishStreamed` | core/epoll_h2_stream_linux_amd64.go:383-409 | a stream whose handler returned leaves busy and is pumped as an ended writer; it stays among the writers exactly if that does not finish it; an already finished one goes at once; no other collection changes |
| `H2Flow.Conn.Pump` | core/epoll_h2_stream_linux_amd64.go:259-348 | the buffer is sent until it is empty, a window is closed or the room used up, and only behind an empty buffer as much of the file as windows and room take, unless the read comes up short or fails; windows lose what was sent; a writer is finished exactly if it has ended and nothing is buffered, and goes with its stream if its handler has returned; no other stream changes or sends |
| `H2Flow.Conn.PumpFrames` | core/epoll_h2_stream_linux_amd64.go:273-348 | buffer first, then file, as `Pump` says; a writer that failed sends no more and is finished, one that is finished is left alone |
| `H2Flow.Conn.SettleWriter` | core/epoll_h2_stream_linux_amd64.go:350-361 | a finished writer whose handler has returned goes with its stream |
| `H2Flow.Conn.PumpAll` | core/epoll_h2_stream_linux_amd64.go:418-430 | after a flush every writer is pumped as `Pump` says and then every response resumed as `ResumeAll` says, in whatever order; none joins, and busy and body-awaiting streams stay |
| `H2Flow.Conn.PumpWriters` | core/epoll_h2_stream_linux_amd64.go:418-430 | every writer is pumped, whatever the order; the finished ones whose handlers have returned are gone; no other stream changes or sends |
| `H2Flow.Conn.PumpTask` | core/epoll_h2_stream_linux_amd64.go:240-257 | a writer is registered at its first pump and pumped |
| `H2Flow.Conn.HandlerWrites` | core/epoll_h2_stream_linux_amd64.go:114-170 | what a handler writes, names or ends reaches its writer alone |
| `H2Flow.Conn.PumpFile` | core/epoll_h2_file_linux_amd64.go:135-176 | file frames take what fits both windows, file, room and 64 frames; a short read leaves everything as it was; a failed one drops the file and fails the writer |
| `H2Flow.Conn.CancelStreaming` | core/epoll_h2_stream_linux_amd64.go:440-457 | a cancelled writer is gone, with its stream if the handler has returned |
| `H2Flow.Conn.Abandon` | core/epoll_h2_linux_amd64.go:419-431 | an abandoned stream is left exactly if it is with its handler, marked abandoned; it leaves every other collection, nothing is sent and every other stream is untouched |
| `H2Flow.AccountCharge` | core/epoll_h2_linux_amd64.go:1031-1047 | replacing a charge keeps the sums, and dropping the response that does not fit restores both caps |
| `H2Flow.OverStalled` | core/epoll_h2_linux_amd64.go:1031-1047 | a response that shrank passes no cap but that for stalled ones, and that only with more than the cap parked |
| `Chunked.ParseHex64Bytes` | core/utils.go:282-297 | the value of a hexadecimal size, or a refusal exactly for bad digits or too large a value |
| `Chunked.Decoder.Advance` | core/chunked_decoder.go:111-167 | one step of the decoder as a function of state and input |
| `Chunked.AsyncChunkedComplete` | core/conn_shared.go:32-51 | the scan reports the end, a rejection or where to resume |
| `Chunked.DecodeChunkedInto` | core/epoll_h1_linux_amd64.go:517-529 | the decode yields body and trailers of a whole message, or fails |
| `Chunked.ScanResume` | core/conn_shared.go:32-51 | an interrupted scan, resumed at its saved position over a longer buffer, continues the scan of the whole |
| `Chunked.ServedScanAgrees` | core/epoll_h1_linux_amd64.go:214-255 | however often the scan restarts while bytes arrive, it finds the same end, or the same rejection, as one scan |
| `Chunked.CompleteBodyDecodes` | core/epoll_h1_linux_amd64.go:214-255 | once the end is reported, decoding exactly that range succeeds |
| `Chunked.NextStable` | core/chunked_decoder.go:111-167 | a step that finished, and a rejection, are the same with more input |
| `Chunked.NextTwin` | core/chunked_decoder.go:111-167 | capturing trailers changes nothing else |
| `Chunked.HexRoundTrip` | core/utils.go:370-387 | a size written in hexadecimal reads back |
| `Chunked.RelayRoundTrip` | core/epoll_proxy_exchange_linux_amd64.go:620-625 | non-empty pieces written as chunks, and the terminator, scan to the end exactly behind it and decode to the pieces in order |
| `Chunked.EmptyPieceEndsBody` | core/epoll_proxy_exchange_linux_amd64.go:620-625 | an empty piece would be read as the end |
| `ChunkedReading.BodyIsRead` | core/chunked_decoder.go:111-167 | however a body is written (digits of either case with leading zeros, any extensions, any trailers within the limit of a framing line), the scan ends exactly behind it whatever follows, and it decodes to the data of its chunks and the trailers that may be handed on, in order |
| `ChunkedReading.ChunkIsRead` | core/chunked_decoder.go:111-167 | a chunk in any spelling is passed over by the scan and decoded to its data |
| `ChunkedReading.SizeIsRead` | core/chunked_decoder.go:27-41 | a size line of hexadecimal digits and extensions is read as the number of its digits |
| `ChunkedReading.SizeWasThere` | core/chunked_decoder.go:27-41 | and whatever is read as a size is such a line |
| `ChunkedReading.ExtsAreValid` | core/chunked_decoder.go:43-99 | every list of extensions with names, token or quoted values and blanks around the separators is valid |
| `ChunkedReading.ExtsFound` | core/chunked_decoder.go:43-99 | and whatever is valid is such a list |
| `ChunkedReading.HexIs` | core/utils.go:282-297 | a hexadecimal digit is one of sixteen in either case and stands for its place among them |
| `ChunkedReading.TrailersAreRead` | core/chunked_decoder.go:111-167 | trailers are passed over up to the empty line, and all but the forbidden ones captured in order |
| `ChunkedReading.TrailerIsRead` | core/trailers.go:28-35 | a trailer line is read as its name and its value without blanks around it |
| `H1Response.H1Parser.Run` | core/fp_h1.go:233-407 | the parser over its buffer computes `Advance` of all unread bytes and emits the body pieces in order |
| `H1Response.H1Parser.OnHeaders` | core/fp_h1.go:409-500 | the header phase over the buffer is the header turn, whose meaning for every head a backend may write is `H1Reading.HeadIsRead` |
| `H1Response.H1Parser.OnData` | core/fp_h1.go:341-358 | body bytes are taken up to what the phase expects, and emitted |
| `H1Response.FeedTwice` | core/fp_h1.go:163-176 | feeding two reads one after the other is feeding them joined |
| `H1Response.PartitionIndependent` | core/fp_h1.go:163-176 | for every partition of the backend's bytes into reads: same status, headers and body, or same error |
| `H1Reading.ReadsLength` | core/fp_h1.go:275-306 | a response with a length, in any spelling of its head: exactly that many bytes are its body, with the status and fields written, and what follows stays unread; too long a body is refused unless streamed |
| `H1Reading.ReadsChunked` | core/fp_h1.go:307-392 | a chunked response: its body is the data of its chunks, whatever digits, blanks and extensions, and what follows its trailers stays unread; refused exactly if the data pass the body limit unstreamed or the trailers that of a head |
| `H1Reading.ReadsNoBody` | core/fp_h1.go:264-266 | a response to HEAD, or of 204 or 304, is done behind its head |
| `H1Reading.ReadsToClose` | core/fp_h1.go:286-288 | a response with neither has everything up to the close as body, within the limit unless streamed |
| `H1Reading.SkipsInterim` | core/fp_h1.go:254-263 | an interim response is skipped, 101 refused |
| `H1Reading.HeadIsRead` | core/fp_h1.go:237-253 | the turn for a head in front of any bytes takes exactly the head and reads what it says, or refuses it for its size or its lengths |
| `H1Reading.HeadReads` | core/fp_h1.go:409-500 | a head is read as the status and fields written, names in lower case and values without blanks around them, chunked and kept alive as they say; refused exactly if a length is no number or two differ |
| `H1Reading.TokenIsListed` | core/fp_h1.go:644-667 | a token is found exactly if it is one of the items between commas, blanks and case aside |
| `H1Reading.LengthIsNumber` | core/fp_h1.go:475-480 | a length is the decimal number written |
| `H1Reading.TheLength` | core/fp_h1.go:475-480 | all lengths of a head that is read say the same |
| `H1Reading.ReadsInAnyCut` | core/fp_h1.go:163-176 | and all that holds however the message is cut into reads |
| `H1Response.RelayReads` | core/epoll_proxy_be_linux_amd64.go:251-321 | what is relayed for a response of any length, whatever the reads, decodes to its body, as long as no single read is too long for one chunk |
| `H1Response.ByteBuffer.Write` | core/fp_buf.go:10-15 | appending, with or without compaction, appends to the unread bytes |
| `H1Response.ByteBuffer.Consume` | core/fp_buf.go:21-27 | consuming drops from the front of the unread bytes |
| `Dns.Loop.Run` | core/fp_dns.go:160-252 | at every event boundary each resolving connection is its host's querier or listed by it, one querier per host |
| `Dns.Loop.Step` | core/fp_dns.go:274-331 | every event keeps that; a new connection begins as `StartResolve` says, an answer dials all of the host, a missing one asks on as `Next` says, a close hands on as `Close` says, and events that do not apply change nothing |
| `Dns.Loop.StartResolve` | core/fp_dns.go:160-186 | a new connection is dialed or closed from the cache, joins the list of the host's querier, or becomes the querier of the first server that can be asked, or the host is settled; no other connection changes |
| `Dns.Loop.Close` | core/fp_conn.go:381-403 | closing a querier hands the host to the first live waiter with the rest, all others unchanged, or settles it; closing any other touches nothing else |
| `Dns.Loop.Abandon` | core/fp_dns.go:199-211 | the first live waiter becomes querier with the waiters behind it and nobody else changes; if no server can be asked the host is settled; or nobody is left |
| `Dns.Loop.Promote` | core/fp_dns.go:199-211 | the waiter that takes over keeps server and kind of address and gets the rest of the list |
| `Dns.Loop.Fail` | core/fp_dns.go:213-221 | every live waiter of the host is closed, no other connection changes |
| `Dns.Loop.Resolved` | core/fp_dns.go:306-319 | every live waiter of the host is dialed, no other connection changes |
| `Dns.Loop.GiveUp` | core/fp_dns.go:321-331 | an earlier address is used once more, otherwise all fail |
| `Dns.Loop.Attempt` | core/fp_dns.go:231-241 | the first server from the current one on that can be asked, or the host is settled, by an earlier address if there is one |
| `Dns.Loop.Next` | core/fp_dns.go:243-252 | the other kind of address at the same server first, then the next servers, then the host is settled |
| `Dns.Loop.Detach` | core/fp_dns.go:188-197 | takes the list off a registered querier and the host off the register |

## Left out

- Sockets, epoll, eventfd, sendfile and file reads: a write is "the kernel accepts some prefix", a wake is a token, a read may come up short.
- TLS records: sealed output is treated as the plain frames it carries, so `h2SealWindowed` is the windowed sender.
- The hand-written AVX2 and word-at-a-time scanners: the model states what they search for.
- The precomputed root response, which is written outside window accounting: window properties are those of the windowed senders.
- Admission counts (`h2EndedInFlight`, `h2Draining`, request slots) and rate limiters: counters beside the protocols modelled.
- Whether a frame may follow a reset on the same stream.
- Shutdown of the loops and of a backend loop as a whole; connections are closed one by one.
- The h2 completion list of a worker, which repeats the h1 list.
- 101 tunnels and reuse of idle upstream connections: a tunnel is refused, as in the client loop.
- Callbacks of exchanges that start new exchanges while name resolution settles a host.
- The pool that recycles stream writers: a pump task always meets the writer it was queued for.
- Hash values of caches: a cache slot is arbitrary, and entries are compared in full.
- `DecodeRequestMeta`, which nothing on the served path calls.
- Chunked.ValidExtensions: the extension grammar is a recursive function where the source loops.
- H2Flow.Conn.Step: the busy list is a sequence without its links, and a stream object is an entry of a map, so aliasing of recycled objects is not modelled.
- H2StreamSend.Pump: file bytes of a streaming writer, whose counts are in H2Flow.Conn.PumpFile.
- H2Flow.Conn.EmitWindowed: output budgets in bytes become a number of frames; H2Send.AppendWindowed and H2Send.SendWindowed have the budgets.
- H1Response.RelayReads: reads longer than 2^50 bytes less the header limit, whose chunk the decoder would refuse.
- WorkerWake.FinishH1Done: requires that `h1DoneNext` threads the list it is given; the state machine keeps that list as a sequence.
- RequestDecoder.ServeAll: the limiters of resets and control frames, which may end a connection earlier.
- QUIC and HTTP/3, certificates, routing, middleware, caching and logging.
