# Verified models of a collection of C and C++ components

The repository holds several small servers and libraries. This project models the algorithms in them
and proves what they promise. The state machines and specifications are functions; the code that works
in place is a class or a method proved against them.

- **HTTP parser** (`httpserver/http_parser.cc`): a resumable parser with about sixty states and a nested
  machine for header names and values. `HttpMachine.Transition` is the switch on one byte, `HttpRun` the
  machine that runs it and collects callbacks, `HttpExecute.HttpParser` the real loop with its marks,
  inner loops, `memchr()` scans and bulk body reads. On top of them: what cutting a stream into calls
  changes and what it does not, chunked bodies (section 4.1 of RFC 7230), header names, method names, the
  values of Transfer-Encoding and Connection, and the exact range of Content-Length and chunk sizes. Last,
  whole requests and responses are printed and read back, from the first byte of the start line to the end
  of the body (section 3.3.3 of RFC 7230), and their text says what the parser waits for next.
- **URL parser** (the same file): the two-stage splitter, proved to invert a printer of URL components
  (section 3 of RFC 3986, zone identifiers from section 2 of RFC 6874), and the record it fills.
- **Hash table** (`hashtable/hashtable.c`): items threaded through bucket chains and a doubly linked
  list, and the round robin of `hashtable_apply2`.
- **Jenkins hash** (`hashtable/hash.c`): three ways to read a key, one value; the numbers of the model are the
  images of 32-bit words, and values of the whole function are computed.
- **Shared-memory queue** (`shmmq/shmmq.c`): any number of processes, any interleaving, wrapping 32-bit
  counters; what a call does that nobody interrupts.
- **Tag stripper** (`php_strip_tags/php_strip_tags.c`): a one-pass transducer that writes over its input;
  what it takes out of a text piece by piece, and what it leaves.
- **IOBuf** (`httpserver/iobuf.cc`): a ring of blocks that share reference-counted buffers.
- **LRU cache** (`resource_cache/resource_cache.h`): a map, a ring with a sentinel, eviction and expiry.
- **Timers** (`ae/ae.c`): a list that is scanned again from its head while callbacks and
  finalizers edit it; which timers a pass fires, and when each is due after it.

Callbacks, clocks and the memory around a buffer are parameters. Where the code gets an input wrong, it
is modelled as it is: a lemma shows the input, and a theorem says for all inputs what the code does.

## Model

| member | source | states |
|---|---|---|
| HttpExecute.HttpParser.Execute | httpserver/http_parser.cc:644-2049 | One call of the real loop, with its marks, bulk reads and `memchr()` scans, ends with the errno of the machine that takes one byte at a time, and unless the header budget is exceeded with its consumed count and joined callbacks; if there is no error, all fields are those of the machine. |
| HttpExecute.HttpParser.constructor | httpserver/http_parser.cc:2102-2111 | A new parser satisfies the invariant and starts in the state of its kind. |
| HttpRun.StepKeepsGood | httpserver/http_parser.cc:712-2041 | Every byte in every reachable situation keeps the invariant that ties state, header_state, flags, content_length, nread and open slices together, so no assert fails, the internal-state error never occurs and at most one mark is set. |
| HttpMachine.TransitionTidy | httpserver/http_parser.cc:712-2041 | On every byte that is not refused the callbacks fit: only the slice that can be open is closed, only one that can be open in the next state is opened. |
| HttpPieces.CutExactly | httpserver/http_parser.cc:644-2049 | A stream fed in pieces that are not empty ends like the stream fed in one call, but for a larger nread, if and only if no byte is spoiled: the cuts so far inside names and values of a header section use up its budget there; or a cut in a general value makes the code look at a byte that `memchr()` would have skipped and that no header may hold; or behind the first 'P' of a method memory holds a 'U', and the next byte is one that POST goes on with and PUT does not. |
| HttpPieces.CutsToSpare | httpserver/http_parser.cc:644-2049 | If nread in the single call always leaves one byte of the header budget for each piece, `memchr()` skips only header bytes (or the parser is lenient), and no cut fools the guess at a method, any cutting gives the same end, however long the bodies are and whatever they hold. |
| HttpPieces.CutsWithinBudget | httpserver/http_parser.cc:644-2049 | The same if nread, the length of the stream and the number of pieces together stay within HTTP_MAX_HEADER_SIZE, and memory holds no wrong 'U' behind a piece that ends in 'P'. |
| HttpBudget.OverflowExactly | httpserver/http_parser.cc:139-157 | A byte is refused with HPE_HEADER_OVERFLOW exactly if the budget is checked on it, outside the inner loops or on leaving them, and is used up. |
| HttpExactCut.CutsOutsideHeaders | httpserver/http_parser.cc:644-2049 | A stream cut outside header names and values, where no guess of a method looks past a piece, gives the same fields, nread included, the same errno, count and callbacks as one call; after an error what was delivered and what is still held back agree together. |
| HttpCutExamples.BodyByteIsLost | httpserver/http_parser.cc:1973-2002 | When the byte behind a chunk is wrong, body bytes that a cut run has delivered are never delivered by the uncut one. |
| HttpCutExamples.CutsAreCounted | httpserver/http_parser.cc:1353-1375 | Two bytes of a header name count as three in one call and as four in two. |
| HttpCutExamples.ScannedByteIsSeen | httpserver/http_parser.cc:1485-1508 | A control character that `memchr()` passes over in one call is refused when it begins a call. |
| HttpCutExamples.CutsUseUpTheBudget | httpserver/http_parser.cc:1353-1375 | Three bytes before the end of the header budget, two bytes of a name are read in one call and refused in two. |
| HttpCutExamples.GuessIsMisled | httpserver/http_parser.cc:955-963 | A new parser that reads the "P" of a POST with a 'U' in memory behind it takes the method for PUT and refuses the 'O'. |
| HttpHeaders.NameIsRecognised | httpserver/http_parser.cc:1198-1371 | At the ':' header_state is Connection, ContentLength, TransferEncoding or Upgrade exactly if the lower-cased name is one of the names meant by it; the name is reported as it was spelled. |
| HttpHeaderCuts.NameInPieces | httpserver/http_parser.cc:1198-1371 | The same for every fragmentation of the name that leaves one byte of the header budget for each piece. |
| HttpNumbers.LengthIsExact | httpserver/http_parser.cc:1416-1429 | A Content-Length is stored with its decimal value exactly if that is at most 18446744073709551609, and refused otherwise. |
| HttpHeaderCuts.LengthInPieces | httpserver/http_parser.cc:1515-1540 | The same for every fragmentation of the value that leaves one byte of the header budget for each piece. |
| HttpNumbers.OnlyOneLength | httpserver/http_parser.cc:1377-1429 | Whatever lines stand between two Content-Length lines of a header section, the first digit of the second is refused. |
| HttpMethods.MethodExactly | httpserver/http_parser.cc:930-1031 | The 34 method names are accepted, each as its method, although the method is guessed from the first letter and corrected; every other text is refused. |
| HttpValues.ChunkedExactly | httpserver/http_parser.cc:1392-1685 | A Transfer-Encoding line sets F_CHUNKED exactly if its value is "chunked" in letters of any case with spaces behind it, and no other flag. |
| HttpValues.ConnectionExactly | httpserver/http_parser.cc:1392-1685 | A Connection line sets the flags of the words in its comma-separated list, except that an item that is the beginning of a word takes the comma and the next item with it, and an item that is empty or begins with no token character ends the list. |
| HttpValues.ConnectionMeant | httpserver/http_parser.cc:1392-1685 | If the list has no such items, the flags are those of all its words. |
| HttpValues.HalfWordHides | httpserver/http_parser.cc:1570-1610 | "c,close" does not set F_CONNECTION_CLOSE. |
| HttpValues.EmptyItemHides | httpserver/http_parser.cc:1551-1569 | Nor does "x,,close". |
| HttpNumbers.SizeIsExact | httpserver/http_parser.cc:1892-1943 | A chunk size is stored with its hexadecimal value exactly if that is at most 2^64 - 17, and refused otherwise. |
| HttpChunked.ChunkSizeInPieces | httpserver/http_parser.cc:1892-1943 | The same for every fragmentation of the digits. |
| HttpChunked.ChunkedRoundTrip | httpserver/http_parser.cc:1892-2010 | Parsing printed chunks, with any spelling of the sizes and any extensions, gives back exactly those chunks, completes the message and consumes every byte. |
| HttpChunked.ChunkedRoundTripInPieces | httpserver/http_parser.cc:1892-2010 | The same for every fragmentation, whatever memory holds behind the pieces. |
| HttpChunked.ChunkedDelivery | httpserver/http_parser.cc:1892-2010 | The body bytes delivered over all calls are the chunks' data joined, on_message_complete fires exactly once, and no error is set. |
| HttpStartLines.StatusIsExact | httpserver/http_parser.cc:853-896 | A status code of any number of digits is read as its decimal value if that is at most 999, and refused otherwise. |
| HttpStartLines.StatusIsRead | httpserver/http_parser.cc:768-929 | A status line, with any reason, an empty one or none, and either line end, is read as the two digits of its version and its code; the reason is reported as it is. |
| HttpTargets.TargetExactly | httpserver/http_parser.cc:1032-1103 | The target of a request is accepted, and reported as it is, if and only if well-shaped URL parts print it and it does not end inside a scheme or the slashes behind it; a line end behind it stands for version 0.9. |
| HttpTargets.AskedIsRead | httpserver/http_parser.cc:930-1196 | A request line is read as its method, its target and the two digits of its version, or 0.9 without one. |
| HttpLines.LineIsRead | httpserver/http_parser.cc:1198-1720 | A header line, with any white space in front of the value, an empty value or either line end, is reported as it was spelled; the next byte finds the flags and the length that its name and value say. |
| HttpLines.LinesAreRead | httpserver/http_parser.cc:1198-1724 | After any header section flags and content_length are those that its lines say together, and its lines were reported in order. |
| HttpBodies.BodyOfLength | httpserver/http_parser.cc:1794-1891 | From the LF that ends the headers on, a body of a given length below 2^64 - 1 is handed over byte for byte, however it is cut into calls: the joined on_body bytes are the body, on_message_complete comes once and after them, every byte is consumed, no error is set, and version and Connection flags decide the next state. |
| HttpBodies.BodyToTheEnd | httpserver/http_parser.cc:1794-1881 | A response that is neither 1xx, 204 nor 304, without a length, takes all that comes for its body, in any pieces, and the end of the stream completes it. |
| HttpBodies.BodyInChunks | httpserver/http_parser.cc:1794-2010 | A chunked body follows the LF that ends the headers, in any pieces. |
| HttpBodies.NoBody | httpserver/http_parser.cc:1794-1834 | The message is complete at that LF if a body is to be skipped, the length is 0, or there is no length in a request or a response 1xx, 204 or 304. |
| HttpBodies.TakenOver | httpserver/http_parser.cc:1744-1812 | A CONNECT, and an upgrade (of a request, or answered with 101) without a body, complete the message at that LF, and the call returns. |
| HttpBodies.RestIsLeft | httpserver/http_parser.cc:1805-1812 | Then the bytes behind that LF are neither consumed nor reported. |
| HttpBodies.BothLengths | httpserver/http_parser.cc:1736-1742 | A chunked message with a Content-Length is refused at that LF. |
| HttpMessages.MessageWithLength | httpserver/http_parser.cc:730-1891 | A printed request or response whose headers give the length of its body is read back: its start line, lines and body are reported in order, its method, version digits and status code are stored, no byte is left, and the next state is the start state of its kind or s_dead, from its version and Connection words. |
| HttpMessages.MessageWithoutBody | httpserver/http_parser.cc:730-1834 | The same for a message with length 0, or with none where none is needed. |
| HttpMessages.MessageInChunks | httpserver/http_parser.cc:730-2010 | The same for a chunked message. |
| HttpMessages.MessageToTheEnd | httpserver/http_parser.cc:646-1881 | The same for a response that the end of the stream completes. |
| HttpMessages.MessageThatHandsOver | httpserver/http_parser.cc:730-1812 | A message that hands the connection over is reported, and whatever follows its headers is left. |
| HttpMessages.MessageWithBoth | httpserver/http_parser.cc:730-1742 | A message that is chunked and has a Content-Length is refused at the last byte of its headers. |
| HttpPost.PostIsRead | httpserver/http_parser.cc:730-1891 | A new parser of requests, given "POST / HTTP/1.1", "Content-Length: 5" and "hello", reports target, line and body, completes the message, consumes all 43 bytes and waits for the next request. |
| HttpEither.EitherKind | httpserver/http_parser.cc:730-767 | A parser that takes requests and responses reads every printed message, HEAD and HTTP among the first bytes, as a parser of its kind does. |
| HttpBase.UrlSets | httpserver/http_parser.cc:253-439 | A host may hold letters, digits, '-' and '.'; a userinfo letters, digits and -_.!~*'()%;:&=+$,; a path, query or fragment printable ASCII without space, '#' and '?'. |
| HttpBase.TokenSet | httpserver/http_parser.cc:199-233 | The characters of a header name, and that only A to Z are changed when it is lower-cased. |
| UrlSplit.WalkReads | httpserver/http_parser.cc:496-642 | A walk of parse_url_char that does not fail has read parts that print exactly the text walked over. |
| UrlSplit.WalkFinds | httpserver/http_parser.cc:496-642 | Well-shaped parts are found where they are printed: the walk over their print ends in their state with their spans. |
| UrlHost.HostReads | httpserver/http_parser.cc:2140-2302 | A scan of the authority that does not fail has read userinfo, host and port that print exactly the bytes scanned. |
| UrlHost.HostFinds | httpserver/http_parser.cc:2140-2302 | A well-shaped authority, bracketed hosts and zone identifiers included, is found where it is printed. |
| UrlParse.PrintedIsParsed | httpserver/http_parser.cc:2310-2426 | Parsing the print of a well-formed URL gives the entries of its components and its port, or fails exactly if the port exceeds 65535. |
| UrlParse.ParsedIsPrinted | httpserver/http_parser.cc:2310-2426 | Whatever is accepted is the print of a well-formed URL, and the entries are those of its components. |
| UrlParse.AcceptedExactly | httpserver/http_parser.cc:2310-2426 | A text is accepted if and only if it is the print of a well-formed URL whose port fits 16 bits, for CONNECT targets and other URLs. |
| UrlParse.EntriesSay | httpserver/http_parser.cc:2310-2426 | Each entry delimits exactly its component in the printed text. |
| UrlParse.EntriesInOrder | httpserver/http_parser.cc:2310-2426 | The entries do not overlap and stand in the order of the components. |
| UrlRecord.HttpParserUrl.Parse | httpserver/http_parser.cc:2309-2426 | The loop that fills field_set, field_data and port with 16-bit values, for buffers up to 65535 bytes, fails exactly when ParseUrl does and otherwise leaves its entries and port in the record. |
| UrlRecord.HttpParserUrl.ParseHost | httpserver/http_parser.cc:2222-2302 | The second stage fills host, port and userinfo as the authority scan says and touches no other field. |
| UrlRecord.HttpParserUrl.ParsePort | httpserver/http_parser.cc:2398-2423 | The accumulation with an early exit fails exactly if the decimal value exceeds 65535, and otherwise is that value. |
| Hashtable.HashTable.Find | hashtable/hashtable.c:117-134 | The search of one bucket chain gives what a plain map from keys to items gives, null for the empty key. |
| Hashtable.HashTable.Insert | hashtable/hashtable.c:136-173 | A new key goes to the end of the list and into the map; a known key changes nothing; chains, list links and the count stay consistent. |
| Hashtable.HashTable.Remove | hashtable/hashtable.c:175-208 | Exactly the item of the key leaves chain, list and map, with its own links cleared; the order of the others stays. |
| Hashtable.HashTable.Clear | hashtable/hashtable.c:75-101 | Every item is unlinked and list, buckets and map are empty, or -1 if they were. |
| Hashtable.HashTable.Apply2 | hashtable/hashtable.c:230-263 | The callback sees a prefix of the list up to its n-th success, and the list then is the unvisited rest followed by that prefix. |
| Hashtable.HashTable.ApplyRounds | hashtable/hashtable.c:230-263 | k calls with a callback that always succeeds leave the list turned k times by n, and call c visits the first n items of the list turned c times. |
| Hashtable.AfterTurns | hashtable/hashtable.c:251-261 | After k turns by n, place j holds item k * n + j, counted round the list. |
| Hashtable.CyclicOrder | hashtable/hashtable.c:230-263 | Successive calls visit the items in cyclic order. |
| Hashtable.Coverage | hashtable/hashtable.c:230-263 | Every item is visited within the first ceil(size / n) calls. |
| JenkinsHash.Hash | hashtable/hash.c:125-297 | The path by words, by half words or by bytes, whichever the address selects, gives one function of the key's bytes and the initial value, independent of the address and of the bytes behind the key. |
| JenkinsHash.MaskedWord | hashtable/hash.c:166-181 | A masked read of the last word is the word of the key padded with zeros: what lies behind the key does not count. |
| JenkinsHash.MixBijective | hashtable/hash.c:78-86 | mix is a bijection on triples of 32-bit words, with an explicit inverse. |
| JenkinsHash.FinalBijective | hashtable/hash.c:113-122 | final is a bijection on triples of 32-bit words, with an explicit inverse. |
| JenkinsHash.DifferentBlock | hashtable/hash.c:144-152 | Keys of one length that differ in a single full block reach different triples, and stay apart over any number of common blocks behind it. |
| HashBits.NumXor | hashtable/hash.c:78-122 | The number of the exclusive or of two 32-bit words is the model's Xor of their numbers. |
| HashBits.NumAdd | hashtable/hash.c:78-122 | If s is x + y by a full adder on the bits, the model's Add of the numbers is the number of s. |
| HashBits.NumSub | hashtable/hash.c:78-122 | So is its Sub of the difference. |
| HashBits.NumRot | hashtable/hash.c:32 | The number of a word shifted left by k, joined with the word shifted right by 32 - k, is the model's Rot, for every k that mix and final use. |
| HashBits.MixMacro | hashtable/hash.c:78-86 | The statements of mix, one after the other, compute Mix. |
| HashBits.FinalMacro | hashtable/hash.c:113-122 | The statements of final, one after the other, compute Final. |
| HashBits.TurnWords | hashtable/hash.c:78-86 | A line of mix on words is a turn of the model on their numbers. |
| HashBits.FoldWords | hashtable/hash.c:113-122 | A line of final on words is a fold of the model on their numbers. |
| HashValues.EmptyKey | hashtable/hash.c:125-297 | For every initial value the hash of the empty key is (0xdeadbeef + initval) mod 2^32. |
| HashValues.HashOfAbc | hashtable/hash.c:125-297 | The hash of "abc" with 0 is 0x0e397631. |
| HashValues.HashOfFourScore0 | hashtable/hash.c:125-297 | The hash of "Four score and seven years ago" with 0 is 0x17770551. |
| HashValues.HashOfFourScore1 | hashtable/hash.c:125-297 | With 1 it is 0xcd628161. |
| Shmmq.RunKeeps | shmmq/shmmq.c:183-261 | Under every schedule of any number of processes the semaphore, the counters, the slots and the positions inside the operations stay consistent. |
| Shmmq.MutualExclusion | shmmq/shmmq.c:183-261 | Two processes are never between P and V at the same time. |
| Shmmq.Occupancy | shmmq/shmmq.c:183-261 | enq_pos - deq_pos mod 2^32 is the number of items put in less the number taken out, and never exceeds mqsize - 1. |
| Shmmq.FullAndEmpty | shmmq/shmmq.c:207-252 | The tests for a full and an empty ring are exact in wrapping arithmetic. |
| Shmmq.Conservation | shmmq/shmmq.c:183-261 | The items taken out followed by those in the slots are the items put in, through counter wrap if 2^32 leaves remainder 0 or mqsize - 1, and otherwise for the first 2^32 enqueues. |
| Shmmq.WrapsWellExactly | shmmq/shmmq.c:212-249 | Items that can be in the ring together have different slots for ever if and only if 2^32 modulo mqsize is 0 or mqsize - 1. |
| Shmmq.LosesAnItem | shmmq/shmmq.c:183-261 | For every ring that does not wrap well there is a schedule after which the queue no longer holds what was put in. |
| ShmmqCalls.RefusedExactly | shmmq/shmmq.c:183-232 | A call is refused exactly if its size is 0 or larger than itemsize. |
| ShmmqCalls.EnqueueAlone | shmmq/shmmq.c:183-222 | From any state of the invariant with the semaphore free, the turns of one process alone put an item of any legal size in as the newest if fewer than mqsize - 1 are inside, change nothing otherwise, and free the semaphore. |
| ShmmqCalls.DequeueAlone | shmmq/shmmq.c:224-261 | The same turns of a dequeue, asked for with the size put in, take exactly the oldest item out, or change nothing if there is none. |
| StripProps.RunRests | php_strip_tags/php_strip_tags.c:111-338 | In text there is no depth, no open quote and no pending tag, after every prefix of every input. |
| StripProps.OutputIsSub | php_strip_tags/php_strip_tags.c:111-338 | With an allow list and without one, what was written followed by the pending tag is the consumed input with bytes left out, so writing never overtakes reading. |
| StripProps.OutputIsPlain | php_strip_tags/php_strip_tags.c:111-338 | Without an allow list every '<' in the output has white space behind it; with allow_tag_spaces there is none. |
| StripProps.FixedPoints | php_strip_tags/php_strip_tags.c:111-338 | The texts that stripping leaves alone are exactly the plain ones. |
| StripProps.Idempotent | php_strip_tags/php_strip_tags.c:111-338 | Without an allow list stripping twice is stripping once, from every first state. |
| StripProps.IdempotentExactly | php_strip_tags/php_strip_tags.c:111-338 | With an allow list stripping is idempotent on all texts if and only if the list names no tag, that is, it holds no '<' and '>' with only bytes of a normal form between them. |
| StripProps.AllowedTagIsLostLater | php_strip_tags/php_strip_tags.c:111-338 | For every tag that a list names there is a text that the first pass turns into that tag with an open quote, and that the second pass removes. |
| StripProps.IdempotentIfNothingIsLet | php_strip_tags/php_strip_tags.c:111-338 | A list that names no tag (from another first state: one without '>') strips like no list at all. |
| StripProps.TagNormal | php_strip_tags/php_strip_tags.c:27-80 | The allow list is asked for the lower-cased name alone: leading white space, slashes and attributes do not count. |
| StripPieces.StripConcat | php_strip_tags/php_strip_tags.c:111-338 | Behind a place of rest a text is stripped as if it stood alone. |
| StripPieces.PieceIsTaken | php_strip_tags/php_strip_tags.c:111-338 | Of plain text, a tag (also one with a quoted '>' or with tags nested in it), a comment or code, and any text behind it, stripping leaves the plain text, the tag if the allow list contains its normal form, and what it would leave of the text behind alone. |
| StripTags.PhpTagFind | php_strip_tags/php_strip_tags.c:27-80 | The copy loop stays inside its buffer and finds a tag exactly if the list contains its normal form. |
| StripTags.StripTagsEx | php_strip_tags/php_strip_tags.c:82-353 | The loop that overwrites its input and grows its tag buffer leaves exactly the text and the state of the transducer, a NUL behind a shorter text, and nothing else changed. |
| IoBuffer.IoBuf.Pop | httpserver/iobuf.cc:160-183 | The first block leaves the ring with its bytes; block and rest together hold the bytes of before, and no other list changes. |
| IoBuffer.IoBuf.TrimStart | httpserver/iobuf.cc:185-199 | The first `amount` bytes go, all if there are fewer; the blocks that held only them are given back, and no other list changes, though it may share buffers. |
| IoBuffer.IoBuf.TrimEnd | httpserver/iobuf.cc:201-224 | The same for the last bytes. |
| IoBuffer.IoBuf.Split | httpserver/iobuf.cc:226-246 | The new list holds the first min(n, length) bytes and this one the rest; the two may share a buffer, whose count covers both, and writing behind the new list is safe exactly if the cut is between two blocks. |
| IoBuffer.IoBuf.PreAllocate | httpserver/iobuf.cc:75-93 | The place it returns is behind the last byte, in the rear block or a new one, with all the room left there; no bytes change. |
| IoBuffer.IoBuf.PostAllocate | httpserver/iobuf.cc:95-99 | The bytes written there become the end of the list. |
| IoBuffer.IoBuf.AppendBlock | httpserver/iobuf.cc:133-147 | The block's bytes become the end of the list. |
| IoBuffer.IoBuf.Append | httpserver/iobuf.cc:149-158 | The loop, watched for any number of turns, appends and leaves to do what the turns of the specification say, and no other list changes. |
| IoAppend.SecondTurn | httpserver/iobuf.cc:149-158 | For data longer than the room the second turn takes the first bytes of the data again; if all of it fits a block, that is more than is left, and what is left wraps around. |
| IoAppend.AppendsExactly | httpserver/iobuf.cc:149-158 | The loop ends with exactly the data appended if and only if there is room for it, or what does not fit is a whole number of copies of its first block. |
| IoBuffer.IoBuf.ByteAt | httpserver/iobuf.cc:101-117 | The walk of the ring finds the byte at that position of the list's bytes. |
| IoBuffer.IoBuf.ToString | httpserver/iobuf.cc:248-260 | The walk of the ring joins exactly the list's bytes. |
| LruSpec.StackProperty | resource_cache/resource_cache.h:92-153 | After any run of Sets the ring from head to rear is the first `capacity` distinct keys of the reversed run, each with its last resource and time. |
| LruSpec.Inclusion | resource_cache/resource_cache.h:92-153 | A larger cache contains a smaller one, in the same order. |
| LruSpec.GetExactly | resource_cache/resource_cache.h:76-90 | Get returns the last resource set for a key exactly if fewer than `capacity` other keys were set since and fewer than expire * 10^9 nanoseconds have passed; if the clock was put back, exactly if by at least (1 - expire) * 10^9. |
| LruSpec.GetUnset | resource_cache/resource_cache.h:76-90 | A key that was never set is not found. |
| LruCache.ResourceCache.Get | resource_cache/resource_cache.h:76-90 | The map lookup finds what the ring holds for the key, unless it is too old. |
| LruCache.ResourceCache.Set | resource_cache/resource_cache.h:92-153 | Map and ring together make the step of the specification: refresh and move to the head, or evict the rear of a full cache and insert. |
| LruCache.ResourceCache.Replay | resource_cache/resource_cache.h:92-153 | A run of Sets from an empty cache leaves what the specification says of the run. |
| TimerSpec.AddMsExact | ae/ae.c:131-143 | No millisecond is lost, also for negative delays; a delay that is not negative gives a normalised time. |
| TimerSpec.WaitExact | ae/ae.c:300-310 | A timer that is not overdue is waited for exactly; an overdue one for as long as its milliseconds are ahead of the clock's modulo 1000, so not always not at all. |
| TimerSpec.WaitIsForTheFirst | ae/ae.c:293-310 | With no timer overdue the wait for the nearest one ends exactly when the first of all is due. |
| TimerSpec.PassIsSound | ae/ae.c:213-261 | Whatever callbacks and finalizers add, delete and answer, a pass ends, fires only timers that were there and due, each at most once, leaves none of then due, and keeps ids strictly decreasing below timeEventNextId. |
| TimerSpec.PassIsComplete | ae/ae.c:213-261 | Each timer that was due when the pass began is fired unless a callback or finalizer deletes it first. |
| TimerSpec.GoneStaysGone | ae/ae.c:213-261 | An old timer that has left the list does not come back during the pass. |
| TimerPass.UntouchedStays | ae/ae.c:213-261 | A timer that does not fire and is not deleted keeps its time. |
| TimerPass.FiredStands | ae/ae.c:213-261 | A timer that fires, answers r >= 1 and is not deleted later in the pass stands once on the list, due r milliseconds after the clock's time; one that answers AE_NOMORE is not on it. |
| TimerPass.CreatedStandsOnce | ae/ae.c:145-261 | A timer created during the pass has the next id and, unless it is deleted, stands once on the list, due its delay after the clock's time. |
| Timers.EventLoop.Create | ae/ae.c:145-162 | A new timer with the next id stands at the head of the list, due after its delay. |
| Timers.EventLoop.Delete | ae/ae.c:164-184 | Exactly the timer with the id leaves the list, and then its finalizer may edit it; the result says whether there was one. |
| Timers.EventLoop.ProcessTimeEvents | ae/ae.c:213-261 | The scan of the linked list that starts again at the head after every callback does exactly the pass, and returns the number of timers fired. |
| Timers.EventLoop.SearchNearestTimer | ae/ae.c:197-210 | The scan returns a timer that no other precedes, of several the one nearest to the head, and null only for an empty list. |
| Timers.EventLoop.Timeout | ae/ae.c:293-322 | The timeout is the wait for the nearest timer, zero for AE_DONT_WAIT, none if there is nothing to wait for. |

## Left out

- HttpExecute.HttpParser.Execute: requires at most 2^32 - 163840 bytes in a call, because nread wraps in inner loops of longer ones. After an error the fields other than errno are not compared: the inner loops keep header_state and the bytes not yet counted in local variables, and leave by `goto error` without storing them. After HPE_HEADER_OVERFLOW only the error is compared, because `memchr()` may have run past the byte at which the budget was used up.
- HttpLines.LineIsRead: values folded over several lines, which the code joins, are left out.
- HttpMessages.MessageWithLength: in one call; HttpPieces.CutsToSpare says when a cut changes nothing, and HttpBodies.BodyOfLength covers all cuts of the body.
- HashBits.NumAdd: sums of words are described by a full adder on their bits.
- HttpValues.ConnectionMeant: is one way; ConnectionExactly gives the flags of the lists it excludes.
- Callbacks that return nonzero, pause the parser or change it, and the errors they raise.
- The non-strict parser, and the big-endian and VALGRIND variants of the hash.
- The names of methods, status codes and errors as strings, and http_parser_pause.
- URL buffers longer than 65535 bytes, whose 16-bit offsets wrap.
- Hashtable.HashTable.Apply2: the callback leaves the table alone; hashtable_apply, whose callback may remove its item, is not modelled.
- hashtable_init's allocators, hashitem_fill and hashtable_destroy.
- Semaphore errors, crash recovery by SEM_UNDO, shmmq_clear, and opening a queue that is in use.
- Shmmq.Conservation: an item taken out with another size than it was put in with is not compared, because the code copies only as many bytes as it is asked for.
- The lower-casing of the caller's allow-list buffer in place; the model passes the list as a value.
- IOBuf's buffers are sequences of a fixed length rather than arrays; the Block copy constructor, the destructor of a list and writing behind a split-off prefix are not modelled.
- The LRU cache's mutex (each call is atomic), its destructor and capacities below 1.
- File events, aeMain, aeWait and the polling backends; timer callbacks that delete their own timer and then reschedule it, and negative answers other than AE_NOMORE.
- Failing memory allocation and trace output everywhere.
- `httpserver/tcp_server.*`, `httpserver/http_server.*`, `s3xml/*` and `ae/zmalloc.c`: plumbing around the parts above.
