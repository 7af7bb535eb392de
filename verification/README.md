# Verified models of the benchmark tools

This project models the hard parts of the benchmark tools in this repository in Dafny and proves what they are for:

- **the incremental HTTP/1.x parser of wrk** (`Http*.dfy`): the byte machine, the loop over a buffer with its marks, memchr jumps and header-size
  count, the header lines and the two body decoders, and the URL splitter;
- **the pointer chases of lmbench** (`MulFacts`, `BitReversal`, `ChaseCycle`, `ChaseBuild`, `DramPage`): shuffles, bit-reversal tables and the
  builders that thread memory into one cycle;
- **the benchmp protocol** (`Benchmp*`): a parent and any number of children over four pipes, and the sorted merge of their results;
- **the nginx configuration tokenizer and buffer chains** (`Conf*`, `NgxChain`);
- **the lat_fs directory tree** (`LatFs`);
- **the statistics and the event loop of wrk** (`Stats`, `StatsRecord`, `AeFiles`, `AeTimerPass`, `AeTimers`).

Check everything with `dafny verify dfyconfig.toml`.

## How the models are built

*HTTP parser.* `HttpMachine.Step` says what one byte does to the parser and which callbacks it causes; `HttpFeed.Feed` folds it over an input.
`HttpParser.LiveParser.Execute` is the real loop: it scans header names and values in inner loops, jumps with memchr, skips over body bytes, keeps
marks and hands spans to callbacks. Its contract is that, unless the header-size limit stops it, the call does to the buffer what the byte machine
does. Split invariance then follows because a fold does not see where its input is cut. Callback logs are compared after merging adjacent data
callbacks of one kind; on an error the bytes that were seen but not handed over (`lost`) are part of the comparison. A byte is *hidden*
(`SkipsAt`) when the memchr jump of a general header value carries the call past it although the character check would reject it; `NoSkip` says there
is none. The strict build is modelled, with callbacks that return 0 and leave the parser alone.

*URL splitter.* Every byte gets a label: the part it belongs to, or none. The parts are the runs of the labels, and the labels are a function of the
two automata, so the table of parts is determined by the URL.

*Pointer chases.* A slot is a page, a line of it and a word of that line. A shape (`Lanes`, `Heads`, `Thrash`, `Grouped`) says which slots are on a
chain, which slot follows which, and when each is visited. Following a chain raises the rank by one modulo the length, ranks and addresses are
injective, so memory that points as the shape says is a single cycle through exactly those slots. The builders are methods on `MemState`
whose memory is a map from addresses to addresses; random numbers are arbitrary functions.

*benchmp and stats_record.* Step systems: a schedule is any sequence of enabled steps of the processes, and what is stated of a state holds after every
schedule. Measured times are arbitrary.

*Timers.* `AeTimerPass` gives a pass on values: the list as numbers and due times, callbacks as creations and deletions, a turn for each timer visited.
The methods of `AeTimers` change the linked list and are proved to do exactly that; what a pass means is proved of the values.

*Tokenizer.* `ConfLexer.Lex` reads the file in memory; `LexIn` is the same with a bound on how much text may be pending. `ConfFile.Window` is the real
4096-byte window with its memmove and refill.

## What turned out differently from what one might expect

- The memchr jump hides bytes from the header-character check, so a cut in front of such a byte changes the result. `HttpParser.HiddenByteShows`
  shows this for every hidden byte, `HttpExamples.HiddenByteExample` for a concrete one; without one, cutting is invisible but for one field
  (`HttpParser.TwoCuttings`).
- When a byte of a header value is rejected, `header_state` stays what it was when the call entered the value. This one field therefore depends on
  the cuts; `HttpParser.TwoCuttings` says how, `HttpExamples.HeaderStateExample` shows it.
- The first byte of a header value is not checked: a bad byte is taken there unless the value is a content length, and nowhere else in a value
  (`HttpExecute.BadByteTaken`), but for the bytes the jump hides.
- A call that reaches the end of its buffer inside an inner loop over a header name or value counts one byte too many. A cut directly behind the
  first byte of a name or value therefore costs nothing, a later one costs a byte until the count is cleared. `HttpCuts.Count` is the exact count,
  and the limit stops the calls exactly where `HttpCuts.Overruns` says (`HttpParser.ExecutePieces`). A finer cutting is never taken when a coarser
  one is refused (`HttpCuts.FinerRefused`); the converse fails (`HttpExamples.LongNameExample`).
- `strtoul` reads the port from memory and goes on past the end of the URL if digits follow there. `HttpParseUrl.PortValue` gives the exact
  condition, `HttpUrlText.ReadsOnExample` an accepted URL. A fragment directly behind a host ("http://h#f") is refused
  (`HttpUrlText.RefuseFragment`).
- `regroup` on a partly linked last page drops lines of the other pages of its group from the chain (`DramPage.KeepsSlotsIff`,
  `DramPage.LostLinesExample`).
- A table of `words_initialize` has repeated entries unless its length is a power of two (`BitReversal.WordTableDistinct`), so the partial branch of
  `thrash_initialize` reaches every line exactly when their number is a power of two (`ChaseBuild.MemState.ThrashInitialize`).
- A comment that fills the window is reported as a too long parameter like any other text (`ConfLexer.TooLongIff`); a file of one comment line
  is reported exactly when it is longer than the window (`ConfLexer.CommentTooLong`).
- `ngx_chain_update_sent` is additive exactly when no buffer is blank (neither special nor in memory nor in a file) with two bytes or more
  (`NgxChain.SentAddsIff`).
- `aeCreateFileEvent` with an empty mask on an unwatched descriptor registers it in the kernel while the table calls it empty;
  `AeFiles.FileEvents.CreateFileEvent` says that this is the only way to lose the agreement.
- The comment at web/nginx/wrk/src/ae.c:99-105 has a resize refused when the last slot of the new size is in use; the code refuses exactly when the
  highest descriptor does not fit.
- A compare-and-swap loop of `stats_record` tries once more after it has succeeded; it ends all the same (`StatsRecord.StepSpends`).

## Model

| member | source | states |
|---|---|---|
| HttpFeed.FeedConcat | web/nginx/wrk/src/http_parser.c:631-2029 | the byte machine over a concatenation is the byte machine over the first part and then over the second |
| HttpFeed.FeedStays | web/nginx/wrk/src/http_parser.c:647-650 | once the machine has stopped, no later byte changes fields, log or position |
| HttpFeed.AddMerges | web/nginx/wrk/src/http_parser.c:101-130 | two adjacent data callbacks of one kind and one callback with both spans give the same log |
| HttpInvariant.InitInv | web/nginx/wrk/src/http_parser.c:2082-2092 | a new parser satisfies the invariant |
| HttpInvariant.PlainKeeps | web/nginx/wrk/src/http_parser.c:704-1227 | every byte outside the inner loops keeps the allowed header states, method index, chunk flag and length range, and trips no assertion |
| HttpInvariant.FieldKeeps | web/nginx/wrk/src/http_parser.c:1228-1336 | a header-name byte never leaves the header states allowed there |
| HttpInvariant.ValueKeeps | web/nginx/wrk/src/http_parser.c:1436-1625 | a header-value byte never meets the two header states the code asserts away, and keeps the invariant |
| HttpInvariant.StepKeeps | web/nginx/wrk/src/http_parser.c:631-2029 | from the invariant no byte trips an assertion, and without an error the invariant holds again |
| HttpExecute.JumpTarget | web/nginx/wrk/src/http_parser.c:1465-1488 | the jump lands on the first CR or LF, or at the end of the buffer; it runs over a line end only past the search limit |
| HttpExecute.GeneralJump | web/nginx/wrk/src/http_parser.c:1465-1488 | a jump that hides no byte keeps the call in step with the byte machine |
| HttpExecute.ScanValue | web/nginx/wrk/src/http_parser.c:1436-1625 | the value loop ends at a CR, an LF, a bad byte or the end of the buffer, there in step with the byte machine and its header size, and makes no comparison with the limit on the way |
| HttpExecute.BadByteTaken | web/nginx/wrk/src/http_parser.c:1357-1460 | a byte no header value may hold is taken as the first byte of a value unless the header is a content length, and rejected anywhere else in a value |
| HttpExecute.BodyEnds | web/nginx/wrk/src/http_parser.c:1820-1858 | skipping to the end of a sized body hands over exactly those bytes and then completes the message, as byte by byte |
| HttpExecute.ChunkJump | web/nginx/wrk/src/http_parser.c:1953-1974 | skipping over chunk data equals reading it byte by byte, with the length counted down |
| HttpExecute.EofJump | web/nginx/wrk/src/http_parser.c:1860-1864 | skipping to the end of the buffer in a body without a length equals reading it byte by byte |
| HttpCall.ScanField | web/nginx/wrk/src/http_parser.c:1228-1345 | the name loop stops at the first non-token byte, in step with the byte machine and its header size, and makes no comparison with the limit on the way |
| HttpCall.ValueBytes | web/nginx/wrk/src/http_parser.c:1436-1625 | the header-value case as a whole continues in step, fails where the byte machine fails, or overflows where the header size has reached the limit; the count it leaves is exact; an overflow at a CR comes after the value callback, one at an LF before it, and both after the state has changed |
| HttpCall.ChunkBytes | web/nginx/wrk/src/http_parser.c:1953-1974 | chunk data moves on by what chunk and buffer both have, in step |
| HttpCall.BodyBytes | web/nginx/wrk/src/http_parser.c:1820-1858 | a sized body moves on by what length and buffer both have; at its end the message completes in step |
| HttpCall.NextBytes | web/nginx/wrk/src/http_parser.c:697-1996 | one iteration of the loop moves forward and stays in step with the byte machine, its header size included, or stops as it does; it overflows exactly at a comparison that finds the size at the limit |
| HttpCall.FiveMarks | web/nginx/wrk/src/http_parser.c:101-139 | as long as no mark is set while another one is, the five marks of the source act as one |
| HttpCall.OneMark | web/nginx/wrk/src/http_parser.c:2009-2013 | at every byte of every call that is so: at most one mark is set |
| HttpParser.LiveParser.constructor | web/nginx/wrk/src/http_parser.c:2082-2092 | a new parser is valid and has called nothing |
| HttpParser.LiveParser.Execute | web/nginx/wrk/src/http_parser.c:631-2029 | one call does to a buffer what the byte machine does (merged callbacks, position, stop, and every field, the header state of a rejected header value being the one the call entered the value with), unless a byte is hidden or the header-size limit stops it, which it does if and only if the size is at the limit at one of the comparisons of the call; `nread` ends exact, with one byte more if the buffer ends in an inner loop; failed parsers do nothing, an empty buffer is the end of the connection, no assertion fails |
| HttpCuts.TallyConcat | web/nginx/wrk/src/http_parser.c:151-158 | the header size of a concatenation is counted piece by piece |
| HttpCuts.PieceCount | web/nginx/wrk/src/http_parser.c:1340-1345 | what a call on a piece of an input counts is the count over the whole input, one byte more at a cut that an inner loop runs into |
| HttpCuts.PieceTrips | web/nginx/wrk/src/http_parser.c:700-703 | a call on a piece is stopped by the limit exactly at the offsets the whole input and its cuts give |
| HttpCuts.OneCallTrips | web/nginx/wrk/src/http_parser.c:697-703 | for one call the two descriptions of where the limit strikes agree |
| HttpCuts.FinerRefused | web/nginx/wrk/src/http_parser.c:1340-1345 | an input that the limit refuses under some cutting is refused under every finer one |
| HttpCuts.CountBound | web/nginx/wrk/src/http_parser.c:1619-1625 | cutting adds nothing in front of header text and at most one byte for each byte of it |
| HttpCuts.NeverRefused | web/nginx/wrk/src/http_parser.c:697-703 | an input that stays that far below the limit is taken however it is cut |
| HttpParser.ExecutePieces | web/nginx/wrk/src/http_parser.c:631-2029 | any number of calls over the pieces of an input end where the byte machine over the whole input ends; the header state of a rejected header value is the one that the last call has stored; the limit stops them if and only if the count for these cuts reaches it at a comparison, and `nread` ends as that count |
| HttpParser.TwoCuttings | web/nginx/wrk/src/http_parser.c:631-2029 | split invariance: two cuttings of one input give the same position, stop, callback order, data and fields; only the header state of a parser that has rejected a header value may differ, and it is given for each cutting, as is whether the limit stops it |
| HttpParser.SkipStops | web/nginx/wrk/src/http_parser.c:1457-1460 | at a hidden byte the byte machine fails with an invalid-header error, so there is at most one |
| HttpParser.HiddenByteShows | web/nginx/wrk/src/http_parser.c:1465-1488 | for every hidden byte, one call runs past it and two calls cut in front of it stop there |
| HttpExamples.Hidden | web/nginx/wrk/src/http_parser.c:1465-1488 | a new parser on "GET /", "A:ab" and a byte of value 1: that byte is hidden |
| HttpExamples.HiddenByteExample | web/nginx/wrk/src/http_parser.c:1465-1488 | one call takes that byte, two calls cut in front of it stop there |
| HttpExamples.HeaderStateExample | web/nginx/wrk/src/http_parser.c:1457-1460 | "GET /", "Connection:kx" and a byte of value 1 is rejected in one call and in two, with different header states |
| HttpExamples.NameCount | web/nginx/wrk/src/http_parser.c:1340-1345 | the count over "GET /" and a header name, cut in two: one byte more from the cut on, unless the cut is behind the first byte, and one more at the end |
| HttpExamples.JustFits | web/nginx/wrk/src/http_parser.c:1340-1345 | a name that leaves the count one below the limit passes every comparison of one call; cut in two it is refused if and only if the cut is not behind its first byte |
| HttpExamples.LongNameExample | web/nginx/wrk/src/http_parser.c:1340-1345 | the same for real calls on new parsers |
| HttpBody.LengthIsExact | web/nginx/wrk/src/http_parser.c:1495-1520 | a Content-Length text is accepted exactly within the limit, and then held as its exact decimal value, spaces dropped, never wrapped and never 2^64-1 |
| HttpBody.ChunkSizeIsExact | web/nginx/wrk/src/http_parser.c:1888-1923 | a chunk size is accepted exactly within the limit, and then held as its exact value under the hex table |
| HttpBody.ChunkedRoundTrip | web/nginx/wrk/src/http_parser.c:1872-1990 | the chunked framing of any non-empty blocks is taken whole, with exactly the blocks' callbacks, and hides no byte |
| HttpBody.ChunkedBody | web/nginx/wrk/src/http_parser.c:1953-1990 | those callbacks hand over the concatenation of the blocks and complete the message once |
| HttpBody.SizedRoundTrip | web/nginx/wrk/src/http_parser.c:1820-1870 | exactly the announced bytes are handed over, then the message completes |
| HttpBody.ReceiveChunked | web/nginx/wrk/src/http_parser.c:1774-1990 | the chunked round trip for real calls under any cutting, of any total length |
| HttpBody.ReceiveSized | web/nginx/wrk/src/http_parser.c:1774-1870 | the Content-Length round trip for real calls under any cutting |
| HttpMessage.BlankLine | web/nginx/wrk/src/http_parser.c:1705-1818 | the blank line after header lines that announce a body in one way opens that body, reports the headers complete and clears the header size |
| HttpMessage.PayloadRun | web/nginx/wrk/src/http_parser.c:1774-1990 | behind the blank line the byte machine takes the announced payload whole, hands over its content and completes once |
| HttpMessage.ReceiveMessage | web/nginx/wrk/src/http_parser.c:1705-1990 | from the end of the header lines, under any cutting (also inside the blank line), every byte is taken, the body callback gets exactly the announced content and the message completes once |
| HttpHeaders.NameRun | web/nginx/wrk/src/http_parser.c:1228-1336 | a keyword in any letter case leads the name through its header states to the matched one |
| HttpHeaders.LineStart | web/nginx/wrk/src/http_parser.c:1640-1700 | at the start of a line, the flag of the line before is noted first |
| HttpHeaders.HeaderRun | web/nginx/wrk/src/http_parser.c:1346-1640 | "Content-Length: N" and "Transfer-Encoding: chunked" lines, in any letter case, are read to their end without a word to the body callback |
| HttpHeaders.ToldAnnounced | web/nginx/wrk/src/http_parser.c:1640-1700 | behind such a line the parser is ready for the blank line, with exactly the announced framing and length |
| HttpLines.NameTracks | web/nginx/wrk/src/http_parser.c:1178-1336 | every header state met in a name says which bytes led to it |
| HttpLines.OtherUnmatched | web/nginx/wrk/src/http_parser.c:1228-1336 | a name that is none of the five keywords, in any letter case, is matched as none |
| HttpLines.OtherLine | web/nginx/wrk/src/http_parser.c:1178-1640 | a line with such a name and any printable value is read to its end and changes neither flags nor length |
| HttpLines.OtherLines | web/nginx/wrk/src/http_parser.c:1178-1640 | so is any number of such lines |
| HttpReceive.AnnouncedRoundTrip | web/nginx/wrk/src/http_parser.c:1178-1990 | the announcing line among any number of lines that announce nothing, in front of it and behind it, the blank line and the payload are taken whole by the byte machine, with exactly the content and one completion; no byte is hidden and the header size is bounded |
| HttpReceive.ReceiveAnnounced | web/nginx/wrk/src/http_parser.c:1178-1990 | the same for real calls under any cutting, also inside a header line |
| HttpUrl.PartsInOrder | web/nginx/wrk/src/http_parser.c:2280-2382 | parts are in bounds, disjoint and ordered schema, userinfo, host, port, path, query, fragment |
| HttpUrl.SplitStep | web/nginx/wrk/src/http_parser.c:483-629 | a byte the URL automaton takes extends the labelled parts, keeps their order and anchors, and goes unlabelled only if it is a delimiter |
| HttpUrl.SplitRaw | web/nginx/wrk/src/http_parser.c:2280-2345 | the raw split succeeds exactly when no byte kills the automaton, and its parts are the runs of the automaton's labels; the '@' flag says whether the raw host has one |
| HttpUrl.HostStep | web/nginx/wrk/src/http_parser.c:2111-2191 | a byte the host automaton takes extends userinfo, host or port; userinfo ends in '@', a port follows ':' and is all digits |
| HttpUrl.ParseHost | web/nginx/wrk/src/http_parser.c:2193-2273 | the host is accepted exactly when its automaton ends in one of three states, and then there is a host; everything in front is kept |
| HttpParseUrl.FitUnique | web/nginx/wrk/src/http_parser.c:2280-2382 | the labels determine the table of parts |
| HttpParseUrl.SplitHost | web/nginx/wrk/src/http_parser.c:2193-2273 | replacing the raw host by what is inside it leaves parts that describe the whole URL |
| HttpParseUrl.DescribesPlaced | web/nginx/wrk/src/http_parser.c:2280-2382 | labelled parts are placed: non-empty, in bounds, disjoint, ordered, and every byte in no part is one of the delimiters |
| HttpParseUrl.ParseUrl | web/nginx/wrk/src/http_parser.c:2280-2382 | exactly which URLs are taken (automaton, schema needs host, host well formed, CONNECT is host and port only, port number at most 65535), and for every URL taken that the parts are non-empty, in bounds, disjoint, in order and surrounded by delimiters only |
| HttpParseUrl.PortIsField | web/nginx/wrk/src/http_parser.c:2369-2379 | `strtoul` reads exactly the field unless a digit follows in memory and not all digits are zero |
| HttpParseUrl.PortEnds | web/nginx/wrk/src/http_parser.c:2369-2379 | inside the URL no digit stands behind the port |
| HttpParseUrl.PortValue | web/nginx/wrk/src/http_parser.c:2369-2379 | the port is the decimal value of its field, if and only if not (field ends the URL, a digit follows in memory, and the digits are not all zero) |
| HttpUrlText.StatesAsWritten | web/nginx/wrk/src/http_parser.c:483-629 | on a URL written part by part the automaton is in the state of the part at every byte |
| HttpUrlText.HostAsWritten | web/nginx/wrk/src/http_parser.c:2111-2191 | so is the host automaton |
| HttpUrlText.WrittenIsFound | web/nginx/wrk/src/http_parser.c:2280-2382 | every such URL is split, its host is well formed, and the parts found are the parts written |
| HttpUrlText.ReadWritten | web/nginx/wrk/src/http_parser.c:2280-2382 | URL round trip: such a URL is taken exactly when the number read at the port is at most 65535, with the parts as written |
| HttpUrlText.FragmentNeedsPath | web/nginx/wrk/src/http_parser.c:483-629 | a fragment directly behind a host kills the automaton |
| HttpUrlText.RefuseFragment | web/nginx/wrk/src/http_parser.c:2280-2382 | every URL with a fragment directly behind its host is refused |
| HttpUrlText.RefusedExample | web/nginx/wrk/src/http_parser.c:2280-2382 | "http://h#f" is one |
| HttpUrlText.ReadsOnExample | web/nginx/wrk/src/http_parser.c:2369-2379 | the first seven bytes of the memory "a://h:80" are taken with port field "8" and port number 80 |
| BitReversal.RevInvolution | cloudnative/mem/lmbench3/src/lib_mem.c:560-581 | reversing the bits of an index twice gives the index back |
| BitReversal.RevPrefix | cloudnative/mem/lmbench3/src/lib_mem.c:560-581 | the first 2^m bit-reversed indices of 2^n are the multiples of 2^(n-m), in the order of the 2^m table |
| BitReversal.WordTableDistinct | cloudnative/mem/lmbench3/src/lib_mem.c:569-577 | a table has no repeated entry if and only if its length is a power of two or zero |
| BitReversal.ReverseBits | cloudnative/mem/lmbench3/src/lib_mem.c:572-576 | or-ing in the bits one by one reverses the index |
| BitReversal.WordsInitialize | cloudnative/mem/lmbench3/src/lib_mem.c:560-581 | the loops build the table of scaled reversed indices |
| BitReversal.Permutation | cloudnative/mem/lmbench3/src/lib_timing.c:1638-1674 | for any random numbers the result is a permutation, as a multiset, of the multiples 0, scale, ..., (max-1)*scale |
| BitReversal.Shuffle | cloudnative/mem/lmbench3/src/lib_timing.c:1654-1660 | the swaps in place keep the multiset, and the entries stay scaled distinct indices |
| ChaseCycle.Inside | cloudnative/mem/lmbench3/src/lib_mem.c:335-398 | slots lie inside their line, lines inside their page, pages inside the allocation |
| ChaseCycle.AddrInjective | cloudnative/mem/lmbench3/src/lib_mem.c:335-398 | different slots have different addresses |
| ChaseCycle.StepsByOne | cloudnative/mem/lmbench3/src/lib_mem.c:257-398 | each step along a chain stays on it and visits the next rank, modulo the length |
| ChaseCycle.RankInjective | cloudnative/mem/lmbench3/src/lib_mem.c:257-398 | no two slots of a chain have one rank |
| ChaseCycle.ThreadedIsCycle | cloudnative/mem/lmbench3/src/lib_mem.c:257-453 | memory threaded as a shape says is one cycle through exactly the shape's slots |
| ChaseBuild.MemState.BaseInitialize | cloudnative/mem/lmbench3/src/lib_mem.c:183-226 | sizes and page count follow from the length, and the page order is a permutation |
| ChaseBuild.MemState.LinkPage | cloudnative/mem/lmbench3/src/lib_mem.c:366-379 | one page is threaded line by line as far as the pointer count allows |
| ChaseBuild.MemState.LinkPages | cloudnative/mem/lmbench3/src/lib_mem.c:366-386 | all pages are threaded up to the last line of the last page |
| ChaseBuild.FullTail | cloudnative/mem/lmbench3/src/lib_mem.c:335-398 | for a length of whole pages every line of the last page is linked |
| ChaseBuild.TailIsFull | cloudnative/mem/lmbench3/src/lib_mem.c:366-392 | the last page is linked whole if and only if a pointer is left for each of its links |
| ChaseBuild.MemState.MemInitialize | cloudnative/mem/lmbench3/src/lib_mem.c:335-398 | for any random numbers memory is one cycle through every word of every linked line, inside the allocation; for whole pages that is every line of every page |
| ChaseBuild.MemState.LineInitialize | cloudnative/mem/lmbench3/src/lib_mem.c:407-453 | memory is one cycle through the first word of every line |
| ChaseBuild.MemState.Relink | cloudnative/mem/lmbench3/src/lib_mem.c:642-650 | the relinking threads the first lines of every page and changes only the last of them |
| ChaseBuild.MemState.Repair | cloudnative/mem/lmbench3/src/lib_mem.c:674-691 | the repair restores memory exactly |
| ChaseBuild.MemState.LineTest | cloudnative/mem/lmbench3/src/lib_mem.c:629-694 | while it measures, memory is one cycle through the tested lines; afterwards it is what it was |
| ChaseBuild.TestedLines | cloudnative/mem/lmbench3/src/lib_mem.c:629-649 | the tested lines are exactly the multiples of the tested line size in every page |
| ChaseBuild.StretchReaches | cloudnative/mem/lmbench3/src/lib_mem.c:286-293 | the partial chain reaches every line if and only if their number is a power of two |
| ChaseBuild.MemState.ThrashPage | cloudnative/mem/lmbench3/src/lib_mem.c:298-313 | the lines of one page are each linked to the next line of the next page |
| ChaseBuild.MemState.ThrashInitialize | cloudnative/mem/lmbench3/src/lib_mem.c:257-317 | for whole pages one cycle through every (page, line) slot inside the allocation; otherwise a chain that reaches every line if and only if their number is a power of two |
| DramPage.Regroup | cloudnative/mem/lmbench3/src/lat_dram_page.c:106-149 | each page of a group points into the next and the last into the first, except at its last linked line; other pages are untouched |
| DramPage.GroupNextIsNext | cloudnative/mem/lmbench3/src/lat_dram_page.c:106-174 | that successor is the next slot of the regrouped order |
| DramPage.KeepsSlotsIff | cloudnative/mem/lmbench3/src/lat_dram_page.c:106-174 | that condition, for the orders themselves |
| DramPage.DramPageInitialize | cloudnative/mem/lmbench3/src/lat_dram_page.c:154-174 | for any length and group size, with a short last group, one cycle line by line across each group, in the last group over the lines linked on the last page, whose number follows from the length; it has exactly the slots of the ungrouped chain if and only if the length has a pointer left for each link of the last page or that page is a group of its own |
| DramPage.LostLinesExample | cloudnative/mem/lmbench3/src/lat_dram_page.c:106-174 | a page and one line, in groups of two pages: one cycle that misses lines of the first page |
| BenchmpResults.InsertSorted | cloudnative/mem/lmbench3/src/lib_timing.c:1227-1248 | inserting keeps a list sorted |
| BenchmpResults.InsertElements | cloudnative/mem/lmbench3/src/lib_timing.c:1227-1248 | inserting adds one element and loses none |
| BenchmpResults.MergeSorts | cloudnative/mem/lmbench3/src/lib_timing.c:480-483 | merging gives the sorted multiset union, without zero measurements |
| BenchmpResults.FindSlot | cloudnative/mem/lmbench3/src/lib_timing.c:1236-1244 | the slot chosen is where the value belongs |
| BenchmpResults.InsertSort | cloudnative/mem/lmbench3/src/lib_timing.c:1227-1248 | in place: find, shift up, store; zero measurements are dropped and the rest of the block is untouched |
| BenchmpProtocol.InitInv | cloudnative/mem/lmbench3/src/lib_timing.c:327-360 | the start of a run satisfies the invariant |
| BenchmpProtocol.StepInv | cloudnative/mem/lmbench3/src/lib_timing.c:327-514 | every step of the parent or of any child, idle polls and unrecorded intervals included, keeps the invariant |
| BenchmpProtocol.Barriers | cloudnative/mem/lmbench3/src/lib_timing.c:582-772 | no child times before all are ready, none reports before all are done, none exits before all have reported |
| BenchmpProtocol.MessagesDoNotOverlap | cloudnative/mem/lmbench3/src/lib_timing.c:439-484 | at most one child is writing its result, and what is on its way is a prefix of that one message |
| BenchmpProtocol.WithinCapacity | cloudnative/mem/lmbench3/src/lib_timing.c:1210-1248 | at every moment each list is within the results asked for, and so within the block allocated for it |
| BenchmpProtocol.FinalOutcome | cloudnative/mem/lmbench3/src/lib_timing.c:327-514 | at the end each child has taken one start, result and exit token, no byte is left, and the merged list is the sorted union of all results |
| BenchmpProtocol.NoDeadlock | cloudnative/mem/lmbench3/src/lib_timing.c:327-514 | in every reachable state that is not final some process can do more than poll or measure again |
| BenchmpProtocol.StepSpends | cloudnative/mem/lmbench3/src/lib_timing.c:660-772 | every step uses up a bounded budget, but for idle polls and a single child's unrecorded intervals, which change nothing |
| BenchmpProtocol.RunsEnd | cloudnative/mem/lmbench3/src/lib_timing.c:327-514 | in every run the steps that are not idle are at most as many as the initial budget |
| ConfLexer.BoundedAgrees | web/nginx/to_nginx/nginx-1.22.1/src/core/ngx_conf_file.c:502-817 | a bounded call gives what the unbounded one gives unless it reports a too long parameter |
| ConfLexer.TooLongIff | web/nginx/to_nginx/nginx-1.22.1/src/core/ngx_conf_file.c:555-577 | that report comes if and only if pending text, comments included, fills the window before the file ends |
| ConfLexer.CommentTooLong | web/nginx/to_nginx/nginx-1.22.1/src/core/ngx_conf_file.c:555-577 | a file of one comment without a line end is reported if and only if it is longer than the window |
| ConfLexer.ShortFile | web/nginx/to_nginx/nginx-1.22.1/src/core/ngx_conf_file.c:555-577 | a file no longer than the window is never reported |
| ConfLexer.StepOk | web/nginx/to_nginx/nginx-1.22.1/src/core/ngx_conf_file.c:607-815 | in every word a backslash is followed by a byte of the same word, so unescaping stays inside it |
| ConfLexer.UnescapeEscape | web/nginx/to_nginx/nginx-1.22.1/src/core/ngx_conf_file.c:771-803 | unescaping undoes escaping |
| ConfLexer.QuoteRoundTrip | web/nginx/to_nginx/nginx-1.22.1/src/core/ngx_conf_file.c:627-815 | any non-empty list of strings, quoted and escaped, is read back exactly, with the line count |
| ConfLexer.QuoteThroughWindow | web/nginx/to_nginx/nginx-1.22.1/src/core/ngx_conf_file.c:502-817 | the same through a window that it fits in |
| ConfLexer.WindowIsInvisible | web/nginx/to_nginx/nginx-1.22.1/src/core/ngx_conf_file.c:502-817 | the sequence of results, words and line numbers of a whole file is that of the file in memory, up to a too-long report |
| ConfFile.UnescapeWord | web/nginx/to_nginx/nginx-1.22.1/src/core/ngx_conf_file.c:766-803 | the loop writes the unescaped word and a zero into a block of the raw length plus one, reading only the word |
| ConfFile.Window.Refill | web/nginx/to_nginx/nginx-1.22.1/src/core/ngx_conf_file.c:579-611 | the pending bytes move to the front, the rest is read from the file, and window and dump still match the file |
| ConfFile.Window.ScanWord | web/nginx/to_nginx/nginx-1.22.1/src/core/ngx_conf_file.c:722-816 | the case of a byte inside a word does what the lexer specifies, in terms of the window |
| ConfFile.Window.ScanByte | web/nginx/to_nginx/nginx-1.22.1/src/core/ngx_conf_file.c:607-815 | one turn of the loop does what the lexer specifies for one byte |
| ConfFile.Window.ReadToken | web/nginx/to_nginx/nginx-1.22.1/src/core/ngx_conf_file.c:502-817 | a call through the window returns the code, words, line and position of bounded lexing of the whole file |
| ConfFile.ReadAll | web/nginx/to_nginx/nginx-1.22.1/src/core/ngx_conf_file.c:502-817 | calling until the end gives the tokens of the file in memory unless a parameter is too long, and the dump is the prefix of the file read so far |
| LatFs.CeilCeil | cloudnative/mem/lmbench3/src/lat_fs.c:164-172 | dividing and rounding up twice is dividing by the product and rounding up |
| LatFs.DirsSplit | cloudnative/mem/lmbench3/src/lat_fs.c:126-150 | the directories of full subtrees and of a rest add up |
| LatFs.OneMoreDir | cloudnative/mem/lmbench3/src/lat_fs.c:126-150 | one more subtree costs one directory and those below it |
| LatFs.NextLevel | cloudnative/mem/lmbench3/src/lat_fs.c:164-172 | one more level of the computation divides once more, and gets smaller until one directory is left |
| LatFs.DigitsInjective | cloudnative/mem/lmbench3/src/lat_fs.c:126-150 | file numbers below max^d have different paths |
| LatFs.Layout.Recurse | cloudnative/mem/lmbench3/src/lat_fs.c:126-150 | the recursion takes the next min(left, max^(depth+1)) files and exactly the directories counted for them, names them by their digits and touches nothing else |
| LatFs.SetupNames | cloudnative/mem/lmbench3/src/lat_fs.c:152-201 | for every file count and fan-out of at least two it ends with all files named differently and exactly the directories computed beforehand used |
| Stats.EveryGrows | web/nginx/wrk/src/stats.c:33-43 | one more bin extends the sum over a step exactly when it is aligned |
| Stats.Histogram.AddBelow | web/nginx/wrk/src/stats.c:34-41 | spreading one bin adds its original count to the aligned bins below |
| Stats.Histogram.Correct | web/nginx/wrk/src/stats.c:33-43 | bin m between the step and the maximum ends as the sum of the original bins m, m+e, m+2e, ... up to the maximum, others are unchanged, and the count grows by what was added |
| StatsRecord.StepInv | web/nginx/wrk/src/stats.c:22-31 | every atomic step of every call keeps the invariant |
| StatsRecord.RecordsAll | web/nginx/wrk/src/stats.c:22-31 | once all calls have returned, under any interleaving, each bin holds its multiplicity, the count is the number of accepted samples, and minimum and maximum are theirs |
| StatsRecord.StepSpends | web/nginx/wrk/src/stats.c:22-31 | every atomic step, retries included, uses up a budget |
| StatsRecord.RunsEnd | web/nginx/wrk/src/stats.c:22-31 | every run is at most as long as the initial budget |
| NgxChain.UpdateSent | web/nginx/to_nginx/nginx-1.22.1/src/core/ngx_buf.c:271-314 | the loop over the links in place computes the specified buffers and link |
| NgxChain.SentDrops | web/nginx/to_nginx/nginx-1.22.1/src/core/ngx_buf.c:271-314 | exactly min(sent, total) bytes are dropped from the front of the byte stream |
| NgxChain.SentLink | web/nginx/to_nginx/nginx-1.22.1/src/core/ngx_buf.c:271-314 | the returned link is where the remaining stream begins, and it is not a special buffer |
| NgxChain.SentAddsIff | web/nginx/to_nginx/nginx-1.22.1/src/core/ngx_buf.c:271-314 | sending a and then b from the returned link gives the buffers and the link of sending a+b, for all a and b, if and only if no buffer from the first link on is blank with two bytes or more |
| NgxChain.SentAdds | web/nginx/to_nginx/nginx-1.22.1/src/core/ngx_buf.c:271-314 | so it does whenever every buffer is special, in memory or in a file |
| NgxChain.BlankBreaks | web/nginx/to_nginx/nginx-1.22.1/src/core/ngx_buf.h:125-138 | and not for a chain of one blank buffer of two bytes |
| AeFiles.FileEvents.constructor | web/nginx/wrk/src/ae.c:63-84 | a new loop has an empty table and an empty interest set |
| AeFiles.FileEvents.ApiAddEvent | web/nginx/wrk/src/ae_epoll.c:73-88 | the operation issued is legal for the kernel set, which afterwards has the old and the new events |
| AeFiles.FileEvents.ApiDelEvent | web/nginx/wrk/src/ae_epoll.c:90-106 | the operation issued is legal for the kernel set, which afterwards has the events left, or not the descriptor |
| AeFiles.FileEvents.CreateFileEvent | web/nginx/wrk/src/ae.c:135-153 | the table gains the mask; table, highest descriptor and kernel set agree afterwards if and only if the call failed, the mask is not empty or the descriptor was watched |
| AeFiles.FileEvents.DeleteFileEvent | web/nginx/wrk/src/ae.c:155-171 | the table loses the mask, and table, highest descriptor and kernel set agree |
| AeFiles.FileEvents.ResizeSetSize | web/nginx/wrk/src/ae.c:106-122 | resizing succeeds exactly when the highest descriptor fits, keeps all entries and clears new ones |
| AeFiles.Run | web/nginx/wrk/src/ae.c:106-171 | after every run of create, delete and resize calls the agreement holds |
| AeTimerPass.DoAllOutcome | web/nginx/wrk/src/ae.c:203-233 | a callback puts timers with new numbers in front, marks exactly the timers it was asked to delete, and changes nothing else |
| AeTimerPass.PassMeans | web/nginx/wrk/src/ae.c:262-334 | a timer has a turn exactly if it was not deleted before the pass nor by the callback of a timer in front of it, at most one, in list order; it fires exactly if it is due; the list ends with the new timers, newest first, and those that had a turn, each at its next due time and deleted exactly if it wants no more or a callback deleted it |
| AeTimers.TimeEvents.CreateTimeEvent | web/nginx/wrk/src/ae.c:203-220 | a new timer with the next id stands at the head, due after the given milliseconds |
| AeTimers.TimeEvents.DeleteTimeEvent | web/nginx/wrk/src/ae.c:222-233 | the first timer with the number is marked deleted, if there is one, and nothing else changes |
| AeTimers.TimeEvents.Callback | web/nginx/wrk/src/ae.c:203-233 | any callback does to the list exactly what its creations and deletions say, one after the other, with new timers in front of the old nodes |
| AeTimers.TimeEvents.Unlink | web/nginx/wrk/src/ae.c:293-304 | unlinking removes exactly the visited node |
| AeTimers.TimeEvents.CheckClock | web/nginx/wrk/src/ae.c:268-283 | a clock that went back sets the due second of every timer to zero, otherwise nothing changes |
| AeTimers.TimeEvents.Fire | web/nginx/wrk/src/ae.c:316-329 | after the callback the timer is marked deleted or due again later, whatever the callback did to the list |
| AeTimers.WalkList | web/nginx/wrk/src/ae.c:285-332 | the walk over the list that callbacks change gives the list, turns and nodes of the walk on values |
| AeTimers.ProcessTimeEvents | web/nginx/wrk/src/ae.c:262-334 | a pass gives the list and turns of the pass on values; every turn shows the number and due time its timer had at the start (the second zero if the clock went back) and fires exactly if it is due; the nodes left are new ones and exactly those that had a turn, in order |

## Left out

- Sockets, SSL, Lua scripts, processes and signals, files on disk, printing and argument parsing: calls into code outside the repository. Clocks,
  random numbers and measured times are arbitrary parameters.
- HTTP parser: non-strict builds, pausing, callbacks that fail or change the parser, and bytes after an upgrade.
- HttpParser.LiveParser.Execute: buffers of 4 GiB and more, in which the 32-bit `nread` can wrap inside one call.
- HttpParseUrl.ParseUrl: URLs of more than 65535 bytes, whose offsets do not fit the 16-bit fields; memory is taken to end with a byte that is no
  digit.
- HttpBody.ReceiveSized: starts behind the blank line with a header size below the limit; `HttpMessage.ReceiveMessage` starts in front of it.
- HttpMessage.ReceiveMessage: takes the header lines as read, with their flags and length in the parser; `HttpReceive.ReceiveAnnounced` reads them.
- HttpReceive.ReceiveAnnounced: the request line is taken as read, and one line announces the body; other lines have a name that is no keyword of the
  parser and a value that is neither empty nor folded. Chunk extensions and trailers are not part of the framing written, and a length of zero is not a
  body.
- HttpUrlText.ReadWritten: bracketed IPv6 hosts are not among the written forms (`HttpParseUrl.ParseUrl` covers them).
- benchmp: signals, error exits and pipe capacity; pipes are first-in-first-out and processes do not fail.
- BenchmpProtocol.RunsEnd: does not bound how often a child polls in vain or a single child measures without recording, as the source does not.
- BenchmpResults.InsertSort: rates are compared as exact numbers, where the source divides C doubles, and iteration counts are positive.
- Pointer chases: the start pointers `p[k]` of `mem_initialize`, `stride_initialize`, `tlb_initialize`, `par_mem` and the loads themselves; sizes are
  unbounded integers; line and page sizes are powers of two times the word size.
- ChaseBuild.MemState.ThrashInitialize: needs a length of at least one line; below that the unsigned loop bound of the source wraps round.
- Tokenizer: in-memory parameter buffers are `ConfLexer.Lex`; opening files, directive lookup and `include` are not modelled.
- `ngx_chain_update_chains` and `ngx_chain_coalesce_file`.
- LatFs.SetupNames: a path is the list of its components' numbers; how a number is printed as a name is not modelled.
- Stats.Histogram.Correct: counters do not overflow, and the expected interval is at least one. `stats_mean`, `stats_stdev` and percentiles are left out.
- Event loop: polling, finalizers, and the evport, kqueue and select back ends.
