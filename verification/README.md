# A verification model of sylar's protocol cores

sylar is a C++ server framework built around user-space fibers. This project models the parts of it
that are machines with an invariant across many functions, and proves what they are for.

- **The incremental HTTP parser** (`Http*.dfy`). `HttpStep` is the switch over 58 states and the
  nested header machine, one turn at a time. `HttpSpec` folds it over single bytes: that is the
  meaning of the parser. `HttpInvariant` is one inductive invariant over all states. `HttpMarks`
  accounts for the mark pointers. `HttpParser` is `http_parser_execute` as a class with its loops,
  bulk skips, marks and callbacks, and refines the fold; `HttpExecute` holds the lemmas of that
  proof and derives split invariance, which `HttpCoalesce` states for the calls an embedder sees.
  `HttpJoins` knows where one piece of data ends and the next begins. `HttpChunked`, `HttpLength`,
  `HttpNames`, `HttpValues`, `HttpLists`, `HttpHeaders`, `HttpMethods` and `HttpLimit` state what the
  machine computes in terms of its input.
- **URLs** (`HttpUrl`, `HttpUrlPartition`, `UrlWidth`, `UrlParser`, `Uris`): the two passes of
  `http_parser_parse_url`, the partition of the input that they find, what their 16-bit numbers
  lose, and the `Uri` printer.
- **ByteArray** (`ByteArrays`, `Codec`, `TypedStreams`, `TypedArrays`, `SocketStreams`): the linked
  list of blocks with its cursor as objects on the heap, proved to be one flat sequence with a
  position; the codecs above it; the scatter and gather views; the fixed-size transfers of a stream.
- **Timers, events and tasks** (`Timers`, `IoManager`, `Scheduling`): `TimerManager`, `IOManager` and
  the scheduler's list of tasks as classes whose fields change as in the source. Every method
  states its whole new state. `SchedulerRuntime`, `EventsRuntime`, `TimersRuntime` and
  `StoppingRuntime` prove that fibers, the scheduler, the I/O manager and its timers carry out steps
  of the runtime below.
- **The fiber runtime** (`Runtime*.dfy`): workers, the queue, fibers, event slots, timers and hooked
  calls as one transition system with a step for every region that a lock protects. Its results
  hold in every state that any run of any number of workers reaches. Two separate accounts prove
  them: tokens (who owes a fiber its resume, or a callback its run; `RuntimeTokens`, `RuntimeBalance`)
  and the protocol of hooked calls (`RuntimeProtocol`). `RuntimeTimeouts` says when a wait with a
  timeout has one to wait for, `RuntimeTickles` when an idle worker is told that there is work for it.

What the proofs rest on, beyond the source:

- `HTTP_PARSER_STRICT` is 1, and the embedder's callbacks return 0, but for `on_headers_complete`,
  which may return anything.
- A buffer and the header limit together do not exceed 2^32 bytes. Apart from a limit of 2^32 - 1, this
  is exactly when counting a header in one addition agrees with counting its bytes, for every count
  so far; the counts that tell are reached (`HttpLimit.CountFitsExact`, `CountReached`).
- A block of a ByteArray has at least one byte.
- The kernel's answers are parameters: how much a transfer moves, whether an epoll_ctl succeeds,
  what epoll_wait reports, what the clock shows. No bound is put on them except that a transfer
  moves no more than there is room and data for.
- `addEvent` is called on a thread that has a scheduler: the waiter remembers it, and `triggerEvent` hands
  the waiter to it.
- In the runtime a fiber enters a queue, a slot or a timer only by its own act while it runs, and
  then yields; `delEvent` is not used on the slot of a fiber; growing the table of descriptors and
  fetching the entry is one step; an event is delivered only while it is registered.

What the proofs found, where the code does not do what its documentation or tests suggest:

- `ByteArray::read` of 0 bytes dereferences a null block when the position is at the capacity, so a
  stream that ends in an empty string and fills its last block does not read back. With the length
  fields of the strings that is the whole condition (`TypedArrays.RoundTrip`).
- The positioned `read` looks from the cursor's block on, and is right exactly when the bytes begin
  in that block (`ByteArrays.ReadAtExact`; failing input `ReadAtMisses`). The positioned
  `getReadBuffers` clamps its length by the array's own position (`ByteArrays.ClampExact`), so that
  its buffers can hold bytes that are not contents.
- A timeout of a hooked call can be lost: when the timer goes off before `addEvent`, or a callback of
  an earlier try marks the call during a retry, its `cancelEvent` finds nothing, later timers return
  at once, and only I/O ends the wait. `RuntimeTimeouts.TimeoutComing` and `RegisterExact` say exactly
  when; `TimeoutLost` is a run.
- A Connection option that is a proper beginning of a keyword takes the comma right behind it, and a
  comma at the front of the value is the first byte of an option: "k,close" and ",close" do not close.
  Neither does "close" with a tab behind it (`HttpHeaders.CloseIsLost`). A later option that is empty,
  or begins with '_' or a tab, ends the search for options, because the byte is lowered before it is
  looked up. `HttpLists.FlagsMeanList` says, by the positions of the parts, exactly when the flags
  are those of the list.
- The offsets and lengths of a URL's fields are kept in 16 bits: the result is right exactly when no
  field of it, nor its whole authority, needs more (`UrlWidth.ParseUrlExact`); and the source accepts
  URLs that wider numbers would refuse (`OnlySourceAccepts`).
- A task that queues up behind one that is pinned to another thread wakes no idle worker, and waits for
  the next search or the end of an idle wait (`RuntimeTickles.StepTells`; failing run `TickleLost`).
- The rollover test of the timers wraps during the first hour of the clock: any step back then
  counts as a rollover and expires every timer (`Timers.RolloverExact`).
- The I/O manager may find that all may stop while an idle worker of its own still holds expired
  callbacks (`RuntimeStop.IoStoppingFinal`).
- `idle` does not mask a report by the registered events: a report with one registered and one
  unregistered event aborts (`IoManager.IOManager.Deliver`).
- `Uri::toString` prints a bracketed host without its brackets, and a Uri without a scheme as `://`
  (`Uris.PrintedReadsBack`). `getPort` knows `wss`, `isDefaultPort` and `Create` do not.
- `unhex` has 128 initialisers, so a byte from 128 up reads as the hex digit 0
  (`HttpLength.SizeBegins`); the inner loop over an unmatched value can step over a byte beyond the
  header limit (always followed by the overflow error, `HttpExecute.ScanJumps`).
- The call that announces the end of the connection completes a message again each time it is made
  (`HttpLength.EofBody`).

## Model

| member | source | states |
|---|---|---|
| `HttpStep.TurnIsDisciplined` | sylar-from-scratch/sylar/http/http-parser/http_parser.c:707-2052 | For every state and byte: a turn that asks for its byte again (`reexecute_byte`) goes to a state of strictly lower rank, so the jumps end; it notifies at most once; it fails exactly with the errno it stores; it never sets a mark over a live one, and a mark that the next state needs is set. |
| `HttpStep.UrlTargets` | sylar-from-scratch/sylar/http/http-parser/http_parser.c:490-636 | `parse_url_char` never leaves the URL states: every byte of a URL leads to a state whose bytes are URL data, or to the error. |
| `HttpTypes.MethodWord` | sylar-from-scratch/sylar/http/http-parser/http_parser.h:163-212 | The method table, whose words have three to eleven letters. |
| `HttpSpec.SettleEnds` | sylar-from-scratch/sylar/http/http-parser/http_parser.c:707-2052 | The byte-wise fold always settles a byte; a failure stores an errno other than OK and header overflow; an early exit happens only for an upgrade. |
| `HttpSpec.RunTurn` | sylar-from-scratch/sylar/http/http-parser/http_parser.c:707-2052 | The fold may be followed one turn of the switch at a time, whether a turn takes its byte or asks for it again. |
| `HttpSpec.RunAppend` | sylar-from-scratch/sylar/http/http-parser/http_parser.c:638-2084 | The fold over a + b is the fold over a and, if that one got to the end of a, the fold over b from the record it left. |
| `HttpSpec.RunBounds` | sylar-from-scratch/sylar/http/http-parser/http_parser.c:2064-2084 | A run that is still going has taken every byte; a failure, and nothing else, changes the errno; an early exit happens only for an upgrade. |
| `HttpInvariant.TurnSurvives` | sylar-from-scratch/sylar/http/http-parser/http_parser.c:1361-2052 | One inductive invariant for every state and byte: the nested header state suits the state, no keyword index runs past its keyword, `F_CHUNKED` is set in every chunk state, the length in a body state is neither 0 nor the sentinel, and it is 0 after the data of a chunk. |
| `HttpInvariant.RunSurvives` | sylar-from-scratch/sylar/http/http-parser/http_parser.c:638-2084 | Every internal assert of the parser holds after every input that it gets through, from every state a parser can be in between two calls. |
| `HttpInvariant.MethodSurvives` | sylar-from-scratch/sylar/http/http-parser/http_parser.c:963-1014 | While a method is read the guess is a method of the table and the index is within the longest word, so the table is never read out of bounds. |
| `HttpJoins.TurnLeads` | sylar-from-scratch/sylar/http/http-parser/http_parser.c:707-2052 | What was handed over last is known from the state: every turn leads from a state that allows it to a state that allows what was then handed over last, so that data which a later call delivers goes on with the right piece. |
| `HttpJoins.TurnMarks` | sylar-from-scratch/sylar/http/http-parser/http_parser.c:707-1755 | A mark is set only where data of its kind cannot have come last, or for the next line of a folded value. |
| `HttpJoins.RunLeads` | sylar-from-scratch/sylar/http/http-parser/http_parser.c:638-2084 | The same over every run that does not fail. |
| `HttpJoins.EmptyValue` | sylar-from-scratch/sylar/http/http-parser/http_parser.c:1749-1753 | A header value that is empty is a piece of data all the same. |
| `HttpMarks.OneMark` | sylar-from-scratch/sylar/http/http-parser/http_parser.c:2054-2063 | At most one of the five marks is live at any time, as the assert before the final callbacks says. |
| `HttpMarks.TurnKeepsAccounts` | sylar-from-scratch/sylar/http/http-parser/http_parser.c:682-2052 | Delivered and pending data together grow by exactly what the fold hands over for the turn: a mark neither loses nor repeats a byte, and pieces of data begin where the fold begins them. |
| `HttpMarks.ExitKeepsAccounts` | sylar-from-scratch/sylar/http/http-parser/http_parser.c:1826-1923 | An early return for an upgrade leaves no data pending. |
| `HttpMarks.FailKeepsAccounts` | sylar-from-scratch/sylar/http/http-parser/http_parser.c:2078-2084 | An error delivers nothing that the fold does not. |
| `HttpMarks.SkipCovers` | sylar-from-scratch/sylar/http/http-parser/http_parser.c:1873-2036 | A bulk skip over a body covers exactly the bytes pending before and the bytes skipped. |
| `HttpMarks.RemarkedFits` | sylar-from-scratch/sylar/http/http-parser/http_parser.c:682-705 | Re-marking on entry suits the state the last call ended in; nothing is pending then, and what the mark will deliver goes on with the last piece. |
| `HttpMarks.LeftoverFlatten` | sylar-from-scratch/sylar/http/http-parser/http_parser.c:2064-2076 | The callbacks for leftover marks deliver exactly what is pending. |
| `HttpExecute.LagStops` | sylar-from-scratch/sylar/http/http-parser/http_parser.c:154-161 | Counting a whole stretch at once is counting it byte by byte: the same record, or both have failed on the header limit. |
| `HttpExecute.NameScans` | sylar-from-scratch/sylar/http/http-parser/http_parser.c:1248-1364 | One step of the inner loop over a header name is one turn of the switch. |
| `HttpExecute.ValueScans` | sylar-from-scratch/sylar/http/http-parser/http_parser.c:1469-1650 | One step of the inner loop over a header value is one turn of the switch. |
| `HttpExecute.ScanJumps` | sylar-from-scratch/sylar/http/http-parser/http_parser.c:1498-1517 | Past the header limit the inner loop over an unmatched value can jump over a byte; by then the fold has failed on the limit, and so will the loop. |
| `HttpExecute.ValueStops` | sylar-from-scratch/sylar/http/http-parser/http_parser.c:1469-1480 | CR or LF ends a value: counting and delivering may come in either order. |
| `HttpExecute.BodyFold` | sylar-from-scratch/sylar/http/http-parser/http_parser.c:1873-1895 | A body of known length, skipped in one go, is the fold over its bytes. |
| `HttpExecute.EofFold` | sylar-from-scratch/sylar/http/http-parser/http_parser.c:1909-1914 | A body up to the end of the connection, skipped in one go, is the fold over its bytes. |
| `HttpExecute.SkipEndsBody` | sylar-from-scratch/sylar/http/http-parser/http_parser.c:1873-1907 | The last byte of a body is delivered and looked at again; with it the skip and the fold agree. |
| `HttpExecute.ExecutesAppend` | sylar-from-scratch/sylar/http/http-parser/http_parser.c:638-2084 | A call on b after a call on a that got through a amounts to one call on a + b. |
| `HttpExecute.SplitInvariance` | sylar-from-scratch/sylar/http/http-parser/http_parser.c:638-2084 | Cut an input anywhere into two pieces: if one call on the whole ends without an error or an upgrade, then the calls on the pieces do, take all bytes, leave the same record, and make the same notifications in the same order with the same pieces of data between them, empty ones included, when the data of each piece is put back together. |
| `HttpCoalesce.CoalesceIs` | sylar-from-scratch/sylar/http/http-parser/http_parser.c:2054-2076 | Putting together adjacent data calls of one kind is what the events of the fold say, for every sequence of calls. |
| `HttpCoalesce.SplitCoalesced` | sylar-from-scratch/sylar/http/http-parser/http_parser.c:638-2084 | So the calls into the embedder, with adjacent data calls of one kind put together, are the same however the input was cut. |
| `HttpParser.HttpParser.constructor` | sylar-from-scratch/sylar/http/http-parser/http_parser.c:2147-2156 | A fresh record is one that a parser can have between two calls, in the start state of its kind. |
| `HttpParser.HttpParser.Turn` | sylar-from-scratch/sylar/http/http-parser/http_parser.c:707-2052 | A turn outside the bulk loops, with its marks and callbacks, resolves to the fold behind that byte. |
| `HttpParser.HttpParser.Name` | sylar-from-scratch/sylar/http/http-parser/http_parser.c:1248-1382 | The loop over a header name stands where the fold stands, whatever it stopped at. |
| `HttpParser.HttpParser.Unmatched` | sylar-from-scratch/sylar/http/http-parser/http_parser.c:1498-1517 | The loop over an unmatched value stands where the fold stands, or both fail. |
| `HttpParser.HttpParser.Value` | sylar-from-scratch/sylar/http/http-parser/http_parser.c:1469-1668 | The loop over a header value stands where the fold stands, whatever it stopped at. |
| `HttpParser.HttpParser.Skip` | sylar-from-scratch/sylar/http/http-parser/http_parser.c:1873-2036 | The bulk skips stand where the fold stands. |
| `HttpParser.HttpParser.ExecuteBytes` | sylar-from-scratch/sylar/http/http-parser/http_parser.c:638-2084 | `http_parser_execute` with its marks, inner loops and skips refines the fold: it fails exactly when the fold does, with the same errno at the same byte unless the header limit is at stake, and otherwise leaves the fold's record and delivers the fold's pieces of data. |
| `HttpParser.HttpParser.Execute` | sylar-from-scratch/sylar/http/http-parser/http_parser.c:638-2084 | The same for every buffer: an empty one means the end of the connection, and a parser with an error takes nothing. |
| `HttpParser.HttpParser.Feed` | sylar-from-scratch/sylar/http/http_session.cc:20-40 | Pieces fed in turn amount to one fold over all bytes fed, however the input was cut. |
| `HttpChunked.ChunkedDecoding` | sylar-from-scratch/sylar/http/http-parser/http_parser.c:1916-2045 | Section 4.1 of RFC 7230: for every list of non-empty chunks with any spelling of the sizes, any extension and any trailer fields that the section allows (none sets a length) within the header limit, the body delivered is the payload, each chunk is announced, and the message is completed once, by the final LF and not before. |
| `HttpChunked.ChunkedBodyDelivered` | sylar-from-scratch/sylar/http/http-parser/http_parser.c:1757-2045 | The same for calls of the parser: the on_body data put back together grows by the payload, and on_message_complete is called once. |
| `HttpLength.AccumulateExact` | sylar-from-scratch/sylar/http/http-parser/http_parser.c:1541-1557 | Behind its guard the 64-bit multiply-and-add is exact and stays below the sentinel. |
| `HttpLength.ContentLengthExact` | sylar-from-scratch/sylar/http/http-parser/http_parser.c:1423-1437 | A Content-Length value leaves exactly the number its digits spell, or fails; it fails exactly when the number without its last digit is above the guard. |
| `HttpLength.ChunkSizeExact` | sylar-from-scratch/sylar/http/http-parser/http_parser.c:1925-1976 | A chunk size in any spelling leaves exactly its value, or fails; it fails exactly when the value without its last digit is above the guard. |
| `HttpLength.UnhexExact` | sylar-from-scratch/sylar/http/http-parser/http_parser.c:224-233 | The table reads more bytes as hexadecimal digits than there are: every byte from 128 up is a zero. |
| `HttpLength.SizeBegins` | sylar-from-scratch/sylar/http/http-parser/http_parser.c:1925-1938 | A run over one byte: it begins a chunk size exactly when it is a hexadecimal digit, with its value, or is 128 or more, as a zero; every other byte is refused. |
| `HttpLength.EofBody` | sylar-from-scratch/sylar/http/http-parser/http_parser.c:660-679 | A body that only the end of the connection ends is begun for no message that another may follow (`http_message_needs_eof`, `http_should_keep_alive`); the empty call completes it, and again each time it is made. |
| `HttpLength.BodyConserves` | sylar-from-scratch/sylar/http/http-parser/http_parser.c:1873-1907 | Within a body of known length, bytes delivered and remaining length add up to the declared length after every byte. |
| `HttpNames.HeaderNameExact` | sylar-from-scratch/sylar/http/http-parser/http_parser.c:1198-1364 | After any header name in any case, the nested state names a keyword if and only if the lower-cased name is that keyword (proxy-connection counting as connection), and the name is handed over as one piece. |
| `HttpNames.NameCharacter` | sylar-from-scratch/sylar/http/http-parser/http_parser.c:1248-1359 | What the nested machine knows about the name read so far stays right with every further character. |
| `HttpValues.ValueRuns` | sylar-from-scratch/sylar/http/http-parser/http_parser.c:1399-1668 | A whole value goes through the fold, is handed over as one piece, and leaves what the nested machine makes of its bytes. |
| `HttpValues.TransferEncodingExact` | sylar-from-scratch/sylar/http/http-parser/http_parser.c:1566-1574 | For every value of Transfer-Encoding: its end raises the chunked flag if and only if it is "chunked" in any mixture of cases with nothing but spaces behind it, and no other flag. |
| `HttpValues.ConnectionExact` | sylar-from-scratch/sylar/http/http-parser/http_parser.c:1576-1655 | For every value of Connection, whatever its bytes: its end leaves exactly the flags of the options that the parser looks at. |
| `HttpValues.SplitJoin` | sylar-from-scratch/sylar/http/http-parser/http_parser.c:1626-1631 | What the theorems call the parts of a value is what stands between its commas: splitting is the inverse of joining. |
| `HttpLists.OptionsExact` | sylar-from-scratch/sylar/http/http-parser/http_parser.c:1576-1655 | For every value, by positions: the parser finds an option if and only if it stands, with nothing but spaces around it, in a part that begins an option (an even number of parts in a row right before it take their commas) and that is not behind a part which begins one and does not open. |
| `HttpLists.FlagsMeanList` | sylar-from-scratch/sylar/http/http-parser/http_parser.c:1576-1712 | The flags a Connection value raises are those of its whole list, with spaces and tabs around the parts, whatever they were before, if and only if every keyword on the list is in such a part with nothing but spaces around it. |
| `HttpLists.WholeListExact` | sylar-from-scratch/sylar/http/http-parser/http_parser.c:1576-1655 | The parser looks at every part of a value as an option if and only if the first is not empty, every other one opens with a token character of the lowered table, and no part with a comma behind it is a proper beginning of a keyword. |
| `HttpLists.UnderscoreAndTabEnd` | sylar-from-scratch/sylar/http/http-parser/http_parser.c:1576-1592 | A later option that begins with '_' or a tab ends the search, because the byte is lowered before it is looked up. |
| `HttpHeaders.ConnectionHeader` | sylar-from-scratch/sylar/http/http-parser/http_parser.c:1198-1712 | A Connection line, with any spelling of its name and any value, CR LF, and the byte that begins what follows: the run of the fold leaves exactly the flags of the options looked at, and delivers name and value. |
| `HttpHeaders.TransferEncodingHeader` | sylar-from-scratch/sylar/http/http-parser/http_parser.c:1198-1712 | The same for Transfer-Encoding: the run raises the chunked flag if and only if the value is "chunked" and spaces, and changes no other. |
| `HttpHeaders.ConnectionMeansList` | sylar-from-scratch/sylar/http/http-parser/http_parser.c:1198-1712 | The same for a whole header line: the run leaves the flags of its list, as section 6.1 of RFC 7230 means it, whatever they were before, if and only if every keyword on the list is read. |
| `HttpHeaders.CloseIsLost` | sylar-from-scratch/sylar/http/http-parser/http_parser.c:1595-1655 | The failing inputs: with the values "k,close", ",close", and "close" with a tab behind it, a Connection line leaves the flags as they were, although close is on each list. |
| `HttpHeaders.FieldsThrough` | sylar-from-scratch/sylar/http/http-parser/http_parser.c:1198-1712 | Any number of lines that set no length go through the fold, each raising its flag before the next. |
| `HttpMethods.GuessSound` | sylar-from-scratch/sylar/http/http-parser/http_parser.c:963-1014 | While the method is read, the bytes read are the beginning of the guessed method's name. |
| `HttpMethods.GuessExact` | sylar-from-scratch/sylar/http/http-parser/http_parser.c:920-1014 | The guess ends at its word exactly for the names in the table, and then it is that name. |
| `HttpMethods.MethodExact` | sylar-from-scratch/sylar/http/http-parser/http_parser.c:920-1014 | A request method is accepted if and only if it is in the table, and the record names it; any other word is refused as an invalid method. |
| `HttpLimit.CountFitsExact` | sylar-from-scratch/sylar/http/http-parser/http_parser.c:154-161 | Adding a whole name or value to the 32-bit count agrees with counting byte by byte, for every count so far from any lowest one on, if and only if limit and length together do not exceed 2^32 (or there is no limit). |
| `HttpLimit.CountWraps` | sylar-from-scratch/sylar/http/http-parser/http_parser.c:154-161 | Concrete failures: from every count below the limit, a value that brings the sum to 2^32 in one buffer passes when counted at once, and is refused when counted byte by byte. |
| `HttpLimit.CountReached` | sylar-from-scratch/sylar/http/http-parser/http_parser.c:638-2084 | Every count from 19 bytes to the limit is reached: a run from `http_parser_init` ends in a plain header value with it. |
| `HttpLimit.PlainRuns` | sylar-from-scratch/sylar/http/http-parser/http_parser.c:154-161 | Byte by byte, a value is refused for its length exactly when the count leaves the limit. |
| `HttpUrlPartition.UrlStepInv` | sylar-from-scratch/sylar/http/http-parser/http_parser.c:2362-2418 | One byte of the first pass: fields stay in order and made of their own characters, and every byte outside of them is a delimiter. |
| `HttpUrlPartition.HostStepWell` | sylar-from-scratch/sylar/http/http-parser/http_parser.c:2270-2320 | One byte of `http_parse_host`: userinfo, host and port stay within the authority, in order, and made of their own characters. |
| `HttpUrlPartition.SplitPartition` | sylar-from-scratch/sylar/http/http-parser/http_parser.c:2258-2338 | The second pass over the authority keeps what the first has found around it. |
| `HttpUrlPartition.UrlPartition` | sylar-from-scratch/sylar/http/http-parser/http_parser.c:2345-2466 | A URL of at most 65535 bytes that parses: its fields are within it, in the order scheme, userinfo, host, port, path, query, fragment, without overlap; all other bytes are delimiters; a scheme has a host; the port is the decimal value of its digits and is at most 65535; a CONNECT target is a host and a port. |
| `HttpUrlPartition.LongPathWraps` | sylar-from-scratch/sylar/http/http-parser/http_parser.c:2407-2418 | The failing input for longer URLs: a path of one slash and 65536 letters parses as the path of one byte, and the letters are in no field. |
| `UrlWidth.NarrowParses` | sylar-from-scratch/sylar/http/http-parser/http_parser.c:2345-2466 | When every offset and length of the same passes on wide numbers is below 2^16, for any length of the input, the source finds exactly what they find. |
| `UrlWidth.ParseUrlExact` | sylar-from-scratch/sylar/http/http-parser/http_parser.c:2258-2466 | For every URL that the wide passes accept, however long: the source returns the same fields if and only if each of them, and the whole authority, has an offset and a length below 2^16. |
| `UrlWidth.LongUrlPartition` | sylar-from-scratch/sylar/http/http-parser/http_parser.c:2258-2466 | The partition holds for URLs of any length under that condition. |
| `UrlWidth.OnlySourceAccepts` | sylar-from-scratch/sylar/http/http-parser/http_parser.c:2258-2466 | A URL that only the source accepts: "a://", 65536 letters, and a bracket. Its authority is cut to one letter, and the wide passes refuse the bracket. |
| `UrlParser.FindPieces` | sylar-from-scratch/sylar/http/http-parser/http_parser.c:2362-2418 | The loop of the first pass is the fold over its bytes, and stops early exactly when the fold is dead. |
| `UrlParser.FindHost` | sylar-from-scratch/sylar/http/http-parser/http_parser.c:2270-2338 | The loop of the second pass is the fold over the authority, and stops early exactly when the fold is dead. |
| `UrlParser.ReadPort` | sylar-from-scratch/sylar/http/http-parser/http_parser.c:2451-2462 | The port loop on any bytes, with its signed characters and the unsigned sum; for digits it gives their decimal value, or refuses them exactly when that is above 65535. |
| `UrlParser.ParseUrlLoop` | sylar-from-scratch/sylar/http/http-parser/http_parser.c:2345-2466 | The three loops together compute `ParseUrl`, for inputs of every length; what that is, `UrlPartition` and `ParseUrlExact` say. |
| `Uris.CreateWellFormed` | sylar-from-scratch/sylar/uri.cc:14-74 | What `Create` returns: every part made of its own characters, a host whenever there is a scheme, and then a path that begins with a slash. |
| `Uris.FirstPass` | sylar-from-scratch/sylar/http/http-parser/http_parser.c:2362-2418 | In a printed form the first pass finds every part where it was put. |
| `Uris.SecondPass` | sylar-from-scratch/sylar/http/http-parser/http_parser.c:2258-2338 | In a printed form with a plain host the second pass finds userinfo, host and port where they were put. |
| `Uris.PlainHostReadsBack` | sylar-from-scratch/sylar/uri.cc:14-121 | With a scheme and a host that needs no brackets, `Create(toString(u))` is u with the default path filled in. |
| `Uris.OddHostLost` | sylar-from-scratch/sylar/uri.cc:106-121 | A host with a colon or a zone loses its brackets in print: the form does not parse, or gives another host. |
| `Uris.BracketsLost` | sylar-from-scratch/sylar/uri.cc:106-121 | A failing input: the Uri of "a://[::]" does not read back. |
| `Uris.PrintedReadsBack` | sylar-from-scratch/sylar/uri.cc:14-121 | For every Uri that came from a URL and prints to at most 65535 bytes: the printed form reads back with the same getters if and only if the Uri has a scheme and its host needs no brackets. |
| `Codec.WriteFixedOrder` | sylar-from-scratch/sylar/bytearray.cc:64-111 | The bytes of a fixed-width value depend on the array's byte order only, not on the host's. |
| `Codec.FixedRoundTrip` | sylar-from-scratch/sylar/bytearray.cc:64-248 | A fixed-width value is read back whatever the byte orders of the hosts that write and read it. |
| `Codec.ZigzagOrder` | sylar-from-scratch/sylar/bytearray.cc:113-127 | Zigzag numbers 0, -1, 1, -2, ... in this order for every 32- and 64-bit value; nothing wraps, not even for the least one. |
| `Codec.ZigzagRoundTrip` | sylar-from-scratch/sylar/bytearray.cc:113-136 | Decoding inverts encoding on every signed value of the width. |
| `Codec.ZigzagOnto` | sylar-from-scratch/sylar/bytearray.cc:129-136 | Encoding inverts decoding on every word of the width. |
| `Codec.VarintLength` | sylar-from-scratch/sylar/bytearray.cc:142-166 | A varint is minimal: at most n bytes exactly when the value needs at most n groups of seven bits. |
| `Codec.VarintBuffer` | sylar-from-scratch/sylar/bytearray.cc:143-166 | The buffers of 5 and 10 bytes suffice for every 32- and 64-bit value, and smaller ones would not. |
| `Codec.VarintRoundTrip` | sylar-from-scratch/sylar/bytearray.cc:254-284 | Reading a varint gives its value and stops at its last byte, whatever follows. |
| `Codec.ReadVarintBounds` | sylar-from-scratch/sylar/bytearray.cc:254-284 | On any input the reader takes at most one byte for every seven bits of the width and returns a word of the width. |
| `Codec.PlaceFits` | sylar-from-scratch/sylar/bytearray.cc:254-284 | Adding a shifted group is the same as or-ing it in: it meets no bit that is set and none beyond the word. |
| `ByteArrays.ByteArray.constructor` | sylar-from-scratch/sylar/bytearray.cc:33-41 | One block, position and size 0, no contents, big-endian. |
| `ByteArrays.ByteArray.Valid` | sylar-from-scratch/sylar/bytearray.cc:332-528 | The representation: the blocks form one list, share no memory and lie in a row as one flat sequence; the capacity is their number times the block size; the cursor is at the block of the position, and null exactly at the capacity; position, size and capacity are in this order. |
| `ByteArrays.ByteArray.AddCapacity` | sylar-from-scratch/sylar/bytearray.cc:499-528 | Room is made with no more blocks than necessary, and nothing written is touched. |
| `ByteArrays.GrownFits` | sylar-from-scratch/sylar/bytearray.cc:506-507 | The number of blocks added is enough, and one less would not be. |
| `ByteArrays.ByteArray.CopyIn` | sylar-from-scratch/sylar/bytearray.cc:351-374 | The copying loop overwrites exactly the next bytes of the flat sequence, across blocks, and leaves all others. |
| `ByteArrays.ByteArray.Write` | sylar-from-scratch/sylar/bytearray.cc:345-378 | The contents are overwritten or extended exactly at the position, all other bytes stay, and position, size and capacity follow. |
| `ByteArrays.ByteArray.Read` | sylar-from-scratch/sylar/bytearray.cc:380-407 | The next n bytes of the contents; out of range exactly when there are fewer; a null block is dereferenced exactly when n is 0 and the position is at the capacity. |
| `ByteArrays.ByteArray.ReadAt` | sylar-from-scratch/sylar/bytearray.cc:409-437 | The read with a position returns the bytes of the contents that were asked for, or the exception, whenever the guard of `ReadAtExact` holds; and what it returns otherwise. |
| `ByteArrays.ReadAtExact` | sylar-from-scratch/sylar/bytearray.cc:409-437 | The positioned read is right for every contents if and only if the bytes wanted are there and begin in the block of the cursor (or none is wanted and there is a block), or are not there and the 64-bit length check does not wrap. |
| `ByteArrays.ReadAtMisses` | sylar-from-scratch/sylar/bytearray.cc:417-422 | The failing input: blocks of four bytes, eight written, the cursor in the first block: the byte at 5 is read as the one at 1. |
| `ByteArrays.ByteArray.ToString` | sylar-from-scratch/sylar/bytearray.cc:530-538 | Everything from the position on, always: the one use of the positioned read is one where it is right. |
| `ByteArrays.ByteArray.SetPosition` | sylar-from-scratch/sylar/bytearray.cc:439-455 | Succeeds exactly up to the capacity; the contents only grow, by the bytes that are in the blocks. |
| `ByteArrays.ByteArray.Clear` | sylar-from-scratch/sylar/bytearray.cc:332-343 | One block again, and no contents. |
| `ByteArrays.ByteArray.TilesGather` | sylar-from-scratch/sylar/bytearray.cc:556-652 | What the buffers of a tiling hold, in a row, is the stretch of flat bytes that they tile. |
| `ByteArrays.ByteArray.Tile` | sylar-from-scratch/sylar/bytearray.cc:568-584 | The buffers tile exactly the n flat bytes from a place on, in order; a null block is dereferenced exactly when they do not fit. |
| `ByteArrays.ByteArray.GetReadBuffers` | sylar-from-scratch/sylar/bytearray.cc:556-585 | Buffers for as many of the next bytes as asked for and there are; their memory is that slice of the contents. |
| `ByteArrays.ByteArray.GetReadBuffersAt` | sylar-from-scratch/sylar/bytearray.cc:587-622 | Buffers from a given position on: they hold that stretch of the contents if and only if it is empty or ends within the size; they run past the last block exactly beyond the capacity; and all is right, the length too, under the guard of `ClampExact`. |
| `ByteArrays.ClampExact` | sylar-from-scratch/sylar/bytearray.cc:587-592 | The length is the one asked for, cut to the bytes behind the given position, if and only if the two positions are the same, or nothing is asked for, or there are enough bytes behind both, or none behind either. |
| `ByteArrays.ClampMisses` | sylar-from-scratch/sylar/bytearray.cc:587-592 | A failing input: eight bytes, four asked for from 6 on with the position at 0, and the length stays four. |
| `ByteArrays.ByteArray.GetWriteBuffers` | sylar-from-scratch/sylar/bytearray.cc:624-652 | Buffers that tile the next n flat bytes, for which room is made; contents and position stay. |
| `ByteArrays.ByteArray.Scatter` | sylar-from-scratch/sylar/bytearray.cc:624-652 | Data put into the buffers in their order overwrites exactly the flat bytes they tile. |
| `ByteArrays.ByteArray.TightFull` | sylar-from-scratch/sylar/bytearray.cc:499-528 | After writes, the contents end at the capacity exactly when they fill their last block. |
| `TypedStreams.NumberItem` | sylar-from-scratch/sylar/bytearray.cc:64-284 | Every number of every fixed width and varint kind is read back at its place in a stream. |
| `TypedStreams.TextItem` | sylar-from-scratch/sylar/bytearray.cc:180-330 | A string is read back at its place if and only if its length was not cut by its length field, and it is not an empty string that ends at the capacity. |
| `TypedStreams.ListRoundTrip` | sylar-from-scratch/sylar/bytearray.cc:64-330 | A written list is read back whole if and only if no length was cut and the list does not end in an empty string that ends at the capacity. |
| `TypedStreams.EmptyTextLost` | sylar-from-scratch/sylar/bytearray.cc:300-305 | A failing input: one empty string behind a 16-bit length, in blocks of two bytes. |
| `TypedArrays.FillVarint` | sylar-from-scratch/sylar/bytearray.cc:142-166 | The encoding loop leaves the varint of the value in its buffer and never runs past it. |
| `TypedArrays.WriteItem` | sylar-from-scratch/sylar/bytearray.cc:64-198 | Every writer appends the encoding of its value at the position. |
| `TypedArrays.ReadVarintWord` | sylar-from-scratch/sylar/bytearray.cc:254-284 | The decoding loop returns what the bytes at the position mean, or runs out of them. |
| `TypedArrays.ReadItem` | sylar-from-scratch/sylar/bytearray.cc:204-330 | Every reader returns what the bytes at the position mean, with the exception or the null block it meets. |
| `TypedArrays.RoundTrip` | sylar-from-scratch/tests/test_bytearray.cc:18-40 | Write all, `setPosition(0)`, read all, on a fresh array of any block size: the same list comes back with nothing left to read if and only if no string is longer than its length field says and the list does not end in an empty string that fills the last block. |
| `SocketStreams.SocketStream.ReadArray` | sylar-from-scratch/sylar/streams/socket_stream.cc:28-39 | Whatever part of the request the kernel grants, exactly those bytes are written at the position and the position moves behind them. |
| `SocketStreams.SocketStream.WriteArray` | sylar-from-scratch/sylar/streams/socket_stream.cc:48-59 | Whatever part the kernel takes, exactly those bytes of the contents went out and the position moves behind them. |
| `SocketStreams.SocketStream.ReadFixSizeArray` | sylar-from-scratch/sylar/stream.cc:19-29 | For every sequence of partial transfers the loop ends; the bytes moved are the next incoming ones, once and in order; it returns the length exactly when all were moved, which it does when the kernel keeps moving bytes. |
| `SocketStreams.SocketStream.WriteFixSizeArray` | sylar-from-scratch/sylar/stream.cc:46-56 | The same for sending: what went out is exactly the next stretch of the contents. |
| `SocketStreams.SocketStream.ReadFixSize` | sylar-from-scratch/sylar/stream.cc:5-17 | The same into plain memory, of which nothing else changes. |
| `SocketStreams.SocketStream.WriteFixSize` | sylar-from-scratch/sylar/stream.cc:31-44 | The same from plain memory. |
| `Timers.RolloverExact` | sylar-from-scratch/sylar/timer.cc:192-200 | The clock counts as rolled over exactly when it is back by more than an hour, or back at all during the first hour, because the subtraction wraps. |
| `Timers.FirstHour` | sylar-from-scratch/sylar/timer.cc:192-200 | A failing input: from 10 to 9 milliseconds counts as a rollover. |
| `Timers.LaterStart` | sylar-from-scratch/sylar/timer.cc:52-65 | Re-arming later gives a deadline that is not earlier if and only if it does not pass 2^64 in between. |
| `Timers.TimerManager.Find` | sylar-from-scratch/sylar/timer.cc:45-46 | The ordered search finds a timer exactly when it is in the set, so that no end iterator is erased. |
| `Timers.TimerManager.AddLocked` | sylar-from-scratch/sylar/timer.cc:179-190 | The front is announced exactly when the new timer is before all others and no announcement is outstanding; no wake-up is lost. |
| `Timers.TimerManager.AddTimer` | sylar-from-scratch/sylar/timer.cc:28-35 | A new timer with its deadline is in the set, and no wake-up is lost. |
| `Timers.TimerManager.Cancel` | sylar-from-scratch/sylar/timer.cc:41-50 | True exactly for a live timer, which leaves the set and is dead. |
| `Timers.TimerManager.Refresh` | sylar-from-scratch/sylar/timer.cc:52-65 | True exactly for a live timer, which is in the set with its new deadline; with a clock that does not go back and a deadline that does not wrap no wake-up is lost, although none is asked for. |
| `Timers.TimerManager.Reset` | sylar-from-scratch/sylar/timer.cc:67-91 | The new deadline counts from now or from the time the old one was set; no wake-up is lost; a reset that changes nothing is true even for a dead timer. |
| `Timers.TimerManager.GetNextTimer` | sylar-from-scratch/sylar/timer.cc:121-135 | The wait until the earliest deadline; from now on an earlier one has to be announced. |
| `Timers.TimerManager.CountExpired` | sylar-from-scratch/sylar/timer.cc:160-164 | The search stops exactly behind the deadlines that are due, wherever the probe timer is in memory. |
| `Timers.TimerManager.HandleAll` | sylar-from-scratch/sylar/timer.cc:169-176 | Callbacks in deadline order; each recurring timer is armed again, each other one is dead; nothing else changes. |
| `Timers.TimerManager.ListExpired` | sylar-from-scratch/sylar/timer.cc:137-177 | Without a rollover, exactly the callbacks that are due, in the order of their deadlines, and only later deadlines remain when periods are positive; with one, all; no wake-up is lost unless the clock rolled over or a deadline wraps. |
| `Timers.TimerManager.HasTimer` | sylar-from-scratch/sylar/timer.cc:202-205 | There is a timer in the set exactly when some timer has a callback. |
| `IoManager.FdContext.TriggerEvent` | sylar-from-scratch/sylar/iomanager.cc:84-101 | The waiter of a registered event is handed to the scheduler and forgotten with its bit; the other event stays. |
| `IoManager.CountUpdate` | sylar-from-scratch/sylar/iomanager.cc:189-243 | The number of event bits over all descriptors follows one entry of the table. |
| `IoManager.IOManager.constructor` | sylar-from-scratch/sylar/iomanager.cc:103-127 | An empty table of 32 entries in which nothing is pending. |
| `IoManager.IOManager.EpollCtl` | sylar-from-scratch/sylar/iomanager.cc:176-188 | Every epoll_ctl of the manager is an ADD exactly for a descriptor that the kernel does not watch, and a MOD or DEL for one that it does. |
| `IoManager.IOManager.AddEvent` | sylar-from-scratch/sylar/iomanager.cc:153-208 | The callback, or else the running fiber, waits for the event; a failed epoll_ctl changes no waiter; pending count, bits, waiters and the kernel's interest stay in step. The table grows far enough for every descriptor. |
| `IoManager.IOManager.DelEvent` | sylar-from-scratch/sylar/iomanager.cc:210-246 | Succeeds exactly for a registered event that the kernel lets go; the waiter is dropped, nobody is scheduled. |
| `IoManager.IOManager.CancelEvent` | sylar-from-scratch/sylar/iomanager.cc:248-282 | Succeeds exactly for a registered event that the kernel lets go; its waiter, and nobody else, is scheduled. |
| `IoManager.IOManager.CancelAll` | sylar-from-scratch/sylar/iomanager.cc:284-324 | Every waiter of the descriptor is scheduled once, reading before writing; other descriptors stay. |
| `IoManager.IOManager.Deliver` | sylar-from-scratch/sylar/iomanager.cc:408-462 | One report: the waiters of the events it names are scheduled, everybody stays when the kernel refuses; it aborts exactly when it names a registered and an unregistered event. |
| `IoManager.PartlyRegistered` | sylar-from-scratch/sylar/iomanager.cc:408-462 | A failing input: a descriptor that somebody waits to read, and a report that it can be read and written. |
| `IoManager.IOManager.DeliverAll` | sylar-from-scratch/sylar/iomanager.cc:408-463 | A whole epoll_wait result: behind the tasks that were there come the waiters that the reports name, one report after another, and the pending count goes down by as many; reports of different descriptors and of registered events only never abort. |
| `IoManager.DistinctFire` | sylar-from-scratch/sylar/iomanager.cc:408-463 | Reports of different descriptors do not get in each other's way: each schedules the waiters that it names by itself, in their order. |
| `EventsRuntime.CancelStep` | sylar-from-scratch/sylar/iomanager.cc:248-282 | `cancelEvent` on the object is the step that takes the waiter out of its slot and queues it. |
| `EventsRuntime.AddStep` | sylar-from-scratch/sylar/iomanager.cc:153-208 | `addEvent` for the running fiber does to the slots what the step Register does, and a failed one what the failed step does. |
| `EventsRuntime.DeliverStep` | sylar-from-scratch/sylar/iomanager.cc:408-462 | A delivered report on the object is a run of one or two steps of the runtime, with the tasks that they queue, in their order. |
| `TimersRuntime.SetsOne` | sylar-from-scratch/sylar/hook.cc:106-127 | The steps of the runtime that set a timer put one live timer behind the others; no other step adds or removes any. |
| `TimersRuntime.AddStep` | sylar-from-scratch/sylar/timer.cc:28-35 | `addTimer` on the object is such a step: the new timer stands for the one that the step sets. |
| `TimersRuntime.CancelStep` | sylar-from-scratch/sylar/timer.cc:41-50 | `cancel` on the object is what the steps that cancel make of the timer, and says whether it was still set. |
| `TimersRuntime.ExpireStep` | sylar-from-scratch/sylar/timer.cc:137-177 | `listExpiredCb` on the object is a run of the step Collect, one for each callback, in the order of the deadlines; without a rollover it collects exactly the timers that are due. |
| `StoppingRuntime.IoStoppingStep` | sylar-from-scratch/sylar/iomanager.cc:344-354 | `IOManager::stopping` on the three objects is the condition of the runtime, at any time but zero; at time zero a deadline of 2^64 - 1 counts as no timer, and nothing else does. |
| `Scheduling.Scheduler.ScheduleNoLock` | sylar-from-scratch/sylar/scheduler.h:128-135 | A task without fiber and callback is dropped; a tickle is asked for exactly when the queue was empty. |
| `Scheduling.Scheduler.Dequeue` | sylar-from-scratch/sylar/scheduler.cc:149-191 | The task taken is the first that is not for another thread and not a fiber that still runs; others are tickled exactly when a task of another thread was passed over or one is left behind. |
| `SchedulerRuntime.FetchStep` | sylar-from-scratch/sylar/scheduler.cc:149-195 | The search of the list, carried out on the objects, is the step Fetch of the runtime: the same task, or none where the step finds none, and a tickle exactly when the step announces. |
| `SchedulerRuntime.ScheduleStep` | sylar-from-scratch/sylar/scheduler.h:66-76 | `schedule` on the objects is the step that puts the task into the queue. |
| `SchedulerRuntime.ResumeStep` | sylar-from-scratch/sylar/fiber.cc:149-152 | `resume` on the objects is the step Resume, and its assert holds in every state that a run can reach. |
| `SchedulerRuntime.NewFiberStep` | sylar-from-scratch/sylar/scheduler.cc:202-212 | A callback on a new fiber is the step that adds a fiber and runs it. |
| `SchedulerRuntime.CallbackStep` | sylar-from-scratch/sylar/scheduler.cc:202-212 | The same on a fiber that has finished before (`reset`, `resume`), a branch that the code has and never takes. |
| `SchedulerRuntime.YieldStep` | sylar-from-scratch/sylar/fiber.cc:166-184 | `yield` on the objects is the step Yield. |
| `SchedulerRuntime.FinishStep` | sylar-from-scratch/sylar/fiber.cc:189-199 | The end of `MainFunc` on the objects is the step Finish. |
| `SchedulerRuntime.StoppingStep` | sylar-from-scratch/sylar/scheduler.cc:84-87 | `Scheduler::stopping` on the object is the condition of the runtime. |
| `RuntimeState.FirstEligible` | sylar-from-scratch/sylar/scheduler.cc:149-191 | The search of a worker in the transition system: the first eligible task, none before it. |
| `RuntimeBalance.StepBalance` | sylar-from-scratch/sylar/scheduler.cc:138-221 | Every step keeps the balance of every fiber and callback: a fiber that waits or is ready has exactly one token, any other none; the history of hand-overs, wake-ups and resumes agrees; a running fiber is on exactly one worker. |
| `RuntimeBalance.FetchBalance` | sylar-from-scratch/sylar/scheduler.cc:149-191 | Taking a task out of the queue loses and doubles nobody. |
| `RuntimeBalance.ResumeBalance` | sylar-from-scratch/sylar/scheduler.cc:197-212 | Resuming uses up the one token of a fiber and puts it on one worker. |
| `RuntimeBalance.RegisterBalance` | sylar-from-scratch/sylar/hook.cc:126-134 | Registering an event gives the fiber one token, a failed registration none. |
| `RuntimeBalance.CancelWaitBalance` | sylar-from-scratch/sylar/hook.cc:118-124 | The second half of a timeout moves a token from the event slot to the queue, or finds none. |
| `RuntimeProtocol.StepProtocol` | sylar-from-scratch/sylar/hook.cc:83-149 | Every step keeps calls, timers and event slots in agreement: open calls are those a fiber is inside of, a set timeout is the one its call remembers, a fiber in a slot is in the wait of a call on it. |
| `RuntimeProtocol.LeavesCall` | sylar-from-scratch/sylar/hook.cc:129-146 | A call that returns is closed and leaves no timeout behind. |
| `RuntimeProtocol.TimerGone` | sylar-from-scratch/sylar/hook.cc:136-139 | Cancelling the timer a call remembers leaves it with none. |
| `RuntimeHands.StepHands` | sylar-from-scratch/sylar/scheduler.cc:149-196 | A fiber in a worker's hand stays ready until that worker resumes it, and a pinned task is only ever in the hand of its thread. |
| `RuntimeRuns.StepCounted` | sylar-from-scratch/sylar/scheduler.cc:186-218 | The active and idle counters equal the numbers of workers with a task and in the idle fiber after every step. |
| `RuntimeRuns.RunInv` | sylar-from-scratch/sylar/scheduler.cc:138-221 | All of the above hold after every run, for every number of workers. |
| `RuntimeResults.SingleOccupancy` | sylar-from-scratch/sylar/hook.cc:127-145 | In every reachable state a fiber is in at most one of the queue, a worker's hand, an event slot, a timer, a collected or a scheduled callback; and then it waits or is ready. |
| `RuntimeResults.NobodyForgotten` | sylar-from-scratch/sylar/scheduler.cc:149-221 | In every reachable state a fiber is in one of these places if and only if it is ready or has handed itself over. |
| `RuntimeResults.OneThread` | sylar-from-scratch/sylar/fiber.cc:149-184 | In every reachable state no fiber is on two workers, and one on a worker is running. |
| `RuntimeResults.ResumesReady` | sylar-from-scratch/sylar/scheduler.cc:176-201 | In every reachable state the fiber a worker is about to resume is ready, not running or finished, and its task is not pinned to another thread. |
| `RuntimeResults.WokenOnce` | sylar-from-scratch/sylar/hook.cc:106-146 | Each wait is ended by one wake-up, and each wake-up by one resume: a fiber is woken as often as it has handed itself over, less one exactly while it is in a slot, a timer or a callback. |
| `RuntimeResults.RunOnce` | sylar-from-scratch/sylar/scheduler.h:128-135 | Each submitted callback begins at most once; it is in exactly one place until then, and in none afterwards. |
| `RuntimeResults.OneTimeout` | sylar-from-scratch/sylar/hook.cc:114-139 | A timeout that is set belongs to one open call that waits or is about to, and is the only one of it. |
| `RuntimeResults.SlotWaiter` | sylar-from-scratch/sylar/iomanager.cc:189-206 | A fiber in an event slot waits there in an open call of its own. |
| `RuntimeTimeouts.StepTimed` | sylar-from-scratch/sylar/hook.cc:106-146 | Every step keeps marks, timers and timeouts in agreement: a mark was made by a timer of the call that has gone off; until its cancelEvent is made its callback is about to make it; a timer that goes off while its call is open leaves it marked. |
| `RuntimeTimeouts.TimeoutOnce` | sylar-from-scratch/sylar/hook.cc:114-124 | In every reachable state the callback of a timeout is in exactly one place until it begins or its timer is cancelled while set, and in none afterwards. |
| `RuntimeTimeouts.LateTimeout` | sylar-from-scratch/sylar/hook.cc:116-124 | For every step from a reachable state: a call is marked at most once, while it is open, by the callback of a timer of its own; one that begins when the call is over or marked changes no call; only the callback that made the mark makes the cancelEvent, once. |
| `RuntimeTimeouts.Verdict` | sylar-from-scratch/sylar/hook.cc:136-146 | A call fails with a timeout if and only if the callback of one of its own timers has begun, and otherwise tries again, whoever woke it. |
| `RuntimeTimeouts.TimeoutComing` | sylar-from-scratch/sylar/hook.cc:106-134 | In every reachable state a fiber in the wait of a call with a timeout has one coming that will end the wait, if and only if the one cancelEvent of the call's timeouts has not been made. |
| `RuntimeTimeouts.RegisterExact` | sylar-from-scratch/sylar/hook.cc:126-134 | `addEvent` puts the fiber into the slot with a timeout coming if and only if that cancelEvent has not been made before. |
| `RuntimeTimeouts.BecomesLost` | sylar-from-scratch/sylar/hook.cc:116-134 | A wait loses its timeout in two ways only: it begins after the cancelEvent of its call, or that one fails in epoll_ctl. |
| `RuntimeTimeouts.OthersWake` | sylar-from-scratch/sylar/hook.cc:106-146 | Then only an event on the slot, or the cancelEvent of another call on it, ends the wait. |
| `RuntimeTimeouts.TimeoutWakes` | sylar-from-scratch/sylar/hook.cc:118-124 | The cancelEvent of a call empties its slot and puts its fiber at the end of the queue. |
| `RuntimeTimeouts.TimeoutLost` | sylar-from-scratch/sylar/hook.cc:114-127 | The failing run: a timer of a call goes off between `addConditionTimer` and `addEvent`, its cancelEvent finds nothing, and the fiber waits with no timeout to come. |
| `RuntimeStop.StepStopping` | sylar-from-scratch/sylar/scheduler.cc:84-87 | From a state where the scheduler may stop, with nothing set and nothing collected, every step that is not a submission leads to such a state. |
| `RuntimeStop.StoppingMeansDone` | sylar-from-scratch/sylar/scheduler.cc:84-87 | When the base scheduler may stop, every fiber has finished and every callback has run once. |
| `RuntimeStop.SafeStop` | sylar-from-scratch/sylar/scheduler.cc:84-98 | For every run of the base scheduler: once it may stop, no task remains, and it may stop for ever as long as nobody submits. |
| `RuntimeStop.IoStoppingFinal` | sylar-from-scratch/sylar/iomanager.cc:344-354 | The I/O manager's condition, once true, stays true without submissions if and only if no idle fiber holds an expired callback. |
| `RuntimeStop.IoStoppingNotFinal` | sylar-from-scratch/sylar/iomanager.cc:399-406 | A run of two workers in which it does not: one holds the only timer's callback while the other finds that all may stop. |
| `RuntimeTickles.StepTells` | sylar-from-scratch/sylar/scheduler.h:66-76 | For every step and every idle worker that finds nothing to do: the step gives it work without a tickle if and only if it queues a task that the worker may take behind others, or the fiber of a queued task gives up its worker. |
| `RuntimeTickles.SearchTells` | sylar-from-scratch/sylar/scheduler.cc:149-195 | Work that waits unannounced waits no longer than to the next search by anyone: the search takes the last of it, or tickles. |
| `RuntimeTickles.StepInforms` | sylar-from-scratch/sylar/scheduler.cc:149-195 | A step keeps every sleeper who has work informed if and only if it gives nobody who was not told something to do silently. |
| `RuntimeTickles.RunInforms` | sylar-from-scratch/sylar/scheduler.cc:138-221 | In every run without such steps no wake-up is lost, for any number of workers. |
| `RuntimeTickles.TickleLost` | sylar-from-scratch/sylar/scheduler.cc:149-195 | The failing run: a worker dozes off over a task pinned to another thread, and a task for anyone queues up behind that one in silence. |

## Left out

- ExecuteBytes: on the header limit the errno and the callbacks before it may differ between one call and several, because the inner loops count a whole stretch at once; such a run is only stated to fail. A limit of 2^32 - 1, which limits nothing, is not covered: there the two counts wrap together.
- SplitInvariance: is not stated for runs that end in an error or an upgrade, where the two need not agree.
- ChunkedDecoding: its trailers have no Content-Length field, which section 4.1.2 of RFC 7230 forbids there, and no value that is empty or folded over several lines.
- ConnectionHeader: is about lines with ": " between name and value, whose value is not folded over several lines.
- ParseUrlExact: is about URLs that the passes accept on wide numbers; which others the source accepts is not characterised, beyond the input of `OnlySourceAccepts`.
- The port loop takes `char` to be signed, as on x86.
- Feed: the buffers of `HttpSession` and `HttpConnection` and their limits are not modelled, only the order in which they feed the parser.
- HTTP callbacks that return an error, pausing, and the setting of the header limit.
- The parser record and the mark pointers are single values in two fields of the class, not fields of their own; the switch is a function that both the fold and the loop use.
- `HttpRequest` and `HttpResponse`: the wrapper overwrites a header that is delivered in two pieces, so it does not have the property that the parser has.
- IPv6 address syntax in a host: only the characters are checked, as the code does.
- `ByteArray::writeToFile`, `readFromFile` and `toHexString`: file contents and formatting. Floats are written and read as the fixed-width word of their bits.
- Allocation failure, and `size_t` overflow of positions and capacities: numbers of bytes are unbounded, but for the length check of `ReadAt`.
- The result of `readFixSize` and `writeFixSize` is the number itself; its cut to a C `int` is not modelled.
- `SocketStream` over TLS, and the hooked system calls below the socket.
- Timers in the runtime: time is left open there (any timer that is set may be due), and recurring timers are left to `Timers`.
- `addConditionTimer` appears in the runtime as the timeout of a call and not in `Timers`.
- `connect_with_timeout` is the wait of `do_io` without the retry, and is not a step of its own.
- `delEvent` in the runtime, and `cancelAll` as one step: there it is one step for each event.
- Which of the idle threads a tickle wakes, and the tickles of timers: `RuntimeTickles` is about those on account of the queue.
- Memory ordering, and the moment between `yield` setting its state and the context switch.
- The caller thread as a worker (`use_caller`), `Scheduler::start` and joining threads.
- Stacks, contexts, shared pointers and their counts.
- `Address` lookup, configuration, logging, the servlet layer, `TcpServer`, `StringUtil::UrlEncode` and the connection pool: calls into libraries, or work on one value at a time.
