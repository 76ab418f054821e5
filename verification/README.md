# fcgid: a verified model of the WSGI adapter

This project models what `wsgi.cpp` and `util.cpp` of fcgid do with one request: they find the script's Python module,
run its application, turn its calls and yielded strings into one response, and give it an input stream and an error log.
It states what comes out of that, for every application and every run, and proves it.

| file | contents |
|---|---|
| `Bytes.dfy`, `Numbers.dfy`, `Python.dfy`, `Streams.dfy` | bytes and C strings, C integers and strtol, Python values, the request's streams |
| `Util.dfy` | the tokenizer of `util.cpp` |
| `HeaderBlock.dfy` | checking header lists, writing the header block, and an independent reader for it |
| `HeaderLists.dfy` | which lists of tuples pass that check, what they declare, and their bytes, without the check |
| `Response.dfy` | the adapter as a state machine: start_response, output, write |
| `ResponseRuns.dfy`, `ResponseLaws.dfy` | what any run of that machine puts on the wire, read off its events |
| `Replies.dfy` | what each call is answered after any run, and what it leaves behind |
| `Application.dfy` | running an application, and its result code |
| `Chunking.dfy`, `Delivery.dfy` | dividing a body between strings, on streams that work and on streams that fail |
| `EndToEnd.dfy` | the common application, from the values it passes to the bytes its client gets |
| `Deviations.dfy` | applications on which the adapter does not do what their headers and status ask for |
| `Adapter.dfy` | the adapter object with its fields and loops, proved against the above |
| `LogLines.dfy`, `Log.dfy` | splitting the error log into lines: the specification, and the heap buffer that does it |
| `InputReads.dfy`, `Input.dfy` | reading the request body: the specification, and the short-read loop that does it |
| `Environ.dfy` | the environment dictionary |
| `ModuleCache.dfy` | module names, the module cache, and when it agrees with always loading |
| `ErrorPage.dfy` | the page for requests that never reach an application |
| `ScriptHost.dfy` | a whole request, and the objects that outlive it |

How the outside world is modelled:

- An application is any list of calls on the adapter around an optional iterable; each turn of the iterable makes calls
  and yields a Python value. An application that reacts to an exception is one of these lists.
- Writing to the output stream may fail at any point (`io` gives the fate of the n-th call). The bytes of a response are
  the bytes handed to `PutStr` and `PutData`. `GetData` may deliver any positive number of the bytes asked for, or fail.
- Loading a source text is an arbitrary function of the text, and hashing a path an arbitrary function of the path. Files
  do not change while one request looks at them.

What the proofs show that the code's comments and PEP 333 do not say:

- A first `start_response` call whose status string is refused still counts as "headers sent" (wsgi.cpp:710, 716). The
  application's strings then go out with no header block, and the result is 200. Apart from this every response is
  well framed (`FramedExactly`, `RefusedStatusSendsBareBody`, `ResultExactly`).
- A Content-Length taken from a header list that is refused further on still limits the response that is sent later
  (`LimitIsDeclaredExactly`, `StaleLimitCuts`).
- On a stream that fails, the number of strings a body is divided into decides how much of it is handed over, unless
  only the last possible call can fail (`UniformExactly`). The result code never depends on it (`ChunkingDoesNotMatter`).
- An empty Content-Length value is taken as 0 (`ParseLengthAccepts`), and an empty status code as 0 (`StatusAccepted`).
- A header name with a colon passes the check and reaches the client as a different header (`RoundTrip`,
  `ClientReadsResponse`, `ColonInNameIsMisread`).
- A read of more than `INT_MAX` bytes is narrowed on its way to `GetData` and can end the input early
  (`ReadExactIffInt`, `LargeReadEndsInput`).
- The error page starts with an HTTP status line, which a client that expects a CGI header block cannot read
  (`ErrorPage`).
- An edit that leaves the modification time, in seconds, as it was is not noticed (`CoherentExactly`,
  `SameSecondEditServesOldModule`).

`dafny verify dfyconfig.toml` checks the whole project.

## Model

| member | source | states |
|---|---|---|
| ResponseRuns.WholeRun | wsgi.cpp:654-930 | for every order of start_response, write and yielded strings, with any failures, the stream gets exactly what a reference reads off the event list: nothing, or one header block (of the list accepted last before the first successful output) and the offered text cut at the stored length, or bare text |
| ResponseRuns.RunTracks | wsgi.cpp:739-930 | the same for every field: pending headers, stored length and output_length are those the reference predicts after each prefix of a run |
| ResponseRuns.TrackPending | wsgi.cpp:732-859 | while headers are pending, any one call leaves pending list, stored length, count and output as the reference predicts, whether it replaces the list, sends it or fails on it |
| ResponseRuns.BodyGrows | wsgi.cpp:867-904 | one more chunk keeps the body equal to the offered text cut at the limit, whatever PutData returns |
| ResponseRuns.FramedExactly | wsgi.cpp:690-730 | a run is well framed if and only if not (the first well-typed start_response call has a refused status and text is offered after it) |
| ResponseRuns.StepGone | wsgi.cpp:690-713 | once headers are gone every call amounts to handing over its chunk, if it has one |
| ResponseLaws.SentAbsorbs | wsgi.cpp:690-713 | from a state with headers gone, no run changes status, status line, headers or the length limit, and everything sent later is body |
| ResponseLaws.ErrorHandling | wsgi.cpp:690-736 | after any run, a start_response call with a good status and exc_info raises the given exception, and changes nothing, if and only if a header block was written or the first status had been refused; otherwise it is accepted and its list is what the next output call sends |
| ResponseLaws.AtMostOneHead | wsgi.cpp:754-859 | in every run only the first call on the stream can be a header block |
| ResponseLaws.ClientReadsResponse | wsgi.cpp:805-859 | a line-based client recovers header list and body of any run if and only if no sent header name has a colon |
| ResponseLaws.BytesOnWire | wsgi.cpp:757-904 | the bytes of any run that sends a list of tuples: a line `name: value` for each, an empty line, and the offered text cut at the length the tuples declare, or else at the one a refused list left behind |
| ResponseLaws.TuplesComeBack | wsgi.cpp:768-842 | a line-based client gets back the names and values in the tuples, in their order, if and only if no name has a colon |
| ResponseLaws.DeclaredLengthCuts | wsgi.cpp:812-825 | in any run, a last Content-Length of decimal(n), the name in any mix of upper and lower case, cuts the text at n bytes |
| ResponseLaws.LimitIsDeclaredExactly | wsgi.cpp:812-825 | for every run that sends a header block: the bytes on the wire are the block and the offered text cut at the length its tuples declare, if and only if they declare one, or no earlier refused list left one behind, or that one leaves room for the whole text |
| Replies.StartReplies | wsgi.cpp:664-714 | after any run: ill-typed arguments raise TypeError; RuntimeError is raised if and only if the arguments are right, no exception is passed, and a header block was written or the first status refused; an exception passed then is raised, or the error of a malformed one; none of these changes anything |
| Replies.StartTaken | wsgi.cpp:716-736 | otherwise TypeError if the first word stands for no long, ValueError if no message follows, else success; the line is kept in any case, the code is the word's number as an int, the list is kept on success only |
| Replies.StatusIs | wsgi.cpp:718-730 | error and code of a status line from its split into word and message |
| Replies.OutputReplies | wsgi.cpp:745-904 | after any run, a string put out raises RuntimeError if nothing was started; the error of the first faulty tuple if the pending list has one, and then sends nothing and keeps a length only; otherwise IOError if and only if bytes of it were handed over and the stream failed on them |
| Replies.WriteReplies | wsgi.cpp:1106-1135 | after any run, write does with exactly one string what is done with a yielded one, and answers the same; anything else raises TypeError and changes nothing |
| Deviations.StaleLimitCuts | wsgi.cpp:817-825 | an application that survives a refused write, starts over with a list that declares no length and yields a string has that string cut at the length the refused list left behind |
| Deviations.RefusedList | wsgi.cpp:768-825 | a list that is refused after storing a length exists |
| Deviations.RefusedStatusSendsBareBody | wsgi.cpp:716-730 | an application whose first status is refused and that yields a string sends the bare string, with a result of 200 |
| Deviations.RefusedStatus | wsgi.cpp:726-730 | such a status exists: a code without a message |
| Response.StatusRoundTrip | wsgi.cpp:716-730 | any code and any message not starting with a space are understood, and the code is stored as an int |
| Response.StatusAccepted | wsgi.cpp:718-730 | which status lines are accepted, both directions |
| HeaderLists.CheckPasses | wsgi.cpp:768-826 | an element is taken as a header if and only if it is a tuple of two strings that read as its name and value up to a NUL, without a newline, and with a number for a length if the name is Content-Length |
| HeaderLists.CheckFails | wsgi.cpp:768-822 | any other element is refused: TypeError for anything but a tuple and for a pair with a non-string, ValueError for the rest |
| HeaderLists.LengthNames | wsgi.cpp:812 | exactly the names whose bytes are those of `content-length` or of `CONTENT-LENGTH`, place by place, count as Content-Length |
| HeaderLists.ScanIs | wsgi.cpp:757-828 | for any list, the pairs collected are its elements up to the first faulty one, which decides the error, and the length is that of the last Content-Length among them |
| HeaderLists.TakenExactly | wsgi.cpp:757-828 | a list is taken if and only if every element passes |
| HeaderLists.BlockIs | wsgi.cpp:830-841 | the bytes of the block, line by line |
| HeaderBlock.RoundTrip | wsgi.cpp:805-842 | reading back block and body gives the same list and body if and only if no name has a colon |
| HeaderBlock.ReadBlock | wsgi.cpp:830-840 | the first empty line ends the block, even with carriage returns in values or an empty list |
| HeaderBlock.ColonInNameIsMisread | wsgi.cpp:785-810 | a name with a colon is accepted and read back as another header |
| HeaderBlock.ScannedAreNewlineFree | wsgi.cpp:805-810 | no accepted pair contains a newline |
| HeaderBlock.ScanAppend | wsgi.cpp:757-828 | the checking loop stops at the first bad element and otherwise continues where it was, the last length winning |
| HeaderBlock.ParseLengthAccepts | wsgi.cpp:812-825 | which Content-Length values are accepted and what they mean, both directions |
| HeaderBlock.ContentLengthRoundTrip | wsgi.cpp:812-825 | decimal(n) sets the limit to n up to the maximum long and is refused beyond it |
| CNumbers.StrtolConsumesAll | wsgi.cpp:817-818 | exactly which texts a strtol call reads to the end |
| CNumbers.StrtolDenotes | wsgi.cpp:720-721 | a text is read to its end without a range error if and only if it stands for a long, and as that long |
| CNumbers.StrtolDecimal | wsgi.cpp:720-721 | strtol inverts decimal notation up to the range of long |
| Application.ResultExactly | wsgi.cpp:1018-1103 | the run gives 200 if and only if the application returned and, by the end of iteration, the header block was written or the first status had been refused; otherwise 500; close is called once where it exists |
| Application.BadItemEndsIteration | wsgi.cpp:1028-1035 | a yielded value that is not a string ends the iteration with an error, whatever comes after it, exactly as an iterator that makes the same calls and raises there |
| Application.YieldIsWrite | wsgi.cpp:1037-1051 | yielding a string amounts to writing it and yielding nothing, or to raising there if that write fails |
| Application.SilentRun | wsgi.cpp:1002-1104 | an application that yields no text, raising or not, iterable or not: its calls take effect in order, the final empty output happens only after a normal end, close follows in any case, and the result is 200 or 500 as stated |
| Application.TraceIsRun | wsgi.cpp:1014-1059 | iterating, breaking on errors and the final empty output are a run over the listed events |
| ResponseRuns.GoneIffHeadOrRejected | wsgi.cpp:1072-1073 | the test for "content has been sent" is true exactly after a header block or a refused first status |
| Chunking.ChunkingDoesNotMatter | wsgi.cpp:1027-1059 | two divisions of the same body into strings, empty ones included, give the same result on any stream, whatever is called around them, and the same bytes and state on a stream where no call fails |
| Chunking.PullByBody | wsgi.cpp:1027-1059 | on any stream, an iteration over strings goes straight to its end if there is no text, is refused if the headers are, and otherwise leaves the headers gone |
| Delivery.UniformExactly | wsgi.cpp:892-902 | for a given stream, state and body: all divisions of the body put the same bytes on the wire if and only if no call that carries it fails but possibly the last one there can be |
| Delivery.PullDelivers | wsgi.cpp:1044-1051 | whatever fails, an iteration over strings hands over the header block and a front part of the body cut at the limit, or nothing |
| EndToEnd.WholeResponse | wsgi.cpp:654-1104 | an application that starts with a good status and a list that passes, and yields strings, gives its client the lines of its tuples, an empty line and the concatenated strings cut at the declared length; a front part of that on a failing stream; and the result 200 in any case |
| EndToEnd.ResponseReadsBack | wsgi.cpp:654-1104 | a line-based client recovers the application's names, values and body if and only if no name has a colon |
| EndToEnd.FaultyListSendsNothing | wsgi.cpp:768-822 | such an application sends nothing and results in 500 if and only if some element of its list does not pass; otherwise 200 |
| Chunking.BodyTwice | wsgi.cpp:867-904 | handing over two pieces equals handing over their concatenation |
| Chunking.RunSame | wsgi.cpp:654-930 | neither the division of earlier bytes between calls nor the fate of any call on the stream influences the state after a run |
| Adapters.Adapter.constructor | wsgi.cpp:1187-1209 | a new adapter is in the initial state, with a fresh input and log |
| Adapters.Adapter.StartResponse | wsgi.cpp:654-737 | state and reply are those of the state machine; an expired adapter raises and is unchanged |
| Adapters.Adapter.Take | wsgi.cpp:716-736 | the tokenizer and strtol calls compute the specified status |
| Adapters.Adapter.CheckHeaders | wsgi.cpp:757-828 | the loop collects the specified pairs, error and length |
| Adapters.Adapter.Serialize | wsgi.cpp:830-840 | the appending loop builds the specified block |
| Adapters.Adapter.PutBody | wsgi.cpp:867-904 | in int and off_t arithmetic, the narrowing of the remaining length and both additions are exact |
| Adapters.Adapter.Output | wsgi.cpp:739-930 | state, bytes handed over and reply are those of the state machine |
| Adapters.Adapter.Write | wsgi.cpp:1106-1135 | the same for write; an expired adapter raises and is unchanged |
| Adapters.Adapter.PullAll | wsgi.cpp:1027-1054 | the iteration loop ends in the specified state, error or not |
| Adapters.Adapter.Run | wsgi.cpp:1002-1104 | state, result code and number of close calls are the specified ones; no addition overflows when the offered total fits off_t |
| Adapters.Adapter.InvokeAll | wsgi.cpp:1137-1141 | the application's calls take the adapter through the specified run, and count no more than they offer |
| Logs.Log.constructor | wsgi.cpp:322-336 | a new log is open and empty |
| Logs.Log.Joined | wsgi.cpp:128-138 | in int arithmetic, both copies stay inside the block allocated, which ends in NUL |
| Logs.Log.FindNewline | wsgi.cpp:115-120 | stops at the next newline or the end |
| Logs.Log.EmitLine | wsgi.cpp:125-159 | one record is passed on: the buffered text and the line; the buffer is released |
| Logs.Log.SaveRest | wsgi.cpp:173-200 | the incomplete line is appended to the buffer |
| Logs.Log.Queue | wsgi.cpp:101-201 | records and buffer are the newline split of the old buffer and the message; the representation is kept, and no length overflows while buffer and message together fit an int |
| Logs.Log.Write | wsgi.cpp:203-218 | as Queue, or an error once expired |
| Logs.Log.Flush | wsgi.cpp:56-74 | passes the buffer on as one record, if there is any, and releases it |
| Logs.Log.Close | wsgi.cpp:76-90 | flushes, and cuts the object off from the request |
| Logs.Log.Dealloc | wsgi.cpp:46-54 | passes on what is left unless expired |
| LogLines.ChunkingIndependent | wsgi.cpp:101-201 | however a text is cut into writes, records and buffer equal those of one write |
| LogLines.WritesSplit | wsgi.cpp:101-201 | text written in any portions comes out as the records, and leaves the rest, that are the only newline-free pieces joining to it behind what was kept |
| LogLines.FlushPassesOn | wsgi.cpp:56-90 | after a flush or close of an open log everything accepted has been passed on; what was kept became one record, and there is none if nothing was kept |
| LogLines.LinesInverse | wsgi.cpp:115-170 | the split is the inverse of joining with newlines, both directions |
| LogLines.LinesAppend | wsgi.cpp:122-200 | a split can be resumed from its last piece |
| LogLines.RunConserves | wsgi.cpp:46-201 | under any mix of writes, flushes and closes, records and buffer are the accepted text without newlines, in order, each byte once |
| LogLines.DeallocEmitsEverything | wsgi.cpp:46-90 | after deallocation every accepted byte has been passed on once, and closing before makes no difference |
| Logs.Log.Call | wsgi.cpp:38-44 | a record reaches the error stream as long as there is a request |
| Inputs.Input.constructor | wsgi.cpp:608-624 | a new input has no residual and has not seen the end |
| Inputs.Input.TakeResidual | wsgi.cpp:436-458 | copies and drops the front of the residual buffer, and releases it when empty |
| Inputs.Input.Ask | wsgi.cpp:464 | one request, with its narrowing to int, extends what has been read by a front part of the stream |
| Inputs.Input.Fill | wsgi.cpp:460-478 | the request loop terminates and takes a prefix of the stream under any short reads |
| Inputs.Input.ReadSome | wsgi.cpp:426-491 | result and new state are those specified, or an error that loses only bytes already taken |
| Inputs.Input.Read | wsgi.cpp:372-496 | all sizes, negative and zero included, and the expired object; the int count of bytes does not overflow |
| InputReads.ReadTakesPrefix | wsgi.cpp:426-491 | a read of n returns the first min(n, available) bytes and leaves the rest |
| InputReads.ReadsTakePrefix | wsgi.cpp:372-496 | any sequence of reads concatenates to one prefix of the body |
| InputReads.ReadExactIffInt | wsgi.cpp:464 | the prefix property holds for every rest of the body if and only if what is missing behind the residual buffer fits an int |
| InputReads.LargeReadEndsInput | wsgi.cpp:464-476 | a read of 4 GiB returns nothing and ends the input |
| Util.GetWord | util.cpp:7-29 | the buffer holds the word and a NUL, and the cursor is advanced past the separators |
| Util.GetWordSplits | util.cpp:13-28 | word and rest are the one greedy split of the line, both directions |
| Util.WordsOfSpread | util.cpp:13-28 | iterated calls terminate and recover any list of words, however many separators stand between them |
| Environ.BuildEnviron | wsgi.cpp:932-1000 | a lookup gives the fixed WSGI entry, else the last setting of the key found from the end of the list |
| Environ.StoreFixed | wsgi.cpp:968-998 | the fixed entries override the variables |
| Environ.FixedEntries | wsgi.cpp:968-998 | the value of each of the seven fixed keys, for any variables |
| Environ.LookupExactly | wsgi.cpp:946-954 | any other key has a text if and only if the last entry that begins with the key and an equals sign is `key=text` |
| Environ.SetsKeyValue | wsgi.cpp:947-953 | an entry is split at its first equals sign |
| Environ.LastSettingSnoc | wsgi.cpp:946-954 | a later entry replaces an earlier one for its key only, and entries without an equals sign are ignored |
| ModuleCache.CoherentExactly | wsgi.cpp:1392-1414 | over every history of edits and requests, every answer equals that of always loading if and only if no request clashes in modification time with the one before it under its name |
| ModuleCache.CacheIsLatest | wsgi.cpp:1247-1294 | an entry is what the latest request under its name loaded; after a failed load there is none |
| ModuleCache.FaithfulIsCoherent | wsgi.cpp:1271-1294 | distinct names and modification times that change with the text are enough |
| ModuleCache.SameSecondEditServesOldModule | wsgi.cpp:1286-1289 | an edit that keeps the modification time is answered with the old module |
| ModuleCache.NameInjective | wsgi.cpp:1308-1315 | module names are equal if and only if the digests are |
| ModuleCache.NameDigits | wsgi.cpp:1311-1315 | the name is the prefix and two upper-case hex digits for each byte |
| ModuleCache.WriteName | wsgi.cpp:1308-1316 | the name fits the block of 60 and is the prefix and the digest in hex |
| ModuleCache.PrintByte | wsgi.cpp:1314 | one byte becomes two hex digits and a terminator |
| ModuleCache.Modules.ReloadRequired | wsgi.cpp:1271-1294 | true unless the recorded time is that of the file |
| ModuleCache.Modules.LoadSource | wsgi.cpp:1214-1269 | stores the module with its time, or nothing on failure |
| ModuleCache.Modules.Get | wsgi.cpp:1392-1414 | module and dictionary are the specified ones; a failed reload leaves no entry |
| ScriptHost.OneResponse | wsgi.cpp:1367-1480 | the client gets the error page or what the application's calls amount to, never both, with at most one response head; the status is 404 or 500 with the page, and 200 or 500 as the application's calls decide |
| ScriptHost.PreparedExactly | wsgi.cpp:1369-1384 | a request gets as far as its module if and only if some environment entry begins with `DOCUMENT_ROOT=` and sys can be imported |
| ErrorPages.ErrorPage | wsgi.cpp:1358-1365 | behind its status line the page reads as one header and a body; with it, it does not read as a header block |
| ScriptHost.HistoryExactly | wsgi.cpp:1369-1414 | over every history of requests, those without a document root included, each lookup gives what loading afresh would, if and only if no lookup clashes with the one before it under its name |
| ScriptHost.ServeAll | wsgi.cpp:1367-1480 | a process that executes one request after the other, each with no Python exception pending, serves each as specified, and without a clash as if nothing had been cached |
| ScriptHost.FullTraceIsRun | wsgi.cpp:1078-1088 | a whole request, the close method included, is one run of the adapter |
| ScriptHost.Execute | wsgi.cpp:1367-1480 | response, status, module dictionary and log of a request that starts with no Python exception pending are the specified ones, and its objects are retired; without a `DOCUMENT_ROOT=` entry the client gets the error page |
| ScriptHost.RunAdapter | wsgi.cpp:1426-1463 | the adapter is run, the application's log text is passed on, and the objects are retired |
| ScriptHost.Retire | wsgi.cpp:1446-1460 | both references to the request are wiped, and closing the log flushes it |
| ScriptHost.OutputError | wsgi.cpp:1358-1365 | writes the error page |
| ScriptHost.UseLog | wsgi.cpp:992-993 | what the application writes to wsgi.errors during the request takes the log through the specified run |
| Streams.Request.PutData | wsgi.h:11 | any call may fail; the bytes count as handed over either way |
| Streams.Request.GetData | wsgi.h:10 | any positive number of the bytes asked for, none at the end or when none are asked for, or a failure |
| ScriptHost.UseAllLate | wsgi.cpp:1438-1447 | no sequence of operations on retained objects touches a stream of any request |

## Left out

- Adapters.Adapter.Output: strings longer than INT_MAX bytes, and runs that offer more than the maximum off_t in total, are excluded, as are Adapters.Adapter.PutBody, Adapters.Adapter.Write and Adapters.Adapter.Run.
- Inputs.Input.Read: a read that would count more than INT_MAX bytes is excluded; that takes a residual buffer, which nothing in the source fills, and a size above INT_MAX. Allocation of the result never fails.
- Logs.Log.Queue: a message that would make the buffer longer than INT_MAX bytes is excluded, as in Logs.Log.Write and ScriptHost.Execute; realloc always moves the block.
- ModuleCache.CoherentExactly: opening a script and reading its modification time see the same file; another process that writes in between is not modelled, nor are modules that other code puts into sys.modules.
- ScriptHost.Execute: assumes that no Python exception is pending when the request begins. A run that ends with one, which wsgi.cpp:1064-1093 does not clear, could make the test at wsgi.cpp:1056 see it in the next request.
- ScriptHost.ServeAll: assumes the same of every request of the process.
- ScriptHost.RunAdapter: the application's reads of the request body are not interleaved with its other calls (the input object is modelled on its own), and the diagnostics printed with FPrintFErr are not recorded.
- Changes an application makes to its header list after start_response returned.
- preforkserver.cpp, fcgid.cpp and trace.cpp: the process pool with its signals and timeouts, option parsing, and tracing.
- Python itself: reference counts, type objects and importing.
- MD5, which is an arbitrary function of the path here, and the insertion into sys.path.
- writelines, which passes each item where an argument tuple is expected, and readline, readlines and iteration of the input, which are stubs or build on one.
