# concurrent-server, modelled in Dafny

`concurrent-server` is a small multi-threaded HTTP/1.0 static file server. An
accept loop takes connections from a listening socket and pushes them into a
bounded connection queue. When the queue is full, the connection is closed and
counted as dropped. Worker threads pop connections and hand them to the HTTP
handler. The handler reads one request, answers it from the document root with
200, 400, 404 or 405, and closes the socket. The server also keeps counters and
an integer running average of the response time. A command-line parser and a
levelled logger complete the core.

The model is single-threaded and has these modules:

- **`ConnectionQueues`** (`connection_queue.dfy`). The queue as a value
  (`QueueState` and the step functions `PushStep`, `PopStep` and
  `ShutdownStep`), lemmas about runs of operations, and the class
  `ConnectionQueue`.
  - Each method of the class is proved to perform the step function on the
    object's state.
  - Ghost histories `pushed` and `popped` keep the invariant
    `pushed == popped + items`, which is the FIFO order.
  - A timed wait becomes "the wait predicate holds now, or the call fails".
  - The untimed `pop` may only be called when its predicate already holds.
- **`Http`** (`http_handler.dfy`).
  - Tokenising the request line the way `std::getline` and `operator>>` do.
  - Choosing the status.
  - Resolving the file under the document root.
  - The MIME lookup.
  - Serialising the response; `SendResponse` is a loop proved against `Wire`.
  - One connection, whose socket activity is returned as a list of events.
  - The filesystem is a map from path to what `readFile` returns for that
    regular file, plus the set of paths whose `stat` throws.
- **`Server`** (`http_server.dfy`). The class `HttpServer`.
  - `start`, `stop`, one iteration of the accept loop and of the worker loop,
    the accept loop over a finite run of `accept` results, and the worker
    loop's drain after `stop`.
  - The class invariant ties the counters to the queue's histories:
    - every accepted connection was either enqueued or dropped;
    - every dequeued connection was counted once, as a success or a failure;
    - the average is the fold of the running-average update over the response
      times.
- **`CommandLine`** (`cli.dfy`). The class `Cli`.
  - The argument scan is proved against a reference: the list of option writes
    the scan performs, applied to a map.
- **`Logging`** (`logger.dfy`). The class `Logger`.
  - The threshold filter, the line layout and a reader for it.
  - The console and the log files are sequences of lines.
- Shared helpers:
  - `Strings`: first and last index of a character;
  - `Decimal`: decimal rendering of a `nat` and its inverse, used for the
    status code and `Content-Length`;
  - `Sockets`: the socket handle type and `INVALID_SOCKET`;
  - `Wrappers`: `Option`.

The model follows the code, which is simpler than a full HTTP server:

- The status line always says `HTTP/1.0`.
- No `Connection` or `Keep-Alive` header is ever sent, and each connection
  answers exactly one request.
- 400 and 405 responses carry no `Content-Type` header; only 404 and 200 do.
- Header and body lines of the request are never parsed.

## Model

| member | source | states |
|---|---|---|
| ConnectionQueues.PushStep | src/connection_queue.cpp:7-23 | push succeeds exactly when the queue is not shut down and below capacity; on success the socket is appended at the back, otherwise nothing changes |
| ConnectionQueues.PopStep | src/connection_queue.cpp:25-48 | pop yields a socket exactly when the queue is non-empty, and that socket is the front one; the rest stay in order; otherwise nothing changes |
| ConnectionQueues.ShutdownStep | src/connection_queue.cpp:64-68 | shutdown raises the flag and keeps every queued socket and the capacity |
| ConnectionQueues.ShutdownIdempotent | src/connection_queue.cpp:64-68 | shutting down twice equals shutting down once |
| ConnectionQueues.ZeroCapacityRejects | src/connection_queue.cpp:10-18 | a queue of capacity zero rejects every push, whether shut down or not |
| ConnectionQueues.PushThenPop | src/connection_queue.cpp:7-48 | a socket pushed on an empty open queue is the next one popped, and the queue is empty again |
| ConnectionQueues.RunConserves | src/connection_queue.cpp:7-48 | over any sequence of push/pop/shutdown: queued + accepted == popped + still queued (no loss, no duplication, order kept); capacity kept; the bound is preserved; shutdown is permanent |
| ConnectionQueues.PoppedIsPrefixOfPushed | src/connection_queue.cpp:7-48 | FIFO: from a fresh queue, the popped sockets are a prefix of the accepted ones, the rest are still queued, and the queue never exceeds capacity |
| ConnectionQueues.DrainAfterShutdown | src/connection_queue.cpp:16-48 | after shutdown no push is accepted; pops return the remaining sockets front first, one per pop, until the queue is empty |
| ConnectionQueues.ConnectionQueue.constructor | src/connection_queue.cpp:3-5 | a new queue is empty, open, has the given capacity and empty histories |
| ConnectionQueues.ConnectionQueue.Push | src/connection_queue.cpp:7-23 | performs `PushStep` on the object and records an accepted socket in `pushed`; keeps `pushed == popped + items` and the capacity bound |
| ConnectionQueues.ConnectionQueue.Pop | src/connection_queue.cpp:25-48 | timed pop: performs `PopStep` and records the popped socket in `popped`; keeps the FIFO invariant |
| ConnectionQueues.ConnectionQueue.PopWait | src/connection_queue.cpp:28-31 | untimed pop, entered only when shut down or non-empty: performs `PopStep`; keeps the FIFO invariant |
| ConnectionQueues.ConnectionQueue.Size | src/connection_queue.cpp:50-53 | returns the number of queued sockets |
| ConnectionQueues.ConnectionQueue.MaxSize | src/connection_queue.cpp:55-57 | returns the capacity |
| ConnectionQueues.ConnectionQueue.Empty | src/connection_queue.cpp:59-62 | true exactly when no socket is queued |
| ConnectionQueues.ConnectionQueue.Shutdown | src/connection_queue.cpp:64-68 | performs `ShutdownStep`; histories unchanged |
| Strings.IndexOf | src/http_handler.cpp:64 | the first index of a character (what `getline` stops at), or None exactly when it does not occur |
| Strings.LastIndexOf | src/http_handler.cpp:111-112 | the last index of a character (`find_last_of`), or None (`npos`) exactly when it does not occur |
| Decimal.NatToDecimal | src/http_handler.cpp:86 | `to_string` of a count: non-empty digits, no leading zero except for 0 itself, one digit exactly below 10 |
| Decimal.DecimalRoundTrip | src/http_handler.cpp:86 | reading the rendered digits back gives the number |
| Http.Tokens | src/http_handler.cpp:68-69 | `>>` reads no more tokens than the line has characters; which tokens it reads is pinned by `TokensAreWords` (each token is a word), `TokensOfWord` and `SpaceThenWord` (a word followed by white space or the end is read whole) and `ThreeTokens` |
| Http.TokensOfWord | src/http_handler.cpp:68-69 | a word followed by white space or the end of the line is read as one token, followed by the tokens of the rest |
| Http.TokensAreWords | src/http_handler.cpp:68-69 | every token read by `>>` is non-empty and contains no white space |
| Http.FirstLine | src/http_handler.cpp:61-66 | `getline` fails exactly on empty input; otherwise it yields a newline-free prefix of the input that runs to the first newline or to the end |
| Http.ParseRequest | src/http_handler.cpp:60-74 | a parsed request comes from non-empty input, and method, path and version are each a single white-space-free word |
| Http.RequestLineRoundTrip | src/http_handler.cpp:60-74 | `METHOD SP PATH SP VERSION` followed by white space or nothing parses back into exactly those three fields |
| Http.ThreeTokens | src/http_handler.cpp:68-69 | three single-space-separated words are read as the first three tokens, followed by the tokens of the rest |
| Http.TwoTokensRejected | src/http_handler.cpp:68-71 | a first line with only two tokens fails to parse |
| Http.MimeType | src/http_handler.cpp:110-122 | the type is text/html, text/plain or application/octet-stream, and application/octet-stream when the name has no dot |
| Http.MimeTypeOfExtension | src/http_handler.cpp:110-122 | the MIME type depends only on the text after the last dot: html/htm give text/html, txt gives text/plain, anything else gives application/octet-stream |
| Http.ResolvePath | src/http_handler.cpp:77-81 | the file path is root + path, with `index.html` appended exactly when the path ends in `/` |
| Http.HandleGet | src/http_handler.cpp:76-93 | no response exactly when the `fileExists` lookup throws; an existing regular file gives 200 OK with what `readFile` returned as body, its MIME type and its length as headers; otherwise 404 Not Found with the HTML body and Content-Type text/html |
| Http.ContentLengthMatchesBody | src/http_handler.cpp:83-86 | a served file's Content-Length is a decimal that reads back as the body's exact length |
| Http.ResponseFor | src/http_handler.cpp:37-54 | no response exactly when a GET's file lookup throws; otherwise the status is 400 iff parsing failed, 405 iff the method is not `GET`, 200/404 iff a GET whose file exists/does not; 400 and 405 carry fixed texts and bodies and no headers |
| Http.StatusLine | src/http_handler.cpp:98 | the status line starts with `HTTP/1.0 ` and ends with CRLF |
| Http.Wire | src/http_handler.cpp:95-108 | the response starts with its status line and ends with the blank line's CRLF followed by the body |
| Http.SendResponse | src/http_handler.cpp:95-108 | the header loop builds exactly `Wire(r)`: status line, one `name: value` line per header, blank line, body |
| Http.StatusCodeRoundTrip | src/http_handler.cpp:98 | a client reading the digits after `HTTP/1.0 ` recovers the status code |
| Http.RequestText | src/http_handler.cpp:25-35 | the request text holds at most 4095 characters and no NUL and is a prefix of what was received; when it stops short of both the received data and 4095 characters, the next received character is a NUL; it equals the data when that is short and NUL-free |
| Http.LeadingNulIsBadRequest | src/http_handler.cpp:34-54 | a receive whose first byte is NUL is read as an empty request and answered with 400 |
| Http.HandleConnection | src/http_handler.cpp:24-58 | a failed or empty receive only closes the socket and returns; when the file lookup throws nothing is sent, the socket stays open and the exception propagates (`returned` false); otherwise exactly one response for the received text is sent, then the socket is closed |
| Server.UpdateAverage | src/http_server.cpp:175-182 | with n > 0 the new average lies between the old average and the new sample and is the floor of `(old*(n-1)+new)/n`; with n = 0 it is unchanged |
| Server.AverageBelowMean | src/http_server.cpp:175-182 | the folded integer average times the count never exceeds the sum of the samples and falls short of it by at most n(n-1)/2 |
| Server.ConstantSamplesAverage | src/http_server.cpp:175-182 | if every response takes the same time, the average is exactly that time |
| Server.HttpServer.constructor | src/http_server.cpp:22-30 | not running, no listening socket, zero stats, a fresh empty queue of the given capacity |
| Server.HttpServer.Start | src/http_server.cpp:50-86 | refused while running; a socket failure leaves the server stopped; a failed bind or listen closes the new socket; success makes the server run on the new socket; stats untouched |
| Server.HttpServer.Stop | src/http_server.cpp:88-105 | a no-op when stopped; otherwise clears `running`, closes the listening socket once if valid and forgets it, and shuts the queue down keeping its sockets |
| Server.HttpServer.StopTwice | src/http_server.cpp:88-99 | a second `stop` closes nothing more: the listening socket is closed at most once |
| Server.HttpServer.AcceptStep | src/http_server.cpp:132-152 | a failed accept changes nothing; an accepted connection is counted, then pushed (and recorded in the push history), or closed and counted as dropped exactly when the push fails; request counters, average, samples and listening socket untouched |
| Server.HttpServer.AcceptConnections | src/http_server.cpp:127-154 | the loop runs only while running: when stopped nothing changes; when running the queue ends as `AcceptRun` leaves it, the enqueued sockets are appended to the push history, the rejected ones are closed in order and counted as dropped, every successful accept is counted once, and the request counters, the average, the samples and the listening socket are unchanged |
| Server.HttpServer.WorkerStep | src/http_server.cpp:160-182 | a pop that yields a socket counts exactly one success or failure, closes that socket, records the response time as the next sample and updates the average with the new request count; an empty pop changes no stats and records no sample |
| Server.HttpServer.HandleNext | src/http_server.cpp:160-182 | with a connection queued: the front one is popped and closed, its time is the next sample, and it counts as a success or a failure; the accept counters, the listening socket, the running flag, the queue's shutdown flag and push history are unchanged |
| Server.HttpServer.WorkerLoopAfterStop | src/http_server.cpp:156-185 | after `stop` the worker loop handles and closes every queued connection in FIFO order and exits with the queue empty; the response times of those connections are appended to the samples in order, the successes and failures grow by the number of successful and failed outcomes, the average is the fold over all samples, and total == successes + failures + drops; `running` stays false and the accept counters, the listening socket, the queue's shutdown flag and its push history are unchanged |
| Server.Accepted | src/http_server.cpp:133-143 | the sockets of the successful accepts, never more than the accept results |
| Server.AcceptRun | src/http_server.cpp:127-152 | the accept loop as a fold of `PushStep`: the final queue is the old contents followed by the enqueued sockets, with capacity and shutdown flag kept |
| Server.AcceptRunFills | src/http_server.cpp:127-152 | without pops in between, the first accepted sockets fill the queue's free places (none once shut down) and every later one is rejected, both in accept order |
| Server.FreshAcceptRun | src/http_server.cpp:127-152 | on a fresh queue the enqueued and rejected sockets together are exactly the accepted ones, and exactly those beyond the capacity are rejected |
| Server.Lifecycle | src/http_server.cpp:50-185 | start, accept a run of connections, stop and drain: every accepted connection is one success, failure or drop; exactly those beyond the capacity are dropped; every accepted socket and the listening socket are closed exactly once |
| Server.HttpServer.IsRunning | src/http_server.cpp:107-109 | returns the running flag |
| Server.HttpServer.GetStats | src/http_server.cpp:111-113 | returns the current counters |
| CommandLine.WritesShape | src/cli.cpp:37-51 | every key the scan writes starts with `-`, and every value is `"true"` or a string not starting with `-` |
| CommandLine.WritesFromArgs | src/cli.cpp:37-51 | every write the scan makes from position `i` on comes from argv: its key is the argument at some position `j >= i`, and its value is `"true"` or the argument at `j + 1` |
| CommandLine.WritesReach | src/cli.cpp:37-47 | an argument starting with `-` is never consumed as a value, so a scan from any earlier position reaches it: its writes end with the writes of a scan started there |
| CommandLine.OptionsShape | src/cli.cpp:37-51 | every key of the option map is an argument after the program name that starts with `-`, and its value is `"true"` or the argument right after that key, which does not start with `-` |
| CommandLine.ProgramNameIgnored | src/cli.cpp:38 | the scan starts after `argv[0]`: the program name never affects the options |
| CommandLine.LastOptionWins | src/cli.cpp:41-48 | an option given last maps to its value (if that does not start with `-`) or to `"true"`, overriding earlier occurrences |
| CommandLine.LastOccurrenceWins | src/cli.cpp:37-48 | an option anywhere after the program name that does not occur again maps to the next argument when that does not start with `-`, and to `"true"` when another option follows or argv ends, whatever comes after it |
| CommandLine.Cli.constructor | src/cli.cpp:4-9 | copies argv unchanged and the option map equals the reference parse of argv |
| CommandLine.Cli.ParseArguments | src/cli.cpp:37-51 | the index scan, including the manual skip over a consumed value, applies exactly the reference writes to the map; so the map's content is what `OptionsShape` and `LastOccurrenceWins` state about `ParseOptions` |
| CommandLine.Cli.HasFlag | src/cli.cpp:11-18 | true exactly when the flag is one of the arguments |
| CommandLine.Cli.GetStringOption | src/cli.cpp:20-23 | the stored value when the option is present, else the default |
| CommandLine.Cli.GetIntOption | src/cli.cpp:25-35 | the converted value when present and convertible; the default when absent or when conversion throws |
| Logging.LevelToString | src/logger.cpp:78-86 | every level name is non-empty and holds no `]`, so it can be read back out of a log line |
| Logging.FormatLine | src/logger.cpp:53 | the line opens with `[` and the timestamp, ends with the message verbatim, and is 6 characters longer than its three parts |
| Logging.LevelFromString | src/logger.cpp:78-86 | inverse of `levelToString`: yields a level exactly when the text is that level's name |
| Logging.LevelNameRoundTrip | src/logger.cpp:78-86 | each level's name reads back as that level |
| Logging.FormatLineRoundTrip | src/logger.cpp:53 | the `[timestamp] [LEVEL] message` line reads back into its timestamp, level and message whenever the timestamp holds no `]` |
| Logging.LogEffectAppends | src/logger.cpp:44-63 | below the threshold both sinks are unchanged; otherwise the formatted line is the new last console line (if enabled) and the new last line of the open log file, with earlier lines kept and no other file touched |
| Logging.LoggedLineReadsBack | src/logger.cpp:44-56 | an emitted console line reads back into its timestamp, level and message |
| Logging.Logger.constructor | include/logger.h:40-41 | defaults: threshold INFO, console output on, no log file |
| Logging.Logger.SetLogFile | src/logger.cpp:15-21 | closes the current file; the log file is the new one exactly when opening succeeded; an existing file's lines are kept (append mode) |
| Logging.Logger.SetLevel | src/logger.cpp:23-26 | changes the threshold and nothing else |
| Logging.Logger.Log | src/logger.cpp:44-63 | changes only the sinks, and changes them by `LogEffect`: below the threshold nothing is written; otherwise the formatted line is appended to the console if enabled and to the open log file if any |
| Logging.Logger.Debug | src/logger.cpp:28-30 | `log` at DEBUG on both sinks; writes (to the console if enabled and to the open log file if any) exactly when the threshold is DEBUG |
| Logging.Logger.Info | src/logger.cpp:32-34 | `log` at INFO on both sinks; writes to the console if enabled and to the open log file if any exactly when the threshold is DEBUG or INFO |
| Logging.Logger.Warning | src/logger.cpp:36-38 | `log` at WARNING on both sinks; writes to the console if enabled and to the open log file if any unless the threshold is ERROR |
| Logging.Logger.Error | src/logger.cpp:40-42 | `log` at ERROR on both sinks; always writes to the console if enabled and to the open log file if any |
| Logging.DebugSuppressedByDefault | src/logger.cpp:44-47 | a fresh logger drops a debug message, and writes it once the threshold is lowered to DEBUG |

## Left out

- Threads are not modelled: the mutex, the condition variables and the thread pool (`thread_pool.cpp`). Everything runs single-threaded.
- Real time is not modelled:
  - The timeouts of `push` and `pop` become "succeed now or fail".
  - The clock behind the response time is an input (`HandlerOutcome.elapsedMs`).
  - The logger's timestamp is a parameter.
- The OS calls are inputs:
  - `socket`, `bind`, `listen` and `accept` are passed in (`ListenSetup`, `Option<Socket>`).
  - `recv` is an input (`Received`).
  - `send` and closing a socket are recorded as events or as the `closed` sequence.
  - `setsockopt` and the socket address are not modelled.
- Server.HttpServer.Start: does not go on to run `startWorkers` and `acceptConnections`. The accept loop and the worker loop are separate methods. `Start` reports exceptions as a `StartError` result.
- Server.HttpServer.Stop: ends at the queue shutdown. The source then runs `threadPool_.reset()` (src/http_server.cpp:102), which joins the workers; they drain the queue first. That drain is `WorkerLoopAfterStop`, a separate method.
- Server.HttpServer.WorkerLoopAfterStop: models the worker loop only once `running` is false. While running, the loop is `WorkerStep` repeated. The handler's own work is abstracted to an outcome (success or exception, elapsed time). `Http.HandleConnection` models what the handler does: its `returned` result is the outcome's success flag, so a failed or empty receive counts as a success and a throwing file lookup as a failure.
- Server.Lifecycle: runs the accept loop to its end before any worker pops, then stops and drains. With concurrent workers, pops interleave with the accepts and more connections fit through the queue. `AcceptRunFills` likewise assumes that no pop happens between accepts.
- Server.HttpServer.WorkerStep: a successful handler closes the socket itself. The model records that close in the worker step, so both branches append the socket to `closed`.
- Server.UpdateAverage: the 64-bit wrap-around of the counters and of `oldAvg * (totalReqs - 1)` is not modelled; the model uses `nat`.
- Server.HttpServer.Valid: the average is tied to the fold of the samples, assuming updates never interleave. With concurrent workers the read-modify-write can race.
- `ServerStats` as declared in `include/http_server.h` has no `droppedConnections` or `averageResponseTime`. The model follows `http_server.cpp`, which uses them. `printStats` has no definition and is not part of this model.
- Each `char` stands for one byte. `Content-Length` counts bytes, and `IsSpace` is the C-locale test on bytes: bytes of 0x80 and above are not white space. Character encodings are not modelled.
- Response headers: `std::unordered_map` iterates in an unspecified order. The model sends headers in insertion order.
- `readFile` and `fileExists` are not read from a real filesystem. The file map gives, for each regular file, what `readFile` returns: the contents, or the empty string when the file cannot be opened. `statFailures` lists the paths whose `std::filesystem` query throws. The model checks `statFailures` before the file map.
- The `HttpHandler` constructor's creation of a missing document root is not modelled.
- The `..` segments in the request path are passed through unchecked, as in the code. The model does not normalise paths.
- Logging calls inside the handler and the server are not modelled.
- `Logger::getInstance`: the singleton is one `Logger` object.
- `levelToString`: its `UNKNOWN` default branch cannot be reached for the four enum values, so it is not modelled.
- CommandLine.Cli.GetIntOption: `std::stoi` is a parameter (`string -> Option<int>`, None when it throws). Its parsing of leading white space, sign and trailing text is not modelled.
- `main.cpp`, `load_test.cpp`, `test_client.cpp` and the signal handler are not part of this model.
