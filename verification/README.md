# A model of netier and its bundled tools

Netier is an event-driven TCP server library in C++. This project models, and proves properties of, the
parts of its repository that keep state:

* the incremental HTTP/1.x request and response parsers (byte-at-a-time machines; message format of
  section 3 of RFC 7230, chunked coding of section 4.1);
* the URL parser (the components of section 3 of RFC 3986);
* cpplint's forward and backward bracket search, and its nesting state with the #if/#else checkpoints;
* the thread pool, as a monitor whose atomic sections interleave freely;
* connection buffers over a kernel that may take or give any part of what it is asked for, with
  edge-triggered events;
* the life of a connection from accept through its reactor's epoll set to the close of its descriptor.

Each component has a specification on values (`Step`, `Consume`, `Close`, `After`, ...), the imperative
form (classes, loops, updates in place) proved equal to it, and the theorems about the specification.

| files | subject |
|---|---|
| `Options`, `Ascii`, `HttpCommon` | optional values, byte classes, `atoi`, `strtol`, header searches, `size_t` arithmetic |
| `HttpRequestParser`, `HttpRequestRuns`, `HttpRequestRoundTrip`, `HttpRequestInvariant`, `HttpRequestGrammar` | request parser; fragments, printing, round trips, reachable states, the accepted requests as a grammar |
| `HttpChunked`, `HttpThrown`, `HttpPrefixes` | the chunked coding as a grammar with an encoder; the inputs that throw; the inputs that may go on |
| `HttpResponseParser`, `HttpSimulation`, `HttpResponseRoundTrip`, `HttpResponseInvariant`, `HttpResponseGrammar` | response parser, how it simulates the request parser, and what carries over |
| `UrlParser`, `UrlRoundTrip`, `UrlAccepts`, `UrlRejects`, `UrlAborts` | URL parser, its round trip, the accepted strings with their components, what is left of the rejected, and the strings that end the program |
| `Brackets`, `CloseExpression`, `BracketSearch` | balanced text, cpplint's scanners, what they find from ( [ {, ) ] } |
| `AngleSearch`, `ReverseAngleSearch`, `TemplateSearch` | what searches from < and > find, and when they succeed |
| `NestingState`, `PreprocessorTransparency` | cpplint's nesting stack and preprocessor checkpoints |
| `ThreadPool` | the pool |
| `Buffer`, `Context`, `ContextStreams` | connections and their byte streams |
| `Server` | reactors, epoll sets, contexts and descriptors |

Modelling conventions. A byte is a Dafny `char`; bytes from 128 up are negative in the source's `char` and
belong to no character class. Answers of the kernel, of `accept` and of `epoll_wait` are parameters, limited
only by what those calls may return. Runs are sequences of atomic steps in any order.

What the code does that its comments do not say, and exactly when:

* A negative Content-Length becomes a huge `size_t`, and the `reserve` that follows raises
  `std::length_error`; so does a chunk that would make the content longer than a string can be
  (`HttpThrown.HeadThrowsExactly`, `HttpThrown.ChunkSizeThrowsExactly`).
* The byte after the CR that ends the header block is not looked at when a body follows
  (`HttpRequestRuns.ParseThenPrint`).
* Without a Connection header only HTTP/1.1 and major versions from 2 are kept alive, not HTTP/1.2
  (`HttpCommon.KeepAliveMeans`).
* A status code above 999 is not an error until the byte behind its digits
  (`HttpPrefixes.ResponseIncompleteExactly`).
* A rejected URL keeps a host: the name at which, or at whose colon, parsing stopped
  (`UrlRejects.RejectsExactly`).
* Request headers frame a body only for POST and PUT (`HttpSimulation.AgreeExactlyOnBodyMethods`).
* Some URLs end the program: those with digits behind a host, or behind a user name, that neither a slash nor
  a password byte settles, and those with an IPv6 host behind user information
  (`UrlAborts.AbortsExactly`). The `assert` at the end of parsing is taken as live.
* `asyncRunJob` enqueues before it tests for stop. A job, late or not, runs exactly when some worker had not
  returned at its submission (`ThreadPool.SubmittedRunsExactly`; the runs `ThreadPool.ThrownJobMayRun` and
  `ThreadPool.ThrownJobMayStay` show that both happen to submissions that throw).
* `syncWrite` offers its data from the first byte in every round and may overtake pending bytes; the model
  keeps this and proves exactly when it does no harm (`ContextStreams.SyncWriteConservesExactly`).
* Bytes that arrive together with the end of a stream, or an error, never reach the receive callback
  (`ContextStreams.CallbackExactlyWhenBlocked`, `ContextStreams.BytesBeforeEndAreLost`).

## Model

| member | source | states |
|---|---|---|
| HttpRequestParser.Parser.constructor | include/http_parser/httprequestparser.hpp:22-27 | A new parser over an empty request is the fresh machine. |
| HttpRequestParser.Parser.Parse | include/http_parser/httprequestparser.hpp:46-527 | The loop returns and leaves behind what the byte-by-byte machine does on the input, stopping at the first result other than Incomplete. |
| HttpRequestParser.Parser.LineByte | include/http_parser/httprequestparser.hpp:54-222 | Start-line states: the in-place update is one step of the machine, with its error and short-form results. |
| HttpRequestParser.Parser.BlockByte | include/http_parser/httprequestparser.hpp:223-364 | Header states: folding, framing headers, the keep-alive decision and the end of the head; the length error of `reserve`. |
| HttpRequestParser.Parser.BodyByte | include/http_parser/httprequestparser.hpp:365-520 | Content-Length and chunked body states. |
| HttpCommon.FindConnection | include/http_parser/httprequestparser.hpp:327-329 | Finds the first Connection header, or none. |
| HttpRequestRuns.ConsumeAppend | include/http_parser/httprequestparser.hpp:46-527 | Parsing a + b is parsing a, then b from where it stopped; after a final result b is not looked at. |
| HttpRequestRuns.FragmentIndependence | include/http_parser/httprequestparser.hpp:35-50 | However the input is cut into calls, result, parser state and message are those of one call on the whole. |
| HttpRequestRuns.RunAccounts | include/http_parser/httprequestparser.hpp:46-527 | From any clean state on, bytes read and the partial print of the state grow together, except for counted losses. |
| HttpRequestRuns.ParseThenPrint | include/http_parser/httprequestparser.hpp:46-373 | What was read without error is as long as the print of the message plus what the message does not record (leading zeros of versions, folding, chunk framing), and equals it exactly when nothing was lost and the head ended in LF. |
| HttpRequestRoundTrip.HeaderRun | include/http_parser/httprequestparser.hpp:223-325 | A printed header line takes the machine from one line start to the next, with the framing the longer header list announces. |
| HttpRequestRoundTrip.HeadRun | include/http_parser/httprequestparser.hpp:54-325 | The printed start line and headers lead to a machine with just these fields; the last Content-Length wins. |
| HttpRequestRoundTrip.StartLineRun | include/http_parser/httprequestparser.hpp:54-222 | A printed start line leads to the header states with its method, URI and version. |
| HttpRequestRoundTrip.PrintThenParse | include/http_parser/httprequestparser.hpp:54-373 | Every well-formed request prints to bytes that parse to it, all of them consumed, and every proper prefix is Incomplete. |
| HttpRequestInvariant.ReachableInvariant | include/http_parser/httprequestparser.hpp:54-520 | Every state reached with Incomplete: Post has bytes due and due + read = announced, ChunkData has bytes due, header states have a header, the hex string is empty outside size and extension states; completed requests are well formed. |
| HttpRequestInvariant.RoundTripExactly | include/http_parser/httprequestparser.hpp:46-520 | A request is read back from its print, all bytes consumed, if and only if it is well formed. |
| HttpRequestInvariant.ParsePrintParse | include/http_parser/httprequestparser.hpp:46-373 | What an unchunked parse delivers prints to bytes that deliver it again. |
| HttpRequestGrammar.RequestExactly | include/http_parser/httprequestparser.hpp:46-527 | The machine completes on an input with a request, all of it consumed, if and only if the input is spelled by the grammar for it: the short form of HTTP/0.9, or a line with leading zeros of versions, headers with foldings, any byte behind the last CR when a body follows, and the body they announce; keepAlive is as stated by KeepAliveMeans. |
| HttpRequestGrammar.TailExactly | include/http_parser/httprequestparser.hpp:223-520 | The same from behind the start line on: header lines and their foldings, framing, and the end of the block. |
| HttpPrefixes.IncompleteExactly | include/http_parser/httprequestparser.hpp:46-527 | Incomplete is answered if and only if the input is a proper prefix of one that is read to its end and completes (or asks for a string too long), so an error comes at the first byte behind which nothing can. |
| HttpCommon.KeepAliveMeans | include/http_parser/httprequestparser.hpp:327-346 | Kept alive if and only if the first header named Connection in any case is "Keep-Alive" in any case, or there is none and the version is 1.1 or has a major above 1. |
| HttpCommon.TokenIsTchar | include/http_parser/httprequestparser.hpp:529-560 | The bytes of methods and header names are exactly the token characters of RFC 7230. |
| HttpCommon.ControlSpelled | include/http_parser/httprequestparser.hpp:529-539 | ASCII without the control bytes is the space and the printable characters; bytes above 127 are no control bytes. |
| HttpCommon.FramingSpelled | include/http_parser/httprequestparser.hpp:294-302 | Names and values count as Content-Length, Transfer-Encoding and chunked exactly when they differ from them in the case of letters only. |
| HttpCommon.ChunkLengthSpelled | include/http_parser/httprequestparser.hpp:427 | Every spelling of a chunk size is read as it, up to the largest `long`. |
| Ascii.IgnoringCaseMeans | include/http_parser/httprequestparser.hpp:41-44 | `strcasecmp` is 0 if and only if length and letters agree up to case. |
| Ascii.AtoiSpellings | include/http_parser/httprequestparser.hpp:296 | `atoi` skips blanks, takes one sign, stops at the first other byte, and gives 0 without digits. |
| Ascii.AtoiDecimal | include/http_parser/httprequestparser.hpp:296 | `atoi` of the decimal digits of n is n. |
| Ascii.HexSpellings | include/http_parser/httprequestparser.hpp:427 | `strtol(.., 16)` reads n from every spelling of it: any case, leading zeros, with or without 0x. |
| HttpChunked.ChunkedDecodes | include/http_parser/httprequestparser.hpp:374-520 | Any encoding (chunks, size spellings, extensions, trailers) followed by anything is consumed exactly, and the content grows by the concatenation of the chunks. |
| HttpChunked.Decode | include/http_parser/httprequestparser.hpp:374-520 | Every completed chunked body is the encoding of some chunks, with a rest behind it. |
| HttpChunked.AcceptsExactlyEncodings | include/http_parser/httprequestparser.hpp:374-520 | A chunked body is accepted if and only if it starts with an encoding that fits. |
| HttpChunked.ChunkedRequestParses | include/http_parser/httprequestparser.hpp:54-520 | A printed head that announces chunked, followed by an encoding of the content, parses to the request. |
| HttpThrown.RunThrows | include/http_parser/httprequestparser.hpp:287-440 | On any input the length error is raised if and only if some byte, all before it being read, ends a Content-Length of a POST or PUT that does not fit, or the line of a chunk size that does not fit behind the content. |
| HttpThrown.HeadThrowsExactly | include/http_parser/httprequestparser.hpp:54-325 | A printed head with good fields raises it if and only if the method has a body and some Content-Length does not fit. |
| HttpThrown.ChunkSizeThrowsExactly | include/http_parser/httprequestparser.hpp:374-440 | Behind a good head and good chunks a size line raises it if and only if the chunk and the content together exceed the longest string. |
| HttpThrown.NegativeLengthThrows | include/http_parser/httprequestparser.hpp:294-297 | A Content-Length in the range of `int` does not fit if and only if it is negative. |
| HttpResponseParser.Parser.constructor | include/http_parser/httpresponseparser.hpp:23-29 | A new parser over an empty response is the fresh machine. |
| HttpResponseParser.Parser.Parse | include/http_parser/httpresponseparser.hpp:48-528 | The loop does what the byte-by-byte machine does on the input. |
| HttpResponseParser.Parser.LineByte | include/http_parser/httpresponseparser.hpp:56-225 | Status-line states, with the range check of the status code. |
| HttpResponseParser.Parser.BlockByte | include/http_parser/httpresponseparser.hpp:226-365 | Header states. |
| HttpResponseParser.Parser.BodyByte | include/http_parser/httpresponseparser.hpp:366-521 | Body states. |
| HttpResponseRoundTrip.FragmentIndependence | include/http_parser/httpresponseparser.hpp:37-52 | However the input is cut into calls, the outcome is the same. |
| HttpResponseRoundTrip.StatusLineRun | include/http_parser/httpresponseparser.hpp:56-225 | A printed status line leads to the header states with its version, code and text. |
| HttpResponseRoundTrip.PrintThenParse | include/http_parser/httpresponseparser.hpp:56-374 | Every response with a good status line, headers and the announced body prints to bytes that parse to it, all of them consumed, and every proper prefix is Incomplete. |
| HttpResponseRoundTrip.ChunkedResponseParses | include/http_parser/httpresponseparser.hpp:56-521 | The same with a chunked body. |
| HttpResponseInvariant.ReachableInvariant | include/http_parser/httpresponseparser.hpp:56-521 | Every state reached with Incomplete is a prefix of a good status line, or has one and satisfies the request parser's invariant for headers and body; completed responses are well formed. |
| HttpResponseInvariant.ParsePrintParse | include/http_parser/httpresponseparser.hpp:48-374 | What an unchunked parse delivers prints to bytes that deliver it again. |
| HttpResponseInvariant.RoundTripExactly | include/http_parser/httpresponseparser.hpp:48-521 | A response is read back from its print, all bytes consumed, if and only if status line, headers and body are well formed. |
| HttpResponseGrammar.ResponseExactly | include/http_parser/httpresponseparser.hpp:48-528 | The machine completes on an input with a response, all of it consumed, if and only if the input is spelled by the grammar for it; keepAlive as for requests. |
| HttpPrefixes.ResponseIncompleteExactly | include/http_parser/httpresponseparser.hpp:48-528 | The same, but for status codes above 999, which stay Incomplete until the byte behind them (include/http_parser/httpresponseparser.hpp:168-190). |
| HttpSimulation.Simulate | include/http_parser/httpresponseparser.hpp:226-521 | From equal header or body states of a POST or PUT, both parsers give the same result, consume as much and stay equal in every shared field, on every input. |
| HttpSimulation.AgreeExactlyOnBodyMethods | include/http_parser/httprequestparser.hpp:287-304 | Both parsers agree on all header blocks and bodies if and only if the method is POST or PUT. |
| UrlParser.Parser.ParseUrl | include/http_parser/urlparser.hpp:131-348 | The loop with its buffer swaps computes the scan, its rejections and the two ways to end the program. |
| UrlParser.Parser.constructor | include/http_parser/urlparser.hpp:21-24 | Not valid before a parse. |
| UrlRoundTrip.PrintThenParse | include/http_parser/urlparser.hpp:131-348 | Printed well-formed components are read back unchanged, user:password@ and host:port told apart. |
| UrlRoundTrip.RunKeepsInv | include/http_parser/urlparser.hpp:131-348 | Between any two characters every component collected so far has the bytes of its kind, and the late-settled buffers are empty where they must be. |
| UrlRoundTrip.ParsedIsWellFormed | include/http_parser/urlparser.hpp:131-348 | Every accepted URL has well-formed components. |
| UrlRoundTrip.RoundTripExactly | include/http_parser/urlparser.hpp:131-348 | Components survive printing and parsing if and only if they are well formed. |
| UrlRoundTrip.ParsePrintParse | include/http_parser/urlparser.hpp:131-348 | Whatever was accepted, its canonical print parses to the same components. |
| UrlRoundTrip.HttpPortDenotes | include/http_parser/urlparser.hpp:93-111 | What `httpPort` returns for a parsed URL: the number the digits denote if and only if that is at most 65535; 443 or 80 without digits. |
| UrlRoundTrip.PortIsReadBack | include/http_parser/urlparser.hpp:93-111 | A URL printed with port n is read back with it, and `httpPort` gives n if and only if n is at most 65535. |
| UrlAccepts.AcceptsExactly | include/http_parser/urlparser.hpp:131-348 | A string is accepted with given components if and only if it has one of the stated shapes with just these components: with or without slashes, user information, port and path, and with any number of ? in the query. |
| UrlAccepts.HostWithoutPath | include/http_parser/urlparser.hpp:344-347 | In particular scheme://host, scheme:host and scheme://user@host give that host and the path /. |
| UrlRejects.RejectsExactly | include/http_parser/urlparser.hpp:131-348 | A string is rejected if and only if it neither has an accepted shape nor ends the program; every component is then empty, except that the host is the name behind the scheme when parsing stopped at that name or at a colon behind it. |
| Ascii.ClassesSpelled | include/http_parser/urlparser.hpp:114-129 | The C character classes in the C locale, member by member. |
| UrlParser.UrlClassesSpelled | include/http_parser/urlparser.hpp:114-129 | The bytes of hosts, schemes and passwords, character by character. |
| UrlAborts.AbortsExactly | include/http_parser/urlparser.hpp:131-348 | Parsing ends the program if and only if the string has an abort shape: a scheme; behind it an authority whose digits (of a port, or of what may be a port or a password) are followed by the end or by a byte that settles neither, or a [ behind user information and one more byte. |
| UrlAborts.HostAborts | include/http_parser/urlparser.hpp:243-309 | From the host behind @ on: exactly digits that no slash ends, or the start of an IPv6 host and one more byte. |
| UrlAborts.UnsettledAborts | include/http_parser/urlparser.hpp:268-291 | From the colon that may start a port or a password: exactly digits that settle neither, or a password with a non-digit, @ and an aborting host. |
| UrlAborts.PortWithoutPathAborts | include/http_parser/urlparser.hpp:268-344 | In particular a URL that ends in the digits of its port, with or without user information. |
| UrlAborts.DigitPasswordAborts | include/http_parser/urlparser.hpp:268-344 | And any URL whose password is all digits. |
| Brackets.MatchFindsPair | build_support/cpplint.py:4908-4921 | The plain stack matcher stops at j if and only if j closes the bracket and the text between is balanced. |
| Brackets.PairMirror | build_support/cpplint.py:1866-1940 | Pairs of a text are the pairs of its mirror image, ends exchanged. |
| Brackets.MirrorMatchFindsPair | build_support/cpplint.py:1866-1940 | Matching backwards finds i if and only if (i, j) is a pair. |
| CloseExpression.FindEndOfExpressionInLine | build_support/cpplint.py:1744-1819 | The loop with its popping of angle brackets is the forward scan: position, failure, or the stack to carry on with. |
| CloseExpression.CloseExpression | build_support/cpplint.py:1822-1863 | The search over lines, with the results for "not a bracket" and "not found". |
| CloseExpression.FindStartOfExpressionInLine | build_support/cpplint.py:1866-1940 | The loop, with its steps over two characters, is the backward scan. |
| CloseExpression.ReverseCloseExpression | build_support/cpplint.py:1943-1978 | The backward search over lines. |
| CloseExpression.PopAll | build_support/cpplint.py:1781-1782 | Pops the angle brackets on top of the stack. |
| CloseExpression.GetTextInside | build_support/cpplint.py:4900-4921 | Returns the text between the opener and its partner; None exactly when it has none. |
| CloseExpression.OperatorEndSpelled | build_support/cpplint.py:1770 | The pattern matches exactly the texts that end in the word operator and white space. |
| CloseExpression.OnlyBracketsStart | build_support/cpplint.py:1822-1978 | No search starts from anything but its brackets, nor forward search from << or <=. |
| CloseExpression.PairsAreMatches | build_support/cpplint.py:4908-4921 | The matcher fails if and only if the bracket has no partner. |
| BracketSearch.ScanForwardMatches | build_support/cpplint.py:1744-1819 | With angle brackets stripped from the stack, the forward scan of a line is the plain matcher. |
| BracketSearch.CloseFindsPair | build_support/cpplint.py:1744-1863 | For ( [ {: CloseExpression over any lines returns the place just behind the partner in the joined text, and fails if and only if there is none; angle guesses never move or lose it. |
| BracketSearch.OneLineFindsPair | build_support/cpplint.py:4868-4921 | On one line CloseExpression and _GetTextInside select the same span. |
| BracketSearch.ScanBackwardMatches | build_support/cpplint.py:1866-1940 | The backward scan of a line is the plain matcher on its mirror image; its steps over two characters skip no bracket. |
| BracketSearch.ReverseFindsPair | build_support/cpplint.py:1866-1978 | For ) ] }: ReverseCloseExpression returns the partner's place, and fails if and only if there is none. |
| BracketSearch.EachUndoesTheOther | build_support/cpplint.py:1822-1978 | An opener at (l, p) closes at (l2, p2) if and only if the reverse search from (l2, p2 - 1) returns (l, p). |
| AngleSearch.AngleClosesBalanced | build_support/cpplint.py:1744-1863 | A search from any < that succeeds has taken the first opener of the line from there on (that < itself, unless it is the second of << or behind operator), and stops behind the partner of a ( [ {, or behind a > up to which every ( [ { is balanced. |
| ReverseAngleSearch.AngleOpensBalanced | build_support/cpplint.py:1866-1978 | A search back from any > that succeeds has taken the first closer it stepped on (that > itself, unless it ends an arrow, a spaced >= or an operator), and stops at the partner of a ) ] }, or at a < from which on every ( [ { is balanced. |
| TemplateSearch.ListCloses | build_support/cpplint.py:1744-1863 | From a < that opens: behind any template arguments (plain characters, arrows, operators, bracketed groups with anything in them, nested lists) the search stops behind a > that closes, and gives up at a semicolon or a stray closer. |
| TemplateSearch.ListContinues | build_support/cpplint.py:1852-1858 | Arguments that fill a line hand the open brackets to the next line unchanged. |
| TemplateSearch.PlainListCloses | build_support/cpplint.py:1744-1863 | In particular when the text between < and > is balanced in ( [ { and has no angle bracket and no semicolon. |
| TemplateSearch.ListOpens | build_support/cpplint.py:1866-1978 | The same back from a > to its <, giving up at a semicolon or a stray opener. |
| TemplateSearch.ListContinuesBack | build_support/cpplint.py:1967-1975 | And from line to line. |
| TemplateSearch.PlainListOpens | build_support/cpplint.py:1866-1978 | In particular over plain text balanced in ( [ {. |
| NestingState.DirectivesSpelled | build_support/cpplint.py:2778-2797 | A line is a directive exactly when it is blanks, #, blanks and one of the words if, ifdef, ifndef, else, elif, endif, with no word character behind; each word gives its kind. |
| NestingState.DeepCopy | build_support/cpplint.py:2781 | A deep copy has equal scopes and shares none. |
| NestingState.NestingState.constructor | build_support/cpplint.py:2641-2662 | Starts with no scope and no checkpoint. |
| NestingState.NestingState.UpdatePreprocessor | build_support/cpplint.py:2757-2811 | #if, #else/#elif, #endif on the two stacks, unmatched ones ignored; no scope object is shared between stack and checkpoints afterwards. |
| NestingState.NestingState.BeginIf | build_support/cpplint.py:2778-2781 | Checkpoints a copy of the stack. |
| NestingState.NestingState.BeginElse | build_support/cpplint.py:2782-2796 | Keeps the stack of the first branch, and goes back to the one before #if. |
| NestingState.NestingState.SaveBeforeElse | build_support/cpplint.py:2785-2790 | The first #else keeps a copy of the stack built since #if. |
| NestingState.NestingState.RestoreBeforeIf | build_support/cpplint.py:2792-2793 | The stack is again what it was before #if, as a copy that later edits cannot reach the checkpoint through. |
| NestingState.NestingState.EndIf | build_support/cpplint.py:2797-2808 | Reinstates the stack of the first branch and drops the checkpoint. |
| NestingState.NestingState.Edit | build_support/cpplint.py:2838-2976 | Whatever those lines do to the stack, by pushing, popping or changing the top scope in place: every checkpoint stays as it was, and nothing becomes shared. |
| NestingState.NestingState.PushScope | build_support/cpplint.py:2873-2874 | A new scope on top; checkpoints unchanged. |
| NestingState.NestingState.SetTopScope | build_support/cpplint.py:2838-2861 | The top scope changes in place, in the stack alone. |
| NestingState.NestingState.Update | build_support/cpplint.py:2814-2836 | Directive first, then the edits of the line to the stack it finds. |
| NestingState.NestingState.UpdateAll | build_support/cpplint.py:2814-2976 | Line after line, the object state follows the specification from which the theorems below are drawn. |
| PreprocessorTransparency.OnlyKeptLinesCount | build_support/cpplint.py:2757-2811 | For any lines and any state: what remains once all conditionals are closed is the effect of the lines outside #else/#elif branches. |
| PreprocessorTransparency.SameWithoutElseBranches | build_support/cpplint.py:2757-2811 | For any file, nested or not: outside every #else the stack is that of the file with the #else/#elif branches deleted. |
| PreprocessorTransparency.OnlyFirstBranchesCount | build_support/cpplint.py:2757-2811 | Properly nested conditionals of any depth leave the stack their first branches make, and no checkpoint, from every state. |
| PreprocessorTransparency.ConditionalEnds | build_support/cpplint.py:2782-2808 | From the first #else to #endif, whatever the branches do: the stack found at the #else comes back. |
| PreprocessorTransparency.KeptAreFirstBranches | build_support/cpplint.py:2757-2811 | Of nested conditionals the lines kept are the first branches. |
| ThreadPool.Pool.constructor | src/threadpool.cpp:11-29 | All workers awake, nothing queued, not stopped. |
| ThreadPool.Pool.Enqueue | include/threadpool.hpp:34-40 | The locked half of a submission: the job is queued even when it throws. |
| ThreadPool.Pool.NotifyOne | include/threadpool.hpp:41 | Wakes one waiting worker, if any; a step of its own. |
| ThreadPool.Pool.LockedSection | src/threadpool.cpp:16-24 | One turn under the mutex: wait, return, or take the front job. |
| ThreadPool.Pool.WakeSpuriously | src/threadpool.cpp:18-19 | A waiting worker may wake without a notification; the loop makes it look again. |
| ThreadPool.Pool.Complete | src/threadpool.cpp:25 | The job is done and the worker back for the mutex. |
| ThreadPool.Pool.Stop | src/threadpool.cpp:32-35 | Sets stop; what was submitted so far is marked. |
| ThreadPool.Pool.NotifyEverybody | src/threadpool.cpp:36 | Wakes every waiting worker and no other. |
| ThreadPool.StepKeeps | src/threadpool.cpp:14-39 | Every step of submission, notification, wake-up, worker turn, completion and shutdown keeps the accounts, the work conservation and what an exited worker implies; each method of the pool ensures it of the object. |
| ThreadPool.RunKeeps | src/threadpool.cpp:14-39 | So does every interleaving of them. |
| ThreadPool.NoJobLost | src/threadpool.cpp:14-26 | In every run, jobs start in the order of submission, and submitted = queued + running + completed as multisets. |
| ThreadPool.NoLostWakeUp | src/threadpool.cpp:14-26 | In every run before stop: nobody waits, or queued jobs <= pending notifications + awake workers; a queued job never faces an all-asleep pool with no notification to come. |
| ThreadPool.Drained | src/threadpool.cpp:18-39 | All workers returned: every job submitted before stop is completed; all are completed if and only if the queue is empty, in particular if none came later. |
| ThreadPool.ThrowsExactlyAfterStop | include/threadpool.hpp:34-40 | In every run the pool has the size it was made with, and a submission throws if and only if the destructor's stop came before it. |
| ThreadPool.SubmittedRunsExactly | include/threadpool.hpp:34-40 | For every submission in every run, also one that throws: once all workers have returned, its job is among the completed ones, at its place in the order, if and only if some worker had not returned when it was submitted; otherwise it is still queued. |
| ThreadPool.JoinReturns | src/threadpool.cpp:31-41 | After notify_all, without further submissions, runs are bounded and some step stays possible until all workers have returned. |
| ThreadPool.StrandedForEver | include/threadpool.hpp:34-40 | Once all workers have returned, queued jobs stay queued and nothing more completes. |
| ThreadPool.EmptyPoolCompletesNothing | src/threadpool.cpp:12-28 | A pool of size 0 accepts jobs and completes none. |
| Buffer.Buffer.GetWriter | src/buffer.cpp:25-30 | Appends room that reads as zeros, and says where. |
| Buffer.Buffer.Shrink | src/buffer.cpp:60-66 | Takes bytes off the end. |
| Buffer.Buffer.MoveReadCursor | src/buffer.cpp:46-48 | Takes bytes off the front. |
| Buffer.Buffer.Put | src/buffer.cpp:32-34 | Appends. |
| Buffer.Buffer.GetFirst | src/buffer.cpp:36-40 | Splits the contents in what is returned and what stays. |
| Buffer.Buffer.Get | src/buffer.cpp:50-54 | Returns everything and leaves nothing. |
| Buffer.Buffer.Clear | src/buffer.cpp:58 | Leaves nothing. |
| Buffer.Buffer.constructor | src/buffer.cpp:13 | Empty. |
| Context.FillFrom | src/context.cpp:99-104 | One read into 1024 bytes of room appends exactly what arrived. |
| Context.Context.constructor | src/context.cpp:12-32 | A valid context with empty buffers; its registration reports the socket writable once. |
| Context.Context.FlushWriteBuffer | src/context.cpp:50-81 | The write loop, for all kernel answers: short writes, would-block, end, error. |
| Context.Context.AsyncWrite | src/context.cpp:136-142 | Queues behind pending bytes and flushes; nothing unless valid. |
| Context.Context.SyncWrite | src/context.cpp:144-177 | The retry loop as coded, its offset in the would-block branch, and the result reported. |
| Context.Context.WriteString | src/context.cpp:179-184 | A string is sent with its terminating zero. |
| Context.Context.WriteFile | src/context.cpp:207-229 | Appends what the freads give until one gives nothing, then flushes; FILE_ERROR when the file does not open. |
| Context.Context.StateCleanup | src/context.cpp:83-89 | Destroys and returns -1 if and only if the context is closed or invalid. |
| Context.Context.HandleWritableEvent | src/context.cpp:41-48 | Flush between two state checks. |
| Context.Context.HandleReadableEvent | src/context.cpp:91-131 | The read loop up to the callback, for all arrivals. |
| Context.Context.Read | src/context.cpp:245-248 | Returns and empties the read buffer, in any state. |
| Context.Context.ReadString | src/context.cpp:250-258 | The same when valid; otherwise returns nothing and keeps the buffer. |
| ContextStreams.FileIsSentWhole | src/context.cpp:213-226 | However the reads of a file are cut, up to the first empty one, writeFile does what asyncWrite of the whole contents does. |
| ContextStreams.FlushStops | src/context.cpp:50-81 | A flush sends what the writes before the first failing one took; would-block arms the edge, the end of the stream closes, an error invalidates. |
| ContextStreams.SyncStops | src/context.cpp:151-176 | syncWrite reports success if and only if the writes took everything before the first failing one, or that one would block; otherwise the context is closed or invalid. |
| ContextStreams.HandlersDestroyExactly | src/context.cpp:41-134 | An event handler destroys the context if and only if it leaves it not valid. |
| ContextStreams.FlushConserves | src/context.cpp:50-81 | A flush keeps accepted + buffered; a failed one has sent a prefix; it ends empty or with a write edge armed. |
| ContextStreams.SyncWriteConservesExactly | src/context.cpp:144-177 | For given sizes and kernel answers: every content is sent in order if and only if at most one write takes something, and none while bytes are pending. |
| ContextStreams.OvertakesPending | src/context.cpp:151-160 | Contents that come out in the wrong order when bytes were pending. |
| ContextStreams.SendsTheStartAgain | src/context.cpp:151-160 | Contents whose first bytes are sent twice when a second write takes something. |
| ContextStreams.WriteStreamConserved | src/context.cpp:50-81 | Over every run of asyncWrite, writeFile, writable events and the syncWrites above: accepted + buffered = submitted, in order, while valid; after failure accepted is a prefix. |
| ContextStreams.NothingStranded | src/context.cpp:41-81 | In every reachable valid state the write buffer is empty, or a would-block edge is armed or queued. |
| ContextStreams.FlushFinishes | src/context.cpp:50-81 | A writable event in which the kernel takes what it is offered empties the write buffer. |
| ContextStreams.ReadsUntilBlocked | src/context.cpp:98-127 | The read loop takes every read that brings bytes, up to the first that does not, and stays valid only if that one would block. |
| ContextStreams.ReadStreamConserved | src/context.cpp:245-258 | Over every run: what read and readString returned, then the read buffer, is what was received, in order. |
| ContextStreams.CallbackExactlyWhenBlocked | src/context.cpp:98-133 | A readable event keeps every byte that arrived, and the context survives to its receive callback if and only if the read loop ended at would-block. |
| ContextStreams.BytesBeforeEndAreLost | src/context.cpp:108-133 | What an event leaves in the buffer can be returned by some later run if and only if the event ended at would-block, not at the end of the stream or an error. |
| Server.Server.constructor | src/server.cpp:12-22 | Reactors with empty interest sets. |
| Server.Server.EpollAdd | src/epoll.cpp:50-56 | Registers a descriptor not yet in the set. |
| Server.Server.EpollModify | src/epoll.cpp:77-82 | Changes the mask of one that is. |
| Server.Server.EpollDelete | src/epoll.cpp:84-86 | Removes one that is. |
| Server.Server.SetEvents | src/io_context.cpp:60-64 | The first call registers, later ones modify (src/epoll.cpp:32-39); context and set agree afterwards. |
| Server.Server.ContextCreator | src/server.cpp:40-48 | Creation keeps the invariant; no epoll call in it can fail and no live context is replaced. |
| Server.CreatedInOne | src/context.cpp:21-25 | On a fresh descriptor the three setEvents calls come to one registration for read, write and edge trigger, with reactor fd % n. |
| Server.Server.ContextDestroyer | src/server.cpp:50 | Erasing runs EPOLL_CTL_DEL before the descriptor is closed (include/context.hpp:32-34, src/io_context.cpp:23-28). |
| Server.Server.CloseSocket | src/socket.cpp:23-27 | The descriptor is closed; the kernel forgets it in every set. |
| Server.Server.EpollPoll | src/epoll.cpp:106-115 | Each ready context is told the mask reported for its descriptor and listed; all of them are alive. |
| Server.PolledTells | src/epoll.cpp:109-113 | After a poll the context registered for each reported descriptor has exactly the reported events; its other fields, and every other context, are unchanged. |
| Server.Server.HandleHalf | src/io_context.cpp:135-146 | One half of the dispatch, for either result of the handler. |
| Server.Server.HandleGeneral | src/io_context.cpp:135-146 | The readable handler is called if and only if the reported mask has read, the writable one if and only if it has write and the readable handler has not destroyed it; memory, map entry and descriptor go exactly when a called handler returned negative. |
| Server.StepKeeps | src/reactor.cpp:25-43 | Accept, setEvents, poll, either handler half and close keep the invariant, in any interleaving of the reactors. |
| Server.InterestIsExactlyTheLive | src/epoll.cpp:32-41 | In every run no epoll call fails and no dead context is touched; the interest set of reactor r is exactly the live contexts with fd % n = r and their current masks. |
| Server.DeregisteredBeforeClose | src/io_context.cpp:23-28 | In every run a descriptor about to be closed is in no interest set and belongs to no context, and every other open descriptor has an owner. |
| Server.NegativeDestroys | src/io_context.cpp:135-146 | After a negative result the context is dead, off the batch, the map and the set, its descriptor still open. |
| Server.DeadStaysUntouched | src/reactor.cpp:35-43 | A dead context is never registered, polled or listed again, even when its descriptor is reused. |

## Left out

- HttpRequestParser.Parser.LineByte: version numbers are unbounded integers; the source's `int` overflows on long digit strings.
- HttpRequestParser.Parser.BlockByte: `atoi` is on unbounded integers before the conversion to `size_t`; a NUL byte cannot occur in names and values (it is a control byte), so `c_str()` comparisons see all of them; `bad_alloc` of a `reserve` within `max_size` is not modelled.
- HttpResponseParser.Parser.LineByte: status code and version digits are unbounded integers as well; a NUL byte is allowed in the status text, as in the source.
- UrlParser.Parser.ParseUrl: IPv6 hosts, at whose second byte the source aborts, as the model does (`Aborted`).
- CloseExpression.FindEndOfExpressionInLine: `\s` and `\w` are read as ASCII classes; the Unicode members of Python's classes are left out. The stack list is passed and returned as a value; the source updates the caller's list, which its callers then overwrite with the result.
- CloseExpression.GetTextInside: starts from the position where the start pattern matched; the search for the pattern itself is a parameter.
- NestingState.NestingState.Edit: which edits a line makes is arbitrary; the regular expressions that recognise namespaces, classes and inline assembly are not modelled, nor is `previous_stack_top`.
- Context.Context.SyncWrite: sizes above `INT_MAX`, which the source truncates to `int`.
- Context.Context.WriteFile: the stream it opens and never closes.
- AngleSearch.AngleClosesBalanced: says what a successful search from `<` delimits; when it succeeds is stated for template argument lists (`TemplateSearch.ListCloses`), since outside them the guess has no reference meaning.
- ReverseAngleSearch.AngleOpensBalanced: likewise, with `TemplateSearch.ListOpens`.
- The states of the request parser's enumeration that no transition enters and that only reach `default`.
- System calls beyond the range of what they return; `Socket`, `Acceptor`, `Address`, logging, the thread start-up, `std::future` results of jobs.
- Move constructors and the MOVED state; the `write` overloads for rvalues, which call themselves; `writeFile` with a size, which is unimplemented; `Server::~Server`.
- Unlocked access to the context map from several threads, events delivered while a context is still being constructed, user callbacks that call `destroy`: creator, handlers and each half of the destroyer are atomic steps.
- cpplint's style checks, include checks, file handling and options; the build, format and lint runners; the example programs.
