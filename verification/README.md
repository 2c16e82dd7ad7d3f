# Verification of the key-value server

This is a model, in Dafny 4.11, of the parts of the server that everything else rests on, with proofs of what
they promise:

- the lock-free engine that holds the data (`DataEngine.cpp`), as a machine of single atomic accesses with any
  number of threads, and as heap code that takes these steps while other threads run between any two of them
  (`Engine*.dfy`, `Persistency.dfy`);
- the routing of Crow: rule patterns, the trie that is compressed in place, the backtracking search, the choice of
  the answer, and the way of a key from the client's URL to the handler (`Routing*.dfy`, `Router.dfy`, `UrlCodec.dfy`,
  `ServerRoutes.dfy`, `Redirects.dfy`, `RedirectLoops.dfy`);
- its HTTP parser: a byte-at-a-time machine as the reference, and the real loop with its marks and bulk scans; and a
  grammar of requests in characters only (`HttpText.dfy`), with the proof that from any such text the callbacks, the
  handler and the router get exactly what it says (`Http*.dfy`);
- its JSON printer, the destructive reader and lazy unescaping in place (`Json*.dfy`);
- its WebSocket framing, SHA-1 and Base64 (`WebSocket*.dfy`, `Sha1.dfy`, `Sha1Example.dfy`, `Base64.dfy`,
  `CodecExamples.dfy`).

Each component has a simple form (a map and a log, a list of patterns, a machine that reads one byte, a value and its
text, a list of frames, a fold over blocks) and the program's own form, with its loops, buffers, cursors and heap nodes.
The methods are proved to compute the simple form; the promises are proved about the simple form, for all inputs and
all runs. `dafny verify dfyconfig.toml` checks everything. Nothing was executed.

## Findings

Properties that one would expect and that the code does not have, each with its exact condition:

- `assert(0 && "Shouldn't get here.")` in the parser (`dependency/CrowCpp/include/crow/http_parser_merged.h:1387`) fails
  for a `Connection` header whose value begins with NUL and goes on (`HttpAbort.AbortsExactly` is the condition on the
  bytes, `HttpAbort.InputAborts` a request).
- The router can redirect for ever (`dependency/CrowCpp/include/crow/routing.h:1191-1213` and `:1532-1545`): a table
  does so for some URL if and only if a rule ends in `<path>/` and its pattern without the slash matches some URL
  (`Redirects.SomeForeverExactly`; without such a rule every chain ends, `Redirects.ChainEnds`). One URL is redirected
  for ever if and only if redirects lead it to a URL that such a pattern matches (`Redirects.ForeverExactly`), which
  other rules can do, too (`RedirectLoops.PathRuleLoops`, `RedirectLoops.OthersLeadThere`).
- The `url` of a request depends on how the network cuts the bytes
  (`dependency/CrowCpp/include/crow/http_parser_merged.h:589`, `:609` and `:702`): its query is cut off if and only if
  the question mark is read in the same call as the first byte of the URL, and is not that byte
  (`HttpQuery.UrlExactly`, `HttpQuery.UrlInPieces`). Otherwise the routing sees the query as part of the path.
- A header whose name only begins with `transfer-encoding` is taken for it
  (`dependency/CrowCpp/include/crow/http_parser_merged.h:1186-1194` and `:1662-1684`): a request of well-formed
  lines is refused for its encoding if and only if one of them has such a longer name and none says `chunked`
  (`HttpMessages.EncodingRefused`, `HttpMessages.NamesThatGoOn`; all others are read, `HttpMessages.MessageRead`).
- Header lines can be lost (`dependency/CrowCpp/include/crow/parser.h:32-78`): one without a value is dropped if and
  only if another one follows it in its head or trailer, and the last line of a trailer is always dropped
  (`HttpServed.RequestBuilt`, by `Kept`, `Pairs` and `TrailerPairs`).
- Some JSON numbers are refused (`dependency/CrowCpp/include/crow/json.h:946-1070`): of those of RFC 8259 exactly the
  ones with an exponent right after a zero, as in `0e5` (`JsonSyntax.StandardNumbers`).
- The padding of SHA-1 (`dependency/CrowCpp/include/crow/TinySHA1.hpp:98-101`) is wrong exactly for messages of 2^29
  bytes or more (`Sha1.ShortIsRight`).
- A copy of a read JSON string (`dependency/CrowCpp/include/crow/json.h:242-246`) that was made before the original was
  first read keeps the old end and shows left-over bytes, if and only if the string was written with an escape
  (`JsonBuffer.ReadCopy`, `JsonBuffer.CopyOfEscape`).
- The printer has no limit on depth and the reader has (`dependency/CrowCpp/include/crow/json.h:822-823`): what was
  printed is read back if and only if it is nested at most 5000 deep (`JsonRoundTrip.RoundTrip`).

## Model

| member | source | states |
|---|---|---|
| EngineTheorems.Linearizability | DataEngine.cpp:58-138 | in every reachable state of any number of threads, over any interleaving of single atomic accesses, all answers of `get` and `set` are those of a plain map on which the logged operations are replayed in one order; each operation took effect once, between its call and its return, and the order respects real time |
| EngineTheorems.ReturnedBeforeInvoked | DataEngine.cpp:58-138 | real time without bookkeeping: an operation whose call returned before another one was made comes first in every later order |
| EngineTheorems.RunEvolves | DataEngine.h:56-58 | over any run, links change at most once and only from null to a node, linked nodes stay where they are, freed nodes stay freed, and no key ever disappears |
| EngineTheorems.EveryAccessIsSafe | DataEngine.cpp:61-73 | no access of any thread in any reachable state touches a null, freed or unallocated node, so every live thread can take its next step |
| EngineTheorems.BucketsAreLists | DataEngine.cpp:105-137 | in every reachable state following the links of a bucket ends, and the nodes on the way have distinct keys that hash to this bucket; so racing `set`s of a new key leave one node |
| EngineTheorems.EveryNodeIsAccountedFor | DataEngine.cpp:80-99 | node conservation: each allocated node is exactly one of linked at one place of one bucket, held by one running `set`, or freed |
| EngineTheorems.FreedWasNeverLinked | DataEngine.cpp:120-124 | a node that `set` frees was never linked at any earlier moment of the run |
| EngineTheorems.FailedCasAdvances | DataEngine.cpp:126-136 | a failed compare-exchange changes nothing in memory and leads to a node strictly further down the bucket |
| EngineTheorems.CostBound | README.md:133-136 | a `set` that has returned tried at most as many compare-exchanges as there are distinct keys of its bucket, and `get` and `set` made at most a constant number of accesses more |
| EngineTheorems.ListLength | DataEngine.cpp:105-137 | the list of a bucket is exactly as long as the number of distinct keys of that bucket that were ever set |
| EngineTheorems.Enumeration | DataEngine.cpp:140-155 | beside any `set`s an enumeration visits each key at most once, visits every key present when it began, and reports for each a value it held at a moment of the enumeration |
| EngineTheorems.QuiescentEnumeration | DataEngine.cpp:140-155 | when nothing else took effect meanwhile, the visits are exactly the map |
| EngineCounters.RunCounts | DataEngine.cpp:67-76 | the invariant over all runs: the two counters are, modulo 2^64, the numbers of hits and misses that have passed their counting step |
| EngineCounters.Statistics | DataEngine.cpp:157-160 | the hit counter is the number of returned hits plus the calls that have counted and not yet returned, the miss counter the number of returned misses, both modulo 2^64 |
| EngineCounters.QuiescentStatistics | DataEngine.cpp:157-160 | without running calls the counters are exactly the numbers of hits and misses modulo 2^64 |
| EngineRuns.ReachableInv | DataEngine.cpp:58-155 | the global invariant (lists, ownership, the map that the nodes stand for, where each thread stands) holds after every run |
| EngineHeap.DataEngine.constructor | DataEngine.cpp:9-12 | an engine with empty buckets stands for the empty map |
| EngineHeap.DataEngine.Get | DataEngine.cpp:58-78 | the walk over heap nodes, with the other threads running between any two of its accesses, is a run of the step machine that ends in a return with this answer; alone, it is the answer of the map and the map is unchanged |
| EngineHeap.DataEngine.Set | DataEngine.cpp:101-138 | the same for `set`; alone, it sets exactly the one key and allocates one node |
| EngineHeap.DataEngine.Enumerate | DataEngine.cpp:140-155 | the same for `enumerate`, with what the visitor saw, in order; alone, it lists exactly the map |
| EngineHeap.DataEngine.CreateNode | DataEngine.cpp:80-99 | allocates one fresh node that only the caller holds |
| EngineHeap.DataEngine.ExchangeBucket | DataEngine.cpp:108-116 | the compare-exchange on the head of a bucket succeeds exactly when the head was null, and links the node |
| EngineHeap.DataEngine.ExchangeNext | DataEngine.cpp:126-136 | the same for the link of a node |
| EngineHeap.DataEngine.StoreValue | DataEngine.cpp:120-124 | stores the value of the new node in the old one, as one step |
| EngineHeap.DataEngine.Destroy | DataEngine.cpp:14-28 | without running calls, every node that is left is freed, and each once |
| EngineHeap.EffectAlone | DataEngine.cpp:58-138 | a call that ran alone added exactly its own effect to the log and got the answer of the map |
| EngineHeap.CompletedAtOnce | DataEngine.cpp:58-138 | a completed call took effect at one moment between its call and its return, with the answer of the map at that moment |
| EngineHeap.StepsBounded | README.md:133-136 | a walk takes at most as many steps as there are nodes |
| Persistency.InitialLoadData | Persistency.cpp:8-26 | loading sets the members in order and counts them; on a file that fails to parse nothing more is set |
| Persistency.StoreData | Persistency.cpp:28-51 | the document that is saved has exactly the entries of the map, each once, and their number is returned |
| Persistency.Restart | Persistency.cpp:8-51 | storing one engine and loading the file into an empty one, with any number of buckets and any hash, gives an engine with the same map, and both counts are the size of the map |
| Persistency.ReloadRebuilds | Persistency.cpp:8-26 | replaying any listing of a map in any order of its keys rebuilds the map |
| Persistency.ListedCount | Persistency.cpp:34-39 | an exact listing has as many entries as the map |
| Persistency.StringsLoad | DataSerializer.cpp:88-112 | a document of strings is loaded completely |
| RoutingPatterns.MatchKey | dependency/CrowCpp/include/crow/routing.h:885-898 | matching the characters of a key one by one is comparing the key with the fragment of the URL |
| RoutingPatterns.SelectsOne | dependency/CrowCpp/include/crow/routing.h:746-906 | the selected rule and its parameters are determined by the set of rules and the URL |
| RoutingTrie.Trie.Add | dependency/CrowCpp/include/crow/routing.h:909-992 | the trie gets exactly this rule more, unless it has one for the pattern already; then it reports that and keeps its rules; nodes are added only along the pattern |
| RoutingTrie.Trie.OptimizeNode | dependency/CrowCpp/include/crow/routing.h:672-693 | path compression keeps the set of rules (so every search gives what it gave), keeps every node owned once, deletes exactly the nodes it gives up, and ends because the path of the node gets longer |
| RoutingTrie.Trie.OptimizeChildren | dependency/CrowCpp/include/crow/routing.h:688-692 | the same for all children |
| RoutingTrie.Trie.Merge | dependency/CrowCpp/include/crow/routing.h:676-685 | taking over the only child keeps the rules and lengthens the path |
| RoutingTrie.Trie.Validate | dependency/CrowCpp/include/crow/routing.h:738-743 | fails exactly when the head is not simple, and otherwise compresses and keeps the rules |
| RoutingTrie.Trie.Find | dependency/CrowCpp/include/crow/routing.h:746-906 | the backtracking search finds the smallest index among the rules below the node, with its parameters, and leaves the shared parameter stacks as they were |
| RoutingTrie.Trie.FindUrl | dependency/CrowCpp/include/crow/routing.h:746-906 | a search from the head returns the smallest index of a rule whose pattern matches the whole URL, and 0 if and only if there is none; the URL can be cut into one non-empty piece for each token of the rule's pattern, and the parameters are the texts and the numbers at these pieces, from left to right |
| RoutingCuts.MatchIsCut | dependency/CrowCpp/include/crow/routing.h:746-906 | a pattern matches a URL with these parameters if and only if the URL can be cut into one non-empty piece for each token: the character itself, a whole segment for `<string>`, the rest for `<path>`, as far as the conversion reads for a number; and the parameters of each kind are those at the pieces, from left to right |
| RoutingCuts.CutMatches | dependency/CrowCpp/include/crow/routing.h:746-906 | there is no other way to cut it: every such cut gives the match |
| RoutingCuts.SelectedCut | dependency/CrowCpp/include/crow/routing.h:746-906 | the rule that is selected has such a cut, and no rule with a smaller index has one |
| RoutingCuts.PatternOf | dependency/CrowCpp/include/crow/routing.h:909-992 | a pattern written with characters and the tags `<int>`, `<uint>`, `<float>`, `<double>`, `<str>`, `<string>` and `<path>` is read as these tokens |
| RoutingTrie.BestFromHead | dependency/CrowCpp/include/crow/routing.h:746-906 | what the search finds over nodes is the selection over the linear list of patterns |
| RoutingTrie.MergedRules | dependency/CrowCpp/include/crow/routing.h:676-685 | merging a node with its only child keeps every pattern and its index |
| RoutingTrie.MergedOk | dependency/CrowCpp/include/crow/routing.h:640-685 | and keeps the tree: every node owned once, children starting with different tokens |
| RoutingTrie.WithChildOk | dependency/CrowCpp/include/crow/routing.h:909-992 | so does adding a child for a token that no child has |
| RoutingTrie.RootedHeadIsSimple | dependency/CrowCpp/include/crow/routing.h:738-743 | patterns that begin with a slash give a simple head, so `validate` does not fail on it |
| Router.PerMethod.AddRule | dependency/CrowCpp/include/crow/routing.h:1191-1213 | adding a rule adds its pattern, and for a trailing slash the redirect too; it fails exactly when one of them is taken |
| Router.PatternWithoutSlash | dependency/CrowCpp/include/crow/routing.h:1191-1213 | the pattern of the redirect is the pattern of the rule without its last slash |
| Router.Build | dependency/CrowCpp/include/crow/routing.h:1277-1297 | the trie of a method stands for exactly the entries of the list of rules; for rules from the root it fails if and only if two entries clash |
| Router.Handle | dependency/CrowCpp/include/crow/routing.h:1445-1571 | which of 404, 405, the allowed methods, a redirect or which handler with which parameters a request gets, in terms of the lists of rules only; methods are those of the names in the parser's table: the body is skipped exactly for `HEAD`, which the rules of `GET` decide, `OPTIONS` lists methods, and the rules of any other name are its own; the branch for a corrupted trie is never taken |
| Router.HandleMethod | dependency/CrowCpp/include/crow/routing.h:1505-1571 | the same for one method |
| Router.HandleOptions | dependency/CrowCpp/include/crow/routing.h:1465-1500 | besides OPTIONS and HEAD, the methods named are exactly those with a matching rule; for "/*" exactly those whose table has a rule or a redirect for a non-empty pattern; in order |
| Router.ChildrenMeanRoutes | dependency/CrowCpp/include/crow/routing.h:1457-1468 | the head of a method's trie has a child if and only if its table has such an entry |
| RoutingTrie.ChildrenMeanRules | dependency/CrowCpp/include/crow/routing.h:640-693 | because every node but the head leads to a rule, in the trie that `add` builds and after compression |
| Redirects.RedirectLands | dependency/CrowCpp/include/crow/routing.h:1191-1213 | the URL of a redirect is matched by the rule behind it, with the same parameters, if and only if the pattern does not end in a path parameter |
| Redirects.RedirectWins | dependency/CrowCpp/include/crow/routing.h:1191-1213 | the redirect has the smallest index and wins over every other rule for its URL |
| Redirects.RedirectAnswers | dependency/CrowCpp/include/crow/routing.h:1532-1545 | whatever other rules the table has, the answer is a redirect if and only if some redirect of the method matches, and it leads to the URL with one slash more |
| Redirects.SlashesBounded | dependency/CrowCpp/include/crow/routing.h:746-906 | a pattern that does not end in a path parameter matches only so many slashes after a URL as it has tokens |
| Redirects.ChainEnds | dependency/CrowCpp/include/crow/routing.h:1532-1545 | without a redirect that ends in a path parameter, every chain of redirects is at most as long as the longest redirect |
| Redirects.PathRedirectsForever | dependency/CrowCpp/include/crow/routing.h:1532-1545 | with one that matches, for every number of slashes and any host, the answer is a redirect to the URL with one slash more |
| Redirects.ForeverExactly | dependency/CrowCpp/include/crow/routing.h:1532-1545 | a URL is redirected without end if and only if redirects lead it, in at most as many steps as the longest redirect has tokens and one, to a URL that a redirect with a path parameter at its end matches |
| Redirects.SomeForeverExactly | dependency/CrowCpp/include/crow/routing.h:1532-1545 | a table redirects some URL without end if and only if one of its redirects ends in a path parameter and matches some URL |
| RedirectLoops.PathRuleLoops | dependency/CrowCpp/include/crow/routing.h:1532-1545 | an instance: with the rule `/a/<path>/`, the URL `/a/x` and all that come of it are redirected again |
| RedirectLoops.ThreeAccepted | dependency/CrowCpp/include/crow/routing.h:1191-1213 | another: the rules `/<string>/`, `/a//` and `/a/<path>/` are well formed and do not clash |
| RedirectLoops.OthersLeadThere | dependency/CrowCpp/include/crow/routing.h:1532-1545 | with them `/a`, which no redirect ending in a path parameter matches, is redirected without end: the other two lead it to one that does |
| RedirectLoops.RuleIsWellFormed | dependency/CrowCpp/include/crow/routing.h:909-992 | that rule is one the router accepts |
| UrlCodec.UrlDecode | HttpServerHelpers.cpp:13-41 | the index loop computes the decoding, for every input but the single character `%` |
| UrlCodec.DecodeEncoded | HttpServerHelpers.cpp:13-41 | decoding any percent-encoding of a key, in either letter case and with `+` for a space, gives the key |
| Basics.HexDigits | HttpServerHelpers.cpp:13-41 | the value of a hexadecimal digit is its place among the sixteen, in either letter case |
| UrlCodec.QuotePlusEncodes | client.py:50 | what the client sends is such an encoding, and has no slash |
| ServerRoutes.SetupRouting | HttpServer.cpp:73-207 | the rules of the server, for GET and POST: well formed, without a clash, and none but the record rule can match the URL of a record |
| ServerRoutes.SegmentSelected | HttpServer.cpp:78-94 | a URL that adds one segment to `/api/records/` selects the record rule with that segment as its parameter |
| ServerRoutes.RecoverKey | HttpServer.cpp:78-125 | end to end: for every non-empty key and every percent-encoding of it, building the real tries, routing and decoding give the record rule and the key, for GET and POST |
| HttpParser.Parser.constructor | dependency/CrowCpp/include/crow/http_parser_merged.h:1928-1936 | a new parser is in the initial state |
| HttpParser.Parser.Execute | dependency/CrowCpp/include/crow/http_parser_merged.h:635-1926 | for every buffer, the loop with marks and bulk scans ends in the state, with the events and with the halting of the byte-at-a-time machine; a parser that has failed parses nothing more |
| HttpParser.Parser.FieldBytes | dependency/CrowCpp/include/crow/http_parser_merged.h:1106-1248 | scanning a header's name in bulk does what the machine does byte by byte |
| HttpParser.Parser.ValueBytes | dependency/CrowCpp/include/crow/http_parser_merged.h:1334-1509 | the same for a header's value |
| HttpParser.Parser.IdentityBytes | dependency/CrowCpp/include/crow/http_parser_merged.h:1721-1755 | the same for a body with a length |
| HttpParser.Parser.ChunkBytes | dependency/CrowCpp/include/crow/http_parser_merged.h:1850-1872 | the same for the data of a chunk |
| HttpParser.PlainMarks | dependency/CrowCpp/include/crow/http_parser_merged.h:732-1917 | a case of the switch leaves at most the one mark that the new state needs |
| HttpMethods.MethodKnown | dependency/CrowCpp/include/crow/http_parser_merged.h:768-865 | every name in the table of methods is recognised: the guesses by its characters lead to its own number and to no other |
| HttpMethods.NamesDiffer | dependency/CrowCpp/include/crow/common.h:110-152 | no two methods have one name |
| HttpRequestLine.MethodRead | dependency/CrowCpp/include/crow/http_parser_merged.h:768-865 | the name of a method and a space, from the first state on, begin a message with the number that the table gives the name, and clear the flags and the length of the last one |
| HttpRequestLine.TargetPart | dependency/CrowCpp/include/crow/http_parser_merged.h:505-545 | every target that is well formed (a path, an absolute URL, or a host for CONNECT) and a space give exactly the target as one piece |
| HttpRequestLine.VersionRead | dependency/CrowCpp/include/crow/http_parser_merged.h:944-1053 | the version and the end of the line set the two numbers to its digits |
| HttpRequestLine.RequestLineRead | dependency/CrowCpp/include/crow/http_parser_merged.h:768-1053 | so the whole line is read as it is written |
| HttpHeaders.NameKnown | dependency/CrowCpp/include/crow/http_parser_merged.h:1106-1248 | at its end a name is taken for `connection` (or `proxy-connection`), `content-length`, `transfer-encoding` or `upgrade` if and only if it is that name, in any letter case |
| HttpHeaders.ValueRead | dependency/CrowCpp/include/crow/http_parser_merged.h:1259-1509 | a value is handed over as one piece, however the parser follows it (as words, as a number, or not at all), and every state on the way stays among the header lines |
| HttpHeaders.LinesSay | dependency/CrowCpp/include/crow/http_parser_merged.h:1534-1571 | after any lines each flag is set if and only if a line says so: keep-alive, close, chunked, an upgrade, a length |
| HttpHeaders.LengthSaid | dependency/CrowCpp/include/crow/http_parser_merged.h:1293-1306 | and the length is the decimal value of the line that gives one |
| HttpHeaders.LinesRead | dependency/CrowCpp/include/crow/http_parser_merged.h:1056-1571 | every list of well-formed header lines (a token, a colon, blanks and a value without control characters except tab; recognised names with values that they allow) within the limit is read, and handed over name by name and value by value |
| HttpMessages.MessageRead | dependency/CrowCpp/include/crow/http_parser_merged.h:635-1926 | from the text of any well-formed request, wherever it stands in a connection: the callbacks get exactly the begin of the message, the target, each name and value, the end of the head with the method, version and flags that the text says, the body (none, by its length, or chunks with a trailer) as one piece, and the end of the message; the parser is ready for the next one |
| HttpMessages.UpgradeRead | dependency/CrowCpp/include/crow/http_parser_merged.h:1573-1660 | a request with CONNECT or an `Upgrade` line is left at the end of its head |
| HttpMessages.EncodingRefused | dependency/CrowCpp/include/crow/http_parser_merged.h:1662-1684 | a well-formed head that has a name beginning with `transfer-encoding` and no line that says `chunked` is refused, with one of two errors |
| HttpMessages.NamesThatGoOn | dependency/CrowCpp/include/crow/http_parser_merged.h:1186-1194 | among well-formed lines, those that do this are exactly the ones whose name is longer than `transfer-encoding` |
| HttpRequests.RunSplit | dependency/CrowCpp/include/crow/http_parser_merged.h:635-1926 | the byte machine on a concatenation is the machine on the first part and then on the second |
| HttpRequests.Feed | dependency/CrowCpp/include/crow/parser.h:104-122 | feeding pieces has the outcome of their concatenation, for all callbacks that do not tell adjacent data apart |
| HttpRequests.AnyPieces | dependency/CrowCpp/include/crow/http_parser_merged.h:635-1926 | partition independence: two ways of cutting accepted bytes give the same state and the same events, adjacent data joined |
| HttpRequests.CallbacksJoin | dependency/CrowCpp/include/crow/parser.h:20-83 | the callbacks of the server cannot tell where one piece of data ended |
| HttpRequests.SameRequests | dependency/CrowCpp/include/crow/parser.h:20-122 | what the callbacks gather for each request (`raw_url`, headers, body, version and flags) does not depend on how the network cuts the bytes; `url` does, see below |
| HttpServed.RequestBuilt | dependency/CrowCpp/include/crow/parser.h:20-99 | over the events of a request the callbacks hand over exactly one: its method and target, the pairs of its lines in order (a pair without a value only when it is the last of the head, the last pair of a trailer never), its body, its version, and whether the connection is kept or closed |
| HttpServed.ConnectionRead | dependency/CrowCpp/include/crow/parser.h:20-122 | for any number of requests one after the other, each counted against the limit together with the trailer before it, the parser reads them all |
| HttpServed.Serve | dependency/CrowCpp/include/crow/parser.h:104-122 | so from the text of a connection, cut in any pieces, the handler gets exactly the requests that are written there, in order |
| HttpExample.WriteIsServed | dependency/CrowCpp/include/crow/parser.h:20-99 | an instance, in characters: a POST with `Content-Length: 5` is such a text, and these are its events and its request |
| HttpAnswers.FirstWord | dependency/CrowCpp/include/crow/common.h:110-152 | a request's text begins with a word and a space if and only if its method is the one of that name |
| HttpAnswers.Respond | dependency/CrowCpp/include/crow/routing.h:1445-1571 | from bytes to the answer: a text that begins with `POST` is answered from the rules of POST and keeps its body, and the same for GET; one that begins with `HEAD` from those of GET without a body; one that begins with `OPTIONS` gets the list of methods |
| HttpQuery.UrlExactly | dependency/CrowCpp/include/crow/http_parser_merged.h:582-612 | the `url` that a handler gets is `raw_url` without its query if and only if there is no question mark or it was read in the same call of the parser as the first byte of the URL and is not that byte; in all other cases it is all of `raw_url` |
| HttpQuery.CallsCleared | dependency/CrowCpp/include/crow/parser.h:130-147 | from the first byte of a message to its URL `qs_point` is 0, over all calls of a connection |
| HttpQuery.PointStays | dependency/CrowCpp/include/crow/http_parser_merged.h:484-633 | after the URL the rest of the message does not move `qs_point` |
| HttpQuery.UrlInPieces | dependency/CrowCpp/include/crow/http_parser_merged.h:862-880 | an instance: `/a?b` is seen as `/a` when it is read in one call, and as `/a?b` when it is cut after `/a` |
| HttpSafety.RunSound | dependency/CrowCpp/include/crow/http_parser_merged.h:1573-1887 | in every run `nread == 1` holds before a chunk size, F_CHUNKED in all chunk states, a length is known and positive while body bytes are read, and names are in an expected state; one assertion remains, and its state and byte are given |
| HttpSafety.NoNulNoAbort | dependency/CrowCpp/include/crow/http_parser_merged.h:1380-1390 | without a NUL in the input no assertion fails |
| HttpSafety.NulAborts | dependency/CrowCpp/include/crow/http_parser_merged.h:1293-1390 | a `Connection` value that begins with NUL and goes on fails the remaining assertion |
| HttpAbort.AbortsExactly | dependency/CrowCpp/include/crow/http_parser_merged.h:1380-1390 | on the bytes, exactly: the assertion fails if and only if the value of a `Connection` header begins with NUL and then, after CR LF SP or LF SP breaks only, goes on with a value character |
| HttpAbort.InputAborts | dependency/CrowCpp/include/crow/http_parser_merged.h:1380-1390 | a whole request from its first byte on which it fails |
| HttpBodies.LengthExact | dependency/CrowCpp/include/crow/http_parser_merged.h:1293-1306 | a Content-Length is accepted if and only if its digits but the last are at most (2^64 - 11) / 10, and then it is their exact decimal value, below the value for "no length" |
| HttpBodies.SizeExact | dependency/CrowCpp/include/crow/http_parser_merged.h:1785-1819 | the same for the size of a chunk, in hexadecimal |
| HttpBodies.BodyDelivered | dependency/CrowCpp/include/crow/http_parser_merged.h:1721-1755 | a body with a length is one piece of data and completes the message once |
| HttpBodies.ChunkRead | dependency/CrowCpp/include/crow/http_parser_merged.h:1769-1887 | one chunk, with any letter case, leading zeros and extension, hands over its data and leaves the parser before the next |
| HttpBodies.ChunksRead | dependency/CrowCpp/include/crow/http_parser_merged.h:1769-1887 | the data of all chunks arrive in order, as one piece |
| HttpBodies.TrailerSeen | dependency/CrowCpp/include/crow/http_parser_merged.h:1573-1582 | in a trailer the callbacks see names and values of headers only |
| HttpBodies.ChunkedBodyDecoded | dependency/CrowCpp/include/crow/http_parser_merged.h:1769-1887 | decoding inverts chunked encoding (section 4.1 of RFC 7230): all data in order as one piece, then header data of the trailer only, then the end of the message, once, for every trailer that the parser reads through |
| HttpTrailers.LinesPass | dependency/CrowCpp/include/crow/http_parser_merged.h:1573-1582 | every list of well-formed header lines within the limit is such a trailer |
| HttpTrailers.TrailerDecoded | dependency/CrowCpp/include/crow/http_parser_merged.h:1769-1887 | so chunks with any well-formed trailer give all the data, then exactly these names and values in order, then the end of the message |
| JsonText.EscapeRoundTrip | dependency/CrowCpp/include/crow/json.h:39-71 | unescaping gives back every byte string that was escaped |
| JsonText.UnescapedLength | dependency/CrowCpp/include/crow/json.h:425-487 | unescaping never lengthens, and shortens exactly when there is a backslash |
| JsonText.StringIsEscaped | dependency/CrowCpp/include/crow/json.h:846-904 | what the scanner accepts as a string can be unescaped |
| JsonRoundTrip.SpacedRoundTrip | dependency/CrowCpp/include/crow/json.h:840-844 | for every value of null, booleans, integers, byte strings, lists and objects, and any runs of space, tab, carriage return and line feed before and after each token of its printed form, reading gives the value if its containers are nested at most 5000 deep, and fails otherwise |
| JsonRoundTrip.RoundTrip | dependency/CrowCpp/include/crow/json.h:1755-1896 | so what was printed is read back, up to that depth and not beyond |
| JsonRoundTrip.PrintedParses | dependency/CrowCpp/include/crow/json.h:1073-1125 | a value printed anywhere in a text, with such white space, is read back where it stands, if and only if its depth is within the limit |
| JsonRoundTrip.FitsNested | dependency/CrowCpp/include/crow/json.h:822-823 | the depth test against 10000, growing by two per level, is nesting at most 5000 |
| JsonRoundTrip.IntegerBack | dependency/CrowCpp/include/crow/json.h:946-1070 | reading the text of an integer gives the integer |
| JsonSyntax.StringRead | dependency/CrowCpp/include/crow/json.h:846-904 | a string written with any mixture of characters, short escapes and code units in four hexadecimal digits is read as what they stand for (section 7 of RFC 8259) |
| JsonSyntax.Utf8Back | dependency/CrowCpp/include/crow/json.h:454-475 | the bytes of a code unit are its UTF-8 form: decoding them (section 3 of RFC 3629) gives the unit back |
| JsonSyntax.CharacterPrinted | dependency/CrowCpp/include/crow/json.h:39-71 | the printer writes seven characters with their short escapes, other control characters as the code unit that they are, and all others as they are |
| JsonSyntax.NumberRead | dependency/CrowCpp/include/crow/json.h:946-1070 | a number with sign, whole part, point and exponent is read to its end if and only if a lone zero is not followed by an exponent at once, and the exponent is not empty |
| JsonSyntax.StandardNumbers | dependency/CrowCpp/include/crow/json.h:946-1070 | of the numbers of section 6 of RFC 8259 exactly those are refused that have an exponent right after a zero |
| JsonBuffer.UnescapeBetween | dependency/CrowCpp/include/crow/json.h:425-487 | the two cursors decode in place: the writer never passes the reader, nothing outside the string and its quotes changes, the flag is cleared |
| JsonBuffer.Read | dependency/CrowCpp/include/crow/json.h:398-406 | `s()` gives the decoded string, changes only what the string owns, and changes nothing the second time |
| JsonBuffer.ReadCopy | dependency/CrowCpp/include/crow/json.h:242-246 | a copy made before the first reading agrees with the original if and only if the string was written without an escape; else it ends in left-over bytes after a NUL |
| JsonBuffer.CopyOfEscape | dependency/CrowCpp/include/crow/json.h:242-246 | an instance of the difference |
| JsonBuffer.PutCode | dependency/CrowCpp/include/crow/json.h:454-475 | a `\u` code is stored as its UTF-8 bytes |
| JsonBuffer.AllUntouched | dependency/CrowCpp/include/crow/json.h:398-406 | parts that do not overlap a change keep what they stand for |
| JsonReader.Children.EmplaceBack | dependency/CrowCpp/include/crow/json.h:667-685 | appends one child; an array without room is doubled, within 4 and 60000 more |
| JsonReader.Parser.DecodeString | dependency/CrowCpp/include/crow/json.h:846-904 | accepts what the text says, overwrites only the two quotes, and the part it returns stands for the decoded string |
| JsonReader.Parser.DecodeNumber | dependency/CrowCpp/include/crow/json.h:946-1070 | the state table with its bulk skip of digits ends where the text says |
| JsonReader.Parser.DecodeValue | dependency/CrowCpp/include/crow/json.h:1073-1125 | the destructive parser accepts the same texts, ends at the same place, and returns a value that stands for the same JSON; everything read before still does |
| JsonReader.Parser.DecodeList | dependency/CrowCpp/include/crow/json.h:906-944 | the same for lists |
| JsonReader.Parser.DecodeObject | dependency/CrowCpp/include/crow/json.h:1127-1188 | the same for objects, whose keys are unescaped at once |
| JsonReader.MoreDigits | dependency/CrowCpp/include/crow/json.h:984-995 | passing digits at once ends in the same state |
| JsonWriter.Escape | dependency/CrowCpp/include/crow/json.h:39-71 | appends the escaped string |
| JsonWriter.DumpInternal | dependency/CrowCpp/include/crow/json.h:1762-1883 | appends the printed value |
| JsonWriter.Load | dependency/CrowCpp/include/crow/json.h:1190-1215 | copies, terminates and parses the text: it succeeds if and only if the text is accepted, and no two parts of the buffer that the value uses overlap |
| JsonWriter.LoadBack | dependency/CrowCpp/include/crow/json.h:1190-1375 | loading a text and converting what was read gives exactly what the text says |
| JsonWriter.ReadKept | dependency/CrowCpp/include/crow/json.h:398-406 | reading one string of a document changes no other string, key or number of it |
| JsonWriter.Written | dependency/CrowCpp/include/crow/json.h:1342-1375 | the value made from a read value is what the text said, whatever was read from the buffer before |
| JsonWriter.ThereAndBack | dependency/CrowCpp/include/crow/json.h:1204-1896 | printing, loading in place and converting gives the value back if and only if it is nested at most 5000 deep |
| JsonWriter.SpacedBack | dependency/CrowCpp/include/crow/json.h:836-1215 | loading in place and converting a text with any white space gives the value, too |
| WebSocketNumbers.Stored64 | dependency/CrowCpp/include/crow/websocket.h:213-219 | the 64-bit length, with its halves swapped and exchanged, lies in memory in network order |
| WebSocketNumbers.Read64 | dependency/CrowCpp/include/crow/websocket.h:367-368 | and reading it back undoes that |
| WebSocketNumbers.StoredSwapped | dependency/CrowCpp/include/crow/websocket.h:208-212 | the same for a swapped number of any width |
| WebSocketFrames.WireInjective | dependency/CrowCpp/include/crow/websocket.h:250-464 | no two sequences of frames have the same bytes (section 5.2 of RFC 6455) |
| WebSocketFrames.MaskedTwice | dependency/CrowCpp/include/crow/websocket.h:484-490 | unmasking gives the payload back (section 5.3) |
| WebSocketFrames.XorDiffers | dependency/CrowCpp/include/crow/websocket.h:484-490 | a bit of a masked byte is set if and only if the bits of the byte and of the mask differ |
| CodecExamples.SmallFrames | dependency/CrowCpp/include/crow/websocket.h:200-221 | the bytes of the short examples of section 5.7 of RFC 6455: a text and a ping, and the text with a mask |
| CodecExamples.LargeFrames | dependency/CrowCpp/include/crow/websocket.h:200-221 | and of its long ones, with lengths in two and in eight bytes |
| WebSocket.BuildHeader | dependency/CrowCpp/include/crow/websocket.h:200-221 | the header of an unmasked whole frame with the shortest of the three length encodings |
| WebSocket.Connection.constructor | dependency/CrowCpp/include/crow/websocket.h:604-640 | a new connection has read and sent nothing |
| WebSocket.Connection.OnMiniHeader | dependency/CrowCpp/include/crow/websocket.h:255-319 | after any read, what was read is complete frames and a known part of one more, and the handlers were told exactly what the complete frames mean |
| WebSocket.Connection.OnLen16 | dependency/CrowCpp/include/crow/websocket.h:321-357 | the same after a 16-bit length |
| WebSocket.Connection.OnLen64 | dependency/CrowCpp/include/crow/websocket.h:358-391 | the same after a 64-bit length |
| WebSocket.Connection.OnMask | dependency/CrowCpp/include/crow/websocket.h:392-429 | the same after a mask |
| WebSocket.Connection.OnPayload | dependency/CrowCpp/include/crow/websocket.h:430-464 | the same after any piece of a payload; the piece that brings the rest completes exactly one frame |
| WebSocket.Connection.Unmask | dependency/CrowCpp/include/crow/websocket.h:484-490 | the loop over the fragment masks each byte once |
| WebSocket.Connection.HandleFragment | dependency/CrowCpp/include/crow/websocket.h:482-562 | the frame is handed on as its opcode says, and what is sent in answer is a pong with the payload of a ping, or the first close |
| WebSocket.Connection.Send | dependency/CrowCpp/include/crow/websocket.h:126-175 | queues one frame after all earlier ones |
| WebSocket.Connection.DoWrite | dependency/CrowCpp/include/crow/websocket.h:568-578 | hands over all waiting buffers when no write is under way, and nothing otherwise |
| WebSocket.Connection.OnWritten | dependency/CrowCpp/include/crow/websocket.h:579-594 | nothing is lost, duplicated or overtaken over the two buffers, and while the connection is open nothing waits without a write under way |
| WebSocketMessages.Reassembled | dependency/CrowCpp/include/crow/websocket.h:491-528 | section 5.4: fragments with other frames between them give each message once, whole, in order and of its kind |
| WebSocketMessages.PingsAnswered | dependency/CrowCpp/include/crow/websocket.h:550-554 | each ping causes one answer with its payload, whatever message it interrupts |
| WebSocketDelivery.FramesRead | dependency/CrowCpp/include/crow/websocket.h:250-464 | when the bytes of some frames have been read, in any pieces, exactly these frames were handled; the reader is never left inside a frame |
| WebSocketDelivery.MessagesDelivered | dependency/CrowCpp/include/crow/websocket.h:250-562 | so all messages were delivered, and for each ping a pong with its payload was queued |
| WebSocketDelivery.BothSides | dependency/CrowCpp/include/crow/websocket.h:200-562 | what one side hands over is what the other handles |
| WebSocketDelivery.SentWhole | dependency/CrowCpp/include/crow/websocket.h:148-170 | a message that is sent whole is received as it is, for all three length encodings |
| Sha1.SHA1.ProcessByte | dependency/CrowCpp/include/crow/TinySHA1.hpp:58-66 | fed bytes are kept in blocks: the digest is the fold of the compression function over the complete ones |
| Sha1.SHA1.ProcessBytes | dependency/CrowCpp/include/crow/TinySHA1.hpp:67-80 | however the message is cut |
| Sha1.SHA1.ProcessBlock | dependency/CrowCpp/include/crow/TinySHA1.hpp:140-188 | the 80 rounds compute the compression function of section 6.1.2 of FIPS 180-4, with its own forms of Ch, Maj and rotation |
| Sha1.SHA1.GetDigest | dependency/CrowCpp/include/crow/TinySHA1.hpp:81-107 | below 2^29 bytes the digest is the hash of the padded message (section 5.1.1); in general it is that of the message with a 32-bit length |
| Sha1.ShortIsRight | dependency/CrowCpp/include/crow/TinySHA1.hpp:98-101 | the padding is that of the standard if and only if the message is shorter than 2^29 bytes |
| Sha1.SHA1.GetDigestBytes | dependency/CrowCpp/include/crow/TinySHA1.hpp:108-137 | the digest in network order |
| Sha1.WordBytesBack | dependency/CrowCpp/include/crow/TinySHA1.hpp:108-137 | these bytes determine the words |
| Sha1Example.DigestOfAbc | dependency/CrowCpp/include/crow/TinySHA1.hpp:140-188 | the digest of `abc` is the one that section A.1 of FIPS 180-2 gives, through the constants, the schedule and all 80 rounds |
| Base64.Encode | dependency/CrowCpp/include/crow/utility.h:523-562 | the encoding of section 4 or 5 of RFC 4648, of exactly the predicted length |
| Base64.Decode | dependency/CrowCpp/include/crow/utility.h:574-644 | the decoding of as many bytes as the length and the padding say |
| Base64.RoundTrip | dependency/CrowCpp/include/crow/utility.h:523-644 | for every non-empty byte string, in both alphabets, with the padding and without it, decoding gives it back |
| Base64.Alphabets | dependency/CrowCpp/include/crow/utility.h:523-571 | the two alphabets, as strings of 64 characters, are what the signs of the six-bit numbers are |
| CodecExamples.TestVectors | dependency/CrowCpp/include/crow/utility.h:523-562 | the examples of section 10 of RFC 4648, from the empty string to `foobar` |
| Base64.SizeFound | dependency/CrowCpp/include/crow/utility.h:590-606 | the size is found right from the end of the text in both forms |

## Left out

- The weak memory model: the source uses relaxed accesses, and the model takes them as sequentially consistent. An atomic shared pointer is one cell.
- EngineHeap.DataEngine.Set: the source allocates without a bound; here allocation succeeds while fewer than `capacity` nodes exist, any number that the caller may choose, which is what makes a walk end beside threads that go on adding.
- EngineHeap.DataEngine.Get: the other threads run at any point, as a method with an empty body whose contract allows any run of them; that a real scheduler does so is not modelled.
- `is_lock_free` and the two loads of `get_read_statistics`: what the loads may see is stated on the machine (`EngineCounters.Statistics`).
- Per-thread allocators and heaps: only allocating and freeing a node is modelled.
- Persistency.StoreData: the document keeps references to the strings, so it is stated for an engine without running calls; the file is an ordered list of members, and the text of the file is not part of this model.
- Blueprints, catch-all rules and the templates that bind handlers; rule indices are below 65536, as the type demands.
- RoutingTrie.Trie.Add: for patterns without NUL in which every `<` begins a known tag; on others the loop of the source steps back and adds nodes that no pattern here stands for.
- The conversions behind `<int>`, `<uint>` and `<double>` are uninterpreted functions that give a value and the number of characters read; the results of `Redirects.dfy` need that they do not look past a slash at the end.
- UrlCodec.UrlDecode: not for the single character `%`, where `len - 2` wraps and the source reads past the end.
- HttpParser.Parser.Execute: requests only, not lenient, chunked together with a length not allowed, and callbacks that return 0, as the server uses it; `qs_point`, which depends on the cut, is followed in `HttpQuery.dfy` beside the parser, and when the parser stops with an error, two ways of cutting agree that it stops but not on which error it is.
- The field `nread` wraps at 2^32 in the source; buffers are shorter than that here. The states for a body until the end of the connection belong to responses and are not reachable for requests.
- HttpQuery.UrlExactly: a null mark counts as address 0, so that the distance to it is the address of a byte; buffers lie at addresses above the length of the URL. In C++ the difference to a null pointer is undefined.
- HttpMessages.MessageRead: for the requests of `HttpText.dfy`. `Transfer-Encoding` says `chunked` alone, there are no blank lines before a request, no values that go on after a line break, and lines end with CR LF; other texts are covered by the refinement (`HttpParser.Parser.Execute`) and by the statements about any bytes, not by a grammar.
- HttpHeaders.LinesRead: for values that go on after a line break, `HttpBodies.ChunkedBodyDecoded` holds where the parser accepts them; which it accepts is not described further.
- HttpServed.Serve: the headers are a list of pairs in order; the source keeps them in a multimap that ignores letter case, whose order among different names is not fixed.
- HttpAnswers.Respond: the URL that is routed is any string; what the handler makes of the target is in `HttpQuery.dfy`.
- Strings that `parser.h` moves from are taken to be empty afterwards.
- The lifetime of a connection, its write path, timers, sockets, TLS and compression.
- Floating-point and function values of JSON, lookup by key, sorting, and objects with equal keys; a number keeps its text, and an object keeps the order of its members.
- JsonReader.Children.EmplaceBack: moved children are values here, and the size is not limited to 32 bits.
- WebSocket.Connection.OnMiniHeader: the two bytes are taken to arrive together, as the source assumes; reserved bits are read and ignored.
- WebSocket.Connection.OnWritten: what happens to the object after closing (`check_destroy`) and the handlers of closing are left out.
- Sha1.SHA1.GetDigest: the right-hand side for longer messages is stated with the 32-bit length that the source writes.
- Base64.Decode: not for fewer than two characters, where the source reads before the text.
- Mustache, multipart, cookies, CORS, query strings, the MIME table, logging and the client's own loops.
