# AWS Integrated Application Test Kit — a verified model of its core

The AWS Integrated Application Test Kit helps test event-driven applications
on AWS. A Go binary serves JSON-RPC methods: it builds X-Ray trace trees,
deploys EventBridge listeners (an SQS queue subscribed to a bus through a
rule), polls and deletes the events they catch, generates mock events from
EventBridge schemas, and reads CloudFormation stack outputs. Python clients
(`aws_iatk`, and the older `zion` and `aws_ctk` packages) build the requests,
retry until a condition holds, and decode the replies.

This project models that core in Dafny, one module per source file:

- `wrappers.dfy`, `text.dfy`, `json.dfy`: `Option`/`Result`, Go errors and panics, Go string formatting (`%q`, `%v` of a slice, `strconv.Itoa`, `strings.ToLower`), and decoded JSON values.
- `dedup.dfy`: order-preserving de-duplication.
- `xray_types.dfy`, `xray_tree.dfy`, `xray_trace.dfy`, `get_trace_tree.dfy`: the trace-tree engine, the paged trace fetch, and the tracing-header parser of the get-trace-tree RPC.
- `iatk_client.dfy`, `py_poll_events.dfy`, `py_jsonrpc.dfy`, `py_context.dfy`, `py_retry_xray.dfy`, `zion_xray.dfy`: the Python clients' retry loop, parameter classes, JSON-RPC payload, EventBridge event context and X-Ray decoder.
- `override.dfy`, `openapi.dfy`, `jsonschema.dfy`, `mock_generate.dfy`, `event.dfy`: mock-event generation and overrides.
- `harness.dfy`, `tags.dfy`, `stack_info.dfy`, `eventrule.dfy`, `listener_types.dfy`, `listener.dfy`: the listener harness, its tags, its rule, and stack outputs.
- `jsonrpc.dfy`, `public_rpc.dfy`: the user-agent check, the JSON-RPC error replies, and the RPC parameter checks.

AWS calls become objects that log each request in a `calls` sequence and
answer with a function of the request, or plain function parameters; the
clock, uuids and xids are inputs. Go's unspecified map order is modelled by
choosing the next key nondeterministically, so each method's contract holds
for every order; where the order decides which error comes back, the contract
names the set of errors some order can report. A Go panic the model can
reach (an index out of range, a nil pointer among the modelled optional
fields) is an explicit `Panic` result; fields the model holds as plain values
are assumed present (see "Left out").

Where the repository's documentation and its code differ, the model follows the code:

- The tree's root is the first segment after an unstable sort by start time. For equal start times it is any of them.
- A segment whose parent cannot be found fails the build with "found a segment … with no parent". Nothing detects cycles.
- Listener ids carry the prefix `iatk_eb_`, as in `listener.go`. The older tests use `zion_eb_`.
- The get-trace-tree RPC calls `NewTree` with three arguments, but `tree.go` declares four. The model follows `tree.go`.
- Tests read a `Metadata.DedupKey` field that `jsonrpc.go` does not declare. The model has no such field.

## Model

| member | source | states |
|---|---|---|
| Dedup.Dedup | internal/pkg/slice/dedup.go:3-13 | the loop's result is the reference list `Distinct(list)`: no value twice, exactly the values of the input, never longer |
| Dedup.DistinctNoDuplicates | internal/pkg/slice/dedup.go:6-10 | the deduplicated list holds no value twice |
| Dedup.DistinctSameElements | internal/pkg/slice/dedup.go:6-10 | a value is in the result iff it is in the input |
| Dedup.DistinctShorter | internal/pkg/slice/dedup.go:5-12 | the result is never longer than the input (and is empty for an empty input) |
| Dedup.DistinctFirstOccurrenceOrder | internal/pkg/slice/dedup.go:7-9 | values appear in the order of their first occurrence in the input |
| Dedup.DistinctOfNoDuplicates | internal/pkg/slice/dedup.go:4-11 | a list without duplicates comes back unchanged |
| Dedup.DistinctIdempotent | internal/pkg/slice/dedup.go:4-11 | deduplicating twice equals deduplicating once |
| Dedup.DistinctCardinality | internal/pkg/slice/dedup.go:4-11 | the result has as many entries as the input has distinct values |
| Dedup.DistinctOfConstant | internal/pkg/slice/dedup.go:4-11 | a list repeating one value deduplicates to that single value |
| XrayTree.LeafPathsSound | internal/pkg/xray/tree.go:153-172 | every path enumerated below a node extends the walk so far, steps only from a segment to one of its children, and ends at a segment without children |
| XrayTree.ChildLeafPathsSound | internal/pkg/xray/tree.go:163-170 | the same for the loop over a segment's children: each child's paths extend the copied prefix |
| XrayTree.LeafPathsComplete | internal/pkg/xray/tree.go:153-172 | every walk that extends the prefix by child steps down to a leaf is among the enumerated paths |
| XrayTree.ChildLeafPathsComplete | internal/pkg/xray/tree.go:163-170 | the loop over the children misses no leaf below any remaining child |
| XrayTree.LeafPathsDistinct | internal/pkg/xray/tree.go:153-172 | no path is enumerated twice |
| XrayTree.ChildLeafPathsDistinct | internal/pkg/xray/tree.go:163-170 | paths gathered from different children never coincide |
| XrayTree.ChainUnique | internal/pkg/xray/tree.go:125-172 | with one parent per segment, two walks from parentless segments that end at the same segment are the same walk |
| XrayTree.PathsFromRoot | internal/pkg/xray/tree.go:153-172 | from a parentless root every enumerated path starts at the root and is a root-to-leaf walk |
| XrayTree.EveryLeafHasPath | internal/pkg/xray/tree.go:153-172 | from a parentless root every root-to-leaf walk is enumerated |
| XrayTree.PathsEndAtDistinctLeaves | internal/pkg/xray/tree.go:153-172 | two enumerated paths that end at the same leaf are the same path: one path per leaf |
| XrayTree.SegmentArena.InsertSegmentChild | internal/pkg/xray/tree.go:124-127 | the child is appended at the end of the parent's children, every other segment is unchanged, and a segment is never appended twice, so each keeps at most one parent |
| XrayTree.InsertByStartCorrect | internal/pkg/xray/tree.go:42-45 | inserting a segment into a start-sorted list keeps it sorted and adds exactly that segment |
| XrayTree.SortByStartTimeCorrect | internal/pkg/xray/tree.go:42-45 | every segment list has an order sorted by start time holding the same segments, so the sort the builder relies on always exists |
| XrayTree.EarliestFirst | internal/pkg/xray/tree.go:42-48 | the first segment of any start-sorted order (the root) is a segment of the trace with the earliest start time |
| XrayTree.LastOwnerSpec | internal/pkg/xray/tree.go:141-151 | the reference for the id map finds the last segment answering to an id, and finds none exactly when no segment answers to it |
| XrayTree.CreateSubSegIdToSegMap | internal/pkg/xray/tree.go:129-139 | the keys are exactly the subsegment ids nested at any depth, each mapped to the owning segment |
| XrayTree.CreateSegIdToSegMap | internal/pkg/xray/tree.go:141-151 | an id is a key iff some segment answers to it (its own id or a nested subsegment id), and maps to the last such segment |
| XrayTree.GetLinkedTraces | internal/pkg/xray/tree.go:105-122 | the map gains the trace ids of the segment's own and its direct subsegments' child links, all pointing at the segment; every other entry is unchanged |
| XrayTree.RecordChildLinks | internal/pkg/xray/tree.go:108-119 | one link loop records the segment for every child link and leaves every other entry alone |
| XrayTree.FirstOrphan | internal/pkg/xray/tree.go:54-64 | the first non-root segment whose parent id no segment answers to, and none when every parent id is owned |
| XrayTree.LinkedTargetsSpec | internal/pkg/xray/tree.go:54-122 | a trace is recorded as linked iff some non-root segment with a parent id has a child link to it, and the segment recorded for it is the last such segment |
| XrayTree.AttachToParents | internal/pkg/xray/tree.go:53-66 | every non-root segment with a parent id is appended under the last segment owning that id; the first orphan stops the build with "found a segment … with no parent"; segments without parent id stay detached; the linked traces recorded are the reference ones |
| XrayTree.AttachOne | internal/pkg/xray/tree.go:55-64 | one round of the attach loop: an orphan leaves the segments untouched and stops, any other segment is hung under its owner and its links recorded |
| XrayTree.KeysInSomeOrder | internal/pkg/xray/tree.go:71 | the key listing holds each key of the linked-trace map exactly once |
| XrayTree.PlaceTrace | internal/pkg/xray/tree.go:47-66 | the sorted segments become fresh nodes, the id map is built and the attach loop runs; its outcome is exactly the first-orphan error or success with every segment hung under its owner |
| XrayTree.FetchLinkedTrees | internal/pkg/xray/tree.go:74-91 | linked traces are fetched, in one call, only when links are followed, some were recorded and the depth counter is below 5; a failed fetch is reported with the id list; a successful one raises the counter, and then every fetched trace is built and its earliest segment hung under the segment recorded for its trace id; when no fetch happens, the trace's nodes gain no child beyond its own segments |
| XrayTree.HangLinkedTrees | internal/pkg/xray/tree.go:82-90 | each fetched trace is built with the shared counter; on success every fetched trace's root, a segment of that trace with the earliest start, is appended under the segment recorded for its trace id, and roots are appended nowhere else; the existing segments keep their children |
| XrayTree.HangLinkedTree | internal/pkg/xray/tree.go:83-89 | one fetched trace is built with the shared counter; a build error is wrapped with "failed to build trace tree" and the trace id; otherwise its root, an earliest segment of the trace, hangs under the segment recorded for its trace id; the segments found so far keep their children |
| XrayTree.AttachLinkedRoot | internal/pkg/xray/tree.go:88-89 | a built linked tree's root, an earliest segment of its trace, is appended under the segment recorded for its trace id, and only there; a trace id nobody recorded is a nil dereference |
| XrayTree.BuildTree | internal/pkg/xray/tree.go:40-103 | an empty segment list panics on index 0; otherwise the segments are put in a start-sorted order and the first orphan is reported; with no orphan and no linked fetch to run, a tree is returned; with no orphan and a failed linked fetch, that fetch's message is returned; a built tree is rooted at the first sorted segment, has every segment with a parent id hung under its owner and every segment without one detached, linked roots only under their linking segments, every fetched linked trace's root attached when the fetch ran, paths equal to the enumeration from the root, and the limit flag set iff the counter reached 5 |
| XrayTree.NewTree | internal/pkg/xray/tree.go:14-38 | a failed fetch, an absent trace and an empty segment list are refused in that order with their messages; a build error is wrapped with "failed to build trace tree"; a tree is returned whenever the fetch finds the trace with segments, every parent id has an owner in the trace, and links are not followed or there are none; a built tree is rooted at a segment with the earliest start, hangs every segment with a parent id under its owner and leaves the others detached, hangs every fetched linked trace's root under its linking segment and nowhere else, and its paths are the depth-first enumeration from the root: exactly the root-to-leaf walks, each once |
| XrayTree.LinkTree | internal/pkg/xray/tree.go:74-102 | after the segments are placed: when the linked fetch does not run a tree is returned; a failed linked fetch returns its message with the ids in some map order; a returned tree is rooted at the first sorted segment, keeps the placement (segments without parent id detached), has every fetched linked root attached, and its paths are the enumeration from the root |
| XrayTree.LinkedTracesGrow | internal/pkg/xray/tree.go:82-90 | appending nodes and children keeps every linked trace already hung where it was |
| XrayTree.BuildSourceTree | internal/pkg/xray/tree.go:31-37 | the build starts with the counter at zero; a build failure is reported behind "failed to build trace tree"; the build succeeds whenever every parent id has an owner in the trace and links are not followed or there are none, whatever order the sort leaves; a built tree meets every success fact `NewTree` promises |
| XrayTree.SourceTreeIntro | internal/pkg/xray/tree.go:31-37 | a tree built from the source in a fresh arena with the counter at zero has every property `NewTree` promises |
| XrayTree.NoOrphanInAnyOrder | internal/pkg/xray/tree.go:54-65 | when every parent id has an owner in the trace, no start-sorted order of its segments has an orphan |
| XrayTree.NoLinksInAnyOrder | internal/pkg/xray/tree.go:59-61 | without child links, or without following them, no sorted order records a linked trace |
| XrayTree.NoTargets | internal/pkg/xray/tree.go:106-122 | segments without child links record no linked trace |
| XrayTree.NewTreeFacts | internal/pkg/xray/tree.go:42-102 | a built tree's root is parentless and earliest, its segments are the source's segments in sorted order, and its paths are the depth-first enumeration from the root, pairwise distinct and exactly the root-to-leaf walks |
| XrayTrace.DecodeAllSpec | internal/pkg/xray/trace.go:14-21 | segment decoding succeeds iff every document decodes, giving one segment per document in order; otherwise the error is the first failing document's, prefixed "failed to resolve segment document: " |
| XrayTrace.TraceFromApiResponse | internal/pkg/xray/trace.go:12-28 | the loop's result is the reference conversion; a converted trace keeps the API trace's id, duration and limit flag and has one segment per document |
| XrayTrace.DecodeSticky | internal/pkg/xray/trace.go:17-19 | once a document fails, the conversion returns that error whatever follows |
| XrayTrace.MergeSticky | internal/pkg/xray/trace.go:57-59 | once a trace fails to convert, the page merge returns that error whatever follows |
| XrayTrace.MergeKeeps | internal/pkg/xray/trace.go:61-63 | an id already in the trace map keeps its trace: first write wins |
| XrayTrace.MergeFirstWins | internal/pkg/xray/trace.go:54-63 | every id the merge adds belongs to the first trace of the page with that id, converted |
| XrayTrace.MergeContainsKey | internal/pkg/xray/trace.go:54-63 | after a successful merge every trace of the page has its id in the map |
| XrayTrace.MergeFails | internal/pkg/xray/trace.go:55-59 | the merge fails iff some trace fails to convert, and then names the id of the first such trace |
| XrayTrace.MergeInto | internal/pkg/xray/trace.go:54-64 | the loop over one page's traces computes the reference merge |
| XrayTrace.RunPagesSticky | internal/pkg/xray/trace.go:45-49 | once a page fails, the round returns that error whatever pages follow |
| XrayTrace.RunRound | internal/pkg/xray/trace.go:42-65 | the loop over one round's pages computes the reference round: a page error gives "failed to get Traces: …", otherwise the traces are merged and the last page's unprocessed ids kept |
| XrayTrace.Get | internal/pkg/xray/trace.go:30-68 | the outer loop computes the reference rounds, re-sending the original ids until nothing is left unprocessed; an empty id list gives an empty map with no call |
| XrayTrace.RunPagesSpec | internal/pkg/xray/trace.go:44-64 | across a round's pages an id once stored keeps its value, and every new id is that of a returned trace |
| XrayTrace.RoundsSpec | internal/pkg/xray/trace.go:41-66 | across all rounds the value first stored for an id is never replaced, and every id in the result was returned by the backend in one of the rounds run |
| XrayTrace.GetReturnsOnlyReturned | internal/pkg/xray/trace.go:30-68 | every id in the map that Get returns is that of a trace the backend returned |
| GetTraceTree.RootPieceValue | internal/pkg/public-rpc/get_trace_tree.go:56-62 | a root piece yields the non-empty text after its first `=` (free of `=`); an empty value is "invalid tracing header provided", and a piece with no `=` reads past the split (a panic) |
| GetTraceTree.FirstRootPieceDecides | internal/pkg/public-rpc/get_trace_tree.go:54-65 | the first piece whose key reads "root" in any case decides the outcome, whatever follows; with no root piece the header is invalid |
| GetTraceTree.RootHeaderRoundTrip | internal/pkg/public-rpc/get_trace_tree.go:52-67 | a header written as `Root=<id>;<rest>` gives back `<id>` for every non-empty id without `;` or `=` |
| GetTraceTree.OtherPieceIgnored | internal/pkg/public-rpc/get_trace_tree.go:55-64 | a leading piece that is not a root piece (such as `Sampled=1`) does not change the result |
| GetTraceTree.ValidateTracingHeader | internal/pkg/public-rpc/get_trace_tree.go:24-32 | an empty header is refused as missing before parsing; otherwise the result is the parsed trace id, and a parse failure comes back prefixed "error while getting trace_id from the tracing header: " |
| IatkClient.ValidateRetryArgs | python-client/src/aws_iatk/__init__.py:500-505 | the decorator is accepted iff the timeout is a number, not negative, and the assertion is callable; otherwise the first failing check's TypeError or ValueError, in that order |
| IatkClient.RetryWrapper | python-client/src/aws_iatk/__init__.py:508-529 | the retry loop computes the reference run: its result and its sleeps, in order |
| IatkClient.RetryDecidedAtFirstStop | python-client/src/aws_iatk/__init__.py:515-529 | the first attempt that neither raises a retryable exception nor fails its assertion, or that finds the time up, decides the result (True, False or the raised error); the loop has slept once per failed assertion before it, the n-th sleep (counting from 0) being 0.05·2^(n+1) s |
| IatkClient.RetryNeverStops | python-client/src/aws_iatk/__init__.py:515-524 | while every attempt is retried or fails its assertion in time, the loop never ends on its own |
| IatkClient.ZeroTimeoutNeverFalse | python-client/src/aws_iatk/__init__.py:513-515 | with timeout 0 the elapsed time reads -1, so the loop never returns False |
| IatkClient.BackoffIncreases | python-client/src/aws_iatk/__init__.py:510-526 | the delay after each failed assertion is strictly longer than the one before |
| IatkClient.FoldAppend | python-client/src/aws_iatk/__init__.py:537-542 | applying two lists of context functions in a row is applying the first and then the second to its result |
| IatkClient.FoldFailureNamesContext | python-client/src/aws_iatk/__init__.py:537-542 | a failed application is either an exception some context function raised, passed on unchanged, or names a context function whose result was not JSON-serialisable, with code 400 |
| IatkClient.ApplyContexts | python-client/src/aws_iatk/__init__.py:533-545 | the loop computes the reference fold; an exception raised by a context function propagates unchanged (the first function raising stops the loop); no context functions leave a non-None event unchanged; a successful result is never None (a None result is refused with code 404) |
| IatkClient.ClassifyTraceTreeError | python-client/src/aws_iatk/__init__.py:650-655 | an IatkException mentioning "trace not found" becomes retryable, any other becomes an IatkException with code 500, and other exceptions pass unchanged |
| IatkClient.RetryGetTraceTreeUntil | python-client/src/aws_iatk/__init__.py:641-660 | the result is the retry loop over the classified fetches, with an escaping IatkException re-raised with code 500 |
| IatkClient.TraceNotFoundIsRetried | python-client/src/aws_iatk/__init__.py:643-655 | while every fetch fails with "trace not found" or every fetched tree fails the assertion, the call never raises |
| IatkClient.CheckEvents | python-client/src/aws_iatk/__init__.py:355-363 | the loop over one poll's events stops at the first event the assertion does not reject, which is one of the events; with none, every event failed its assertion |
| IatkClient.WaitUntilEventMatched | python-client/src/aws_iatk/__init__.py:349-366 | an invalid timeout raises InvalidParamException first; otherwise polls run while time remains, the first matching event returns True, an exception other than a failed assertion propagates, and the time running out returns False |
| IatkClient.WaitTrueOnlyOnMatch | python-client/src/aws_iatk/__init__.py:352-366 | True is returned only if some event of a poll made in time passed the assertion |
| IatkClient.DecisiveIndex | python-client/src/aws_iatk/__init__.py:356-363 | the event that decides a poll comes after events that all failed their assertion |
| PyPollEvents.ToDict | python-client/src/aws_iatk/poll_events.py:51-58 | the request always holds ListenerId and holds WaitTimeSeconds and MaxNumberOfMessages exactly when they are not None, and nothing else (the aws_ctk copy is identical) |
| PyPollEvents.ToDictRoundTrip | python-client/src/aws_iatk/poll_events.py:51-58 | reading back what to_dict writes gives the parameters again: a 0 is kept and a None stays absent |
| PyPollEvents.ValidateWaitTimeout | python-client/src/aws_iatk/poll_events.py:89-90 | a timeout is accepted iff it lies in 1..999; otherwise the message "timeout_seconds must be between 1 and 999" |
| PyPollEvents.NewWaitUntilEventMatchedParams | python-client/src/aws_iatk/poll_events.py:83-99 | a timeout outside 1..999 is refused; an accepted one is stored and the poll parameters are the listener id with wait 3 and at most 10 messages |
| PyPollEvents.PollEventsOutput | python-client/src/aws_iatk/poll_events.py:26-28 | the events are `result.output`, or [] when either is absent; a `result` that is not a dict has no `.get` |
| PyPollEvents.WithRegionProfile | python-client/src/zion/poll_events.py:58-61 | Region and Profile are added exactly when truthy; every other parameter is unchanged |
| PyPollEvents.ZionRequest | python-client/src/zion/poll_events.py:49-66 | the zion request always has jsonrpc "2.0", id "42", the poll-events method and the parameters to_dict builds, plus Region and Profile when truthy |
| PyPollEvents.ZionRequestRoundTrip | python-client/src/zion/poll_events.py:49-66 | the parameters of the zion request read back as the original poll parameters |
| PyJsonRpc.CallerField | python-client/src/aws_iatk/jsonrpc.py:42-44 | an empty caller dict gives the fallback; a non-empty one without the key raises KeyError naming the key; a truthy value is used and a falsy one replaced by the fallback |
| PyJsonRpc.Payload.constructor | python-client/src/aws_iatk/jsonrpc.py:24-31 | the payload keeps a reference to the caller's own parameter dict and writes Region and Profile into that dict exactly when they are truthy |
| PyJsonRpc.Payload.Envelope | python-client/src/aws_iatk/jsonrpc.py:34-46 | the envelope always has jsonrpc "2.0", the payload's id, method and shared parameters, and metadata with client "python" and the given caller and dedup key |
| PyJsonRpc.Payload.ToDict | python-client/src/aws_iatk/jsonrpc.py:33-47 | with no caller dict the caller is the method name and the dedup key a fresh uuid; a non-empty caller dict without "caller" raises KeyError 'caller', and one with "caller" but without "dedup_key" raises KeyError 'dedup_key'; a dict holding both gives the envelope whose caller is the dict's caller when truthy, else the method name, and whose dedup key is the dict's dedup_key when truthy, else the fresh uuid |
| PyJsonRpc.Payload.ToDictIntended | python-client/src/aws_iatk/jsonrpc.py:42-44 | the corrected reading: the envelope with a truthy "caller" as caller, else the method; a truthy "dedup_key", else a truthy "request_id", else the fresh uuid as dedup key; missing keys never raise |
| PyJsonRpc.InternalCallerKeyError | python-client/src/aws_iatk/__init__.py:353 | the caller dict that wait_until_event_matched and retry_get_trace_tree_until pass makes to_dict raise KeyError: 'dedup_key' |
| PyJsonRpc.InternalCallerIntended | python-client/src/aws_iatk/__init__.py:647 | under the corrected reading the same caller dict names the caller and carries the request id as dedup key |
| ZionXray.DecodeReferenceType | python-client/src/zion/xray.py:13-15 | only "parent" and "child" convert, each to its own enum value; anything else raises |
| ZionXray.ReferenceTypeRoundTrip | python-client/src/zion/xray.py:13-15 | every reference type converts back from its own name |
| ZionXray.Required | python-client/src/zion/xray.py:30-33 | a required key yields its value iff the record is a dict holding the key; otherwise a KeyError |
| ZionXray.DecodeLink | python-client/src/zion/xray.py:30-56 | a link decodes iff trace_id, id and attributes are present and the attributes hold a valid reference type; trace id and id are kept as given |
| ZionXray.LinkRoundTrip | python-client/src/zion/xray.py:37-56 | decoding an encoded link gives the link back |
| ZionXray.AllSome | python-client/src/zion/xray.py:378-379 | a list comprehension of decoders succeeds iff every element decodes, giving the decoded elements in order |
| ZionXray.ListOr | python-client/src/zion/xray.py:261-262 | a missing list key gives the default, a list its items, and any other value is refused |
| ZionXray.DecodeCauseRecord | python-client/src/zion/xray.py:259-262 | every key of a cause is optional: the working directory defaults to "", paths and exceptions to []; each exception must be a dict |
| ZionXray.DecodeCause | python-client/src/zion/xray.py:371-374 | a falsy cause is dropped, a string is kept as an exception id, and a non-empty dict is decoded as a structured cause |
| ZionXray.CauseRoundTrip | python-client/src/zion/xray.py:371-374 | decoding an encoded cause gives it back |
| ZionXray.DecodeSegment | python-client/src/zion/xray.py:453-476 | id, name and trace_id default to "", start_time to 0, every other scalar to None; the cause, the nested subsegments (of the same class) and the links decode as their own decoders say |
| ZionXray.DecodeNested | python-client/src/zion/xray.py:378 | subsegments are None iff the key is absent; otherwise one record of the same class per item, in order |
| ZionXray.DecodeLinks | python-client/src/zion/xray.py:379 | links are None iff the key is absent; otherwise one link per item, in order |
| ZionXray.DecodedSegmentEquality | python-client/src/zion/xray.py:478-479 | two decoded segments are equal exactly when their dicts carry the same id and trace id after defaulting, whatever else they hold |
| ZionXray.StructuralKeysAreNotScalars | python-client/src/zion/xray.py:354-379 | the keys read by structure (id, name, trace_id, start_time, cause, subsegments, links) are not among the plainly read scalars |
| ZionXray.StructuralContents | python-client/src/zion/xray.py:453-476 | an encoded segment's structural part holds exactly the segment's identifiers, cause, subsegments and links |
| ZionXray.EncodedFields | python-client/src/zion/xray.py:453-476 | an encoded segment holds each field under the key the decoder reads it from |
| ZionXray.SegmentRoundTrip | python-client/src/zion/xray.py:453-476 | decoding the dict written from a well-formed segment or subsegment gives it back, so the decoder loses nothing it stores |
| ZionXray.DecodeFromParts | python-client/src/zion/xray.py:453-476 | a dict whose every part decodes to the matching part of a segment decodes to that segment |
| ZionXray.NestedRoundTrip | python-client/src/zion/xray.py:475 | the nested subsegments of an encoded well-formed segment decode back to the same list |
| ZionXray.NestedFromItems | python-client/src/zion/xray.py:378 | a list whose every item decodes to a record decodes to the list of those records |
| ZionXray.LinksRoundTrip | python-client/src/zion/xray.py:476 | the links of an encoded segment decode back to the same list |
| ZionXray.LinksFromItems | python-client/src/zion/xray.py:379 | a list whose every item decodes to a link decodes to the list of those links |
| ZionXray.DecodeTrace | python-client/src/zion/xray.py:502-506 | id defaults to "", duration to 0, limit_exceeded to False, and the segments are decoded in order, [] when absent |
| ZionXray.DecodedTraceEquality | python-client/src/zion/xray.py:508-509 | two decoded traces are equal exactly when their dicts carry the same id after defaulting |
| ZionXray.DecodeTraceMap | python-client/src/zion/xray.py:536-539 | the child-trace dict decodes iff every entry does, with the same keys |
| ZionXray.DecodePath | python-client/src/zion/xray.py:534 | a path is a list of segments decoded in order |
| ZionXray.DecodeTree | python-client/src/zion/xray.py:532-541 | root, paths and source_trace are required; the paths keep their outer and inner order; child_traces is {} when absent or falsy and otherwise one trace per entry |
| MockOverride.Consumed | internal/pkg/mock/event/override.go:13-15 | the used-up overrides are exactly the given ones no longer left, with their values |
| MockOverride.RefinesMono | internal/pkg/mock/event/override.go:11-22 | a result that replaced values using some overrides is still a refinement when more overrides are allowed |
| MockOverride.RefinesNothing | internal/pkg/mock/event/override.go:11-22 | with no overrides used up, the walked event equals the original |
| MockOverride.WalkedReplace | internal/pkg/mock/event/override.go:13-15 | visiting a key that has an override replaces its value and deletes that override, keeping the walk's invariant |
| MockOverride.ReplaceFrame | internal/pkg/mock/event/override.go:13-15 | replacing one key leaves every unvisited key as it was and removes the override |
| MockOverride.ReplaceConsumed | internal/pkg/mock/event/override.go:13-15 | after a replacement every used-up override is a visited key or occurs inside a visited value |
| MockOverride.ReplaceAlone | internal/pkg/mock/event/override.go:13-15 | a visited key with an override that occurs nowhere else has taken that override |
| MockOverride.ReplaceRefines | internal/pkg/mock/event/override.go:13-15 | each visited key has taken a used-up override or refines its old value |
| MockOverride.WalkedSearch | internal/pkg/mock/event/override.go:16-19 | visiting a key with no override by searching its object or array keeps the walk's invariant |
| MockOverride.SearchFrame | internal/pkg/mock/event/override.go:16-19 | a search changes only the searched key and only deletes overrides |
| MockOverride.SearchBeside | internal/pkg/mock/event/override.go:16-19 | a searched key never had an override left for it, so the alone-replaced property is kept |
| MockOverride.SearchRefines | internal/pkg/mock/event/override.go:16-19 | the searched value refines the old one under the overrides it used up |
| MockOverride.SearchConsumed | internal/pkg/mock/event/override.go:16-19 | every override the search used up occurs inside the searched value |
| MockOverride.OverridesMap | internal/pkg/mock/event/override.go:11-22 | overrides are only deleted, never added; the event keeps its keys; the new event differs from the old one exactly at a set of replaced positions, each holding the override named by its last key; each used-up override is applied at exactly one position and each position uses up a distinct override; no override left is met anywhere the walk reaches (any key of a visited object, outside replaced values), so every reachable key whose override was still left when the walk met it took it; no replaced position lies below a key named like its override, so a key takes its override at the first place the walk meets it and the replaced value is not searched; every used-up override occurs in the event; a top-level key that occurs nowhere deeper takes its override |
| MockOverride.OverridesArray | internal/pkg/mock/event/override.go:24-32 | the array keeps its length; it differs from the old one exactly at replaced positions inside its objects, each used-up override applied at exactly one position; no override left is met anywhere inside the elements outside replaced values; no replaced position lies below a key named like its override; every used-up override occurs in the array |
| MockOverride.SearchValue | internal/pkg/mock/event/override.go:16-19 | an object or array is walked further and anything else is kept; the value changes only at replaced positions, one per used-up override; no override left is met anywhere the walk reaches in it; no replaced position lies below a key named like its override; every used-up override occurs in it |
| MockOverride.ReplacedAtMono | internal/pkg/mock/event/override.go:11-32 | replacements made with some overrides are still replacements when more overrides are allowed |
| MockOverride.PlacedReplace | internal/pkg/mock/event/override.go:13-15 | replacing a key's value adds exactly the one-step path to that key, using its override once, and keeps every visited key's replacements |
| MockOverride.PlacedSearch | internal/pkg/mock/event/override.go:16-19 | the positions replaced inside a searched value are added behind its key; no override is used at two positions |
| MockOverride.PlacedArrStep | internal/pkg/mock/event/override.go:25-30 | the positions replaced inside element i are added behind index i; earlier elements keep theirs; no override is used at two positions |
| MockOverride.OnceEachUnion | internal/pkg/mock/event/override.go:11-32 | overrides used up one walk after another, each once, are together used once each |
| MockOverride.ChangedScalarReplaced | internal/pkg/mock/event/override.go:13-17 | a scalar that changed one level below a key without an override marks its two-step path as replaced |
| MockOverride.OverrideUsedOnce | internal/pkg/mock/event/override.go:11-22 | the override {"a": 9} over {"x": {"a": 1}, "y": {"a": 2}} never replaces both nested "a" keys |
| MockOverride.MissedReplace | internal/pkg/mock/event/override.go:13-15 | replacing a key uses up its override, and no override still left is met at the visited keys |
| MockOverride.MissedSearch | internal/pkg/mock/event/override.go:16-19 | after searching a key's value, no override still left is met at the visited keys |
| MockOverride.MissedArrStep | internal/pkg/mock/event/override.go:25-30 | after searching element i, no override still left is met in the elements up to i |
| MockOverride.ScalarKeyReplaced | internal/pkg/mock/event/override.go:13-15 | a replaced position reaching the scalar under a key is that key itself, which took its override |
| MockOverride.NestedKeyTaken | internal/pkg/mock/event/override.go:11-22 | over an object {k1: {k2: v}} with a scalar v, the override {k2: v2} always replaces v and nothing is left to add at the top level |
| MockOverride.NestedKeyReached | internal/pkg/mock/event/override.go:34-54 | {"z": 8} over {"x": {"z": 1}} always yields {"x": {"z": 8}} |
| MockOverride.FirstOnPathStep | internal/pkg/mock/event/override.go:13-19 | a key passed without replacement had no override left, so the positions found below it, put behind it, pass no key named like their override |
| MockOverride.FirstOnPathPrefixed | internal/pkg/mock/event/override.go:16-19 | putting the positions found in a searched value behind its key or index keeps them below no key named like their override |
| MockOverride.OuterPathTaken | internal/pkg/mock/event/override.go:13-17 | a replaced position through a key without an override into a one-key object stops at that key, which took its override |
| MockOverride.OuterKeyTaken | internal/pkg/mock/event/override.go:11-22 | over {k1: {k2: {k2: v}}}, the override {k2: v2} always replaces the outer k2, giving {k1: {k2: v2}}, and nothing is left to add |
| MockOverride.AncestorKeyTaken | internal/pkg/mock/event/override.go:34-54 | {"a": 9} over {"x": {"a": {"a": 1}}} always yields {"x": {"a": 9}} |
| MockOverride.AddLeftover | internal/pkg/mock/event/override.go:46-48 | the result is the walked event with every leftover override added at the top level |
| MockOverride.EventOverrides | internal/pkg/mock/event/override.go:34-54 | the event's decode error comes first, then the overrides'; otherwise the result is exactly the walked event plus the leftover overrides, where the walked event keeps the event's keys, differs only at replaced positions, applies each used-up override at exactly one position, leaves over only overrides whose key the walk never meets at any depth, and replaces no value below a key named like the override it took; the event is refined only by overrides at their own keys; every added key is an override with its value; an override whose key occurs nowhere in the event is added; a top-level key occurring nowhere deeper takes its override |
| MockOverride.NoOverridesNoChange | internal/pkg/mock/event/override.go:45-48 | with no overrides, any result EventOverrides allows is the event itself |
| MockOpenapi.SelectedKeys | internal/pkg/mock/event/openapi.go:56-59 | with skipOptional and a required list only required properties are generated; otherwise every property |
| MockOpenapi.EventEntries | internal/pkg/mock/event/openapi.go:55-95 | the event holds exactly the selected properties, each with its own value; it fails exactly when some selected property fails, and each failing property's error is one the walk may report |
| MockOpenapi.GeneratedConforms | internal/pkg/mock/event/openapi.go:61-87 | every generated event has exactly the selected properties, each a member of its enum or a value of its declared type (an object may be null) |
| MockOpenapi.PropertyConforms | internal/pkg/mock/event/openapi.go:61-87 | the property half of the conformance: an enum's first value, or a default of the declared type |
| MockOpenapi.ConstructOpenapiEvent | internal/pkg/mock/event/openapi.go:54-96 | the walk, in any map order, returns the specified event or an error some order may report first |
| MockOpenapi.DefaultPropertyValue | internal/pkg/mock/event/openapi.go:60-92 | one property: the first enum value; else "" (the current time for date-time), 0, false, [] or the nested object, null at depth 0; an unknown type gives "invalid or unsupported property type …" |
| MockOpenapi.SupportedNeverFails | internal/pkg/mock/event/openapi.go:61-87 | when every schema has an enum or a supported type, generation never fails, at any depth |
| MockOpenapi.SupportedPropertyOk | internal/pkg/mock/event/openapi.go:61-87 | the property half of SupportedNeverFails |
| MockOpenapi.NestedErrorPropagates | internal/pkg/mock/event/openapi.go:80-86 | an error raised by a nested object is among the errors of every object that selects it |
| MockOpenapi.Outcome | internal/pkg/mock/event/openapi.go:13-51 | a nil event reference panics; then an empty reference, absent content, a load error, a document without components, without schemas, or without the referenced schema are refused in that order with their messages; a success is an object |
| MockOpenapi.GenerateOpenapiEvent | internal/pkg/mock/event/openapi.go:13-51 | the generator returns one of the outcomes the reference allows: its checks in order, then the event built from depth 20 or its error behind "failed to generate a mock event for the provided schema due to error: " |
| MockJsonschema.SelectedKeys | internal/pkg/mock/event/jsonschema.go:14-16 | with skipOptional and a required list only required properties are visited; otherwise every property |
| MockJsonschema.EventEntries | internal/pkg/mock/event/jsonschema.go:13-63 | the event holds exactly the selected properties that declare a type or a $ref, each with its own value; it fails exactly when some selected property fails, and every failing property's errors are among the event's |
| MockJsonschema.PropertyPresent | internal/pkg/mock/event/jsonschema.go:17-61 | a property that succeeds has a value exactly when it declares a type or a $ref |
| MockJsonschema.ConstructJsonschemaEvent | internal/pkg/mock/event/jsonschema.go:11-64 | the walk, in any map order, returns the specified event or an error some order may report first |
| MockJsonschema.ConstructProperty | internal/pkg/mock/event/jsonschema.go:17-61 | one property: its typed value, kept when it is an enum value, replaced by the $ref's event (null at depth 0 or when that event fails) |
| MockJsonschema.ConstructTyped | internal/pkg/mock/event/jsonschema.go:17-56 | more than one type is refused; no type gives nothing; else the first enum value or the single type's default ("" or the time, 0, null, false, the nested object, []); an unknown type is refused with its name |
| MockJsonschema.PropertyFails | internal/pkg/mock/event/jsonschema.go:42-50 | a selected property's error makes the event fail with that error among its possible errors |
| MockJsonschema.StandardTypesNeverFail | internal/pkg/mock/event/jsonschema.go:23-53 | with "boolean" as the boolean type name, single-typed schemas whose type is a draft-4 name never fail, at any depth |
| MockJsonschema.StandardPropertyOk | internal/pkg/mock/event/jsonschema.go:23-53 | the property half of StandardTypesNeverFail |
| MockJsonschema.BooleanPropertyFails | internal/pkg/mock/event/jsonschema.go:34-35 | as written, a property of JSON Schema type "boolean" makes generation fail with "invalid or unsupported property type" |
| MockJsonschema.BooleanPropertyIntended | internal/pkg/mock/event/jsonschema.go:34-35 | matching "boolean", the same schema gives the property the value false |
| MockJsonschema.Outcome | internal/pkg/mock/event/jsonschema.go:66-83 | empty content, then a non-empty event reference, are refused with their messages; a nil dereference panics; a success comes from a compiled schema and is an object |
| MockJsonschema.GenerateJsonschemaEvent | internal/pkg/mock/event/jsonschema.go:66-83 | the generator returns one of the outcomes: its checks in order, a compile error behind "error compiling schema: ", or the event from depth 20 or its error behind "error generating event: " |
| MockGenerate.Prefixed | internal/pkg/mock/event/generate.go:19-21 | a generator's success passes unchanged and each of its errors is put behind "error generating mock event: " |
| MockGenerate.Outcome | internal/pkg/mock/event/generate.go:7-24 | "OpenApi3" selects the OpenAPI generator, "JSONSchemaDraft4" the JSON Schema one, both with the same skipOptional; any other type is refused with "unsupported schema type found"; a nil type panics |
| MockGenerate.GenerateMockEvent | internal/pkg/mock/event/generate.go:7-24 | the entry point returns one of the outcomes its schema type allows |
| MockGenerate.GeneratorErrorsPrefixed | internal/pkg/mock/event/generate.go:19-21 | every error either generator may return reaches the caller behind the prefix |
| LegacyEvent.GenerateEvent | internal/pkg/event/event.go:15-50 | the walk, in any map order, returns exactly the specified event (None standing for a recursion that does not end) |
| LegacyEvent.PropertyValue | internal/pkg/event/event.go:18-47 | one property: "string", 1, the own schema's event for an object, a one-element array for a single items schema, replaced by the $ref's event |
| LegacyEvent.EventStops | internal/pkg/event/event.go:45-47 | a property whose generation does not end stops the whole event |
| LegacyEvent.EventValues | internal/pkg/event/event.go:15-50 | a finished event holds exactly the present property values |
| LegacyEvent.EventFromValues | internal/pkg/event/event.go:15-50 | a map holding exactly the present property values is the event |
| LegacyEvent.EventKeys | internal/pkg/event/event.go:18-47 | a property is present exactly when it has a $ref, a single type string, number or object, or type array with one items schema; integer, boolean and multi-typed properties are omitted |
| LegacyEvent.FuelMonotone | internal/pkg/event/event.go:15-50 | a generation that finishes gives the same event with any larger recursion budget, so the budget does not change results |
| LegacyEvent.ValueFuelMonotone | internal/pkg/event/event.go:18-47 | the property half of FuelMonotone |
| LegacyEvent.SelfReferenceDiverges | internal/pkg/event/event.go:45-47 | a schema with a property whose $ref is the schema itself never finishes, whatever the budget: there is no depth bound |
| Harness.ArnString | internal/pkg/harness/resource/queue/queue.go:29 | the text of an ARN starts with "arn:" and is as long as its five sections plus the five separators |
| Harness.ArnStringInjective | internal/pkg/harness/resource/queue/queue.go:29 | two ARNs whose first four sections hold no colon have the same text only when they are the same ARN |
| Harness.QueueResource | internal/pkg/harness/resource/queue/queue.go:25-31 | a queue is reported as "AWS::SQS::Queue" with its URL as physical id and its ARN's text |
| Harness.QueueResourceIdentifies | internal/pkg/harness/resource/queue/queue.go:25-31 | two queues with well-formed ARNs reported alike have the same URL and ARN |
| Harness.EventBusResource | internal/pkg/harness/resource/eventbus/eventbus.go:25-31 | an event bus is reported as "AWS::Events::EventBus" with its name as physical id and its ARN's text |
| Harness.EventBusResourceIdentifies | internal/pkg/harness/resource/eventbus/eventbus.go:25-31 | two event buses with well-formed ARNs reported alike are the same bus |
| Tags.ValidateTags | internal/pkg/harness/tags/tags.go:27-34 | user tags pass exactly when they hold no reserved key; otherwise the error names the first reserved key present in the order ID, Type, Target, Created |
| Tags.HasOneSystemTagKey | internal/pkg/harness/tags/tags.go:112-121 | true exactly when some filter's key is one of the four reserved keys |
| Tags.FirstValueFirst | internal/pkg/harness/tags/tags.go:123-132 | the first-tag search is empty exactly when no tag has the key, and otherwise holds the value of the first tag that has it |
| Tags.FirstTagValue | internal/pkg/harness/tags/tags.go:60-68 | the loop that stops at the first tag with the key yields that tag's value only |
| Tags.ExtractTestHarnessIDFromTags | internal/pkg/harness/tags/tags.go:123-132 | the first ID tag's value, as a list of at most one id |
| Tags.WithSystemFilter | internal/pkg/harness/tags/tags.go:84-87 | a value-less ID filter is added exactly when no filter names a reserved key; otherwise the filters are sent unchanged |
| Tags.CollectedFirstError | internal/pkg/harness/tags/tags.go:46-53 | reading the pages fails exactly when some page is an error, and then with the first page's error |
| Tags.ReadAllPages | internal/pkg/harness/tags/tags.go:44-53 | the paginator loop collects every page's mappings in order, or stops at the first page error |
| Tags.FirstsMembers | internal/pkg/harness/tags/tags.go:59-68 | a value is collected exactly when it is the first matching tag of some resource |
| Tags.GetTargetByTestHarnessID | internal/pkg/harness/tags/tags.go:37-80 | the lookup returns what the responses to the ID-tag request give: a page error behind "failed to get resources: ", "no resource found", "found multiple targets" with the distinct values, "found zero target", or the single target |
| Tags.TargetCollected | internal/pkg/harness/tags/tags.go:59-68 | every resource's first Target value is among the values compared |
| Tags.UniqueTarget | internal/pkg/harness/tags/tags.go:69-79 | over the resources read, the distinct targets are exactly [t] when some resource carries t and every resource with a Target tag carries t |
| Tags.TargetFoundIffUnique | internal/pkg/harness/tags/tags.go:37-80 | the target t is returned exactly when the pages read without error, some resource carries Target t first, and no resource carries another first Target value |
| Tags.FirstsAppend | internal/pkg/harness/tags/tags.go:93-102 | the ids of two batches of resources are the ids of the first followed by those of the second |
| Tags.GetTestHarnessIDsWithTagFilters | internal/pkg/harness/tags/tags.go:83-105 | the query sends the filters with the ID filter added when needed and returns the distinct first ID values of all resources, or the first page error |
| Tags.IdsDistinctAndComplete | internal/pkg/harness/tags/tags.go:93-104 | the ids returned have no duplicates and are exactly the first ID tag values of the resources read |
| StackInfo.Matching | internal/pkg/cloudformation/stack_info.go:53-56 | the stacks scanned on a page are the leading ones with the requested name: all of them carry it and the next one does not |
| StackInfo.GetStackOutput | internal/pkg/cloudformation/stack_info.go:38-71 | the call returns what the paginated responses for the stack name give: a page error unchanged, a nil-key panic, "Not all output keys found", or the collected outputs |
| StackInfo.ReadPage | internal/pkg/cloudformation/stack_info.go:53-63 | one page: the outputs of its leading stacks with the requested name, stopping at the first other name |
| StackInfo.ReadOutputs | internal/pkg/cloudformation/stack_info.go:58-62 | one stack: each output whose key was requested records its value, a later output overwriting an earlier one |
| StackInfo.ScanStacksStep | internal/pkg/cloudformation/stack_info.go:53-63 | scanning one more stack continues from the map the earlier stacks left |
| StackInfo.ScanPagesStep | internal/pkg/cloudformation/stack_info.go:46-64 | scanning one more page continues from the map the earlier pages left |
| StackInfo.ScanOutputsStops | internal/pkg/cloudformation/stack_info.go:58-62 | once an output panics, the rest of the stack changes nothing |
| StackInfo.ScanStacksStops | internal/pkg/cloudformation/stack_info.go:53-63 | once a stack fails, the rest of the page changes nothing |
| StackInfo.ScanPagesStops | internal/pkg/cloudformation/stack_info.go:46-64 | once a page fails, the remaining pages change nothing |
| StackInfo.ScanOutputsKeys | internal/pkg/cloudformation/stack_info.go:58-62 | scanning outputs adds exactly the requested keys among them |
| StackInfo.ScanStacksKeys | internal/pkg/cloudformation/stack_info.go:53-63 | scanning stacks adds exactly the requested keys among their outputs |
| StackInfo.ScanPagesKeys | internal/pkg/cloudformation/stack_info.go:46-64 | scanning pages adds exactly the requested keys among the outputs of the stacks it reaches |
| StackInfo.ScanOutputsValues | internal/pkg/cloudformation/stack_info.go:58-62 | every value a scan of outputs leaves is the starting one or the value of an output with that key |
| StackInfo.ScanStacksValues | internal/pkg/cloudformation/stack_info.go:53-63 | every value a scan of stacks leaves is the starting one or the value of an output with that key |
| StackInfo.ScanPagesValues | internal/pkg/cloudformation/stack_info.go:46-64 | every value a scan of pages leaves is the starting one or the value of an output with that key on a matching stack |
| StackInfo.StackOutputValues | internal/pkg/cloudformation/stack_info.go:58-62 | on success each key maps to the value of an output with that key on a stack of the requested name |
| StackInfo.StackOutputFound | internal/pkg/cloudformation/stack_info.go:66-70 | when the pages read cleanly, the call succeeds exactly when every requested key is an output key of a matching stack, and the map then holds the requested keys and no other |
| StackInfo.SubsetSameSize | internal/pkg/cloudformation/stack_info.go:66 | comparing the sizes of the found and requested key sets is comparing the sets |
| StackInfo.NoKeysRequested | internal/pkg/cloudformation/stack_info.go:38-71 | an empty request returns the empty map unless a page fails or a nil key panics |
| StackInfo.RepeatedKeysIgnored | internal/pkg/cloudformation/stack_info.go:39 | repeating a requested key changes nothing |
| StackInfo.PageErrorReturned | internal/pkg/cloudformation/stack_info.go:49-51 | a failing page ends the call with that page's error unchanged when the pages before it scanned cleanly |
| EventRule.RuleResource | internal/pkg/harness/resource/eventrule/eventrule.go:32-38 | a rule is reported as type AWS::Events::Rule, with its name as physical id and its ARN |
| EventRule.Target.constructor | internal/pkg/harness/resource/eventrule/eventrule.go:66-69 | a new target holds the queue's ARN and the listener's id and no input option |
| EventRule.EbClient.constructor | internal/pkg/harness/resource/eventrule/eventrule.go:180-200 | a new client has made no call |
| EventRule.EnumerationSize | internal/pkg/harness/resource/eventrule/eventrule.go:169-178 | the converted tags hold one tag per map entry |
| EventRule.TagsToEbTags | internal/pkg/harness/resource/eventrule/eventrule.go:169-178 | in any map order, each entry becomes one tag with its key and value, and no key appears twice |
| EventRule.Create | internal/pkg/harness/resource/eventrule/eventrule.go:40-63 | exactly one PutRule call with the name, description, bus, pattern and every tag; its error comes back as "put rule … failed: …", otherwise the rule echoes name, bus and pattern with the returned ARN |
| EventRule.Get | internal/pkg/harness/resource/eventrule/eventrule.go:152-167 | exactly one DescribeRule call; its error comes back naming rule and bus, otherwise the rule echoes name and bus and takes pattern and ARN from the answer |
| EventRule.SetInputTransformation | internal/pkg/harness/resource/eventrule/eventrule.go:91-112 | two or more of input, inputPath and inputTransformer are refused as mutually exclusive and leave the target unchanged; otherwise the given option is written in |
| EventRule.TransformedOnlyGiven | internal/pkg/harness/resource/eventrule/eventrule.go:96-109 | with no option the target is unchanged; with one, only that option's field changes |
| EventRule.PutQueueTarget | internal/pkg/harness/resource/eventrule/eventrule.go:65-89 | the option check comes first and a refusal makes no call; otherwise one PutTargets call with the single queue target, whose error comes back behind "put rule target failed: " |
| EventRule.TargetIds | internal/pkg/harness/resource/eventrule/eventrule.go:123-126 | the listed targets' ids, one per target in order, a nil id read as "" |
| EventRule.Delete | internal/pkg/harness/resource/eventrule/eventrule.go:114-150 | the calls made and the error returned are those of the delete sequence for the client's answers |
| EventRule.DeleteOrder | internal/pkg/harness/resource/eventrule/eventrule.go:114-150 | targets are listed first; RemoveTargets is called with every listed id exactly when the listing gave at least one target; DeleteRule comes last, only after the targets are removed; success means DeleteRule succeeded; every error names the rule |
| ListenerTypes.WrapInt32 | internal/pkg/harness/eventbridge/listener/types.go:205 | the visibility timeout is int32 arithmetic: the result lies in the int32 range, equals the true sum when that fits, and differs from it by a multiple of 2^32 |
| ListenerTypes.Options.constructor | internal/pkg/harness/eventbridge/listener/types.go:53-69 | new options have made no call and hold the given dependencies |
| ListenerTypes.TagsContents | internal/pkg/harness/eventbridge/listener/types.go:92-103 | the tags hold the four system keys and the custom keys and nothing else; every custom tag keeps its value, and each system tag keeps its value unless a custom tag overrides it |
| ListenerTypes.ComponentsOf | internal/pkg/harness/eventbridge/listener/types.go:109-118 | the components are the queue, then the rule, each present only when the listener holds it |
| ListenerTypes.JsonOf | internal/pkg/harness/eventbridge/listener/types.go:192-198 | the report carries the prefixed id, the event bus as the target under test and the components; a listener without a bus is a nil dereference |
| ListenerTypes.PolicyEmbeds | internal/pkg/harness/eventbridge/listener/types.go:248-262 | the queue policy names the queue's ARN as its resource, the rule's ARN as the source, and the rule's resource part in its id |
| ListenerTypes.EventsOf | internal/pkg/harness/eventbridge/listener/types.go:210-214 | one event per received message, in order, with its body and receipt handle, nil read as "" |
| ListenerTypes.BatchEntries | internal/pkg/harness/eventbridge/listener/types.go:222-228 | one batch entry per receipt handle, in order, entry i having the id i in decimal |
| ListenerTypes.BatchIdsDistinct | internal/pkg/harness/eventbridge/listener/types.go:223-227 | the entry ids of a batch are pairwise distinct |
| ListenerTypes.Listener.constructor | internal/pkg/harness/eventbridge/listener/types.go:71-86 | a new listener holds exactly the given fields and options |
| ListenerTypes.Listener.ID | internal/pkg/harness/eventbridge/listener/types.go:88-90 | the id is the listener's own id behind the prefix "iatk_eb_" |
| ListenerTypes.Listener.TagsAt | internal/pkg/harness/eventbridge/listener/types.go:92-103 | in any map order the loop yields the system tags overlaid with every custom tag |
| ListenerTypes.Listener.Deploy | internal/pkg/harness/eventbridge/listener/types.go:120-165 | the calls, the error and the new rule and queue fields are those of the deploy sequence; nothing else in the listener changes |
| ListenerTypes.Listener.DeployQueue | internal/pkg/harness/eventbridge/listener/types.go:134-164 | the rule is recorded, then the queue is created and recorded, then the target is put; the first failure stops it |
| ListenerTypes.Listener.Destroy | internal/pkg/harness/eventbridge/listener/types.go:167-190 | the calls, the error and the new rule and queue fields are those of the destroy sequence; nothing else changes |
| ListenerTypes.Listener.ReceiveEvents | internal/pkg/harness/eventbridge/listener/types.go:200-216 | one ReceiveMessage call on the queue with visibility timeout wait+5 (int32); its error comes back behind "failed to receive events: ", otherwise the events of the messages in order |
| ListenerTypes.Listener.DeleteEvents | internal/pkg/harness/eventbridge/listener/types.go:218-237 | an empty handle list is refused without a call; otherwise one DeleteMessageBatch call with the numbered entries, whose error comes back behind "failed to delete events: " |
| ListenerTypes.DeployOrder | internal/pkg/harness/eventbridge/listener/types.go:120-165 | the rule is created first, then the queue, then the target, each only after the step before succeeded; success means all three ran and the target was put; every failure is reported behind "failed to deploy eb listener <id>: " |
| ListenerTypes.QueueOrder | internal/pkg/harness/eventbridge/listener/types.go:149-164 | the queue half of DeployOrder: the rule is kept even when a later step fails |
| ListenerTypes.DestroyOrder | internal/pkg/harness/eventbridge/listener/types.go:167-190 | success clears both fields; the rule is deleted before the queue; the rule is deleted exactly when the listener had one; a failure leaves the field that failed, and the queue, as they were; with nothing to destroy no call is made |
| EbListener.ValidIdShape | internal/pkg/harness/eventbridge/listener/listener.go:52-66 | a listener id is valid exactly when it is "iatk_eb_" followed by a 20-character text that decodes as an xid |
| EbListener.QueueName | internal/pkg/harness/eventbridge/listener/listener.go:109-111 | a listener's queue is named by the listener's id |
| EbListener.RuleName | internal/pkg/harness/eventbridge/listener/listener.go:113-115 | a listener's rule is named by the listener's id |
| EbListener.Get | internal/pkg/harness/eventbridge/listener/listener.go:69-107 | the calls made and the listener returned (fresh, holding the given options) or the error are those of the lookup |
| EbListener.GetFound | internal/pkg/harness/eventbridge/listener/listener.go:69-107 | an invalid id fails with "invalid ID" before any call; a found listener has the requested id, the queue named by it, and a rule exactly when the queue's bus tag is non-empty and the rule was found on that bus |
| EbListener.Create | internal/pkg/harness/eventbridge/listener/listener.go:118-133 | on success the listener is deployed and its JSON returned; when deployment fails it is destroyed exactly once and the deployment's error is returned behind "failed to create eb listener <id>: ", whatever the rollback did |
| EbListener.DestroySingle | internal/pkg/harness/eventbridge/listener/listener.go:176-186 | the listener is destroyed, and a failure is returned behind "failed to destroy eb listener <quoted id>: " |
| EbListener.Arns | internal/pkg/harness/eventbridge/listener/listener.go:188-194 | the ARN of each resource, one per resource in order |
| EbListener.DestroyMultipleOptions.constructor | internal/pkg/harness/eventbridge/listener/listener.go:196-210 | new options have made no call |
| EbListener.DestroyMultiple | internal/pkg/harness/eventbridge/listener/listener.go:135-174 | one lookup per distinct id in first-occurrence order, then one destruction per listener found, in order; no error exactly when nothing failed, otherwise every lookup failure then every destruction failure joined by ", " behind "failed to destroy following listener(s): " |
| EbListener.FetchAll | internal/pkg/harness/eventbridge/listener/listener.go:142-151 | the lookup loop: one call per id; the listeners found and the failures, each in order |
| EbListener.DestroyAll | internal/pkg/harness/eventbridge/listener/listener.go:153-159 | the destruction loop: one call per listener; the failures in order |
| EbListener.JoinReasons | internal/pkg/harness/eventbridge/listener/listener.go:161-168 | the reasons joined with ", " between consecutive ones and none after the last |
| EbListener.DestroyMultipleFails | internal/pkg/harness/eventbridge/listener/listener.go:135-174 | the call fails exactly when some lookup fails or some fetched listener's destruction fails |
| EbListener.GetFailuresEmpty | internal/pkg/harness/eventbridge/listener/listener.go:142-151 | no lookup failure is recorded exactly when every lookup succeeds |
| EbListener.DestroyFailuresEmpty | internal/pkg/harness/eventbridge/listener/listener.go:153-159 | no destruction failure is recorded exactly when every destruction succeeds |
| EbListener.FetchedComplete | internal/pkg/harness/eventbridge/listener/listener.go:142-151 | every listener found is destroyed, and only listeners found are |
| EbListener.Bodies | internal/pkg/harness/eventbridge/listener/listener.go:254-257 | the bodies of the events, one per event in order |
| EbListener.Handles | internal/pkg/harness/eventbridge/listener/listener.go:254-257 | the receipt handles of the events, one per event in order |
| EbListener.PollEvents | internal/pkg/harness/eventbridge/listener/listener.go:247-265 | receive once; when something arrived, delete exactly those messages in one batch with their handles in received order; return the bodies in received order; either failure returns no bodies, behind "failed to poll events: " |
| EbListener.Split | internal/pkg/harness/eventbridge/listener/listener.go:252-257 | the loop separates handles and bodies, each in received order |
| EbListener.DeleteReceived | internal/pkg/harness/eventbridge/listener/listener.go:252-264 | with nothing received no call is made and no bodies are returned; otherwise one batch deletes every received handle, and the bodies come back in received order unless that deletion fails |
| EbListener.PollEventsOrder | internal/pkg/harness/eventbridge/listener/listener.go:247-265 | the i-th body returned and the i-th handle deleted are those of the i-th message received |
| JsonRpc.GlueCut | internal/pkg/jsonrpc/jsonrpc.go:43 | cutting a text at a character and gluing the halves back gives the text |
| JsonRpc.CutGlue | internal/pkg/jsonrpc/jsonrpc.go:43 | gluing halves whose head lacks the character and cutting again gives the halves |
| JsonRpc.FormatParse | internal/pkg/jsonrpc/jsonrpc.go:43 | every text is the format of its own parse into core, pre-release and build parts |
| JsonRpc.ParseFormat | internal/pkg/jsonrpc/jsonrpc.go:43 | a well-formed version is parsed back into exactly its parts |
| JsonRpc.SemVerExactly | internal/pkg/jsonrpc/jsonrpc.go:43-47 | the version pattern accepts exactly the texts of well-formed Semantic Versioning 2.0.0 versions: three numeric identifiers without leading zeros, optional dot-separated pre-release identifiers, optional build identifiers |
| JsonRpc.JoinFree | internal/pkg/jsonrpc/jsonrpc.go:43 | a character absent from the parts and the separator is absent from their join |
| JsonRpc.PrereleaseAccepted | internal/pkg/jsonrpc/jsonrpc.go:43 | a version such as 1.0.0-beta passes the pattern |
| JsonRpc.CoreAccepted | internal/pkg/jsonrpc/jsonrpc.go:43 | three numeric identifiers separated by dots pass the pattern |
| JsonRpc.DecimalCoreAccepted | internal/pkg/jsonrpc/jsonrpc.go:43 | any three natural numbers written in decimal make a version that passes |
| JsonRpc.DecimalNumeric | internal/pkg/jsonrpc/jsonrpc.go:43 | a natural number written in decimal has no leading zero |
| JsonRpc.UserAgentUnknown | internal/pkg/jsonrpc/jsonrpc.go:35-56 | the user agent is "unknown" exactly when the client is not "python" ignoring case, the version fails the pattern, or the caller is not a letter or "_" followed by 1 to 99 letters, digits, "_" or "." |
| JsonRpc.UserAgentFields | internal/pkg/jsonrpc/jsonrpc.go:55 | for accepted metadata whose client version holds no "#", the "#"-separated fields of the value are "python", the client version, the version and the caller |
| JsonRpc.VersionFree | internal/pkg/jsonrpc/jsonrpc.go:43-55 | a version that passes the pattern holds no "#", so it cannot shift the fields |
| JsonRpc.PartsHashFree | internal/pkg/jsonrpc/jsonrpc.go:43 | no part of a well-formed version holds a "#" |
| JsonRpc.ParseError | internal/pkg/jsonrpc/error.go:3-12 | a JSON-RPC 2.0 error response for the request's id, with no result, code -32700 and "Parse error" |
| JsonRpc.NoMethodFoundError | internal/pkg/jsonrpc/error.go:14-23 | a JSON-RPC 2.0 error response for the request's id, with no result, code -32601 and "Method not found" |
| JsonRpc.InternalServiceError | internal/pkg/jsonrpc/error.go:25-34 | a JSON-RPC 2.0 error response for the request's id, with no result, code -32603 and "Internal error" |
| JsonRpc.InvalidParamsError | internal/pkg/jsonrpc/error.go:36-45 | a JSON-RPC 2.0 error response for the request's id, with no result, code -32602 and "Invalid params" |
| JsonRpc.ErrorCodesDistinct | internal/pkg/jsonrpc/error.go:3-45 | the four replies carry four distinct codes, all in the range -32768..-32000 reserved for pre-defined errors |
| PublicRpc.Defaulted | internal/pkg/public-rpc/poll_events.go:74-81 | an absent number takes its default and a present one is kept |
| PublicRpc.PollEventsParams.constructor | internal/pkg/public-rpc/poll_events.go:15-21 | new parameters hold exactly the decoded fields |
| PublicRpc.PollEventsParams.SetDefaultValues | internal/pkg/public-rpc/poll_events.go:74-81 | a missing wait becomes 0 and a missing maximum 1; present values and the listener id are unchanged |
| PublicRpc.PollEventsParams.Check | internal/pkg/public-rpc/poll_events.go:23-29 | the defaults are filled in first and the validation then runs on the completed parameters |
| PublicRpc.PollDefaultsValidate | internal/pkg/public-rpc/poll_events.go:59-72 | once the defaults are in, validation never dereferences nil; it passes exactly when the listener id is given, the maximum is 1..10 and the wait 0..20, and otherwise names the first failing check in that order |
| PublicRpc.ValidateAddEbListener | internal/pkg/public-rpc/add_eb_listener.go:63-71 | passes exactly when both the bus name and the rule name are given; the bus name is reported first |
| PublicRpc.CheckAddEbListener | internal/pkg/public-rpc/add_eb_listener.go:24-33 | the required parameters are checked before the tags; tags pass exactly when they hold no reserved key, and otherwise the first reserved key is reported behind "invalid tags: " |
| PublicRpc.ValidateGenerateMockEvent | internal/pkg/public-rpc/generate_mock_event.go:77-94 | both names are required; then passes exactly when every context is "eventbridge.v0", and otherwise names the first context that is not, with the supported list |
| PublicRpc.GenerateMockEvent | internal/pkg/public-rpc/generate_mock_event.go:97-109 | the stub returns an empty event and no error whatever the schema |
| PyContext.Dict.constructor | python-client/src/aws_iatk/context_generation.py:4 | a new dict holds exactly the given items |
| PyContext.Dict.FillKey | python-client/src/aws_iatk/context_generation.py:18-19 | the key gets the value exactly when it is missing or falsy; nothing else changes |
| PyContext.Dict.FillKeyUnlessSet | python-client/src/aws_iatk/context_generation.py:20-21 | the key gets the value exactly when it is missing, falsy or ""; nothing else changes |
| PyContext.EventbridgeEventContext | python-client/src/aws_iatk/context_generation.py:4-35 | the same dict is returned, updated in place by the eight defaulting steps in order |
| PyContext.FillUnlessSetIsFill | python-client/src/aws_iatk/context_generation.py:20-25 | the extra test against "" for id, detail-type and source changes nothing, since "" is already falsy |
| PyContext.WithContextFillAll | python-client/src/aws_iatk/context_generation.py:18-33 | the eight steps are the eight defaults filled in order |
| PyContext.DefaultsKeys | python-client/src/aws_iatk/context_generation.py:18-33 | the defaults cover exactly the eight EventBridge keys, each once |
| PyContext.DefaultsDistinct | python-client/src/aws_iatk/context_generation.py:18-33 | the eight keys differ pairwise |
| PyContext.FillAllValues | python-client/src/aws_iatk/context_generation.py:18-33 | filling distinct keys: each gets its default unless it already held a truthy value, and every other key keeps its value |
| PyContext.KeysOfIndex | python-client/src/aws_iatk/context_generation.py:18-33 | a key is filled exactly when some default names it |
| PyContext.ContextValues | python-client/src/aws_iatk/context_generation.py:4-35 | afterwards all eight keys are present; each keeps a truthy old value and otherwise gets "0", the fresh id, "detail-type", "source", "123456789101", the time, "us-east-1" or []; no other key changes |
| PyContext.ContextSize | python-client/src/aws_iatk/context_generation.py:4-35 | the dict grows by exactly the number of event keys it lacked |
| PyContext.DisjointUnionSize | python-client/src/aws_iatk/context_generation.py:4-35 | two disjoint key sets together have the sum of their sizes |
| PyContext.ContextIdempotent | python-client/src/aws_iatk/context_generation.py:4-35 | applying the context to an event it already filled changes nothing, whatever the new id and time |
| PyContext.FillAllIdempotent | python-client/src/aws_iatk/context_generation.py:18-33 | filling again with the same keys changes nothing when each first value is truthy or equal to the second |
| PyContext.SameKeys | python-client/src/aws_iatk/context_generation.py:18-33 | two default lists with the same keys position by position cover the same keys |
| PyContext.DefaultsStable | python-client/src/aws_iatk/context_generation.py:18-33 | a second call's defaults have the same keys, and each first default is truthy or equal to the second |
| PyRetryXray.NewRetryParams | python-client/src/zion/retry_xray_trace.py:31-43 | a header that is not a string is refused first; then the timeout must be 0..999; accepted values are stored unchanged |
| PyRetryXray.NewRetryParamsDefault | python-client/src/zion/retry_xray_trace.py:35 | without a timeout the parameters are accepted exactly when the header is a string, with timeout 30 |
| PyRetryXray.TimeoutRangesDiffer | python-client/src/zion/retry_xray_trace.py:39-40 | the accepted timeouts are those the event-matching parameters accept plus 0, which only this class allows |

## Left out

- Logging (`log.Printf`, Python `logging`) is not modelled. It changes no result.
- Loading AWS configuration and building SDK clients is not modelled. Each RPC's parameter checks are modelled, and those run before any configuration is loaded.
- Concurrency is not modelled. Nothing in the core runs concurrently; `maxConcurrency` in `listener.go` is never read.
- JSON encoding (`json.Marshal`, `json.dumps`, `Response.Encode`) is not modelled. Generators return the decoded value they would encode.
- Floating point is replaced by integers. Start times are an ordered integer key. The Python retry loop counts time in whole milliseconds, where its back-off delay of 2^attempt × 0.05 s is exactly 50·2^attempt ms.
- The clock (`time.Now`, `datetime.now`), `uuid4` and `xid.New` are parameters. Decoding an xid, `arn.Parse`, the OpenAPI loader and the JSON Schema compiler are parameters too, because they belong to libraries.
- IatkClient: the clock is a sequence of readings. A loop that outlasts the readings ends with `OutOfInput`, which stands for running longer than modelled.
- Regular expressions are modelled as the grammar they match: the Semantic Versioning 2.0.0 pattern and the caller pattern of `jsonrpc.go`.
- Text.Quote: Go's `%q` is modelled as the text between double quotes, without escaping special characters.
- Text.ToLower: lower-cases ASCII letters only, not all of Unicode.
- ListenerTypes.Listener.ReceiveEvents: `int32` parameters are required to lie in the int32 range. Only the `+ 5` of the visibility timeout is modelled with wrap-around.
- LegacyEvent.GenerateEvent: carries a recursion budget (fuel). `None` stands for the non-termination that a `$ref` cycle causes in the source.
- XrayTrace.Get: the loop that repeats while traces are unprocessed is bounded by a round limit. The outcome `Unfinished` stands for rounds beyond it.
- Several loop bodies of the source are separate methods here, for example `XrayTree.HangLinkedTree`, `XrayTree.AttachLinkedRoot`, `MockOverride.SearchValue`, `MockOpenapi.DefaultPropertyValue`, `MockJsonschema.ConstructTyped` and `ListenerTypes.Listener.DeployQueue`. The source writes them inline.
- `listener.New` (`listener.go:25-50`) is not modelled: it only chains three lookups and has no logic of its own.
- `cloudformation.GetPhysicalId` and `event.GenerateEventString` are not modelled. They forward one API or library call.
- `getEventBusNameFromQueue`: its error is only logged in `Get`, so it is modelled as returning the bus name, "" when unknown.
- `DestroyMultiple` reaches listeners only through its injected `Get` and `destroySingle` functions. Each fetched listener is represented there by its id.
- The listener's `putQueueTarget` dependency (`types.go:297`) takes a target, while `eventrule.PutQueueTarget` takes input options. The listener's call is modelled as an abstract dependency, and `EventRule.PutQueueTarget` is modelled on its own.
- ZionXray: the `http` and `sql` records of a segment are not decoded, and neither are the request, response, stack-frame, exception and service records. A cause keeps its exceptions as raw dicts.
- ZionXray: Python iterates over whatever value sits under a list key, including a string or a dict. The model treats such a value as a decoding error.
- The `to_payload` helper of `aws_iatk/poll_events.py:60-61` is not modelled separately. It only wraps `to_dict`, which is modelled.
- Python exceptions are modelled as `Err` results carrying the exception's message.
- XrayTypes: segment, subsegment and link ids and link attributes are plain values, so they are assumed present. The source dereferences them at `internal/pkg/xray/tree.go:63`, `:109-110`, `:116-117`, `:133` and `:145` and panics when one is nil; those panics are not modelled.
- BuildTree: when the linked fetch succeeds, the contract does not say when the nested builds of the fetched traces succeed; it only says what a returned tree holds. A nested failure is a wrapped build error or the nil-segment panic.
- NewTree: a tree is promised only when links are not followed or no segment has a child link. Otherwise the set of linked traces depends on which segment the sort puts first, and success also needs the linked fetch and the nested builds to succeed.
- MockOverride.EventOverrides: with several overrides, the contract does not say that the positions they took come from one map iteration order. Over {"x": {"a": 1, "b": 1}, "y": {"a": 2, "b": 2}} with overrides "a" and "b", it allows "a" replaced under "x" and "b" under "y"; Go visits "x" or "y" first and replaces both keys there. A witness order for every nested object is not part of the model.
- MockOverride.OverridesMap: the same gap within one object's walk: the replaced positions are not tied to a single order of visiting its keys and the keys of the objects inside it.
- MockOverride.SearchValue: the same gap for a searched value: its replaced positions are not tied to a single visiting order.
- MockOverride.OverridesArray: the contract says each used-up override is applied at exactly one position, but not that, within an array, the earliest element in index order that holds the key is the one that takes it.

## Findings

| source | as written | input that shows it | evidently intended | confidence | as-written member | corrected member |
|---|---|---|---|---|---|---|
| python-client/src/aws_iatk/jsonrpc.py:42-44 | `to_dict` reads `caller["dedup_key"]` whenever the caller dict is non-empty | the dict `{"caller": …, "request_id": …}` that `wait_until_event_matched` (`__init__.py:353`) and `retry_get_trace_tree_until` (`__init__.py:647`) pass raises KeyError: 'dedup_key' | missing keys fall back: the caller's name or the method name, and the dedup key or the request id | not executed | PyJsonRpc.InternalCallerKeyError | PyJsonRpc.InternalCallerIntended |
| internal/pkg/mock/event/jsonschema.go:34 | the type switch matches "bool" | a draft-4 schema whose property has `"type": "boolean"` fails with "invalid or unsupported property type" | "boolean", the JSON Schema type name, gives the default false | not executed | MockJsonschema.BooleanPropertyFails | MockJsonschema.BooleanPropertyIntended |
