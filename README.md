# java-debug: breakpoints and stack traces, modelled in Dafny

This project models two parts of the Java debug adapter (`com.microsoft.java.debug.core`).

**The line or method breakpoint (`Breakpoint.java`).**
- Its name may carry a method signature: `Class#name#signature` is split at the first `#`.
- Installing it creates two class-prepare requests and subscribes to their events.
- It resolves breakpoint requests for the classes already loaded and for classes loaded later.
- A resolution finds locations by line or by method. Locations that an existing breakpoint request already watches are dropped. The rest become enabled breakpoint requests carrying the hit count and the request type.
- Each install's future is completed, and the breakpoint marked verified, the first time a batch of new requests is non-empty.
- `setHitCount` stores the new count and is written to add it as a count filter to every breakpoint request and enable it. In the model it does so; under JDI's rules the call fails instead (see "## Left out"). `close` drops every request and subscription.

**The `stackTrace` request handler (`StackTraceRequestHandler.java`).**
- It validates the request's bounds and computes how many frames the page covers.
- It invalidates or reloads the thread's cached stack.
- It derives each frame's source name and path, including for classes without source information.
- It converts each frame into a client frame under a fresh frame id. The conversion covers the display name, client line, the "subtle" hint and the native marker.
- It looks sources up through a per-type URI cache that asks the source-lookup provider at most once per type name.

The files:
- `basics.dfy`: `Option` (Java's `null`) and `Result` (a value or the exception thrown).
- `java_strings.dfy`: the `String` operations the core relies on (`indexOf`, `lastIndexOf`, `replace`, `split`, `String.join`, `StringUtils.isBlank`) and lemmas about them.
- `breakpoints.dfy`: the breakpoint. Location search and deduplication are functions. `Breakpoint` is a class whose methods update its requests, subscriptions and futures.
- `stack_trace.dfy`: the handler.
  - Frame resolution, display names, sources and page conversion are functions.
  - The loops of `handle` and `resolveStackFrameInfos` are methods proved against those functions.
  - `AdapterContext` is a class holding the session state the handler mutates: the stack-frame cache, the frame-id pool and the source-lookup cache.

## Model

| member | source | states |
|---|---|---|
| Breakpoints.SplitClassName | com.microsoft.java.debug.core/src/main/java/com/microsoft/java/debug/core/Breakpoint.java:61-66 | the class name holds no '#'; a name with '#' is class name + "#" + signature; a name without one is kept whole with no signature |
| Breakpoints.SplitClassNameInjective | com.microsoft.java.debug.core/src/main/java/com/microsoft/java/debug/core/Breakpoint.java:61-66 | two names that give the same class name and signature are the same name |
| Breakpoints.Breakpoint.constructor | com.microsoft.java.debug.core/src/main/java/com/microsoft/java/debug/core/Breakpoint.java:58-75 | the new breakpoint keeps the split name, line, hit count, condition and log message, and has no requests, subscriptions or futures |
| Breakpoints.Breakpoint.Equals | com.microsoft.java.debug.core/src/main/java/com/microsoft/java/debug/core/Breakpoint.java:123-132 | two breakpoints are equal exactly when they were created for the same name and the same line |
| Breakpoints.Breakpoint.Close | com.microsoft.java.debug.core/src/main/java/com/microsoft/java/debug/core/Breakpoint.java:93-104 | afterwards no request and no subscription is left; futures, verified flag, hit count, condition and log message are unchanged |
| Breakpoints.Breakpoint.SetHitCount | com.microsoft.java.debug.core/src/main/java/com/microsoft/java/debug/core/Breakpoint.java:145-154 | the hit count is the new one; each breakpoint request gets the count as an extra count filter and is enabled; class-prepare requests and everything else stay as they were |
| Breakpoints.WithHitCount | com.microsoft.java.debug.core/src/main/java/com/microsoft/java/debug/core/Breakpoint.java:148-153 | one request per request, in order; class-prepare requests are kept as they are; each breakpoint request keeps its location and request type, is enabled, and has the hit count appended to its count filters |
| Breakpoints.WithHitCountKeepsLocations | com.microsoft.java.debug.core/src/main/java/com/microsoft/java/debug/core/Breakpoint.java:148-153 | changing the hit count leaves the watched locations as they were |
| Breakpoints.Breakpoint.Subscribe | com.microsoft.java.debug.core/src/main/java/com/microsoft/java/debug/core/Breakpoint.java:185-213 | install adds the class-prepare requests for the class and for `class$*`, a new future that is not done, and a live subscription for it |
| Breakpoints.Breakpoint.AddResolved | com.microsoft.java.debug.core/src/main/java/com/microsoft/java/debug/core/Breakpoint.java:207-211 | the new requests are appended; the install's future is completed exactly when the batch is non-empty and it was not done; it is never completed twice; verified follows |
| Breakpoints.Breakpoint.AddRequestsFor | com.microsoft.java.debug.core/src/main/java/com/microsoft/java/debug/core/Breakpoint.java:204-227 | one resolution: resolved exactly when the locations can be collected; the requests created against the existing ones are appended, and the install's future is completed (and the breakpoint verified) when that batch is non-empty; subscriptions, hit count, condition and log message are unchanged |
| Breakpoints.Breakpoint.Install | com.microsoft.java.debug.core/src/main/java/com/microsoft/java/debug/core/Breakpoint.java:182-238 | afterwards the requests are the two class-prepare requests followed by the requests resolved for the loaded types (nested types included); the new future is done and the breakpoint verified exactly when that batch is non-empty; resolving fails exactly when the signature cannot be split and a type is loaded |
| Breakpoints.Breakpoint.OnClassPrepare | com.microsoft.java.debug.core/src/main/java/com/microsoft/java/debug/core/Breakpoint.java:198-212 | a class-prepare event on a live subscription appends the requests resolved for the loaded type (no nested types) and completes the future the first time a batch is non-empty; a disposed subscription changes nothing |
| Breakpoints.FindMethodLocation | com.microsoft.java.debug.core/src/main/java/com/microsoft/java/debug/core/Breakpoint.java:298-311 | null exactly when no concrete method has the name and either signature; otherwise the location of the first such method |
| Breakpoints.MethodLocationsMembers | com.microsoft.java.debug.core/src/main/java/com/microsoft/java/debug/core/Breakpoint.java:284-296 | a location is found by method exactly when it is the first matching method's location in some type |
| Breakpoints.MethodSegmentsOfSpec | com.microsoft.java.debug.core/src/main/java/com/microsoft/java/debug/core/Breakpoint.java:285-291 | `name#signature` splits back into the name and the signature |
| Breakpoints.MethodSegmentsNeedTwoParts | com.microsoft.java.debug.core/src/main/java/com/microsoft/java/debug/core/Breakpoint.java:285-291 | a signature with no second '#'-separated segment, for example one with no '#' at all, has no segment 1 to search for |
| Breakpoints.MethodSegments | com.microsoft.java.debug.core/src/main/java/com/microsoft/java/debug/core/Breakpoint.java:285-291 | segments 0 and 1 exist only when the signature holds a `#`; neither holds a `#`, and segment 0 is the text before the first `#` |
| Breakpoints.CollectLocationsByMethod | com.microsoft.java.debug.core/src/main/java/com/microsoft/java/debug/core/Breakpoint.java:329-336 | a method breakpoint for `name#signature` always resolves, whatever its line, and a location is among the resolved ones exactly when it is the first matching method's location in some type |
| Breakpoints.CollectLocations | com.microsoft.java.debug.core/src/main/java/com/microsoft/java/debug/core/Breakpoint.java:329-336 | resolution fails exactly when there is a signature, a type to search, and no segment 1; a line breakpoint resolves to the line's locations across the types; a method breakpoint finds at most one location per type |
| Breakpoints.LocationsOfLine | com.microsoft.java.debug.core/src/main/java/com/microsoft/java/debug/core/Breakpoint.java:313-322 | a method without line information has no locations; any locations it gives are exactly its line table's entry for the line |
| Breakpoints.MethodLineLocationsMembers | com.microsoft.java.debug.core/src/main/java/com/microsoft/java/debug/core/Breakpoint.java:240-253 | a location is found for a line in a type exactly when some method's line table lists it; a method without line information contributes nothing |
| Breakpoints.NestedLineLocations | com.microsoft.java.debug.core/src/main/java/com/microsoft/java/debug/core/Breakpoint.java:271-277 | the nested-type fallback is empty exactly when no nested type has locations at the line; otherwise it gives the locations of the first nested type that has some |
| Breakpoints.TypeLineLocations | com.microsoft.java.debug.core/src/main/java/com/microsoft/java/debug/core/Breakpoint.java:264-282 | the type's own locations when it has some; otherwise the nested-type fallback when it is allowed; otherwise none |
| Breakpoints.LineLocationsMembers | com.microsoft.java.debug.core/src/main/java/com/microsoft/java/debug/core/Breakpoint.java:255-262 | a location is found for a line across types exactly when it is found in one of them |
| Breakpoints.LineLocations | com.microsoft.java.debug.core/src/main/java/com/microsoft/java/debug/core/Breakpoint.java:255-262 | nothing is found across the types exactly when nothing is found in each of them |
| Breakpoints.WatchedLocations | com.microsoft.java.debug.core/src/main/java/com/microsoft/java/debug/core/Breakpoint.java:340-344 | the locations of the breakpoint requests among the requests, in order |
| Breakpoints.Unwatched | com.microsoft.java.debug.core/src/main/java/com/microsoft/java/debug/core/Breakpoint.java:347-350 | the resolved locations that are not already watched, in order |
| Breakpoints.UnseenMembers | com.microsoft.java.debug.core/src/main/java/com/microsoft/java/debug/core/Breakpoint.java:347-350 | a location survives deduplication exactly when it was resolved and is not already watched |
| Breakpoints.UnseenDistinct | com.microsoft.java.debug.core/src/main/java/com/microsoft/java/debug/core/Breakpoint.java:347-350 | deduplication keeps a repetition-free batch repetition-free |
| Breakpoints.UnseenCounts | com.microsoft.java.debug.core/src/main/java/com/microsoft/java/debug/core/Breakpoint.java:347-350 | a location already watched is dropped every time it occurs; any other keeps every occurrence of the batch |
| Breakpoints.CreateRequests | com.microsoft.java.debug.core/src/main/java/com/microsoft/java/debug/core/Breakpoint.java:352-362 | one new request per remaining location, in order |
| Breakpoints.RequestsAt | com.microsoft.java.debug.core/src/main/java/com/microsoft/java/debug/core/Breakpoint.java:352-362 | the i-th new request is the enabled breakpoint request at the i-th location, with a count filter only for a positive hit count |
| Breakpoints.LocationsOfNewRequests | com.microsoft.java.debug.core/src/main/java/com/microsoft/java/debug/core/Breakpoint.java:352-362 | the new requests watch exactly the locations they were created for, in order |
| Breakpoints.Breakpoint.CreateBreakpointRequests | com.microsoft.java.debug.core/src/main/java/com/microsoft/java/debug/core/Breakpoint.java:329-389 | fails exactly when location collection fails; otherwise the new requests are enabled breakpoint requests with the hit-count filter and the request type, none at a location an existing request watches |
| Breakpoints.NewRequestsShape | com.microsoft.java.debug.core/src/main/java/com/microsoft/java/debug/core/Breakpoint.java:338-362 | every created request is an enabled breakpoint request with the request type, with the count filter exactly when the hit count is positive, at an unwatched location |
| Breakpoints.NewRequestsWatchUnwatchedLocations | com.microsoft.java.debug.core/src/main/java/com/microsoft/java/debug/core/Breakpoint.java:338-362 | a location gets a new request exactly when it was resolved and was not watched already |
| Breakpoints.NewRequestsKeepBatchRepeats | com.microsoft.java.debug.core/src/main/java/com/microsoft/java/debug/core/Breakpoint.java:338-362 | a location not yet watched gets as many new requests as it occurs in the resolved batch; a watched one gets none |
| Breakpoints.OtherLoaderTypeGetsRequests | com.microsoft.java.debug.core/src/main/java/com/microsoft/java/debug/core/Breakpoint.java:338-362 | a resolved location in a type that no existing request watches gets a request, even when a same-named type of another loader is watched |
| Breakpoints.NewRequestsIdempotent | com.microsoft.java.debug.core/src/main/java/com/microsoft/java/debug/core/Breakpoint.java:338-362 | once its requests exist, resolving the same locations again creates nothing |
| Breakpoints.NewRequestsKeepLocationsDistinct | com.microsoft.java.debug.core/src/main/java/com/microsoft/java/debug/core/Breakpoint.java:338-362 | when the existing watched locations and the resolved batch have no repetitions, the watched locations afterwards have none either |
| Breakpoints.ComputeRequestType | com.microsoft.java.debug.core/src/main/java/com/microsoft/java/debug/core/Breakpoint.java:391-401 | the type is "line" exactly without a signature, "lambda" exactly for a signature starting with `lambda$`, and "method" otherwise |
| Breakpoints.LambdaRequestSearchesLambdaMethod | com.microsoft.java.debug.core/src/main/java/com/microsoft/java/debug/core/Breakpoint.java:391-401 | a lambda-typed breakpoint searches for a method whose name starts with `lambda$` |
| StackTrace.Handle | com.microsoft.java.debug.core/src/main/java/com/microsoft/java/debug/core/adapter/handler/StackTraceRequestHandler.java:59-105 | negative bounds or no thread: empty body, total 0, nothing touched; not suspended: empty, total 0; start past the end: empty with the total; on both, the stack cache is only invalidated (dropped for the thread when the page starts at 0) and the id pool and source cache are untouched; otherwise the total, the invalidated cache with the thread's whole stack cached when it did not cover the page, and the page of converted frames, with ids consecutive from the pool's next id, each bound to its thread and depth, and exactly one more id used when a conversion threw; other threads' cached stacks never change |
| StackTrace.FrameCount | com.microsoft.java.debug.core/src/main/java/com/microsoft/java/debug/core/adapter/handler/StackTraceRequestHandler.java:79-80 | all frames from the start when levels is 0; otherwise the smaller of levels and the frames left |
| StackTrace.Invalidated | com.microsoft.java.debug.core/src/main/java/com/microsoft/java/debug/core/adapter/handler/StackTraceRequestHandler.java:74-76 | a request for frame 0 drops exactly the thread's cached stack and no other |
| StackTrace.AdapterContext.ClearStackFrames | com.microsoft.java.debug.core/src/main/java/com/microsoft/java/debug/core/adapter/handler/StackTraceRequestHandler.java:74-76 | the thread's cached stack is dropped and nothing else changes |
| StackTrace.AdapterContext.ReloadStackFrames | com.microsoft.java.debug.core/src/main/java/com/microsoft/java/debug/core/adapter/handler/StackTraceRequestHandler.java:86 | the slice from the cached stack when it covers it; otherwise from the suspended thread, whose whole stack is cached; otherwise a failure |
| StackTrace.PageFrames | com.microsoft.java.debug.core/src/main/java/com/microsoft/java/debug/core/adapter/handler/StackTraceRequestHandler.java:86 | the page has the requested number of frames, and they are the live thread's frames when nothing is cached for it |
| StackTrace.ShowPage | com.microsoft.java.debug.core/src/main/java/com/microsoft/java/debug/core/adapter/handler/StackTraceRequestHandler.java:85-93 | the stack cache is kept when it covers the page and otherwise takes the thread's whole stack; the page shown is the conversion of the resolved frames, with one id used per frame shown plus one for a conversion that threw; when the frames do not resolve nothing is shown and the id pool, bindings, source cache and provider calls are untouched; ids are consecutive and bound to the thread and to consecutive depths from the start |
| StackTrace.AdapterContext.AddObject | com.microsoft.java.debug.core/src/main/java/com/microsoft/java/debug/core/adapter/handler/StackTraceRequestHandler.java:89-90 | a fresh id, not bound before, now bound to the thread and depth |
| StackTrace.IdRangeBinds | com.microsoft.java.debug.core/src/main/java/com/microsoft/java/debug/core/adapter/handler/StackTraceRequestHandler.java:88-90 | the ids handed out for a page are exactly the consecutive ids from the first, the i-th bound to depth start + i |
| StackTrace.ConvertNext | com.microsoft.java.debug.core/src/main/java/com/microsoft/java/debug/core/adapter/handler/StackTraceRequestHandler.java:89-92 | one turn of the result loop: one more id bound to the next depth, then the frame's conversion, keeping the frames so far a prefix of the page |
| StackTrace.ConvertPage | com.microsoft.java.debug.core/src/main/java/com/microsoft/java/debug/core/adapter/handler/StackTraceRequestHandler.java:87-93 | the result is the page's converted frames and the cache is the page's cache; a failed conversion ends the page after consuming one more id |
| StackTrace.ConvertFrames | com.microsoft.java.debug.core/src/main/java/com/microsoft/java/debug/core/adapter/handler/StackTraceRequestHandler.java:88-93 | a page has at most one frame per info, and exactly one per info when no conversion throws |
| StackTrace.PageStep | com.microsoft.java.debug.core/src/main/java/com/microsoft/java/debug/core/adapter/handler/StackTraceRequestHandler.java:88-93 | a throwing conversion ends the page with the frames so far; a successful one extends them by its frame |
| StackTrace.ConvertFramesPresent | com.microsoft.java.debug.core/src/main/java/com/microsoft/java/debug/core/adapter/handler/StackTraceRequestHandler.java:88-93 | each frame of a page is the client frame of the info at its position, under the id handed out for it |
| StackTrace.ConvertFramesIds | com.microsoft.java.debug.core/src/main/java/com/microsoft/java/debug/core/adapter/handler/StackTraceRequestHandler.java:88-93 | the frames of a page carry consecutive ids |
| StackTrace.ConvertFramesKeepsCache | com.microsoft.java.debug.core/src/main/java/com/microsoft/java/debug/core/adapter/handler/StackTraceRequestHandler.java:88-93 | a page only adds to the source-lookup cache and never replaces an entry |
| StackTrace.FrameInfoOf | com.microsoft.java.debug.core/src/main/java/com/microsoft/java/debug/core/adapter/handler/StackTraceRequestHandler.java:155-165 | a frame without source information gets the enclosing type's simple name + ".java" and its dotted path + ".java"; any other frame takes its first source path; one with no source path fails; the method, types, line and native flag are kept |
| StackTrace.EnclosingSourceName | com.microsoft.java.debug.core/src/main/java/com/microsoft/java/debug/core/adapter/handler/StackTraceRequestHandler.java:160 | the name is a dot-free tail of the enclosing type, starting right after a '.' or at the start, plus ".java" |
| StackTrace.EnclosingSourcePath | com.microsoft.java.debug.core/src/main/java/com/microsoft/java/debug/core/adapter/handler/StackTraceRequestHandler.java:161 | the path is as long as the type name plus ".java" and ends with ".java" |
| StackTrace.EnclosingSourcePathRoundTrip | com.microsoft.java.debug.core/src/main/java/com/microsoft/java/debug/core/adapter/handler/StackTraceRequestHandler.java:161 | when the type holds no separator, turning separators back into '.' gives the type name back |
| StackTrace.EnclosingSourcePathEndsWithName | com.microsoft.java.debug.core/src/main/java/com/microsoft/java/debug/core/adapter/handler/StackTraceRequestHandler.java:159-161 | the derived path ends with the derived name, right after a separator or as the whole path |
| StackTrace.DerivedSourcePathEndsWithName | com.microsoft.java.debug.core/src/main/java/com/microsoft/java/debug/core/adapter/handler/StackTraceRequestHandler.java:158-161 | a frame without source information gets a path whose last component is the file name it gets |
| StackTrace.FrameInfos | com.microsoft.java.debug.core/src/main/java/com/microsoft/java/debug/core/adapter/handler/StackTraceRequestHandler.java:155-165 | a resolved slice has one info per frame |
| StackTrace.FrameInfosResolveEach | com.microsoft.java.debug.core/src/main/java/com/microsoft/java/debug/core/adapter/handler/StackTraceRequestHandler.java:155-165 | a slice fails exactly when one of its frames fails, and otherwise resolves frame by frame |
| StackTrace.FrameInfosOfPrefix | com.microsoft.java.debug.core/src/main/java/com/microsoft/java/debug/core/adapter/handler/StackTraceRequestHandler.java:155-165 | a failing prefix makes the whole slice fail |
| StackTrace.ResolveStackFrameInfos | com.microsoft.java.debug.core/src/main/java/com/microsoft/java/debug/core/adapter/handler/StackTraceRequestHandler.java:155-165 | the loop gives the slice's infos in order, or a failure when some frame fails |
| StackTrace.TrimAll | com.microsoft.java.debug.core/src/main/java/com/microsoft/java/debug/core/adapter/handler/StackTraceRequestHandler.java:235 | every argument type trimmed, in order |
| StackTrace.FormatMethodNameShape | com.microsoft.java.debug.core/src/main/java/com/microsoft/java/debug/core/adapter/handler/StackTraceRequestHandler.java:227-241 | the name starts with the trimmed type and '.' when the context class is shown, ends with ')' when the parameters are, and is the bare method name with neither |
| StackTrace.FormatMethodNameRoundTrip | com.microsoft.java.debug.core/src/main/java/com/microsoft/java/debug/core/adapter/handler/StackTraceRequestHandler.java:227-241 | with both flags, cutting the name at its first '(' gives the qualified method name, and the text inside the parentheses is the comma-joined trimmed argument types, for every argument list; when there is at least one argument type and none holds a ',', splitting that text at ',' gives the trimmed argument types back |
| StackTrace.ClientFrame | com.microsoft.java.debug.core/src/main/java/com/microsoft/java/debug/core/adapter/handler/StackTraceRequestHandler.java:173-188 | id, converted line and column base; "subtle" exactly when the client line is negative; then a native frame gets "[native method]" and keeps its source, any other frame loses it |
| StackTrace.NativeMarkerIffNativeWithoutLine | com.microsoft.java.debug.core/src/main/java/com/microsoft/java/debug/core/adapter/handler/StackTraceRequestHandler.java:177-186 | the name ends with "[native method]" exactly when the frame is native and its client line is negative |
| StackTrace.ConvertDebuggerStackFrameToClient | com.microsoft.java.debug.core/src/main/java/com/microsoft/java/debug/core/adapter/handler/StackTraceRequestHandler.java:170-189 | the result and the cache afterwards are the frame's conversion from the cache before; the stack cache and id pool are untouched |
| StackTrace.ConvertFrame | com.microsoft.java.debug.core/src/main/java/com/microsoft/java/debug/core/adapter/handler/StackTraceRequestHandler.java:170-189 | converting a frame never drops or replaces a cached URI |
| StackTrace.ConvertFramePresents | com.microsoft.java.debug.core/src/main/java/com/microsoft/java/debug/core/adapter/handler/StackTraceRequestHandler.java:170-189 | a successful conversion is the client frame of its info under its id |
| StackTrace.LookupSourceUri | com.microsoft.java.debug.core/src/main/java/com/microsoft/java/debug/core/adapter/handler/StackTraceRequestHandler.java:197-201 | a cached URI is reused and nothing changes; otherwise the provider's answer is cached, "" exactly when it is blank |
| StackTrace.LookupSourceUriTwice | com.microsoft.java.debug.core/src/main/java/com/microsoft/java/debug/core/adapter/handler/StackTraceRequestHandler.java:197-201 | a second lookup of a type name, whatever its path, gives the same answer and changes nothing |
| StackTrace.SourceFromUri | com.microsoft.java.debug.core/src/main/java/com/microsoft/java/debug/core/adapter/handler/StackTraceRequestHandler.java:203-224 | a `file:` URI gives its converted path, or the exception exactly when conversion fails; another non-blank URI is the path; a blank one gives the user-directory match or no source; the name is kept and the reference is 0 |
| StackTrace.ConvertDebuggerSourceToClient | com.microsoft.java.debug.core/src/main/java/com/microsoft/java/debug/core/adapter/handler/StackTraceRequestHandler.java:194-225 | the cache afterwards and the source are the lookup's; the provider is asked exactly when the type name was not cached, so never twice about one type name |
| JavaStrings.ReplaceKeepsLastSegment | com.microsoft.java.debug.core/src/main/java/com/microsoft/java/debug/core/adapter/handler/StackTraceRequestHandler.java:160-161 | replacing '.' keeps the text after the last '.' at the end of the path, right after the replaced '.' |

## Left out

- The JDI calls behind the model are not modelled. This covers the virtual machine, event request manager, reference types, methods, line tables, threads and frames. Their answers are input values: `RefType`, `Method` and `Location` for breakpoints, and `ThreadSnapshot` and `RawFrame` for stack traces.
- The event hub, RxJava subscriptions and `CompletableFuture`s are replaced by plain state:
  - an install number stands for the future and for the subscription;
  - a boolean per install says whether its future is done.
- The `async()` paths run the same resolution on other threads. Only the synchronous order is modelled, with no concurrency.
- `VMDisconnectedException` from deleting or enabling requests is not modelled; the source ignores it.
- Breakpoints.Breakpoint.SetHitCount: gives the intended update, not what JDI does. JDI's `addCountFilter` throws `InvalidRequestStateException` on an enabled request and `IllegalArgumentException` for a count below 1. Every breakpoint request this breakpoint creates is enabled, and `setHitCount` calls `addCountFilter` without disabling it first. So the call throws at the first breakpoint request and changes no request, for any count. The model keeps no enabled/disabled precondition on count filters and appends the count to every breakpoint request, as the code is written to do. `WithHitCount` states the same update.
- `setSuspendPolicy(SUSPEND_EVENT_THREAD)` on each new breakpoint request is not modelled. Every request the breakpoint creates gets the same policy, so `Request` carries none.
- `putProperty`, `hashCode`, the getters and setters, and the constructors without a condition or log message are left out. They only store or return fields.
- A null class name is not modelled; names are strings.
- `AsyncJdwpUtils.all` is not part of this model. `MethodLocations` assumes it drops the null of a type with no matching method.
- Breakpoints.MethodLocations: only bounds its size. `MethodLocationsMembers` and `CollectLocationsByMethod` state which locations it holds, not their order or how often each occurs.
- Breakpoints.MethodLineLocations: has no contract of its own. `MethodLineLocationsMembers` states which locations it holds, not their order or how often each occurs.
- The first loop of `resolveStackFrameInfos` is not modelled. It issues the JDWP reads for each frame, and its results are the fields of `RawFrame`.
- The handler's exceptions are modelled as follows:
  - The `IndexOutOfBoundsException` of a frame with source information but no source path becomes the `None` of `FrameInfoOf`.
  - The `URISyntaxException` of a path conversion becomes the `None` of `Env.convertPath`.
  - Both end the page: the resolution failure before any frame, the conversion failure after the frames converted before it.
  - `IncompatibleThreadStateException`, thrown for a thread that is not suspended, is modelled: the result is an empty page with total 0.
  - The other exceptions come from the thread or from JDWP and are not modelled.
- `StackFrameManager` and `RecyclableObjectPool` are not part of this model.
  - `AdapterContext` stands in for them: the whole stack is cached when the cache does not cover the page, and ids come from a counter.
  - Thread lookup through the thread cache and the debug session is a parameter: `None` when no thread has the id.
- The source-lookup cache has no LRU eviction. An evicted entry would be looked up again, so "never asked twice" holds only without eviction.
- `parseEnclosingType`, `trimTypeName`, `convertLineNumber`, `convertPath`, `sourceLookup`, the source-lookup provider and `File.separatorChar` are parameters of the environment (`Env`).

## Notes on the code

- A method breakpoint's name is `Class#name#signature`. The constructor splits off the class at the first '#', and location search splits the rest at '#' again.
  - A name with a single '#', such as `Foo#bar(I)V`, leaves nothing at index 1. The search then throws as soon as there is a type to search.
  - `MethodSegmentsNeedTwoParts` states this, and `CollectLocations` models it as a failed resolution.
- Locations compare as JDI compares them: by the type and method objects (`typeId`, `methodId`) and the code index. The names a `Location` also carries are those of the objects its ids stand for, so they never tell two locations apart on their own. A same-named class from another class loader is another type.
- Deduplication is only against locations that existing breakpoint requests already watch. Repeated locations inside one resolved batch each get a request. `NewRequestsKeepLocationsDistinct` therefore needs a repetition-free batch.
- A frame whose conversion throws does not get skipped. The result loop stops there, keeps the frames converted before it, and has already handed out that frame's id.
