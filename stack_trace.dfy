/**
  The stack-trace request handler: the page of client frames for a
  `stackTrace` request, built from a raw stack slice, the per-frame data read
  from the target, the source-lookup cache and the frame-id pool.
 */
module StackTrace {
  import opened Basics
  import opened JavaStrings

  // ------------------------------------------------------------------
  // Data

  /**
    One raw frame with everything the target answered for it: the method's
    name, argument type names and native flag, the line (-1 when unknown),
    the declaring type's name, its source name (None when the class has no
    source information) and its declared source paths.
   */
  datatype RawFrame = RawFrame(
    methodName: string,
    argumentTypeNames: seq<string>,
    isNative: bool,
    lineNumber: int,
    typeName: string,
    sourceName: Option<string>,
    sourcePaths: seq<string>)

  /** A thread as the handler finds it: suspended or not, and its current stack, top first. */
  datatype ThreadSnapshot = ThreadSnapshot(suspended: bool, frames: seq<RawFrame>)

  /** `StackFrameInfo` once every lookup is done. */
  datatype FrameInfo = FrameInfo(
    methodName: string,
    argumentTypeNames: seq<string>,
    isNative: bool,
    lineNumber: int,
    typeName: string,
    sourceName: string,
    sourcePath: string)

  /** `Types.Source`. */
  datatype Source = Source(name: string, path: string, sourceReference: int)

  /** `Types.StackFrame`: what the client sees of one frame. */
  datatype StackFrame = StackFrame(
    id: int,
    name: string,
    source: Option<Source>,
    line: int,
    column: int,
    presentationHint: Option<string>)

  datatype StackTraceArguments = StackTraceArguments(threadId: int, startFrame: int, levels: int)

  datatype StackTraceResponseBody = StackTraceResponseBody(stackFrames: seq<StackFrame>, totalFrames: int)

  /** The `URISyntaxException` a path conversion can throw. */
  datatype UriSyntaxError = UriSyntaxError(uri: string)

  /**
    The session's collaborators whose code is not part of this model:
    `AdapterUtils.parseEnclosingType`, `SimpleTypeFormatter.trimTypeName`,
    `AdapterUtils.convertLineNumber` (with the session's line bases),
    `AdapterUtils.convertPath` (with the session's path kinds; None is the
    `URISyntaxException`), `AdapterUtils.sourceLookup` over the user's
    source directories, the source-lookup provider's `getSourceFileURI`
    (None is null), `File.separatorChar`, and whether client columns start
    at 1.
   */
  datatype Env = Env(
    parseEnclosingType: string -> string,
    trimTypeName: string -> string,
    convertLineNumber: int -> int,
    convertPath: string -> Option<string>,
    sourceLookup: string -> Option<string>,
    provider: (string, string) -> Option<string>,
    separator: char,
    clientColumnsStartAt1: bool)

  // ------------------------------------------------------------------
  // Counting frames

  /**
    The number of frames a request asks for: all from `startFrame` on when
    `levels` is 0, otherwise no more than `levels`.
   */
  function FrameCount(startFrame: int, levels: int, totalFrames: int): (count: int)
    ensures levels == 0 ==> count == totalFrames - startFrame
    ensures levels != 0 ==> count <= levels && count <= totalFrames - startFrame
    ensures levels != 0 ==> count == levels || count == totalFrames - startFrame
  {
    if levels == 0 then totalFrames - startFrame
    else if totalFrames - startFrame <= levels then totalFrames - startFrame
    else levels
  }

  // ------------------------------------------------------------------
  // Deriving the source of a frame without source information

  /** The enclosing type's simple name (the text after its last '.') plus ".java". */
  function EnclosingSourceName(enclosingType: string): (name: string)
    ensures EndsWith(name, ".java")
    ensures var base := name[..|name| - 5];
      && '.' !in base
      && EndsWith(enclosingType, base)
      && (|base| == |enclosingType| || enclosingType[|enclosingType| - |base| - 1] == '.')
  {
    var base := enclosingType[LastIndexOf(enclosingType, '.') + 1..];
    var name := base + ".java";
    assert name[..|name| - 5] == base;
    assert name[|name| - 5..] == ".java";
    name
  }

  /** The enclosing type with each '.' turned into `separator`, plus ".java". */
  function EnclosingSourcePath(enclosingType: string, separator: char): (path: string)
    ensures EndsWith(path, ".java") && |path| == |enclosingType| + 5
  {
    var path := Replace(enclosingType, '.', separator) + ".java";
    assert path[|path| - 5..] == ".java";
    path
  }

  /** The derived path gives the type name back when the separator does not occur in it. */
  lemma {:induction false} EnclosingSourcePathRoundTrip(enclosingType: string, separator: char)
    requires separator !in enclosingType
    ensures var path := EnclosingSourcePath(enclosingType, separator);
      Replace(path[..|path| - 5], separator, '.') == enclosingType
  {
    var path := EnclosingSourcePath(enclosingType, separator);
    var replaced := Replace(enclosingType, '.', separator);
    assert path[..|path| - 5] == replaced;
    var back := Replace(replaced, separator, '.');
    forall i | 0 <= i < |enclosingType| ensures back[i] == enclosingType[i] {
      assert enclosingType[i] in enclosingType;
    }
  }

  /** The derived path's last component is the derived source name. */
  lemma {:induction false} EnclosingSourcePathEndsWithName(enclosingType: string, separator: char)
    ensures var name := EnclosingSourceName(enclosingType);
      var path := EnclosingSourcePath(enclosingType, separator);
      && EndsWith(path, name)
      && (|path| == |name| || path[|path| - |name| - 1] == separator)
  {
    var k := LastIndexOf(enclosingType, '.');
    assert EnclosingSourceName(enclosingType) == enclosingType[k + 1..] + ".java";
    assert EnclosingSourcePath(enclosingType, separator) == Replace(enclosingType, '.', separator) + ".java";
    ReplaceKeepsLastSegment(enclosingType, '.', separator, ".java");
  }

  // ------------------------------------------------------------------
  // Resolving frame infos

  /**
    The derivation the second loop of `resolveStackFrameInfos` makes for one
    frame: a frame without source information gets the enclosing type's
    file name and relative path; any other takes its first declared source
    path, and has none to take (an `IndexOutOfBoundsException`) when it
    declares none.
   */
  function FrameInfoOf(raw: RawFrame, env: Env): (r: Option<FrameInfo>)
    ensures r.None? <==> raw.sourceName.Some? && raw.sourcePaths == []
    ensures r.Some? ==>
      && r.value.methodName == raw.methodName && r.value.argumentTypeNames == raw.argumentTypeNames
      && r.value.isNative == raw.isNative && r.value.lineNumber == raw.lineNumber
      && r.value.typeName == raw.typeName
    ensures r.Some? && raw.sourceName.Some? ==>
      r.value.sourceName == raw.sourceName.value && r.value.sourcePath == raw.sourcePaths[0]
    ensures raw.sourceName.None? ==>
      var enclosing := env.parseEnclosingType(raw.typeName);
      && r.Some?
      && r.value.sourceName == EnclosingSourceName(enclosing)
      && r.value.sourcePath == EnclosingSourcePath(enclosing, env.separator)
  {
    if raw.sourceName.None? then
      var enclosing := env.parseEnclosingType(raw.typeName);
      Some(FrameInfo(raw.methodName, raw.argumentTypeNames, raw.isNative, raw.lineNumber, raw.typeName,
                     EnclosingSourceName(enclosing), EnclosingSourcePath(enclosing, env.separator)))
    else if raw.sourcePaths == [] then None
    else
      Some(FrameInfo(raw.methodName, raw.argumentTypeNames, raw.isNative, raw.lineNumber, raw.typeName,
                     raw.sourceName.value, raw.sourcePaths[0]))
  }

  /** A frame without source information is given a path that ends in the file name it is given. */
  lemma DerivedSourcePathEndsWithName(raw: RawFrame, env: Env)
    requires raw.sourceName.None?
    ensures var info := FrameInfoOf(raw, env).value;
      && EndsWith(info.sourcePath, info.sourceName)
      && (|info.sourcePath| == |info.sourceName| || info.sourcePath[|info.sourcePath| - |info.sourceName| - 1] == env.separator)
  {
    EnclosingSourcePathEndsWithName(env.parseEnclosingType(raw.typeName), env.separator);
  }

  /** The infos of a whole slice, in order, or None when one of them cannot be resolved. */
  function FrameInfos(frames: seq<RawFrame>, env: Env): (r: Option<seq<FrameInfo>>)
    ensures r.Some? ==> |r.value| == |frames|
  {
    if frames == [] then Some([])
    else
      var init := FrameInfos(frames[..|frames| - 1], env);
      var last := FrameInfoOf(frames[|frames| - 1], env);
      if init.None? || last.None? then None else Some(init.value + [last.value])
  }

  /** A slice resolves exactly when each of its frames does, and then frame by frame. */
  lemma {:induction false} FrameInfosResolveEach(frames: seq<RawFrame>, env: Env)
    ensures FrameInfos(frames, env).None? <==> exists i :: 0 <= i < |frames| && FrameInfoOf(frames[i], env).None?
    ensures var r := FrameInfos(frames, env);
      r.Some? ==> forall i :: 0 <= i < |frames| ==> FrameInfoOf(frames[i], env) == Some(r.value[i])
  {
    if frames != [] {
      var n := |frames| - 1;
      var init := frames[..n];
      FrameInfosResolveEach(init, env);
      var prefix := FrameInfos(init, env);
      var last := FrameInfoOf(frames[n], env);
      if prefix.None? {
        var i :| 0 <= i < n && FrameInfoOf(init[i], env).None?;
        assert init[i] == frames[i];
      } else if last.Some? {
        var r := prefix.value + [last.value];
        assert FrameInfos(frames, env) == Some(r);
        forall i | 0 <= i < |frames| ensures FrameInfoOf(frames[i], env) == Some(r[i]) {
          if i < n {
            assert init[i] == frames[i];
          }
        }
      }
    }
  }

  /** The post-await loop of `resolveStackFrameInfos`, over the frames of a slice in order. */
  method ResolveStackFrameInfos(frames: seq<RawFrame>, env: Env) returns (infos: Option<seq<FrameInfo>>)
    ensures infos == FrameInfos(frames, env)
    ensures infos.Some? ==> |infos.value| == |frames|
  {
    var resolved: seq<FrameInfo> := [];
    var i := 0;
    while i < |frames|
      invariant 0 <= i <= |frames|
      invariant FrameInfos(frames[..i], env) == Some(resolved)
    {
      assert frames[..i + 1][..i] == frames[..i];
      var info := FrameInfoOf(frames[i], env);
      if info.None? {
        assert frames[..i + 1][i] == frames[i];
        assert FrameInfos(frames[..i + 1], env).None?;
        FrameInfosOfPrefix(frames, i + 1, env);
        return None;
      }
      resolved := resolved + [info.value];
      i := i + 1;
    }
    assert frames[..|frames|] == frames;
    infos := Some(resolved);
  }

  /** A slice with an unresolvable prefix is unresolvable. */
  lemma FrameInfosOfPrefix(frames: seq<RawFrame>, n: nat, env: Env)
    requires n <= |frames| && FrameInfos(frames[..n], env).None?
    ensures FrameInfos(frames, env).None?
  {
    FrameInfosResolveEach(frames[..n], env);
    FrameInfosResolveEach(frames, env);
    var i :| 0 <= i < n && FrameInfoOf(frames[..n][i], env).None?;
    assert frames[..n][i] == frames[i];
  }

  // ------------------------------------------------------------------
  // Display names

  /** Every type name trimmed, in order. */
  function TrimAll(names: seq<string>, trim: string -> string): (r: seq<string>)
    ensures |r| == |names| && forall i :: 0 <= i < |names| ==> r[i] == trim(names[i])
  {
    if names == [] then [] else [trim(names[0])] + TrimAll(names[1..], trim)
  }

  /**
    `formatMethodName`: optionally the trimmed declaring type and a '.',
    then the method name, then optionally the trimmed argument types in
    parentheses, separated by commas.
   */
  function FormatMethodName(methodName: string, argumentTypeNames: seq<string>, fqn: string,
                            showContextClass: bool, showParameter: bool, trim: string -> string): string {
    var prefix := if showContextClass then trim(fqn) + "." else "";
    var suffix := if showParameter then "(" + Join(TrimAll(argumentTypeNames, trim), ",") + ")" else "";
    prefix + methodName + suffix
  }

  /**
    The display name starts with the trimmed declaring type and a '.' when
    the context class is shown, ends with ')' when the parameters are, and
    is the bare method name when neither is.
   */
  lemma FormatMethodNameShape(methodName: string, argumentTypeNames: seq<string>, fqn: string,
                              showContextClass: bool, showParameter: bool, trim: string -> string)
    ensures var r := FormatMethodName(methodName, argumentTypeNames, fqn, showContextClass, showParameter, trim);
      && (showContextClass ==> StartsWith(r, trim(fqn) + "."))
      && (showParameter ==> EndsWith(r, ")"))
      && (!showContextClass && !showParameter ==> r == methodName)
  {
    var prefix := if showContextClass then trim(fqn) + "." else "";
    var suffix := if showParameter then "(" + Join(TrimAll(argumentTypeNames, trim), ",") + ")" else "";
    var r := FormatMethodName(methodName, argumentTypeNames, fqn, showContextClass, showParameter, trim);
    assert r == prefix + methodName + suffix;
    assert r[..|prefix|] == prefix;
    assert showParameter ==> r[|r| - 1..] == ")";
  }

  /**
    With both flags on, the display name cut at its first '(' gives the
    qualified method name and, inside the parentheses, the joined trimmed
    argument types, when neither the trimmed type nor the method name holds
    a '('. With at least one argument type and no ',' in any trimmed one,
    splitting at ',' gives the trimmed argument types back; with none, the
    parentheses are empty and the split gives `[""]`, not `[]`.
   */
  lemma FormatMethodNameRoundTrip(methodName: string, argumentTypeNames: seq<string>, fqn: string, trim: string -> string)
    requires '(' !in trim(fqn) && '(' !in methodName
    ensures var r := FormatMethodName(methodName, argumentTypeNames, fqn, true, true, trim);
      var open := IndexOf(r, '(');
      && 0 <= open < |r| - 1
      && r[..open] == trim(fqn) + "." + methodName
      && r[open + 1..|r| - 1] == Join(TrimAll(argumentTypeNames, trim), ",")
    ensures |argumentTypeNames| >= 1 && (forall i :: 0 <= i < |argumentTypeNames| ==> ',' !in trim(argumentTypeNames[i])) ==>
      var r := FormatMethodName(methodName, argumentTypeNames, fqn, true, true, trim);
      Split(r[IndexOf(r, '(') + 1..|r| - 1], ',') == TrimAll(argumentTypeNames, trim)
  {
    var qualified := trim(fqn) + "." + methodName;
    var args := TrimAll(argumentTypeNames, trim);
    if forall i :: 0 <= i < |argumentTypeNames| ==> ',' !in trim(argumentTypeNames[i]) {
      forall x | x in args ensures ',' !in x {
        var i :| 0 <= i < |args| && args[i] == x;
      }
    }
    assert FormatMethodName(methodName, argumentTypeNames, fqn, true, true, trim) == qualified + "(" + Join(args, ",") + ")";
    CutEnclosed(qualified, args);
  }

  // ------------------------------------------------------------------
  // Client frames

  /** The name a frame is shown with: type, method and argument types. */
  function DisplayName(info: FrameInfo, env: Env): string {
    FormatMethodName(info.methodName, info.argumentTypeNames, info.typeName, true, true, env.trimTypeName)
  }

  /**
    The client frame of `convertDebuggerStackFrameToClient` once the source
    is known: a frame whose client line is negative is marked "subtle"; a
    native one is then named with "[native method]" appended and keeps its
    source, any other loses its source.
   */
  function ClientFrame(info: FrameInfo, frameId: int, source: Option<Source>, env: Env): (f: StackFrame)
    ensures f.id == frameId && f.line == env.convertLineNumber(info.lineNumber)
    ensures f.column == if env.clientColumnsStartAt1 then 1 else 0
    ensures f.presentationHint == if f.line < 0 then Some("subtle") else None
    ensures f.line >= 0 ==> f.name == DisplayName(info, env) && f.source == source
    ensures f.line < 0 && info.isNative ==> f.name == DisplayName(info, env) + "[native method]" && f.source == source
    ensures f.line < 0 && !info.isNative ==> f.name == DisplayName(info, env) && f.source.None?
  {
    var line := env.convertLineNumber(info.lineNumber);
    var name := DisplayName(info, env);
    var column := if env.clientColumnsStartAt1 then 1 else 0;
    if line < 0 then
      if info.isNative then StackFrame(frameId, name + "[native method]", source, line, column, Some("subtle"))
      else StackFrame(frameId, name, None, line, column, Some("subtle"))
    else StackFrame(frameId, name, source, line, column, None)
  }

  /** A frame shows the native marker exactly when it is native and its client line is negative. */
  lemma NativeMarkerIffNativeWithoutLine(info: FrameInfo, frameId: int, source: Option<Source>, env: Env)
    ensures EndsWith(ClientFrame(info, frameId, source, env).name, "[native method]")
        <==> info.isNative && env.convertLineNumber(info.lineNumber) < 0
  {
    var f := ClientFrame(info, frameId, source, env);
    var name := DisplayName(info, env);
    var marker := "[native method]";
    if info.isNative && env.convertLineNumber(info.lineNumber) < 0 {
      assert f.name[|f.name| - |marker|..] == marker;
    } else {
      FormatMethodNameShape(info.methodName, info.argumentTypeNames, info.typeName, true, true, env.trimTypeName);
      EndsWithLast(f.name, marker);
      EndsWithLast(name, ")");
    }
  }

  /** `f` is the client frame of `info` under `frameId`, for some source. */
  predicate Presents(f: StackFrame, info: FrameInfo, frameId: int, env: Env) {
    f == ClientFrame(info, frameId, f.source, env)
  }

  // ------------------------------------------------------------------
  // Sources

  /** The outcome of `computeIfAbsent` on the source-lookup cache. */
  datatype Lookup = Lookup(cache: map<string, string>, uri: string)

  /**
    The lookup of `convertDebuggerSourceToClient`: a cached URI is reused
    and the provider is not asked; otherwise the provider's answer is
    cached, a blank answer as "".
   */
  function LookupSourceUri(cache: map<string, string>, fqn: string, relativeSourcePath: string,
                           provider: (string, string) -> Option<string>): (r: Lookup)
    ensures fqn in r.cache && r.cache[fqn] == r.uri
    ensures fqn in cache ==> r == Lookup(cache, cache[fqn])
    ensures fqn !in cache ==>
      && r.cache == cache[fqn := r.uri]
      && (r.uri == "" <==> IsBlank(provider(fqn, relativeSourcePath)))
      && (r.uri != "" ==> provider(fqn, relativeSourcePath) == Some(r.uri))
  {
    if fqn in cache then Lookup(cache, cache[fqn])
    else
      var fromProvider := provider(fqn, relativeSourcePath);
      var uri := if IsBlank(fromProvider) then "" else fromProvider.value;
      Lookup(cache[fqn := uri], uri)
  }

  /** A second lookup of the same type name, whatever its path, answers as the first and changes nothing. */
  lemma {:induction false} LookupSourceUriTwice(cache: map<string, string>, fqn: string, path1: string, path2: string,
                                                provider: (string, string) -> Option<string>)
    ensures var first := LookupSourceUri(cache, fqn, path1, provider);
      LookupSourceUri(first.cache, fqn, path2, provider) == first
  {
    var first := LookupSourceUri(cache, fqn, path1, provider);
    assert fqn in first.cache && first.cache[fqn] == first.uri;
  }

  /**
    The source a looked-up URI stands for: a `file:` URI converted to the
    client's path convention, any other non-blank URI as it is, and for a
    blank one the match in the user's source directories, or no source.
   */
  function SourceFromUri(uri: string, sourceName: string, relativeSourcePath: string, env: Env): (r: Result<Option<Source>, UriSyntaxError>)
    ensures r.Err? <==> !IsBlank(Some(uri)) && StartsWith(uri, "file:") && env.convertPath(uri).None?
    ensures r.Ok? && r.value.Some? ==> r.value.value.name == sourceName && r.value.value.sourceReference == 0
    ensures !IsBlank(Some(uri)) && StartsWith(uri, "file:") && r.Ok? ==> r.value == Some(Source(sourceName, env.convertPath(uri).value, 0))
    ensures !IsBlank(Some(uri)) && !StartsWith(uri, "file:") ==> r == Ok(Some(Source(sourceName, uri, 0)))
    ensures IsBlank(Some(uri)) ==> r.Ok? && (r.value.None? <==> env.sourceLookup(relativeSourcePath).None?)
    ensures IsBlank(Some(uri)) && r.Ok? && r.value.Some? ==> r.value.value.path == env.sourceLookup(relativeSourcePath).value
  {
    if !IsBlank(Some(uri)) then
      if StartsWith(uri, "file:") then
        match env.convertPath(uri)
        case None => Err(UriSyntaxError(uri))
        case Some(clientPath) => Ok(Some(Source(sourceName, clientPath, 0)))
      else Ok(Some(Source(sourceName, uri, 0)))
    else
      match env.sourceLookup(relativeSourcePath)
      case None => Ok(None)
      case Some(absolute) => Ok(Some(Source(sourceName, absolute, 0)))
  }

  /** The outcome of converting one frame: the client frame or the exception, and the cache after it. */
  datatype Conversion = Conversion(frame: Result<StackFrame, UriSyntaxError>, cache: map<string, string>)

  /** `convertDebuggerStackFrameToClient` as a function of the cache it starts from. */
  function ConvertFrame(info: FrameInfo, frameId: int, cache: map<string, string>, env: Env): (r: Conversion)
    ensures forall k :: k in cache ==> k in r.cache && r.cache[k] == cache[k]
  {
    var lookup := LookupSourceUri(cache, info.typeName, info.sourcePath, env.provider);
    match SourceFromUri(lookup.uri, info.sourceName, info.sourcePath, env)
    case Err(e) => Conversion(Err(e), lookup.cache)
    case Ok(source) => Conversion(Ok(ClientFrame(info, frameId, source, env)), lookup.cache)
  }

  /** A converted frame is the client frame of its info under its id. */
  lemma ConvertFramePresents(info: FrameInfo, frameId: int, cache: map<string, string>, env: Env)
    ensures var r := ConvertFrame(info, frameId, cache, env);
      r.frame.Ok? ==> Presents(r.frame.value, info, frameId, env)
  {
  }

  /** The frames of a page and the cache after them, or the frames before the first failure. */
  datatype Converted = Converted(frames: seq<StackFrame>, cache: map<string, string>, failed: bool)

  /**
    The result loop of `handle` over resolved infos, ids handed out from
    `firstId` on: each info becomes its client frame in order, until a
    conversion throws.
   */
  function ConvertFrames(infos: seq<FrameInfo>, firstId: int, cache: map<string, string>, env: Env): (r: Converted)
    ensures |r.frames| <= |infos|
    ensures !r.failed ==> |r.frames| == |infos|
    decreases |infos|, 1
  {
    if infos == [] then Converted([], cache, false)
    else ConvertFramesFrom(infos, firstId, cache, env)
  }

  /** A non-empty page: its first frame's conversion, then, unless that throws, the rest of the page. */
  function ConvertFramesFrom(infos: seq<FrameInfo>, firstId: int, cache: map<string, string>, env: Env): (r: Converted)
    requires infos != []
    ensures |r.frames| <= |infos|
    ensures !r.failed ==> |r.frames| == |infos|
    decreases |infos|, 0
  {
    var c := ConvertFrame(infos[0], firstId, cache, env);
    match c.frame
    case Err(_) => Converted([], c.cache, true)
    case Ok(f) =>
      var rest := ConvertFrames(infos[1..], firstId + 1, c.cache, env);
      Converted([f] + rest.frames, rest.cache, rest.failed)
  }

  /** One step of a page: the first frame fails, or it is followed by the rest of the page. */
  lemma ConvertFramesStep(infos: seq<FrameInfo>, i: nat, firstId: int, cache: map<string, string>, env: Env)
    requires i < |infos|
    ensures var c := ConvertFrame(infos[i], firstId, cache, env);
      var page := ConvertFrames(infos[i..], firstId, cache, env);
      && (c.frame.Err? ==> page == Converted([], c.cache, true))
      && (c.frame.Ok? ==>
            var next := ConvertFrames(infos[i + 1..], firstId + 1, c.cache, env);
            page == Converted([c.frame.value] + next.frames, next.cache, next.failed))
  {
    assert infos[i..][0] == infos[i] && infos[i..][1..] == infos[i + 1..];
  }

  /** The frames converted so far, followed by the page of the infos from `i` on, make up `page`. */
  predicate PageSoFar(infos: seq<FrameInfo>, i: nat, done: seq<StackFrame>, firstId: int,
                      cache: map<string, string>, env: Env, page: Converted) {
    && i <= |infos|
    && var rest := ConvertFrames(infos[i..], firstId, cache, env);
       done + rest.frames == page.frames && rest.cache == page.cache && rest.failed == page.failed
  }

  /**
    One turn of the result loop, on values: a failed conversion of the next
    info ends the page with the frames so far; a successful one moves its
    frame from the rest of the page to the frames so far.
   */
  lemma PageStep(infos: seq<FrameInfo>, i: nat, done: seq<StackFrame>, page: Converted, firstId: int,
                 cache: map<string, string>, env: Env, converted: Result<StackFrame, UriSyntaxError>, cacheAfter: map<string, string>,
                 nextId: int)
    requires i < |infos| && nextId == firstId + 1
    requires PageSoFar(infos, i, done, firstId, cache, env, page)
    requires Conversion(converted, cacheAfter) == ConvertFrame(infos[i], firstId, cache, env)
    ensures converted.Err? ==> done == page.frames && cacheAfter == page.cache && page.failed
    ensures converted.Ok? ==> PageSoFar(infos, i + 1, done + [converted.value], nextId, cacheAfter, env, page)
  {
    ConvertFramesStep(infos, i, firstId, cache, env);
    if converted.Err? {
      assert done + [] == done;
    } else {
      var next := ConvertFrames(infos[i + 1..], firstId + 1, cacheAfter, env);
      assert done + ([converted.value] + next.frames) == (done + [converted.value]) + next.frames;
    }
  }

  /** Each frame of `frames` is the client frame of the info at its position, under ids from `firstId` on. */
  predicate PresentsAll(frames: seq<StackFrame>, infos: seq<FrameInfo>, firstId: int, env: Env) {
    |frames| <= |infos| && forall i :: 0 <= i < |frames| ==> Presents(frames[i], infos[i], firstId + i, env)
  }

  /** A frame presenting the first info, in front of frames presenting the rest. */
  lemma PresentsAllCons(f: StackFrame, rest: seq<StackFrame>, infos: seq<FrameInfo>, firstId: int, env: Env)
    requires infos != [] && Presents(f, infos[0], firstId, env)
    requires PresentsAll(rest, infos[1..], firstId + 1, env)
    ensures PresentsAll([f] + rest, infos, firstId, env)
  {
    forall i | 1 <= i < |rest| + 1
      ensures Presents(([f] + rest)[i], infos[i], firstId + i, env)
    {
      assert ([f] + rest)[i] == rest[i - 1] && infos[1..][i - 1] == infos[i];
    }
  }

  /** Each frame of a page is the client frame of the info at its position, under the id handed out for it. */
  lemma {:induction false} ConvertFramesPresent(infos: seq<FrameInfo>, firstId: int, cache: map<string, string>, env: Env)
    ensures PresentsAll(ConvertFrames(infos, firstId, cache, env).frames, infos, firstId, env)
    decreases |infos|
  {
    if infos != [] {
      var c := ConvertFrame(infos[0], firstId, cache, env);
      if c.frame.Ok? {
        ConvertFramePresents(infos[0], firstId, cache, env);
        ConvertFramesPresent(infos[1..], firstId + 1, c.cache, env);
        var rest := ConvertFrames(infos[1..], firstId + 1, c.cache, env);
        PresentsAllCons(c.frame.value, rest.frames, infos, firstId, env);
      }
    }
  }

  /** The frames of a page carry consecutive ids from `firstId` on. */
  lemma ConvertFramesIds(infos: seq<FrameInfo>, firstId: int, cache: map<string, string>, env: Env)
    ensures var r := ConvertFrames(infos, firstId, cache, env);
      forall i :: 0 <= i < |r.frames| ==> r.frames[i].id == firstId + i
  {
    ConvertFramesPresent(infos, firstId, cache, env);
  }

  /** A page only adds to the source-lookup cache: a cached URI is never replaced. */
  lemma {:induction false} ConvertFramesKeepsCache(infos: seq<FrameInfo>, firstId: int, cache: map<string, string>, env: Env)
    ensures var r := ConvertFrames(infos, firstId, cache, env);
      forall k :: k in cache ==> k in r.cache && r.cache[k] == cache[k]
    decreases |infos|
  {
    if infos != [] {
      var c := ConvertFrame(infos[0], firstId, cache, env);
      if c.frame.Ok? {
        ConvertFramesKeepsCache(infos[1..], firstId + 1, c.cache, env);
      }
    }
  }

  // ------------------------------------------------------------------
  // The session state the handler uses

  /**
    The debug-adapter context: the stack-frame cache per thread, the frame
    id pool (a counter and the (thread, depth) each id stands for), and the
    source-lookup cache, with the type names the provider was asked about.
   */
  class AdapterContext {
    const env: Env
    var stackFrames: map<int, seq<RawFrame>>
    var nextId: int
    var frameIds: map<int, (int, int)>
    var sourceLookupCache: map<string, string>
    ghost var providerCalls: seq<string>

    ghost predicate Valid()
      reads this
    {
      && 1 <= nextId
      && (forall id :: id in frameIds ==> 1 <= id < nextId)
      && (forall k :: k in sourceLookupCache ==> sourceLookupCache[k] == "" || !IsBlank(Some(sourceLookupCache[k])))
      && (forall k :: k in sourceLookupCache <==> k in providerCalls)
      && Distinct(providerCalls)
    }

    constructor (env: Env)
      ensures Valid() && this.env == env
      ensures stackFrames == map[] && nextId == 1 && frameIds == map[]
      ensures sourceLookupCache == map[] && providerCalls == []
    {
      this.env := env;
      stackFrames := map[];
      nextId := 1;
      frameIds := map[];
      sourceLookupCache := map[];
      providerCalls := [];
    }

    /** `clearStackFrames`: the thread's cached stack is dropped. */
    method ClearStackFrames(threadId: int)
      requires Valid()
      modifies this
      ensures Valid()
      ensures stackFrames == old(stackFrames) - {threadId}
      ensures nextId == old(nextId) && frameIds == old(frameIds)
      ensures sourceLookupCache == old(sourceLookupCache) && providerCalls == old(providerCalls)
    {
      stackFrames := stackFrames - {threadId};
    }

    /**
      `reloadStackFrames`: `count` frames from `start` on, from the cached
      stack when it covers them, otherwise read from the thread, whose
      stack is then cached. Reading fails when the thread is not suspended
      or is too short.
     */
    method ReloadStackFrames(threadId: int, thread: ThreadSnapshot, start: nat, count: nat) returns (frames: Option<seq<RawFrame>>)
      requires Valid()
      modifies this
      ensures Valid()
      ensures threadId in old(stackFrames) && start + count <= |old(stackFrames)[threadId]| ==>
        frames == Some(old(stackFrames)[threadId][start..start + count]) && stackFrames == old(stackFrames)
      ensures !(threadId in old(stackFrames) && start + count <= |old(stackFrames)[threadId]|) ==>
        if thread.suspended && start + count <= |thread.frames|
        then frames == Some(thread.frames[start..start + count]) && stackFrames == old(stackFrames)[threadId := thread.frames]
        else frames.None? && stackFrames == old(stackFrames)
      ensures frames.Some? ==> |frames.value| == count
      ensures nextId == old(nextId) && frameIds == old(frameIds)
      ensures sourceLookupCache == old(sourceLookupCache) && providerCalls == old(providerCalls)
    {
      if threadId in stackFrames && start + count <= |stackFrames[threadId]| {
        return Some(stackFrames[threadId][start..start + count]);
      }
      if !thread.suspended || start + count > |thread.frames| {
        return None;
      }
      stackFrames := stackFrames[threadId := thread.frames];
      frames := Some(thread.frames[start..start + count]);
    }

    /** `addObject`: a fresh id for the frame at `depth` of the thread. */
    method AddObject(threadId: int, depth: int) returns (id: int)
      requires Valid()
      modifies this
      ensures Valid()
      ensures id == old(nextId) && id !in old(frameIds)
      ensures nextId == id + 1 && frameIds == old(frameIds)[id := (threadId, depth)]
      ensures stackFrames == old(stackFrames)
      ensures sourceLookupCache == old(sourceLookupCache) && providerCalls == old(providerCalls)
    {
      id := nextId;
      frameIds := frameIds[id := (threadId, depth)];
      nextId := nextId + 1;
    }
  }

  // ------------------------------------------------------------------
  // The handler

  /**
    `convertDebuggerSourceToClient`: the URI cached for the type (asking the
    provider only on a miss), then the source it stands for. The provider
    is never asked twice about one type name.
   */
  method ConvertDebuggerSourceToClient(fqn: string, sourceName: string, relativeSourcePath: string, context: AdapterContext)
    returns (r: Result<Option<Source>, UriSyntaxError>)
    requires context.Valid()
    modifies context
    ensures context.Valid()
    ensures var lookup := LookupSourceUri(old(context.sourceLookupCache), fqn, relativeSourcePath, context.env.provider);
      && context.sourceLookupCache == lookup.cache
      && r == SourceFromUri(lookup.uri, sourceName, relativeSourcePath, context.env)
    ensures context.providerCalls == old(context.providerCalls) + if fqn in old(context.sourceLookupCache) then [] else [fqn]
    ensures context.stackFrames == old(context.stackFrames)
    ensures context.nextId == old(context.nextId) && context.frameIds == old(context.frameIds)
  {
    var uri: string;
    if fqn in context.sourceLookupCache {
      uri := context.sourceLookupCache[fqn];
    } else {
      var fromProvider := context.env.provider(fqn, relativeSourcePath);
      uri := if IsBlank(fromProvider) then "" else fromProvider.value;
      context.sourceLookupCache := context.sourceLookupCache[fqn := uri];
      context.providerCalls := context.providerCalls + [fqn];
    }
    if !IsBlank(Some(uri)) {
      if StartsWith(uri, "file:") {
        var clientPath := context.env.convertPath(uri);
        if clientPath.None? {
          return Err(UriSyntaxError(uri));
        }
        return Ok(Some(Source(sourceName, clientPath.value, 0)));
      }
      return Ok(Some(Source(sourceName, uri, 0)));
    }
    var absoluteSourcePath := context.env.sourceLookup(relativeSourcePath);
    if absoluteSourcePath.Some? {
      return Ok(Some(Source(sourceName, absoluteSourcePath.value, 0)));
    }
    return Ok(None);
  }

  /** `convertDebuggerStackFrameToClient`: the frame's source, then its client frame. */
  method ConvertDebuggerStackFrameToClient(info: FrameInfo, frameId: int, context: AdapterContext)
    returns (r: Result<StackFrame, UriSyntaxError>)
    requires context.Valid()
    modifies context
    ensures context.Valid()
    ensures Conversion(r, context.sourceLookupCache) == ConvertFrame(info, frameId, old(context.sourceLookupCache), context.env)
    ensures context.stackFrames == old(context.stackFrames)
    ensures context.nextId == old(context.nextId) && context.frameIds == old(context.frameIds)
  {
    var clientSource := ConvertDebuggerSourceToClient(info.typeName, info.sourceName, info.sourcePath, context);
    if clientSource.Err? {
      return Err(clientSource.error);
    }
    var methodName := FormatMethodName(info.methodName, info.argumentTypeNames, info.typeName, true, true, context.env.trimTypeName);
    var clientLineNumber := context.env.convertLineNumber(info.lineNumber);
    var source := clientSource.value;
    var presentationHint: Option<string> := None;
    if clientLineNumber < 0 {
      presentationHint := Some("subtle");
      if info.isNative {
        methodName := methodName + "[native method]";
      } else {
        source := None;
      }
    }
    var column := if context.env.clientColumnsStartAt1 then 1 else 0;
    return Ok(StackFrame(frameId, methodName, source, clientLineNumber, column, presentationHint));
  }

  /** The bindings of `count` consecutive ids from `first` on to the frames of `threadId` from `depth` on. */
  function IdRange(first: int, count: nat, threadId: int, depth: int): map<int, (int, int)> {
    if count == 0 then map[]
    else IdRange(first, count - 1, threadId, depth)[first + count - 1 := (threadId, depth + count - 1)]
  }

  /** The range binds exactly the ids `first` to `first + count - 1`, the i-th of them to depth `depth + i`. */
  lemma {:induction false} IdRangeBinds(first: int, count: nat, threadId: int, depth: int)
    ensures forall id :: id in IdRange(first, count, threadId, depth) <==> first <= id < first + count
    ensures forall id :: id in IdRange(first, count, threadId, depth) ==> IdRange(first, count, threadId, depth)[id] == (threadId, depth + id - first)
  {
    if count > 0 {
      IdRangeBinds(first, count - 1, threadId, depth);
      var prev := IdRange(first, count - 1, threadId, depth);
      var m := prev[first + count - 1 := (threadId, depth + count - 1)];
      assert IdRange(first, count, threadId, depth) == m;
      forall id ensures id in m <==> first <= id < first + count {
        assert id in m <==> id in prev || id == first + count - 1;
      }
    }
  }

  /** `frameIds` is `base` with the ids of `IdRange(first, count, threadId, depth)` bound as that range says. */
  predicate BindsFrom(frameIds: map<int, (int, int)>, base: map<int, (int, int)>, first: int, count: nat, threadId: int, depth: int) {
    frameIds == base + IdRange(first, count, threadId, depth)
  }

  /** Handing out no ids binds nothing. */
  lemma BindsNothing(m: map<int, (int, int)>, first: int, threadId: int, depth: int)
    ensures BindsFrom(m, m, first, 0, threadId, depth)
  {
    assert m + map[] == m;
  }

  /** Binding the next id to the next depth extends the range by one. */
  lemma IdRangeNext(m: map<int, (int, int)>, first: int, count: nat, threadId: int, depth: int, next: int)
    requires next == first + count
    ensures (m + IdRange(first, count, threadId, depth))[next := (threadId, depth + count)]
         == m + IdRange(first, count + 1, threadId, depth)
  {
  }

  /**
    One turn of the result loop of `handle`: a new id for the frame at
    depth `startFrame + i`, then the conversion of the `i`-th info under it.
    The ids handed out from `first` on keep standing for consecutive depths
    from `startFrame` on, and the frames converted so far keep making up
    the page.
   */
  method ConvertNext(threadId: int, startFrame: int, infos: seq<FrameInfo>, i: nat, context: AdapterContext,
                     ghost base: map<int, (int, int)>, ghost first: int, ghost done: seq<StackFrame>, ghost page: Converted)
    returns (converted: Result<StackFrame, UriSyntaxError>)
    requires context.Valid() && i < |infos|
    requires context.nextId == first + i
    requires BindsFrom(context.frameIds, base, first, i, threadId, startFrame)
    requires PageSoFar(infos, i, done, context.nextId, context.sourceLookupCache, context.env, page)
    modifies context
    ensures context.Valid()
    ensures context.nextId == old(context.nextId) + 1
    ensures BindsFrom(context.frameIds, base, first, i + 1, threadId, startFrame)
    ensures context.stackFrames == old(context.stackFrames)
    ensures converted.Err? ==> done == page.frames && context.sourceLookupCache == page.cache && page.failed
    ensures converted.Ok? ==>
      PageSoFar(infos, i + 1, done + [converted.value], context.nextId, context.sourceLookupCache, context.env, page)
  {
    ghost var cache := context.sourceLookupCache;
    var frameId := context.AddObject(threadId, startFrame + i);
    IdRangeNext(base, first, i, threadId, startFrame, frameId);
    converted := ConvertDebuggerStackFrameToClient(infos[i], frameId, context);
    PageStep(infos, i, done, page, frameId, cache, context.env, converted, context.sourceLookupCache, context.nextId);
  }

  /**
    The result loop of `handle`: for each resolved frame in order, a new id
    bound to the thread and the frame's depth, then its client frame; the
    first conversion that throws ends the page, its id already handed out.
   */
  method ConvertPage(threadId: int, startFrame: int, infos: seq<FrameInfo>, context: AdapterContext)
    returns (result: seq<StackFrame>)
    requires context.Valid()
    modifies context
    ensures context.Valid()
    ensures var page := ConvertFrames(infos, old(context.nextId), old(context.sourceLookupCache), context.env);
      && result == page.frames
      && context.sourceLookupCache == page.cache
      && context.nextId == old(context.nextId) + |result| + (if page.failed then 1 else 0)
    ensures BindsFrom(context.frameIds, old(context.frameIds), old(context.nextId), context.nextId - old(context.nextId), threadId, startFrame)
    ensures context.stackFrames == old(context.stackFrames)
  {
    ghost var page := ConvertFrames(infos, context.nextId, context.sourceLookupCache, context.env);
    result := [];
    var i := 0;
    while i < |infos|
      invariant context.Valid()
      invariant context.nextId == old(context.nextId) + i && |result| == i
      invariant context.stackFrames == old(context.stackFrames)
      invariant BindsFrom(context.frameIds, old(context.frameIds), old(context.nextId), i, threadId, startFrame)
      invariant PageSoFar(infos, i, result, context.nextId, context.sourceLookupCache, context.env, page)
    {
      var converted := ConvertNext(threadId, startFrame, infos, i, context, old(context.frameIds), old(context.nextId), result, page);
      if converted.Err? {
        assert context.nextId - old(context.nextId) == i + 1;
        return;
      }
      result := result + [converted.value];
      i := i + 1;
    }
    assert infos[i..] == [] && context.nextId - old(context.nextId) == i;
  }

  /**
    The frames a page shows: the thread's cached frames when the cache
    reaches past the page, otherwise the live thread's.
   */
  function PageFrames(cached: map<int, seq<RawFrame>>, threadId: int, thread: ThreadSnapshot, start: nat, count: nat): (page: seq<RawFrame>)
    requires start + count <= |thread.frames|
    ensures |page| == count
    ensures threadId !in cached ==> page == thread.frames[start..start + count]
  {
    if threadId in cached && start + count <= |cached[threadId]| then cached[threadId][start..start + count]
    else thread.frames[start..start + count]
  }

  /**
    One page of the response: its frames fetched through the stack frame
    manager (the thread's cached frames, or all of them cached afresh when
    the cache does not reach the page), resolved into frame infos, and
    converted one by one, each under a fresh frame id.
   */
  method ShowPage(threadId: int, thread: ThreadSnapshot, start: nat, count: nat, context: AdapterContext)
    returns (shown: seq<StackFrame>)
    requires context.Valid()
    requires thread.suspended && start + count <= |thread.frames|
    modifies context
    ensures context.Valid()
    ensures context.stackFrames ==
      if threadId in old(context.stackFrames) && start + count <= |old(context.stackFrames)[threadId]|
      then old(context.stackFrames)
      else old(context.stackFrames)[threadId := thread.frames]
    ensures ShowsPage(shown, FrameInfos(PageFrames(old(context.stackFrames), threadId, thread, start, count), context.env),
                      old(context.nextId), context.nextId, old(context.sourceLookupCache), context.sourceLookupCache, context.env)
    ensures forall i :: 0 <= i < |shown| ==> shown[i].id == old(context.nextId) + i
    ensures BindsFrom(context.frameIds, old(context.frameIds), old(context.nextId), context.nextId - old(context.nextId), threadId, start)
    ensures FrameInfos(PageFrames(old(context.stackFrames), threadId, thread, start, count), context.env).None? ==>
      context.frameIds == old(context.frameIds) && context.providerCalls == old(context.providerCalls)
  {
    ghost var firstId, ids, cache := context.nextId, context.frameIds, context.sourceLookupCache;
    ghost var pageInfos := FrameInfos(PageFrames(old(context.stackFrames), threadId, thread, start, count), context.env);
    var frames := context.ReloadStackFrames(threadId, thread, start, count);
    assert context.nextId == firstId && context.frameIds == ids && context.sourceLookupCache == cache;
    assert frames.value == PageFrames(old(context.stackFrames), threadId, thread, start, count);
    var infos := ResolveStackFrameInfos(frames.value, context.env);
    assert infos == pageInfos;
    if infos.None? {
      BindsNothing(ids, firstId, threadId, start);
      return [];
    }
    shown := ConvertPage(threadId, start, infos.value, context);
    ConvertFramesIds(infos.value, firstId, cache, context.env);
    PageShown(infos.value, shown, firstId, context.nextId, cache, context.sourceLookupCache, context.env);
  }

  /** The per-thread frame cache once a request has been seen: a request for the top frame drops the thread's entry. */
  function Invalidated(stackFrames: map<int, seq<RawFrame>>, args: StackTraceArguments): (r: map<int, seq<RawFrame>>)
    ensures args.startFrame == 0 ==> args.threadId !in r
    ensures forall id :: id in r <==> id in stackFrames && (id != args.threadId || args.startFrame != 0)
  {
    if args.startFrame == 0 then stackFrames - {args.threadId} else stackFrames
  }

  /** The request's bounds are usable: neither is negative. */
  predicate WellFormed(args: StackTraceArguments) {
    args.startFrame >= 0 && args.levels >= 0
  }

  /** The request reaches the frames: usable bounds, a suspended thread, a start before its end. */
  predicate MainPath(args: StackTraceArguments, thread: Option<ThreadSnapshot>) {
    WellFormed(args) && thread.Some? && thread.value.suspended && args.startFrame < |thread.value.frames|
  }

  /**
    What a response shows for a page whose frames resolve to `infos`: nothing
    when they do not resolve, and then no id is handed out and the source
    cache is untouched; otherwise the converted page, numbered from
    `firstId`, with the source cache left as the conversion leaves it and
    one id handed out per frame shown, plus one for a conversion that threw.
   */
  ghost predicate ShowsPage(shown: seq<StackFrame>, infos: Option<seq<FrameInfo>>, firstId: int, nextAfter: int,
                            cache: map<string, string>, cacheAfter: map<string, string>, env: Env) {
    match infos
    case None => shown == [] && nextAfter == firstId && cacheAfter == cache
    case Some(page) =>
      var converted := ConvertFrames(page, firstId, cache, env);
      && shown == converted.frames && cacheAfter == converted.cache
      && nextAfter == firstId + |shown| + (if converted.failed then 1 else 0)
  }

  /** A converted page is what the response shows for frames that resolve. */
  lemma PageShown(infos: seq<FrameInfo>, shown: seq<StackFrame>, firstId: int, nextAfter: int,
                  cache: map<string, string>, cacheAfter: map<string, string>, env: Env)
    requires shown == ConvertFrames(infos, firstId, cache, env).frames
    requires cacheAfter == ConvertFrames(infos, firstId, cache, env).cache
    requires nextAfter == firstId + |shown| + (if ConvertFrames(infos, firstId, cache, env).failed then 1 else 0)
    ensures ShowsPage(shown, Some(infos), firstId, nextAfter, cache, cacheAfter, env)
  {}

  /**
    `handle`: the page of frames for a `stackTrace` request on `thread`
    (None when no thread has the id). Negative bounds or no thread give an
    empty page and no total; a thread that is not suspended gives an empty
    page after its cached stack was dropped (when the page starts at 0); a
    start past the end gives an empty page with the total. Otherwise the
    `count` frames from the cache (fresh from the thread when the page
    starts at 0) are resolved and converted in order, each with a new id
    bound to its thread and depth; a failure leaves the frames converted
    before it.
   */
  method Handle(args: StackTraceArguments, thread: Option<ThreadSnapshot>, context: AdapterContext)
    returns (body: StackTraceResponseBody)
    requires context.Valid()
    modifies context
    ensures context.Valid()
    ensures !WellFormed(args) || thread.None? ==> body == StackTraceResponseBody([], 0) && unchanged(context)
    ensures body.totalFrames == if WellFormed(args) && thread.Some? && thread.value.suspended then |thread.value.frames| else 0
    ensures body.totalFrames <= args.startFrame ==> body.stackFrames == []
    ensures !MainPath(args, thread) ==>
      && context.nextId == old(context.nextId) && context.frameIds == old(context.frameIds)
      && context.sourceLookupCache == old(context.sourceLookupCache) && context.providerCalls == old(context.providerCalls)
    ensures WellFormed(args) && thread.Some? && !MainPath(args, thread) ==>
      context.stackFrames == Invalidated(old(context.stackFrames), args)
    ensures forall id :: id != args.threadId ==>
      (id in context.stackFrames <==> id in old(context.stackFrames))
      && (id in context.stackFrames ==> context.stackFrames[id] == old(context.stackFrames)[id])
    ensures forall i :: 0 <= i < |body.stackFrames| ==> body.stackFrames[i].id == old(context.nextId) + i
    ensures old(context.nextId) <= context.nextId
    ensures BindsFrom(context.frameIds, old(context.frameIds), old(context.nextId), context.nextId - old(context.nextId), args.threadId, args.startFrame)
    ensures MainPath(args, thread) ==>
      var count := FrameCount(args.startFrame, args.levels, |thread.value.frames|);
      var cached := Invalidated(old(context.stackFrames), args);
      && context.stackFrames ==
           (if args.threadId in cached && args.startFrame + count <= |cached[args.threadId]|
            then cached else cached[args.threadId := thread.value.frames])
      && args.threadId in context.stackFrames
      && args.startFrame + count <= |context.stackFrames[args.threadId]|
      && (args.startFrame == 0 ==> context.stackFrames[args.threadId] == thread.value.frames)
      && ShowsPage(body.stackFrames,
                   FrameInfos(PageFrames(cached, args.threadId, thread.value, args.startFrame, count), context.env),
                   old(context.nextId), context.nextId, old(context.sourceLookupCache), context.sourceLookupCache, context.env)
  {
    BindsNothing(context.frameIds, context.nextId, args.threadId, args.startFrame);
    if args.startFrame < 0 || args.levels < 0 {
      return StackTraceResponseBody([], 0);
    }
    if thread.None? {
      return StackTraceResponseBody([], 0);
    }
    var t := thread.value;
    if args.startFrame == 0 {
      context.ClearStackFrames(args.threadId);
    }
    if !t.suspended {
      return StackTraceResponseBody([], 0);
    }
    var totalFrames := |t.frames|;
    var count := FrameCount(args.startFrame, args.levels, totalFrames);
    if totalFrames <= args.startFrame {
      return StackTraceResponseBody([], totalFrames);
    }
    assert context.stackFrames == Invalidated(old(context.stackFrames), args);
    var shown := ShowPage(args.threadId, t, args.startFrame, count, context);
    return StackTraceResponseBody(shown, totalFrames);
  }
}
