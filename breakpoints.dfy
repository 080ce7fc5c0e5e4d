/**
  The breakpoint resolver of the debug adapter's core (`Breakpoint.java`): a
  breakpoint named by `Class` plus a line, or by `Class#name#signature`,
  becomes class-prepare requests for the class and its nested classes and
  breakpoint requests at every resolved code location, never two for a
  location it already watches.

  What the target VM answers (the loaded types, their methods, line tables and
  nested types) is passed in as data; requests are values kept in the
  breakpoint's `requests` list.
 */
module Breakpoints {
  import opened Basics
  import opened JavaStrings

  // ------------------------------------------------------------------
  // What the target VM reports

  /**
    A code location: declaring type, method and bytecode index. JDI tells
    locations apart by the type and method objects they belong to, not by
    their names: two classes of one name loaded by different class loaders,
    or two overloads of one method, are different. `typeId` and `methodId`
    stand for those objects; the names are those of the objects the ids
    stand for, so they add nothing to the comparison.
   */
  datatype Location = Location(typeId: nat, declaringType: string, methodId: nat, methodName: string, codeIndex: nat)

  /**
    What the resolver reads of a method. `genericSignature` is None when the
    method has no generic signature; `lineTable` is None when the class
    carries no line information (`locationsOfLine` then throws
    AbsentInformationException).
   */
  datatype Method = Method(
    name: string,
    signature: string,
    genericSignature: Option<string>,
    isAbstract: bool,
    isNative: bool,
    location: Location,
    lineTable: Option<map<int, seq<Location>>>)

  /** A loaded reference type, its methods in declaration order, and its nested types. */
  datatype RefType = RefType(name: string, methods: seq<Method>, nestedTypes: seq<RefType>)

  /** The tag each breakpoint request carries under REQUEST_TYPE. */
  datatype RequestType = LineRequest | MethodRequest | LambdaRequest

  /** An event request a breakpoint owns. */
  datatype Request =
    | ClassPrepare(classFilter: string)
    | BreakpointRequest(location: Location, countFilters: seq<int>, enabled: bool, requestType: RequestType)

  // ------------------------------------------------------------------
  // The breakpoint's identity

  /**
    The class name and method signature a breakpoint keeps for the name it
    was created with: split at the first '#', or the whole name and no
    signature.
   */
  function SplitClassName(name: string): (r: (string, Option<string>))
    ensures '#' !in r.0
    ensures '#' in name ==> r.1.Some? && r.0 + "#" + r.1.value == name
    ensures '#' !in name ==> r == (name, None)
  {
    if '#' in name then
      var i := IndexOf(name, '#');
      assert name == name[..i] + "#" + name[i + 1..];
      (name[..i], Some(name[i + 1..]))
    else
      (name, None)
  }

  /** Two names that split alike are the same name. */
  lemma SplitClassNameInjective(a: string, b: string)
    ensures SplitClassName(a) == SplitClassName(b) ==> a == b
  {
    if SplitClassName(a) == SplitClassName(b) && '#' in a {
      var r := SplitClassName(a);
      assert '#' in b;
      assert a == r.0 + "#" + r.1.value == b;
    }
  }

  /** The request type: line without a signature, lambda for a `lambda$` method, method otherwise. */
  function ComputeRequestType(methodSignature: Option<string>): (t: RequestType)
    ensures t == LineRequest <==> methodSignature.None?
    ensures t == LambdaRequest <==> methodSignature.Some? && StartsWith(methodSignature.value, "lambda$")
  {
    if methodSignature.None? then LineRequest
    else if StartsWith(methodSignature.value, "lambda$") then LambdaRequest
    else MethodRequest
  }

  /**
    `nameAndSignature.split("#")` read as segments 0 and 1; None when there
    is no segment 1 (the source then throws ArrayIndexOutOfBoundsException).
   */
  function MethodSegments(nameAndSignature: string): (r: Option<(string, string)>)
    ensures r.Some? ==> '#' in nameAndSignature && '#' !in r.value.0 && '#' !in r.value.1
    ensures r.Some? ==> r.value.0 == nameAndSignature[..IndexOf(nameAndSignature, '#')]
  {
    var segments := JavaSplit(nameAndSignature, '#');
    if |segments| >= 2 then
      JavaSplitHead(nameAndSignature, '#');
      var parts := Split(nameAndSignature, '#');
      assert segments[0] in parts && segments[1] in parts;
      Some((segments[0], segments[1]))
    else None
  }

  /** A well-formed `name#signature` splits back into its name and signature. */
  lemma MethodSegmentsOfSpec(name: string, signature: string)
    requires '#' !in name && '#' !in signature && signature != ""
    ensures MethodSegments(name + "#" + signature) == Some((name, signature))
  {
    var s := name + "#" + signature;
    assert Join([name, signature], "#") == s;
    SplitJoin([name, signature], '#');
    assert s[|name|] == '#';
  }

  /** A signature without a second '#'-separated segment cannot be searched for. */
  lemma {:induction false} MethodSegmentsNeedTwoParts(nameAndSignature: string)
    requires forall j :: 0 <= j < |nameAndSignature| && nameAndSignature[j] != '#' ==> '#' !in nameAndSignature[..j]
    ensures MethodSegments(nameAndSignature) == None
  {
    var s := nameAndSignature;
    if '#' in s {
      PiecesAfterFirstAreEmpty(s);
    }
  }

  /** When only '#' follows the first '#', every piece after the first is empty. */
  lemma {:induction false} PiecesAfterFirstAreEmpty(s: string)
    requires '#' in s
    requires forall j :: 0 <= j < |s| && s[j] != '#' ==> '#' !in s[..j]
    ensures forall k :: 1 <= k < |Split(s, '#')| ==> Split(s, '#')[k] == ""
  {
    var i := IndexOf(s, '#');
    var rest := s[i + 1..];
    assert forall c :: c in rest ==> c == '#' by {
      forall c | c in rest ensures c == '#' {
        var j :| 0 <= j < |rest| && rest[j] == c;
        assert s[i + 1 + j] == c;
        assert s[..i + 1 + j][i] == '#';
      }
    }
    AllHashesSplitEmpty(rest);
    assert Split(s, '#') == [s[..i]] + Split(rest, '#');
  }

  /** A run of '#' splits into empty pieces only. */
  lemma {:induction false} AllHashesSplitEmpty(s: string)
    requires forall c :: c in s ==> c == '#'
    ensures forall k :: 0 <= k < |Split(s, '#')| ==> Split(s, '#')[k] == ""
    decreases |s|
  {
    if s != [] {
      assert s[0] in s;
      assert IndexOf(s, '#') == 0;
      var rest := s[1..];
      assert forall c :: c in rest ==> c in s;
      AllHashesSplitEmpty(rest);
      assert Split(s, '#') == [""] + Split(rest, '#');
    }
  }

  /** A lambda-tagged breakpoint searches for a method whose name starts with `lambda$`. */
  lemma LambdaRequestSearchesLambdaMethod(methodSignature: string)
    requires ComputeRequestType(Some(methodSignature)) == LambdaRequest
    requires MethodSegments(methodSignature).Some?
    ensures StartsWith(MethodSegments(methodSignature).value.0, "lambda$")
  {
    LambdaPrefixHasNoHash();
    PrefixBeforeIndex(methodSignature, "lambda$", '#');
  }

  /** `lambda$` holds no '#', so it survives the cut at the first '#'. */
  lemma LambdaPrefixHasNoHash()
    ensures '#' !in "lambda$"
  {
  }

  // ------------------------------------------------------------------
  // Finding locations

  /** The method filter of a method breakpoint: concrete, same name, either signature. */
  predicate MatchesMethod(m: Method, name: string, signature: string) {
    && !m.isAbstract && !m.isNative
    && name == m.name
    && (Some(signature) == m.genericSignature || signature == m.signature)
  }

  /** `findMethodLocaiton`: the location of the first matching method, or null. */
  function FindMethodLocation(methods: seq<Method>, name: string, signature: string): (r: Option<Location>)
    ensures r.None? <==> forall i :: 0 <= i < |methods| ==> !MatchesMethod(methods[i], name, signature)
    ensures r.Some? ==>
      exists i :: && 0 <= i < |methods|
                  && MatchesMethod(methods[i], name, signature)
                  && r.value == methods[i].location
                  && forall j :: 0 <= j < i ==> !MatchesMethod(methods[j], name, signature)
  {
    if methods == [] then None
    else if MatchesMethod(methods[0], name, signature) then Some(methods[0].location)
    else
      var r := FindMethodLocation(methods[1..], name, signature);
      assert forall i :: 1 <= i < |methods| ==> methods[i] == methods[1..][i - 1];
      if r.Some? then
        var k :| && 0 <= k < |methods[1..]|
                 && MatchesMethod(methods[1..][k], name, signature)
                 && r.value == methods[1..][k].location
                 && forall j :: 0 <= j < k ==> !MatchesMethod(methods[1..][j], name, signature);
        assert forall j :: 0 <= j < k + 1 ==> !MatchesMethod(methods[j], name, signature) by {
          forall j | 0 <= j < k + 1 ensures !MatchesMethod(methods[j], name, signature) {
            if j > 0 { assert methods[j] == methods[1..][j - 1]; }
          }
        }
        r
      else
        r
  }

  /**
    `collectLocations(refTypes, nameAndSignature)`: the first matching
    method's location in each type, types without one contributing nothing.
   */
  function MethodLocations(refTypes: seq<RefType>, name: string, signature: string): (r: seq<Location>)
    ensures |r| <= |refTypes|
  {
    if refTypes == [] then []
    else
      var first := FindMethodLocation(refTypes[0].methods, name, signature);
      (if first.Some? then [first.value] else []) + MethodLocations(refTypes[1..], name, signature)
  }

  /** A location is found by method exactly when it is the first matching method's location in some type. */
  lemma {:induction false} MethodLocationsMembers(refTypes: seq<RefType>, name: string, signature: string, l: Location)
    ensures l in MethodLocations(refTypes, name, signature) <==>
            exists i :: 0 <= i < |refTypes| && FindMethodLocation(refTypes[i].methods, name, signature) == Some(l)
  {
    if refTypes != [] {
      MethodLocationsMembers(refTypes[1..], name, signature, l);
      if l in MethodLocations(refTypes[1..], name, signature) {
        var i :| 0 <= i < |refTypes[1..]| && FindMethodLocation(refTypes[1..][i].methods, name, signature) == Some(l);
        assert refTypes[1..][i] == refTypes[i + 1];
      }
      if exists i :: 0 <= i < |refTypes| && FindMethodLocation(refTypes[i].methods, name, signature) == Some(l) {
        var i :| 0 <= i < |refTypes| && FindMethodLocation(refTypes[i].methods, name, signature) == Some(l);
        if i > 0 { assert refTypes[1..][i - 1] == refTypes[i]; }
      }
    }
  }

  /** `findLocaitonsOfLine`: the method's locations at the line; none without line information. */
  function LocationsOfLine(m: Method, lineNumber: int): (r: seq<Location>)
    ensures m.lineTable.None? ==> r == []
    ensures r != [] ==> m.lineTable.Some? && lineNumber in m.lineTable.value && r == m.lineTable.value[lineNumber]
  {
    match m.lineTable
    case None => []
    case Some(table) => if lineNumber in table then table[lineNumber] else []
  }

  /** `collectLocations(refType, lineNumber)`: every method's locations at the line, in method order. */
  function MethodLineLocations(methods: seq<Method>, lineNumber: int): seq<Location> {
    if methods == [] then []
    else LocationsOfLine(methods[0], lineNumber) + MethodLineLocations(methods[1..], lineNumber)
  }

  /** A location is found for a line exactly when some method's line table lists it. */
  lemma {:induction false} MethodLineLocationsMembers(methods: seq<Method>, lineNumber: int, l: Location)
    ensures l in MethodLineLocations(methods, lineNumber) <==>
            exists i :: 0 <= i < |methods| && l in LocationsOfLine(methods[i], lineNumber)
  {
    if methods != [] {
      MethodLineLocationsMembers(methods[1..], lineNumber, l);
      if l in MethodLineLocations(methods[1..], lineNumber) {
        var i :| 0 <= i < |methods[1..]| && l in LocationsOfLine(methods[1..][i], lineNumber);
        assert methods[1..][i] == methods[i + 1];
      }
      if exists i :: 0 <= i < |methods| && l in LocationsOfLine(methods[i], lineNumber) {
        var i :| 0 <= i < |methods| && l in LocationsOfLine(methods[i], lineNumber);
        if i > 0 { assert methods[1..][i - 1] == methods[i]; }
      }
    }
  }

  /** The nested-type fallback: the locations of the first nested type whose methods yield any. */
  function NestedLineLocations(nestedTypes: seq<RefType>, lineNumber: int): (r: seq<Location>)
    ensures r == [] <==>
      forall j :: 0 <= j < |nestedTypes| ==> MethodLineLocations(nestedTypes[j].methods, lineNumber) == []
    ensures r != [] ==>
      exists j :: && 0 <= j < |nestedTypes|
                  && r == MethodLineLocations(nestedTypes[j].methods, lineNumber)
                  && forall k :: 0 <= k < j ==> MethodLineLocations(nestedTypes[k].methods, lineNumber) == []
  {
    if nestedTypes == [] then []
    else
      var own := MethodLineLocations(nestedTypes[0].methods, lineNumber);
      if own != [] then own
      else
        var r := NestedLineLocations(nestedTypes[1..], lineNumber);
        assert forall j :: 1 <= j < |nestedTypes| ==> nestedTypes[j] == nestedTypes[1..][j - 1];
        if r != [] then
          var k :| && 0 <= k < |nestedTypes[1..]|
                   && r == MethodLineLocations(nestedTypes[1..][k].methods, lineNumber)
                   && forall m :: 0 <= m < k ==> MethodLineLocations(nestedTypes[1..][m].methods, lineNumber) == [];
          assert forall m :: 0 <= m < k + 1 ==> MethodLineLocations(nestedTypes[m].methods, lineNumber) == [] by {
            forall m | 0 <= m < k + 1 ensures MethodLineLocations(nestedTypes[m].methods, lineNumber) == [] {
              if m > 0 { assert nestedTypes[m] == nestedTypes[1..][m - 1]; }
            }
          }
          r
        else
          r
  }

  /**
    `collectLocations(refType, lineNumber, includeNestedTypes)`: the type's
    own locations when there are any; otherwise the nested-type fallback when
    it is allowed; otherwise none.
   */
  function TypeLineLocations(refType: RefType, lineNumber: int, includeNestedTypes: bool): (r: seq<Location>)
    ensures MethodLineLocations(refType.methods, lineNumber) != [] ==> r == MethodLineLocations(refType.methods, lineNumber)
    ensures MethodLineLocations(refType.methods, lineNumber) == [] && !includeNestedTypes ==> r == []
    ensures MethodLineLocations(refType.methods, lineNumber) == [] && includeNestedTypes ==>
      r == NestedLineLocations(refType.nestedTypes, lineNumber)
  {
    var own := MethodLineLocations(refType.methods, lineNumber);
    if own != [] then own
    else if includeNestedTypes then NestedLineLocations(refType.nestedTypes, lineNumber)
    else []
  }

  /** `collectLocations(refTypes, lineNumber, includeNestedTypes)`: each type's locations, in type order. */
  function LineLocations(refTypes: seq<RefType>, lineNumber: int, includeNestedTypes: bool): (r: seq<Location>)
    ensures r == [] <==> forall i :: 0 <= i < |refTypes| ==> TypeLineLocations(refTypes[i], lineNumber, includeNestedTypes) == []
  {
    if refTypes == [] then []
    else
      assert forall i :: 1 <= i < |refTypes| ==> refTypes[i] == refTypes[1..][i - 1];
      TypeLineLocations(refTypes[0], lineNumber, includeNestedTypes) + LineLocations(refTypes[1..], lineNumber, includeNestedTypes)
  }

  /** A location is found by line exactly when it is found in one of the types. */
  lemma {:induction false} LineLocationsMembers(refTypes: seq<RefType>, lineNumber: int, includeNestedTypes: bool, l: Location)
    ensures l in LineLocations(refTypes, lineNumber, includeNestedTypes) <==>
            exists i :: 0 <= i < |refTypes| && l in TypeLineLocations(refTypes[i], lineNumber, includeNestedTypes)
  {
    if refTypes != [] {
      LineLocationsMembers(refTypes[1..], lineNumber, includeNestedTypes, l);
      if l in LineLocations(refTypes[1..], lineNumber, includeNestedTypes) {
        var i :| 0 <= i < |refTypes[1..]| && l in TypeLineLocations(refTypes[1..][i], lineNumber, includeNestedTypes);
        assert refTypes[1..][i] == refTypes[i + 1];
      }
      if exists i :: 0 <= i < |refTypes| && l in TypeLineLocations(refTypes[i], lineNumber, includeNestedTypes) {
        var i :| 0 <= i < |refTypes| && l in TypeLineLocations(refTypes[i], lineNumber, includeNestedTypes);
        if i > 0 { assert refTypes[1..][i - 1] == refTypes[i]; }
      }
    }
  }

  /**
    The locations `createBreakpointRequests` resolves: by method when the
    breakpoint has a signature, by line otherwise. None when the signature
    has no second segment and there is a type to search.
   */
  function CollectLocations(refTypes: seq<RefType>, lineNumber: int, methodSignature: Option<string>,
                            includeNestedTypes: bool): (r: Option<seq<Location>>)
    ensures r.None? <==> methodSignature.Some? && refTypes != [] && MethodSegments(methodSignature.value).None?
    ensures methodSignature.None? ==> r == Some(LineLocations(refTypes, lineNumber, includeNestedTypes))
    ensures methodSignature.Some? && r.Some? ==> |r.value| <= |refTypes|
  {
    match methodSignature
    case None => Some(LineLocations(refTypes, lineNumber, includeNestedTypes))
    case Some(nameAndSignature) =>
      if refTypes == [] then Some([])
      else
        match MethodSegments(nameAndSignature)
        case None => None
        case Some(segments) => Some(MethodLocations(refTypes, segments.0, segments.1))
  }

  /**
    A method breakpoint created for `name#signature` resolves, whatever the
    line, to the first matching method's location in each type.
   */
  lemma CollectLocationsByMethod(refTypes: seq<RefType>, lineNumber: int, name: string, signature: string,
                                 includeNestedTypes: bool, l: Location)
    requires '#' !in name && '#' !in signature && signature != ""
    ensures var r := CollectLocations(refTypes, lineNumber, Some(name + "#" + signature), includeNestedTypes);
      && r.Some?
      && (l in r.value <==>
            exists i :: 0 <= i < |refTypes| && FindMethodLocation(refTypes[i].methods, name, signature) == Some(l))
  {
    MethodSegmentsOfSpec(name, signature);
    MethodLocationsMembers(refTypes, name, signature, l);
  }

  // ------------------------------------------------------------------
  // Deduplication against existing requests

  /** The locations of the breakpoint requests among `requests`, in order. */
  function BreakpointLocations(requests: seq<Request>): seq<Location> {
    if requests == [] then []
    else
      var last := requests[|requests| - 1];
      BreakpointLocations(requests[..|requests| - 1]) + (if last.BreakpointRequest? then [last.location] else [])
  }

  /** The locations not in `existing`, in order, repetitions kept. */
  function Unseen(locations: seq<Location>, existing: seq<Location>): seq<Location> {
    if locations == [] then []
    else
      var last := locations[|locations| - 1];
      Unseen(locations[..|locations| - 1], existing) + (if last in existing then [] else [last])
  }

  /** The count filter a new request gets: the hit count when it is positive. */
  function CountFilters(hitCount: int): seq<int> {
    if hitCount > 0 then [hitCount] else []
  }

  /** The enabled breakpoint request created for one location. */
  function NewRequest(location: Location, hitCount: int, requestType: RequestType): Request {
    BreakpointRequest(location, CountFilters(hitCount), true, requestType)
  }

  /** One new request per location, in order. */
  function RequestsAt(locations: seq<Location>, hitCount: int, requestType: RequestType): (r: seq<Request>)
    ensures |r| == |locations|
    ensures forall i :: 0 <= i < |locations| ==> r[i] == NewRequest(locations[i], hitCount, requestType)
  {
    if locations == [] then []
    else RequestsAt(locations[..|locations| - 1], hitCount, requestType) + [NewRequest(locations[|locations| - 1], hitCount, requestType)]
  }

  /** The requests `createBreakpointRequests` creates: one per location not already watched. */
  function NewRequests(existing: seq<Request>, locations: seq<Location>, hitCount: int, requestType: RequestType): seq<Request> {
    RequestsAt(Unseen(locations, BreakpointLocations(existing)), hitCount, requestType)
  }

  /**
    The breakpoint requests a resolution of `refTypes` adds next to `existing`:
    none when the method signature cannot be split.
   */
  function Resolved(existing: seq<Request>, refTypes: seq<RefType>, lineNumber: int, methodSignature: Option<string>,
                    hitCount: int, includeNestedTypes: bool): seq<Request> {
    match CollectLocations(refTypes, lineNumber, methodSignature, includeNestedTypes)
    case None => []
    case Some(locations) => NewRequests(existing, locations, hitCount, ComputeRequestType(methodSignature))
  }

  lemma {:induction false} BreakpointLocationsAppend(a: seq<Request>, b: seq<Request>)
    ensures BreakpointLocations(a + b) == BreakpointLocations(a) + BreakpointLocations(b)
    decreases |b|
  {
    if b == [] {
      assert a + b == a;
    } else {
      var init := b[..|b| - 1];
      BreakpointLocationsAppend(a, init);
      assert (a + b)[..|a + b| - 1] == a + init;
    }
  }

  lemma {:induction false} UnseenMembers(locations: seq<Location>, existing: seq<Location>, l: Location)
    ensures l in Unseen(locations, existing) <==> l in locations && l !in existing
  {
    if locations != [] {
      var init := locations[..|locations| - 1];
      UnseenMembers(init, existing, l);
      assert locations == init + [locations[|locations| - 1]];
    }
  }

  lemma {:induction false} UnseenDistinct(locations: seq<Location>, existing: seq<Location>)
    requires Distinct(locations)
    ensures Distinct(Unseen(locations, existing))
  {
    if locations != [] {
      var init := locations[..|locations| - 1];
      var last := locations[|locations| - 1];
      UnseenDistinct(init, existing);
      if last !in existing {
        UnseenMembers(init, existing, last);
        assert last !in init;
      }
    }
  }

  /**
    Deduplication only looks at what is already watched: a location keeps
    every one of its occurrences in the batch unless it is watched, and then
    keeps none.
   */
  lemma {:induction false} UnseenCounts(locations: seq<Location>, existing: seq<Location>, l: Location)
    ensures multiset(Unseen(locations, existing))[l] == if l in existing then 0 else multiset(locations)[l]
  {
    if locations != [] {
      var init := locations[..|locations| - 1];
      var last := locations[|locations| - 1];
      UnseenCounts(init, existing, l);
      assert locations == init + [last];
      assert multiset(locations) == multiset(init) + multiset{last};
      var tail := if last in existing then [] else [last];
      assert Unseen(locations, existing) == Unseen(init, existing) + tail;
      assert multiset(Unseen(locations, existing)) == multiset(Unseen(init, existing)) + multiset(tail);
    }
  }

  /** The breakpoint locations of freshly created requests are the locations they were created for. */
  lemma {:induction false} LocationsOfNewRequests(locations: seq<Location>, hitCount: int, requestType: RequestType)
    ensures BreakpointLocations(RequestsAt(locations, hitCount, requestType)) == locations
  {
    if locations != [] {
      var init := locations[..|locations| - 1];
      LocationsOfNewRequests(init, hitCount, requestType);
      var rs := RequestsAt(locations, hitCount, requestType);
      assert rs[..|rs| - 1] == RequestsAt(init, hitCount, requestType);
      assert locations == init + [locations[|locations| - 1]];
    }
  }

  /**
    What `createBreakpointRequests` creates: enabled breakpoint requests with
    the count filter and request type, none at a location an existing
    breakpoint request watches.
   */
  lemma NewRequestsShape(existing: seq<Request>, locations: seq<Location>, hitCount: int, requestType: RequestType)
    ensures forall r :: r in NewRequests(existing, locations, hitCount, requestType) ==>
      && r.BreakpointRequest? && r.enabled && r.requestType == requestType
      && r.countFilters == CountFilters(hitCount)
      && r.location !in BreakpointLocations(existing)
  {
    var unwatched := Unseen(locations, BreakpointLocations(existing));
    forall r | r in NewRequests(existing, locations, hitCount, requestType)
      ensures r.location !in BreakpointLocations(existing)
    {
      var i :| 0 <= i < |unwatched| && r == RequestsAt(unwatched, hitCount, requestType)[i];
      UnseenMembers(locations, BreakpointLocations(existing), unwatched[i]);
    }
  }

  /** A location gets a new request exactly when it was resolved and no existing breakpoint request watches it. */
  lemma NewRequestsWatchUnwatchedLocations(existing: seq<Request>, locations: seq<Location>, hitCount: int,
                                           requestType: RequestType, l: Location)
    ensures l in BreakpointLocations(NewRequests(existing, locations, hitCount, requestType)) <==>
      l in locations && l !in BreakpointLocations(existing)
  {
    var unwatched := Unseen(locations, BreakpointLocations(existing));
    LocationsOfNewRequests(unwatched, hitCount, requestType);
    UnseenMembers(locations, BreakpointLocations(existing), l);
  }

  /**
    A location repeated within one resolved batch gets a request for each
    occurrence, unless an existing request already watches it.
   */
  lemma NewRequestsKeepBatchRepeats(existing: seq<Request>, locations: seq<Location>, hitCount: int,
                                    requestType: RequestType, l: Location)
    ensures multiset(BreakpointLocations(NewRequests(existing, locations, hitCount, requestType)))[l]
         == if l in BreakpointLocations(existing) then 0 else multiset(locations)[l]
  {
    LocationsOfNewRequests(Unseen(locations, BreakpointLocations(existing)), hitCount, requestType);
    UnseenCounts(locations, BreakpointLocations(existing), l);
  }

  /**
    A class of an already watched name, loaded by another class loader, is
    another type: its locations get requests of their own.
   */
  lemma OtherLoaderTypeGetsRequests(existing: seq<Request>, locations: seq<Location>, hitCount: int,
                                    requestType: RequestType, l: Location)
    requires l in locations
    requires forall w :: w in BreakpointLocations(existing) ==> w.typeId != l.typeId
    ensures l in BreakpointLocations(NewRequests(existing, locations, hitCount, requestType))
  {
    NewRequestsWatchUnwatchedLocations(existing, locations, hitCount, requestType, l);
  }

  /** Resolving the same locations again, once their requests exist, creates nothing. */
  lemma NewRequestsIdempotent(existing: seq<Request>, locations: seq<Location>, hitCount: int,
                              requestType: RequestType, hitCount': int, requestType': RequestType)
    ensures NewRequests(existing + NewRequests(existing, locations, hitCount, requestType), locations, hitCount', requestType') == []
  {
    var added := NewRequests(existing, locations, hitCount, requestType);
    var all := BreakpointLocations(existing + added);
    BreakpointLocationsAppend(existing, added);
    forall l | l in locations ensures l in all {
      NewRequestsWatchUnwatchedLocations(existing, locations, hitCount, requestType, l);
    }
    var unwatched := Unseen(locations, all);
    if unwatched != [] {
      UnseenMembers(locations, all, unwatched[0]);
      assert false;
    }
  }

  /**
    The watched locations stay free of repetitions when the resolved batch
    has none: deduplication is only against the existing requests.
   */
  lemma NewRequestsKeepLocationsDistinct(existing: seq<Request>, locations: seq<Location>, hitCount: int,
                                         requestType: RequestType)
    requires Distinct(BreakpointLocations(existing)) && Distinct(locations)
    ensures Distinct(BreakpointLocations(existing + NewRequests(existing, locations, hitCount, requestType)))
  {
    var old_ := BreakpointLocations(existing);
    var unwatched := Unseen(locations, old_);
    BreakpointLocationsAppend(existing, NewRequests(existing, locations, hitCount, requestType));
    LocationsOfNewRequests(unwatched, hitCount, requestType);
    UnseenDistinct(locations, old_);
    var all := old_ + unwatched;
    forall i, j | 0 <= i < j < |all| ensures all[i] != all[j] {
      if i < |old_| && j >= |old_| {
        UnseenMembers(locations, old_, all[j]);
      }
    }
  }

  /** `request.addCountFilter(hitCount); request.enable()` on breakpoint requests only. */
  function WithCountFilter(request: Request, hitCount: int): Request {
    match request
    case ClassPrepare(_) => request
    case BreakpointRequest(location, filters, _, requestType) =>
      BreakpointRequest(location, filters + [hitCount], true, requestType)
  }

  /** Every request after `setHitCount`. */
  function WithHitCount(requests: seq<Request>, hitCount: int): (r: seq<Request>)
    ensures |r| == |requests|
    ensures forall i :: 0 <= i < |requests| && requests[i].ClassPrepare? ==> r[i] == requests[i]
    ensures forall i :: 0 <= i < |requests| && requests[i].BreakpointRequest? ==>
      && r[i].BreakpointRequest? && r[i].enabled
      && r[i].location == requests[i].location && r[i].requestType == requests[i].requestType
      && r[i].countFilters == requests[i].countFilters + [hitCount]
  {
    seq(|requests|, i requires 0 <= i < |requests| => WithCountFilter(requests[i], hitCount))
  }

  /** Changing the hit count moves no request: the watched locations stay the same. */
  lemma {:induction false} WithHitCountKeepsLocations(requests: seq<Request>, hitCount: int)
    ensures BreakpointLocations(WithHitCount(requests, hitCount)) == BreakpointLocations(requests)
  {
    if requests != [] {
      var init := requests[..|requests| - 1];
      WithHitCountKeepsLocations(init, hitCount);
      assert WithHitCount(requests, hitCount)[..|requests| - 1] == WithHitCount(init, hitCount);
    }
  }

  /** A request a breakpoint with these name parts can own. */
  predicate Owned(request: Request, className: string, methodSignature: Option<string>) {
    match request
    case ClassPrepare(filter) => filter == className || filter == className + "$*"
    case BreakpointRequest(_, _, _, requestType) => requestType == ComputeRequestType(methodSignature)
  }

  // ------------------------------------------------------------------
  // The steps of `createBreakpointRequests`

  /** The locations the breakpoint requests among `requests` watch, in order. */
  method WatchedLocations(requests: seq<Request>) returns (existingLocations: seq<Location>)
    ensures existingLocations == BreakpointLocations(requests)
  {
    existingLocations := [];
    var i := 0;
    while i < |requests|
      invariant 0 <= i <= |requests|
      invariant existingLocations == BreakpointLocations(requests[..i])
    {
      assert requests[..i + 1][..i] == requests[..i];
      if requests[i].BreakpointRequest? {
        existingLocations := existingLocations + [requests[i].location];
      }
      i := i + 1;
    }
    assert requests[..|requests|] == requests;
  }

  /** `locations` without those in `existingLocations`, in order. */
  method Unwatched(locations: seq<Location>, existingLocations: seq<Location>) returns (newLocations: seq<Location>)
    ensures newLocations == Unseen(locations, existingLocations)
  {
    newLocations := [];
    var i := 0;
    while i < |locations|
      invariant 0 <= i <= |locations|
      invariant newLocations == Unseen(locations[..i], existingLocations)
    {
      assert locations[..i + 1][..i] == locations[..i];
      if locations[i] !in existingLocations {
        newLocations := newLocations + [locations[i]];
      }
      i := i + 1;
    }
    assert locations[..|locations|] == locations;
  }

  /** One enabled breakpoint request per location, with a count filter when `hitCount` is positive. */
  method CreateRequests(newLocations: seq<Location>, hitCount: int, requestType: RequestType) returns (created: seq<Request>)
    ensures created == RequestsAt(newLocations, hitCount, requestType)
  {
    created := [];
    var i := 0;
    while i < |newLocations|
      invariant 0 <= i <= |newLocations|
      invariant created == RequestsAt(newLocations[..i], hitCount, requestType)
    {
      assert newLocations[..i + 1][..i] == newLocations[..i];
      var filters := CountFilters(hitCount);
      created := created + [BreakpointRequest(newLocations[i], filters, true, requestType)];
      i := i + 1;
    }
    assert newLocations[..|newLocations|] == newLocations;
  }

  // ------------------------------------------------------------------
  // The breakpoint

  class Breakpoint {
    ghost const name: string      // the name the breakpoint was created with
    const className: string
    const methodSignature: Option<string>
    const lineNumber: int
    var hitCount: int
    var condition: Option<string>
    var logMessage: Option<string>
    var requests: seq<Request>
    var subscriptions: seq<nat>   // the installs whose class-prepare subscription is live
    var futures: seq<bool>        // for each install, whether the future it returned is done
    var verified: bool            // the "verified" property
    ghost var completions: seq<nat>   // for each install, how often its future was completed

    ghost predicate Valid()
      reads this
    {
      && (className, methodSignature) == SplitClassName(name)
      && |completions| == |futures|
      && (forall i :: 0 <= i < |futures| ==> completions[i] == if futures[i] then 1 else 0)
      && (forall f :: f in subscriptions ==> f < |futures|)
      && (verified <==> true in futures)
      && (forall r :: r in requests ==> Owned(r, className, methodSignature))
    }

    constructor (name: string, lineNumber: int, hitCount: int, condition: Option<string>, logMessage: Option<string>)
      ensures Valid()
      ensures this.name == name && (className, methodSignature) == SplitClassName(name)
      ensures this.lineNumber == lineNumber && this.hitCount == hitCount
      ensures this.condition == condition && this.logMessage == logMessage
      ensures requests == [] && subscriptions == [] && futures == [] && !verified
    {
      var parts := SplitClassName(name);
      this.name := name;
      className := parts.0;
      methodSignature := parts.1;
      this.lineNumber := lineNumber;
      this.hitCount := hitCount;
      this.condition := condition;
      this.logMessage := logMessage;
      requests := [];
      subscriptions := [];
      futures := [];
      verified := false;
      completions := [];
    }

    /**
      `equals` between two breakpoints: same class name, line and method
      signature, which for breakpoints as constructed means the same name
      and the same line.
     */
    predicate Equals(other: Breakpoint): (r: bool)
      reads this, other
      ensures Valid() && other.Valid() ==> (r <==> name == other.name && lineNumber == other.lineNumber)
    {
      SplitClassNameInjective(name, other.name);
      className == other.className && lineNumber == other.lineNumber && methodSignature == other.methodSignature
    }

    /**
      `createBreakpointRequests`: the locations resolved in `refTypes`, less
      those an existing breakpoint request watches, each made into an enabled
      breakpoint request. None when the method signature cannot be split.
     */
    method CreateBreakpointRequests(refTypes: seq<RefType>, lineNumber: int, hitCount: int, includeNestedTypes: bool)
      returns (newRequests: Option<seq<Request>>)
      ensures var found := CollectLocations(refTypes, lineNumber, methodSignature, includeNestedTypes);
        && (newRequests.None? <==> found.None?)
        && (newRequests.Some? ==>
              newRequests.value == NewRequests(requests, found.value, hitCount, ComputeRequestType(methodSignature)))
      ensures newRequests.Some? ==> forall r :: r in newRequests.value ==>
        && r.BreakpointRequest? && r.location !in BreakpointLocations(requests)
        && r.enabled && r.requestType == ComputeRequestType(methodSignature)
        && r.countFilters == CountFilters(hitCount)
    {
      var found := CollectLocations(refTypes, lineNumber, methodSignature, includeNestedTypes);
      if found.None? {
        return None;
      }
      var locations := found.value;
      var existingLocations := WatchedLocations(requests);
      var newLocations := Unwatched(locations, existingLocations);
      var requestType := ComputeRequestType(methodSignature);
      var created := CreateRequests(newLocations, hitCount, requestType);
      newRequests := Some(created);
      NewRequestsShape(requests, locations, hitCount, requestType);
    }

    /**
      What both resolution paths of `install` do with a batch of new
      breakpoint requests: keep them, and complete the install's future (and
      mark the breakpoint verified) when the batch is non-empty and the
      future is not yet done.
     */
    method AddResolved(future: nat, added: seq<Request>)
      requires Valid() && future < |futures|
      requires forall r :: r in added ==> Owned(r, className, methodSignature)
      modifies this
      ensures Valid()
      ensures requests == old(requests) + added
      ensures futures == old(futures)[future := old(futures)[future] || added != []]
      ensures completions == old(completions)[future := if added != [] then 1 else old(completions)[future]]
      ensures verified == (old(verified) || added != [])
      ensures subscriptions == old(subscriptions)
      ensures hitCount == old(hitCount) && condition == old(condition) && logMessage == old(logMessage)
    {
      assert futures[future] ==> verified by {
        assert futures[future] ==> futures[future] in futures;
      }
      requests := requests + added;
      if added != [] && !futures[future] {
        verified := true;
        futures := futures[future := true];
        completions := completions[future := completions[future] + 1];
        assert futures[future] in futures;
      }
    }

    /**
      A resolution of `refTypes` for install number `future`, as both paths
      of `install` run it: the breakpoint requests created for the types,
      none when creating them throws, kept by `AddResolved`.
     */
    method AddRequestsFor(future: nat, refTypes: seq<RefType>, includeNestedTypes: bool) returns (resolved: bool)
      requires Valid() && future < |futures|
      modifies this
      ensures Valid()
      ensures resolved == CollectLocations(refTypes, lineNumber, methodSignature, includeNestedTypes).Some?
      ensures var added := Resolved(old(requests), refTypes, lineNumber, methodSignature, hitCount, includeNestedTypes);
        && requests == old(requests) + added
        && futures == old(futures)[future := old(futures)[future] || added != []]
        && completions == old(completions)[future := if added != [] then 1 else old(completions)[future]]
        && verified == (old(verified) || added != [])
      ensures subscriptions == old(subscriptions)
      ensures hitCount == old(hitCount) && condition == old(condition) && logMessage == old(logMessage)
    {
      var newRequests := CreateBreakpointRequests(refTypes, lineNumber, hitCount, includeNestedTypes);
      resolved := newRequests.Some?;
      var added := if newRequests.Some? then newRequests.value else [];
      assert added == Resolved(requests, refTypes, lineNumber, methodSignature, hitCount, includeNestedTypes);
      AddResolved(future, added);
    }

    /**
      The part of `install` that listens for classes loaded later: the
      class-prepare requests for the class and its local types, a new future
      that is not done, and a live subscription for it.
     */
    method Subscribe() returns (future: nat)
      requires Valid()
      modifies this
      ensures Valid()
      ensures requests == old(requests) + [ClassPrepare(className), ClassPrepare(className + "$*")]
      ensures future == |old(futures)| && futures == old(futures) + [false] && completions == old(completions) + [0]
      ensures subscriptions == old(subscriptions) + [future] && verified == old(verified)
      ensures hitCount == old(hitCount) && condition == old(condition) && logMessage == old(logMessage)
    {
      requests := requests + [ClassPrepare(className)];
      requests := requests + [ClassPrepare(className + "$*")];
      future := |futures|;
      futures := futures + [false];
      completions := completions + [0];
      subscriptions := subscriptions + [future];
      assert true in futures <==> true in old(futures) by {
        assert futures == old(futures) + [false];
      }
    }

    /**
      `install` with the existing classes resolved synchronously: two
      class-prepare requests, a subscription, and the breakpoint requests for
      the types already loaded under the class name. Returns the install's
      future and whether resolving the loaded types completed (it throws when
      the method signature cannot be split).
     */
    method Install(loadedTypes: seq<RefType>) returns (future: nat, resolved: bool)
      requires Valid()
      modifies this
      ensures Valid()
      ensures future == |old(futures)| && subscriptions == old(subscriptions) + [future]
      ensures resolved == CollectLocations(loadedTypes, lineNumber, methodSignature, true).Some?
      ensures var prepared := old(requests) + [ClassPrepare(className), ClassPrepare(className + "$*")];
        var added := Resolved(prepared, loadedTypes, lineNumber, methodSignature, hitCount, true);
        && requests == prepared + added
        && futures == old(futures) + [added != []]
        && completions == old(completions) + [if added != [] then 1 else 0]
        && verified == (old(verified) || added != [])
      ensures hitCount == old(hitCount) && condition == old(condition) && logMessage == old(logMessage)
    {
      ghost var prepared := old(requests) + [ClassPrepare(className), ClassPrepare(className + "$*")];
      future := Subscribe();
      ghost var added := Resolved(requests, loadedTypes, lineNumber, methodSignature, hitCount, true);
      resolved := AddRequestsFor(future, loadedTypes, true);
      assert (old(futures) + [false])[|old(futures)| := added != []] == old(futures) + [added != []];
      assert (old(completions) + [0])[|old(completions)| := if added != [] then 1 else 0]
          == old(completions) + [if added != [] then 1 else 0];
    }

    /**
      The class-prepare subscriber of install number `future`, run for a
      class-prepare event on `refType`: breakpoint requests for the newly
      loaded type (without the nested-type fallback), and the future completed
      the first time a batch is non-empty. Nothing happens once the
      subscription is disposed.
     */
    method OnClassPrepare(future: nat, refType: RefType)
      requires Valid()
      modifies this
      ensures Valid()
      ensures future !in old(subscriptions) ==> unchanged(this)
      ensures future in old(subscriptions) ==>
        requests == old(requests) + Resolved(old(requests), [refType], lineNumber, methodSignature, hitCount, false)
      ensures future in old(subscriptions) ==>
        futures == old(futures)[future := old(futures)[future] || requests != old(requests)]
      ensures future in old(subscriptions) ==>
        completions == old(completions)[future := if requests != old(requests) then 1 else old(completions)[future]]
      ensures verified == (old(verified) || requests != old(requests))
      ensures subscriptions == old(subscriptions)
      ensures hitCount == old(hitCount) && condition == old(condition) && logMessage == old(logMessage)
    {
      if future !in subscriptions {
        return;
      }
      var _ := AddRequestsFor(future, [refType], false);
    }

    /** `setHitCount`: the new count, added as a count filter to every breakpoint request, which is enabled. */
    method SetHitCount(hitCount: int)
      requires Valid()
      modifies this
      ensures Valid()
      ensures this.hitCount == hitCount
      ensures requests == WithHitCount(old(requests), hitCount)
      ensures subscriptions == old(subscriptions) && futures == old(futures) && verified == old(verified)
      ensures completions == old(completions) && condition == old(condition) && logMessage == old(logMessage)
    {
      this.hitCount := hitCount;
      var i := 0;
      while i < |requests|
        invariant 0 <= i <= |requests| == |old(requests)|
        invariant forall j :: 0 <= j < i ==> requests[j] == WithCountFilter(old(requests)[j], hitCount)
        invariant forall j :: i <= j < |requests| ==> requests[j] == old(requests)[j]
        invariant this.hitCount == hitCount
        invariant subscriptions == old(subscriptions) && futures == old(futures) && verified == old(verified)
        invariant completions == old(completions) && condition == old(condition) && logMessage == old(logMessage)
      {
        requests := requests[i := WithCountFilter(requests[i], hitCount)];
        i := i + 1;
      }
      forall r | r in requests ensures Owned(r, className, methodSignature) {
        var j :| 0 <= j < |requests| && requests[j] == r;
        assert old(requests)[j] in old(requests);
      }
    }

    /** `close`: every request deleted and every subscription disposed. */
    method Close()
      requires Valid()
      modifies this
      ensures Valid()
      ensures requests == [] && subscriptions == []
      ensures futures == old(futures) && verified == old(verified) && completions == old(completions)
      ensures hitCount == old(hitCount) && condition == old(condition) && logMessage == old(logMessage)
    {
      requests := [];
      subscriptions := [];
    }
  }}
