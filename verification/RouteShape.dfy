/**
 Route shapes: the two separate implementations of src/unknown_threats/helpers.rs and
 src/campaign/eval.rs that replace identifiers in a path by ":id".
 */
module RouteShape {
  import opened Wrappers
  import opened Text

  predicate IsHexDigit(c: char) { IsDigit(c) || 'a' <= c <= 'f' || 'A' <= c <= 'F' }

  predicate AllHex(s: string) { forall i :: 0 <= i < |s| ==> IsHexDigit(s[i]) }

  /** `segment.replace('-', "")` */
  function Compact(segment: string): string { Filter(c => c != '-', segment) }

  function NonEmptySegments(path: string): seq<string> { Filter(segment => segment != "", Split(path, '/')) }

  // ----- src/unknown_threats/helpers.rs -----

  predicate LooksDynamic(segment: string) {
    (segment != "" && AllDigits(segment)) || (|Compact(segment)| >= 16 && AllHex(Compact(segment)))
  }

  function MapDynamic(segments: seq<string>): seq<string> {
    if segments == [] then []
    else [if LooksDynamic(segments[0]) then ":id" else segments[0]] + MapDynamic(segments[1..])
  }

  function LearnerRouteShape(path: string): string {
    var segments := MapDynamic(NonEmptySegments(path));
    if segments == [] then "/" else "/" + Join(segments, '/')
  }

  // ----- src/campaign/eval.rs -----

  function MapCampaign(segments: seq<string>): seq<string> {
    if segments == [] then []
    else
      var compact := Compact(segments[0]);
      [if AllDigits(segments[0]) || (|compact| >= 16 && AllHex(compact)) then ":id" else segments[0]]
      + MapCampaign(segments[1..])
  }

  function CampaignRouteShape(path: string): string {
    var segments := MapCampaign(NonEmptySegments(path));
    if segments == [] then "/" else "/" + Join(segments, '/')
  }

  // ----- what they compute -----

  /** A segment of a shape: non-empty, within one level, and no identifier. */
  predicate StaticSegment(segment: string) { segment != "" && '/' !in segment && !LooksDynamic(segment) }

  lemma {:induction false} PlaceholderIsStatic()
    ensures StaticSegment(":id")
  {
    FilterMembers(c => c != '-', ":id");
    assert ":id"[0] == ':' && !IsDigit(':');
  }

  lemma {:induction false} SegmentsAreNonEmpty(path: string)
    ensures forall s :: s in NonEmptySegments(path) ==> s != "" && '/' !in s
  {
    FilterMembers(segment => segment != "", Split(path, '/'));
  }

  /** Each dynamic segment becomes ":id" and every other one stays, in place. */
  lemma {:induction false} MapsInPlace(segments: seq<string>)
    requires forall s :: s in segments ==> s != "" && '/' !in s
    ensures |MapDynamic(segments)| == |segments| && MapCampaign(segments) == MapDynamic(segments)
    ensures forall i :: 0 <= i < |segments| ==>
      && MapDynamic(segments)[i] == (if LooksDynamic(segments[i]) then ":id" else segments[i])
      && StaticSegment(MapDynamic(segments)[i])
  {
    PlaceholderIsStatic();
    if segments != [] {
      assert segments[0] in segments;
      MapsInPlace(segments[1..]);
    }
  }

  /** The two implementations agree on every path. */
  lemma {:induction false} RouteShapesAgree(path: string)
    ensures CampaignRouteShape(path) == LearnerRouteShape(path)
  {
    SegmentsAreNonEmpty(path);
    MapsInPlace(NonEmptySegments(path));
  }

  // ----- which segments are identifiers -----

  /** Where the segment holds anything but a hyphen. */
  ghost function Plain(segment: string): set<nat> { set i: nat | i < |segment| && segment[i] != '-' }

  ghost predicate HexOrHyphen(c: char) { c in "0123456789abcdefABCDEF-" }

  /** A number, or at least 16 hexadecimal digits with any hyphens among them. */
  ghost predicate IsIdentifier(segment: string) {
    || (segment != "" && forall c :: c in segment ==> c in "0123456789")
    || (|Plain(segment)| >= 16 && forall c :: c in segment ==> HexOrHyphen(c))
  }

  lemma {:induction false} CompactIsPlain(segment: string)
    ensures |Compact(segment)| == |Plain(segment)|
    ensures AllHex(Compact(segment)) <==> forall c :: c in segment ==> c == '-' || IsHexDigit(c)
    decreases |segment|
  {
    if segment == "" {
      assert Plain(segment) == {};
    } else {
      var n, last := |segment| - 1, segment[|segment| - 1];
      var before := segment[..n];
      assert segment == before + [last];
      CompactIsPlain(before);
      FilterAppend(c => c != '-', before, [last]);
      assert Plain(segment) == Plain(before) + if last != '-' then {n} else {};
      CompactOne(last);
      AllHexBoth(Compact(before), Compact([last]));
    }
  }

  lemma {:induction false} CompactOne(c: char)
    ensures Compact([c]) == if c == '-' then "" else [c]
  {
    if c == '-' { FilterNone(x => x != '-', [c]); } else { FilterAll(x => x != '-', [c]); }
  }

  lemma {:induction false} AllHexBoth(a: string, b: string)
    ensures AllHex(a + b) <==> AllHex(a) && AllHex(b)
  {
    assert forall i :: 0 <= i < |a| ==> (a + b)[i] == a[i];
    assert forall i :: 0 <= i < |b| ==> (a + b)[|a| + i] == b[i];
  }

  lemma {:induction false} DigitIsListed(c: char)
    ensures IsDigit(c) <==> c in "0123456789"
    ensures c == '-' || IsHexDigit(c) <==> HexOrHyphen(c)
  {
    var digits, all := "0123456789", "0123456789abcdefABCDEF-";
    if '0' <= c <= '9' { assert digits[c as int - '0' as int] == c && all[c as int - '0' as int] == c; }
    if 'a' <= c <= 'f' { assert all[10 + c as int - 'a' as int] == c; }
    if 'A' <= c <= 'F' { assert all[16 + c as int - 'A' as int] == c; }
    if c == '-' { assert all[22] == c; }
  }

  lemma {:induction false} DynamicIsIdentifier(segment: string)
    ensures LooksDynamic(segment) <==> IsIdentifier(segment)
  {
    CompactIsPlain(segment);
    forall c ensures IsDigit(c) <==> c in "0123456789" { DigitIsListed(c); }
    forall c ensures c == '-' || IsHexDigit(c) <==> HexOrHyphen(c) { DigitIsListed(c); }
    assert AllDigits(segment) <==> forall c :: c in segment ==> IsDigit(c);
  }

  lemma {:induction false} StaticStays(segments: seq<string>)
    requires forall i :: 0 <= i < |segments| ==> StaticSegment(segments[i])
    ensures MapDynamic(segments) == segments
  {
    if segments != [] { StaticStays(segments[1..]); }
  }

  lemma {:induction false} SegmentsOfShape(segments: seq<string>)
    requires forall i :: 0 <= i < |segments| ==> segments[i] != "" && '/' !in segments[i]
    ensures NonEmptySegments(if segments == [] then "/" else "/" + Join(segments, '/')) == segments
  {
    var nonEmpty := (segment: string) => segment != "";
    var rest := if segments == [] then "" else Join(segments, '/');
    assert "/" + rest == [] + ['/'] + rest && "/" + "" == "/";
    SplitCons([], '/', rest);
    if segments == [] {
      assert Split("", '/') == [""];
      FilterNone(nonEmpty, ["", ""]);
    } else {
      SplitJoin(segments, '/');
      FilterAppend(nonEmpty, [""], segments);
      FilterNone(nonEmpty, [""]);
      FilterAll(nonEmpty, segments);
    }
  }

  /** A shape is "/" or a slash-led join of static segments, one for each non-empty segment of the
      path, with identifiers replaced; taking the shape again changes nothing. */
  lemma {:induction false} ShapeOfPath(path: string) returns (segments: seq<string>)
    ensures LearnerRouteShape(path) == if segments == [] then "/" else "/" + Join(segments, '/')
    ensures |segments| == |NonEmptySegments(path)|
    ensures forall i :: 0 <= i < |segments| ==>
      && StaticSegment(segments[i])
      && segments[i] == (if IsIdentifier(NonEmptySegments(path)[i]) then ":id" else NonEmptySegments(path)[i])
    ensures LearnerRouteShape(LearnerRouteShape(path)) == LearnerRouteShape(path)
  {
    SegmentsAreNonEmpty(path);
    MapsInPlace(NonEmptySegments(path));
    segments := MapDynamic(NonEmptySegments(path));
    forall s ensures LooksDynamic(s) <==> IsIdentifier(s) { DynamicIsIdentifier(s); }
    SegmentsOfShape(segments);
    StaticStays(segments);
  }
}
