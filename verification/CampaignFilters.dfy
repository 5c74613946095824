/**
 What the configured path prefixes and scopes of src/campaign/eval.rs select, over request paths and
 over what configuration validation accepts.
 */
module CampaignFilters {
  import opened Wrappers
  import opened CampaignPolicies
  import opened EventWindow
  import opened RouteShape
  import opened Text

  // ----- splitting at any separator -----

  lemma {:induction false} JoinOneMore(first: string, rest: seq<string>, c: char)
    requires rest != []
    ensures Join([first] + rest, c) == first + [c] + Join(rest, c)
  {
    assert ([first] + rest)[1..] == rest;
    JoinCons([first] + rest, c);
  }

  lemma {:induction false} JoinSplit(s: string, c: char) returns (parts: seq<string>)
    ensures parts == Split(s, c) && parts != [] && Join(parts, c) == s
    decreases |s|
  {
    var i := Find(s, c);
    if i == |s| {
      parts := [s];
    } else {
      parts := JoinSplit(s[i + 1..], c);
      JoinOneMore(s[..i], parts, c);
      parts := [s[..i]] + parts;
      assert s == s[..i] + [c] + s[i + 1..];
    }
  }

  lemma {:induction false} JoinBoth(a: seq<string>, b: seq<string>, c: char)
    requires a != [] && b != []
    ensures Join(a + b, c) == Join(a, c) + [c] + Join(b, c)
    decreases |a|
  {
    assert (a + b)[1..] == a[1..] + b;
    JoinCons(a + b, c);
    if |a| == 1 {
      assert a[1..] + b == b;
    } else {
      JoinCons(a, c);
      JoinBoth(a[1..], b, c);
    }
  }

  lemma {:induction false} SplitBoth(a: string, c: char, b: string)
    ensures Split(a + [c] + b, c) == Split(a, c) + Split(b, c)
  {
    var before := JoinSplit(a, c);
    var after := JoinSplit(b, c);
    JoinBoth(before, after, c);
    SplitJoin(before + after, c);
  }

  // ----- segments of a prefix -----

  lemma {:induction false} SlashAddsNothing(s: string)
    ensures NonEmptySegments(s + ['/']) == NonEmptySegments(s)
  {
    var nonEmpty := (segment: string) => segment != "";
    assert s + ['/'] + "" == s + ['/'];
    SplitBoth(s, '/', "");
    SplitCons("", '/', "");
    FilterAppend(nonEmpty, Split(s, '/'), [""]);
    FilterNone(nonEmpty, [""]);
    assert Filter(nonEmpty, Split(s, '/')) + [] == Filter(nonEmpty, Split(s, '/'));
  }

  lemma {:induction false} TrimmedSegments(prefix: string)
    ensures NonEmptySegments(TrimSlashes(prefix)) == NonEmptySegments(prefix)
    decreases |prefix|
  {
    if prefix != "" && prefix[|prefix| - 1] == '/' {
      var shorter := prefix[..|prefix| - 1];
      TrimmedSegments(shorter);
      assert prefix == shorter + ['/'];
      SlashAddsNothing(shorter);
    }
  }

  lemma {:induction false} TrimmedIsNoSlash(prefix: string)
    ensures TrimSlashes(prefix) != "/" && TrimSlashes("/") == ""
    decreases |prefix|
  {
    assert "/"[..0] == "";
    if prefix != "" && prefix[|prefix| - 1] == '/' { TrimmedIsNoSlash(prefix[..|prefix| - 1]); }
  }

  /** The segments of the shape of a path. */
  function ShapeSegments(path: string): seq<string> { MapCampaign(NonEmptySegments(path)) }

  lemma {:induction false} ShapeSegmentsAreStatic(path: string)
    ensures forall i :: 0 <= i < |ShapeSegments(path)| ==> StaticSegment(ShapeSegments(path)[i])
    ensures |ShapeSegments(path)| == |NonEmptySegments(path)|
  {
    SegmentsAreNonEmpty(path);
    MapsInPlace(NonEmptySegments(path));
  }

  function Rooted(segments: seq<string>): string { if segments == [] then "/" else "/" + Join(segments, '/') }

  /** Static segments, joined, are their own shape. */
  lemma {:induction false} RootedIsShape(segments: seq<string>)
    requires forall i :: 0 <= i < |segments| ==> StaticSegment(segments[i])
    ensures NonEmptySegments(Rooted(segments)) == segments && ShapeSegments(Rooted(segments)) == segments
    ensures CampaignRouteShape(Rooted(segments)) == Rooted(segments)
  {
    SegmentsOfShape(segments);
    forall s | s in segments ensures s != "" && '/' !in s {
      var i :| 0 <= i < |segments| && segments[i] == s;
    }
    MapsInPlace(segments);
    StaticStays(segments);
  }

  lemma {:induction false} SplitRooted(segments: seq<string>)
    requires segments != [] && forall i :: 0 <= i < |segments| ==> '/' !in segments[i]
    ensures Split(Rooted(segments), '/') == [""] + segments
  {
    assert Rooted(segments) == "" + ['/'] + Join(segments, '/');
    SplitCons("", '/', Join(segments, '/'));
    SplitJoin(segments, '/');
  }

  /** What lies before a slash splits into a beginning of the segments. */
  lemma {:induction false} SplitBeforeSlash(t: string, segments: seq<string>) returns (k: nat)
    requires segments != [] && t + "/" <= Rooted(segments)
    requires forall i :: 0 <= i < |segments| ==> '/' !in segments[i]
    ensures k < |segments| && Split(t, '/') == [""] + segments[..k]
  {
    var shape := Rooted(segments);
    var rest := shape[|t| + 1..];
    assert shape == t + ['/'] + rest;
    SplitBoth(t, '/', rest);
    SplitRooted(segments);
    k := |Split(t, '/')| - 1;
    assert Split(t, '/') == ([""] + segments)[..k + 1];
  }

  /** What lies before a slash of a shape is the empty string or the shape of its first segments. */
  lemma {:induction false} BeforeSlash(t: string, segments: seq<string>) returns (k: nat)
    requires segments != [] && t + "/" <= Rooted(segments)
    requires forall i :: 0 <= i < |segments| ==> '/' !in segments[i]
    ensures k < |segments| && if k == 0 then t == "" else t == Rooted(segments[..k])
  {
    k := SplitBeforeSlash(t, segments);
    var parts := JoinSplit(t, '/');
    assert parts == [""] + segments[..k];
    if k > 0 { JoinOneMore("", segments[..k], '/'); }
  }

  lemma {:induction false} SlashAfter(segments: seq<string>, k: nat)
    requires 0 < k < |segments|
    ensures Rooted(segments[..k]) + "/" <= Rooted(segments)
  {
    assert segments == segments[..k] + segments[k..];
    JoinBoth(segments[..k], segments[k..], '/');
  }

  // ----- which paths a prefix covers -----

  /** The prefix, less slashes at its end, is written as the shape of a route. */
  predicate IsShape(prefix: string) { TrimSlashes(prefix) == CampaignRouteShape(TrimSlashes(prefix)) }

  lemma {:induction false} JoinEnds(parts: seq<string>, c: char) returns (head: string)
    requires parts != []
    ensures Join(parts, c) == head + parts[|parts| - 1]
  {
    var last := parts[|parts| - 1];
    if |parts| == 1 {
      head := [];
    } else {
      JoinBoth(parts[..|parts| - 1], [last], c);
      assert parts == parts[..|parts| - 1] + [last];
      head := Join(parts[..|parts| - 1], c) + [c];
    }
  }

  lemma {:induction false} NothingToTrimBehind(head: string, last: string) returns (all: string)
    requires last != [] && '/' !in last
    ensures all == "/" + (head + last) && TrimSlashes(all) == all
  {
    all := "/" + (head + last);
    assert all[|all| - 1] == last[|last| - 1];
  }

  lemma {:induction false} PlainEnd(segments: seq<string>, last: string)
    requires segments != [] && last == segments[|segments| - 1] && last != [] && '/' !in last
    ensures TrimSlashes(Rooted(segments)) == Rooted(segments)
  {
    var head := JoinEnds(segments, '/');
    var all := NothingToTrimBehind(head, last);
  }

  lemma {:induction false} ShapesEndPlainly(segments: seq<string>)
    requires segments != [] && forall i :: 0 <= i < |segments| ==> StaticSegment(segments[i])
    ensures TrimSlashes(Rooted(segments)) == Rooted(segments)
  {
    PlainEnd(segments, segments[|segments| - 1]);
  }

  /** A prefix of slashes only covers all paths. Any other covers those whose shape begins with its
      segments if it is itself written as a shape, and none if it is not; a route with just its
      segments, only if no slash ends it. */
  ghost predicate Covers(prefix: string, path: string) {
    || TrimSlashes(prefix) == ""
    || (&& IsShape(prefix) && NonEmptySegments(prefix) <= ShapeSegments(path)
        && (TrimSlashes(prefix) == prefix || NonEmptySegments(prefix) != ShapeSegments(path)))
  }

  /** For every prefix and path: the comparison with the shape is coverage, segment by segment. */
  lemma {:induction false} PrefixCovers(prefix: string, path: string)
    ensures UnderPrefix(prefix, CampaignRouteShape(path)) <==> Covers(prefix, path)
  {
    var t, segments := TrimSlashes(prefix), ShapeSegments(path);
    ShapeSegmentsAreStatic(path);
    TrimmedSegments(prefix);
    assert CampaignRouteShape(path) == Rooted(segments);
    if t == "" {
      assert "/" <= Rooted(segments);
    } else {
      if UnderPrefix(prefix, Rooted(segments)) { CoveringIsShape(prefix, segments); }
      if && IsShape(prefix) && NonEmptySegments(prefix) <= segments
         && (TrimSlashes(prefix) == prefix || NonEmptySegments(prefix) != segments)
      {
        ShapeCovers(prefix, segments);
      }
    }
  }

  lemma {:induction false} OwnShape(prefix: string) returns (own: seq<string>)
    requires IsShape(prefix)
    ensures own == NonEmptySegments(prefix) == ShapeSegments(TrimSlashes(prefix)) && TrimSlashes(prefix) == Rooted(own)
    ensures forall i :: 0 <= i < |own| ==> StaticSegment(own[i])
  {
    own := ShapeSegments(TrimSlashes(prefix));
    assert TrimSlashes(prefix) == Rooted(own);
    ShapeSegmentsAreStatic(TrimSlashes(prefix));
    RootedIsShape(own);
    TrimmedSegments(prefix);
  }

  lemma {:induction false} CoveringIsShape(prefix: string, segments: seq<string>)
    requires TrimSlashes(prefix) != "" && UnderPrefix(prefix, Rooted(segments))
    requires forall i :: 0 <= i < |segments| ==> StaticSegment(segments[i])
    ensures IsShape(prefix) && NonEmptySegments(prefix) <= segments
    ensures TrimSlashes(prefix) == prefix || NonEmptySegments(prefix) != segments
  {
    var t := TrimSlashes(prefix);
    TrimmedSegments(prefix);
    if segments == [] {
      TrimmedIsNoSlash(prefix);
    } else if Rooted(segments) == prefix {
      ShapesEndPlainly(segments);
      RootedIsShape(segments);
    } else {
      var k := BeforeSlash(t, segments);
      RootedIsShape(segments[..k]);
    }
  }

  lemma {:induction false} ShapeCovers(prefix: string, segments: seq<string>)
    requires TrimSlashes(prefix) != "" && IsShape(prefix) && NonEmptySegments(prefix) <= segments
    requires TrimSlashes(prefix) == prefix || NonEmptySegments(prefix) != segments
    requires forall i :: 0 <= i < |segments| ==> StaticSegment(segments[i])
    ensures UnderPrefix(prefix, Rooted(segments))
  {
    var own := OwnShape(prefix);
    TrimmedIsNoSlash(prefix);
    if own != [] {
      assert own == segments[..|own|];
      if |own| < |segments| { SlashAfter(segments, |own|); } else { assert own == segments; }
    }
  }

  /** A prefix covers the paths below it, segment by segment, exactly if it consists of slashes only or
      is written as a shape; and the path it names exactly if it consists of slashes only or is written
      as a shape without a slash at the end. */
  lemma {:induction false} PrefixCoversItsPaths(prefix: string, path: string)
    requires NonEmptySegments(prefix) <= NonEmptySegments(path)
    ensures NonEmptySegments(prefix) != NonEmptySegments(path) ==>
      (UnderPrefix(prefix, CampaignRouteShape(path)) <==> TrimSlashes(prefix) == "" || IsShape(prefix))
    ensures NonEmptySegments(prefix) == NonEmptySegments(path) ==>
      (UnderPrefix(prefix, CampaignRouteShape(path)) <==>
        TrimSlashes(prefix) == "" || (IsShape(prefix) && TrimSlashes(prefix) == prefix))
  {
    PrefixCovers(prefix, path);
    TrimmedSegments(prefix);
    ShapeSegmentsAreStatic(path);
    if IsShape(prefix) {
      var own := OwnShape(prefix);
      var segments := NonEmptySegments(path);
      SegmentsAreNonEmpty(path);
      MapsInPlace(segments);
      forall i | 0 <= i < |own| ensures ShapeSegments(path)[i] == own[i] { assert segments[i] == own[i]; }
    }
  }

  // ----- scopes -----

  /** Configuration validation looks at the scope without the spaces around it. */
  predicate AcceptedScope(scope: string) { Trim(scope) in {"client", "session", "global"} }

  predicate SameScope(p: Policy, q: Policy, e: Event) { ScopeValue(p, e) == ScopeValue(q, e) }

  /** An accepted scope selects what its text says exactly if it is written without spaces around it or
      says "global": the evaluator takes any other text for "global". */
  lemma {:induction false} PaddedScopeIsGlobal(p: Policy)
    requires AcceptedScope(p.scope)
    ensures (forall e :: SameScope(p, p.(scope := Trim(p.scope)), e)) <==>
      p.scope == Trim(p.scope) || Trim(p.scope) == "global"
  {
    var e := Event("", 0, "client", "session", "", []);
    NothingToTrim("client");
    NothingToTrim("session");
    NothingToTrim("route");
    assert SameScope(p, p.(scope := Trim(p.scope)), e) ==> p.scope == Trim(p.scope) || Trim(p.scope) == "global";
  }
}
