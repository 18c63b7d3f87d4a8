/** Cell ids: "cell_root", or "cell_" and one "q0".."q3" segment for each split
    on the way down, joined by underscores. */
module CellPath {
  import opened Text

  type Quad = q: nat | q < 4

  /** The splits on the way from the root to a cell. */
  type Path = seq<Quad>

  const PREFIX := "cell_"
  const ROOT_BODY := "root"

  // ---------------------------------------------------------------- printing

  function Digit(q: Quad): char {
    ['0', '1', '2', '3'][q]
  }

  function Segment(q: Quad): string {
    ['q', Digit(q)]
  }

  function Join(parts: seq<string>, sep: char): string {
    if parts == [] then ""
    else if |parts| == 1 then parts[0]
    else parts[0] + [sep] + Join(parts[1..], sep)
  }

  function Segments(path: Path): (parts: seq<string>)
    ensures |parts| == |path|
  {
    seq(|path|, i requires 0 <= i < |path| => Segment(path[i]))
  }

  function Body(path: Path): string {
    if path == [] then ROOT_BODY else Join(Segments(path), '_')
  }

  function Format(path: Path): string {
    PREFIX + Body(path)
  }

  // ---------------------------------------------------------------- the accepted ids

  /** One or more segments: the language q[0-3](_q[0-3])*. */
  predicate IsBody(b: string) {
    |b| >= 2 && b[0] == 'q' && '0' <= b[1] <= '3' && (|b| == 2 || (b[2] == '_' && IsBody(b[3..])))
  }

  /** What follows the prefix, if it is there. */
  function AfterPrefix(s: string): Option<string> {
    if PREFIX <= s then Some(s[|PREFIX|..]) else None
  }

  /** The language ^cell_(root|q[0-3](_q[0-3])*)$ . */
  predicate IsPathID(s: string) {
    AfterPrefix(s).Some? && (AfterPrefix(s).value == ROOT_BODY || IsBody(AfterPrefix(s).value))
  }

  function BodyPath(b: string): Path
    requires IsBody(b)
  {
    [(b[1] - '0') as int] + (if |b| == 2 then [] else BodyPath(b[3..]))
  }

  /** What an id stands for, if it is accepted after trimming. */
  function PathOf(id: string): Option<Path> {
    var s := TrimSpace(id);
    if !IsPathID(s) then None
    else if AfterPrefix(s).value == ROOT_BODY then Some([])
    else Some(BodyPath(AfterPrefix(s).value))
  }

  // ---------------------------------------------------------------- parsing

  datatype ParseError = BadID | BadSegment | BadQuadrant

  function Split(s: string, sep: char): (parts: seq<string>)
    ensures parts != []
  {
    if s == [] then [""]
    else
      var rest := Split(s[1..], sep);
      if s[0] == sep then [""] + rest else [[s[0]] + rest[0]] + rest[1..]
  }

  /** The integer a one-character string denotes. */
  function AtoiChar(c: char): Option<int> {
    if '0' <= c <= '9' then Some((c - '0') as int) else None
  }

  function SegmentPath(parts: seq<string>): Result<Path, ParseError> {
    if parts == [] then Ok([])
    else
      match SegmentPath(parts[..|parts| - 1])
      case Err(e) => Err(e)
      case Ok(path) =>
        var p := parts[|parts| - 1];
        if |p| != 2 || p[0] != 'q' then Err(BadSegment)
        else
          match AtoiChar(p[1])
          case Some(q) => if q > 3 then Err(BadQuadrant) else Ok(path + [q])
          case None => Err(BadQuadrant)
  }

  /** Reads segments left to right; the first bad one decides. */
  method ParseSegments(parts: seq<string>) returns (r: Result<Path, ParseError>)
    ensures r == SegmentPath(parts)
  {
    var out: Path := [];
    for i := 0 to |parts|
      invariant SegmentPath(parts[..i]) == Ok(out)
    {
      var p := parts[i];
      assert parts[..i + 1][..i] == parts[..i];
      if |p| != 2 || p[0] != 'q' {
        FirstErrorStays(parts, i + 1);
        return Err(BadSegment);
      }
      match AtoiChar(p[1]) {
        case None =>
          FirstErrorStays(parts, i + 1);
          return Err(BadQuadrant);
        case Some(q) =>
          if q > 3 {
            FirstErrorStays(parts, i + 1);
            return Err(BadQuadrant);
          }
          out := out + [q];
      }
    }
    assert parts[..|parts|] == parts;
    r := Ok(out);
  }

  lemma {:induction false} FirstErrorStays(parts: seq<string>, k: nat)
    requires k <= |parts| && SegmentPath(parts[..k]).Err?
    ensures SegmentPath(parts) == SegmentPath(parts[..k])
  {
    if k == |parts| {
      assert parts[..k] == parts;
    } else {
      assert parts[..|parts| - 1][..k] == parts[..k];
      FirstErrorStays(parts[..|parts| - 1], k);
    }
  }

  lemma {:induction false} SplitAtSeparator(p: string, sep: char, rest: string)
    requires sep !in p
    ensures Split(p + [sep] + rest, sep) == [p] + Split(rest, sep)
  {
    var s := p + [sep] + rest;
    if p == [] {
      assert s[1..] == rest;
    } else {
      assert s[1..] == p[1..] + [sep] + rest;
      SplitAtSeparator(p[1..], sep, rest);
      assert [s[0]] + p[1..] == p;
      assert ([p[1..]] + Split(rest, sep))[1..] == Split(rest, sep);
    }
  }

  lemma {:induction false} SplitWithoutSeparator(p: string, sep: char)
    requires sep !in p
    ensures Split(p, sep) == [p]
  {
    if p != [] {
      SplitWithoutSeparator(p[1..], sep);
      assert [p[0]] + p[1..] == p;
    }
  }

  /** The first segment of a body, and what follows it. */
  lemma BodyCase(b: string)
    requires IsBody(b)
    ensures |b| >= 2 && IsSegment(b[..2])
    ensures |b| == 2 ==> b == b[..2] && BodyPath(b) == [SegmentQuad(b[..2])]
    ensures |b| > 2 ==> b == b[..2] + ['_'] + b[3..] && IsBody(b[3..]) && BodyPath(b) == [SegmentQuad(b[..2])] + BodyPath(b[3..])
  {
    hide IsBody, BodyPath;
    BodyUnfolds(b);
    FirstThree(b);
  }

  lemma FirstThree(b: string)
    requires |b| >= 2
    ensures |b| == 2 ==> b[..2] == b
    ensures |b| > 2 ==> b == b[..2] + [b[2]] + b[3..]
  {
  }

  lemma BodyUnfolds(b: string)
    requires IsBody(b)
    ensures |b| >= 2 && b[0] == 'q' && '0' <= b[1] <= '3'
    ensures |b| > 2 ==> b[2] == '_' && IsBody(b[3..])
    ensures BodyPath(b) == if |b| == 2 then [(b[1] - '0') as int] else [(b[1] - '0') as int] + BodyPath(b[3..])
  {
  }

  predicate IsSegment(p: string) {
    |p| == 2 && p[0] == 'q' && '0' <= p[1] <= '3'
  }

  function SegmentQuad(p: string): Quad
    requires IsSegment(p)
  {
    (p[1] - '0') as int
  }

  lemma SegmentMeans(p: string)
    requires IsSegment(p)
    ensures Segment(SegmentQuad(p)) == p && '_' !in p
  {
    assert p == [p[0], p[1]];
  }

  lemma SegmentsPrepend(q: Quad, rest: Path)
    ensures Segments([q] + rest) == [Segment(q)] + Segments(rest)
  {
  }

  lemma SegmentsAppend(path: Path, q: Quad)
    ensures Segments(path + [q]) == Segments(path) + [Segment(q)]
  {
  }

  lemma JoinPrepend(p: string, tail: seq<string>, sep: char)
    ensures Join([p] + tail, sep) == if tail == [] then p else p + [sep] + Join(tail, sep)
  {
    assert ([p] + tail)[1..] == tail;
  }

  /** After the pattern has matched, no segment is bad. */
  lemma {:induction false} BodySegments(b: string)
    requires IsBody(b)
    ensures SegmentPath(Split(b, '_')) == Ok(BodyPath(b))
    ensures Segments(BodyPath(b)) == Split(b, '_') && Join(Split(b, '_'), '_') == b
    decreases |b|
  {
    hide *;
    BodyCase(b);
    var p := b[..2];
    SegmentMeans(p);
    if |b| == 2 {
      SplitWithoutSeparator(p, '_');
      SegmentsPrepend(SegmentQuad(p), []);
      PrependSegment(p, []) by { NoSegments(); }
      JoinPrepend(p, [], '_');
      NoSegments();
    } else {
      var rest := b[3..];
      BodySegments(rest);
      SplitAtSeparator(p, '_', rest);
      PrependSegment(p, Split(rest, '_'));
      SegmentsPrepend(SegmentQuad(p), BodyPath(rest));
      JoinPrepend(p, Split(rest, '_'), '_');
    }
  }

  lemma NoSegments()
    ensures SegmentPath([]) == Ok([]) && Segments([]) == []
    ensures forall p: string :: [p] + [] == [p]
    ensures forall q: Quad :: [q] + [] == [q]
    ensures forall q: Quad :: [Segment(q)] + Segments([]) == [Segment(q)]
  {
  }

  lemma {:induction false} PrependSegment(p: string, tail: seq<string>)
    requires IsSegment(p) && SegmentPath(tail).Ok?
    ensures SegmentPath([p] + tail) == Ok([SegmentQuad(p)] + SegmentPath(tail).value)
  {
    var d := SegmentQuad(p);
    if tail == [] {
      assert [p] + tail == [p] && [p][..0] == [];
      assert SegmentPath([p][..0]) == Ok([]);
      assert [] + [d] == [d] + SegmentPath(tail).value;
    } else {
      var n := |tail| - 1;
      var all := [p] + tail;
      assert all[..|all| - 1] == [p] + tail[..n] && all[|all| - 1] == tail[n];
      PrependSegment(p, tail[..n]);
      var q: Quad := AtoiChar(tail[n][1]).value;
      assert [d] + (SegmentPath(tail[..n]).value + [q]) == [d] + SegmentPath(tail[..n]).value + [q];
    }
  }

  /** Parses an id. It succeeds exactly for the accepted ids and yields what they
      stand for; a rejected id is always rejected by the pattern, never by a segment. */
  method ParseCellPathID(id: string) returns (r: Result<Path, ParseError>)
    ensures r.Ok? <==> PathOf(id).Some?
    ensures r.Ok? ==> r.value == PathOf(id).value
    ensures r.Err? ==> r.error == BadID
  {
    var s := TrimSpace(id);
    if !IsPathID(s) {
      return Err(BadID);
    }
    var body := AfterPrefix(s).value;
    if body == ROOT_BODY {
      return Ok([]);
    }
    BodySegments(body);
    r := ParseSegments(Split(body, '_'));
  }

  // ---------------------------------------------------------------- printing and parsing are inverse

  lemma {:induction false} FormattedBody(path: Path)
    requires path != []
    ensures IsBody(Join(Segments(path), '_')) && BodyPath(Join(Segments(path), '_')) == path
  {
    var b := Join(Segments(path), '_');
    if |path| == 1 {
      assert b == Segment(path[0]);
    } else {
      FormattedBody(path[1..]);
      assert Segments(path)[1..] == Segments(path[1..]);
      assert b[3..] == Join(Segments(path[1..]), '_');
    }
  }

  lemma PrefixThenBody(b: string)
    ensures AfterPrefix(PREFIX + b) == Some(b)
  {
  }

  lemma BodyIsBody(path: Path)
    ensures Body(path) != [] && !IsSpace(Body(path)[|Body(path)| - 1])
    ensures path != [] ==> IsBody(Body(path)) && Body(path) != ROOT_BODY && BodyPath(Body(path)) == path
  {
    if path != [] {
      FormattedBody(path);
      NoSpaces(Body(path));
    }
  }

  lemma FormatIsTrimmed(path: Path)
    ensures TrimSpace(Format(path)) == Format(path) && Format(path) != ""
  {
    BodyIsBody(path);
    hide Body, TrimSpace;
    var s := Format(path);
    assert s == PREFIX + Body(path);
    assert s[0] == PREFIX[0] && s[|s| - 1] == Body(path)[|Body(path)| - 1];
    TrimIsIdempotent(s);
  }

  /** Parsing what was printed gives the path back, and printed ids need no trimming. */
  lemma ParseAfterFormat(path: Path)
    ensures TrimSpace(Format(path)) == Format(path) && PathOf(Format(path)) == Some(path)
  {
    FormatIsTrimmed(path);
    BodyIsBody(path);
    PrefixThenBody(Body(path));
    hide TrimSpace, IsBody, BodyPath, AfterPrefix;
    if path == [] {
      assert Body(path) == ROOT_BODY;
    } else {
      hide Body;
    }
  }

  /** The printed form itself: the root, one split, and one split more. */
  lemma FormatReads(path: Path, q: Quad)
    ensures Format([]) == "cell_root"
    ensures Format([q]) == "cell_q" + [['0', '1', '2', '3'][q]]
    ensures path != [] ==> Format(path + [q]) == Format(path) + "_q" + [['0', '1', '2', '3'][q]]
  {
    assert Segments([q]) == [Segment(q)];
    if path != [] {
      JoinOneMore(Segments(path), Segment(q), '_');
      assert Segments(path + [q]) == Segments(path) + [Segment(q)];
    }
  }

  lemma {:induction false} JoinOneMore(parts: seq<string>, last: string, sep: char)
    requires parts != []
    ensures Join(parts + [last], sep) == Join(parts, sep) + [sep] + last
  {
    if |parts| == 1 {
      assert (parts + [last])[1..] == [last];
    } else {
      JoinOneMore(parts[1..], last, sep);
      assert (parts + [last])[1..] == parts[1..] + [last];
    }
  }

  lemma {:induction false} NoSpaces(b: string)
    requires IsBody(b)
    ensures !IsSpace(b[|b| - 1])
  {
    if |b| > 2 {
      NoSpaces(b[3..]);
    }
  }

  /** Printing what was parsed gives the trimmed id back. */
  lemma FormatAfterParse(id: string)
    requires PathOf(id).Some?
    ensures Format(PathOf(id).value) == TrimSpace(id)
  {
    hide TrimSpace;
    var s := TrimSpace(id);
    var body := AfterPrefix(s).value;
    if body != ROOT_BODY {
      BodySegments(body);
    }
    assert s == PREFIX + body;
  }

  /** Different paths have different ids. */
  lemma FormatIsInjective(a: Path, b: Path)
    requires Format(a) == Format(b)
    ensures a == b
  {
    ParseAfterFormat(a);
    ParseAfterFormat(b);
  }

  // ---------------------------------------------------------------- children and descendants

  datatype ChildError = OutOfRange | BadParent

  /** The id of one of the four children: the parent's parse and one more digit. */
  method ChildIDForQuadrant(parentID: string, quadrant: int) returns (r: Result<string, ChildError>)
    ensures r.Ok? <==> 0 <= quadrant < 4 && PathOf(parentID).Some?
    ensures r.Ok? ==> r.value == Format(PathOf(parentID).value + [quadrant]) &&
                      PathOf(r.value) == Some(PathOf(parentID).value + [quadrant])
    ensures r.Err? ==> r.error == if 0 <= quadrant < 4 then BadParent else OutOfRange
  {
    hide *;
    if quadrant < 0 || quadrant > 3 {
      return Err(OutOfRange);
    }
    var parsed := ParseCellPathID(parentID);
    if parsed.Err? {
      return Err(BadParent);
    }
    var path := parsed.value;
    var parts: seq<string> := [];
    for i := 0 to |path|
      invariant parts == Segments(path[..i])
    {
      SegmentsAppend(path[..i], path[i]);
      assert path[..i + 1] == path[..i] + [path[i]];
      parts := parts + [Segment(path[i])];
    }
    assert path[..|path|] == path;
    SegmentsAppend(path, quadrant);
    ParseAfterFormat(path + [quadrant]);
    ChildFormat(path, quadrant);
    r := Ok(PREFIX + Join(parts + [Segment(quadrant)], '_'));
  }

  lemma ChildFormat(path: Path, q: Quad)
    ensures Format(path + [q]) == PREFIX + Join(Segments(path + [q]), '_')
  {
    hide Join, Segments;
    assert path + [q] != [];
  }

  /** Proper prefix order on the parses; ids that do not parse are unrelated to all. */
  predicate IsDescendant(parentID: string, childID: string) {
    PathOf(parentID).Some? && PathOf(childID).Some? && PathOf(parentID).value < PathOf(childID).value
  }

  method IsDescendantPath(parentID: string, childID: string) returns (r: bool)
    ensures r <==> IsDescendant(parentID, childID)
  {
    hide PathOf;
    var parent := ParseCellPathID(parentID);
    if parent.Err? {
      return false;
    }
    var child := ParseCellPathID(childID);
    if child.Err? {
      return false;
    }
    if |child.value| <= |parent.value| {
      return false;
    }
    for i := 0 to |parent.value|
      invariant parent.value[..i] == child.value[..i]
    {
      if parent.value[i] != child.value[i] {
        return false;
      }
    }
    r := true;
  }

  /** Children of different parents, or different quadrants, have different ids. */
  lemma ChildIDsDiffer(p: Path, q: Quad, p': Path, q': Quad)
    requires Format(p + [q]) == Format(p' + [q'])
    ensures p == p' && q == q'
  {
    FormatIsInjective(p + [q], p' + [q']);
    assert p == (p + [q])[..|p|] && p' == (p' + [q'])[..|p'|];
    assert (p + [q])[|p|] == q;
  }
}
