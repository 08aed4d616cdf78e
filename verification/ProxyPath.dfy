/**
 The proxy's guard against path segments that would climb out of its realm, and the
 reading of the joined path by `fetch`, which follows the URL Standard's basic URL parser
 for a special scheme: control characters and spaces dropped at the end, tabs and newlines
 dropped everywhere, both slashes separate, encoded dots count as dots.
 */
module ProxyPath {
  import opened Options
  import opened JsText

  predicate IsUnsafe(part: string) {
    part == ".." || part == "." || part == ""
  }

  /** The guard: every array element is split on '/' too. */
  predicate HasUnsafeSegment(segments: seq<string>) {
    exists i, j :: 0 <= i < |segments| && 0 <= j < |Split(segments[i], '/')| && IsUnsafe(Split(segments[i], '/')[j])
  }

  function JoinPath(segments: seq<string>): string {
    if segments == [] then ""
    else if |segments| == 1 then segments[0]
    else segments[0] + "/" + JoinPath(segments[1..])
  }

  /** The upstream path, or nothing when the request is answered with a 404. */
  function UpstreamPath(segments: seq<string>): Option<string> {
    if HasUnsafeSegment(segments) then None else Some(JoinPath(segments))
  }

  function AllPieces(segments: seq<string>): seq<string> {
    if segments == [] then [] else Split(segments[0], '/') + AllPieces(segments[1..])
  }

  /** The joined path falls apart into the pieces of its segments. */
  lemma {:induction false} SplitOfPath(segments: seq<string>)
    requires segments != []
    ensures Split(JoinPath(segments), '/') == AllPieces(segments)
  {
    if |segments| == 1 {
      assert segments[1..] == [];
      assert AllPieces(segments) == Split(segments[0], '/') + [];
    } else {
      SplitOfPath(segments[1..]);
      SplitConcat(segments[0], JoinPath(segments[1..]), '/');
    }
  }

  lemma {:induction false} PieceOfSegment(segments: seq<string>, p: string)
    ensures p in AllPieces(segments) <==> exists i :: 0 <= i < |segments| && p in Split(segments[i], '/')
  {
    if segments == [] {
    } else {
      var rest := segments[1..];
      PieceOfSegment(rest, p);
      if p in AllPieces(segments) && p !in Split(segments[0], '/') {
        var i :| 0 <= i < |rest| && p in Split(rest[i], '/');
        assert segments[i + 1] == rest[i];
      }
      if exists i :: 0 <= i < |segments| && p in Split(segments[i], '/') {
        var i :| 0 <= i < |segments| && p in Split(segments[i], '/');
        if i > 0 {
          assert rest[i - 1] == segments[i];
        }
      }
    }
  }

  /**
   Whatever slashes the segments hold: the guard lets a request through exactly when no
   part of the path it is joined into, split at '/', is "..", "." or empty. Only the empty
   list passes with an empty path.
   */
  lemma GuardSeesThePath(segments: seq<string>)
    ensures UpstreamPath(segments).Some? <==>
              segments == [] || forall p :: p in Split(JoinPath(segments), '/') ==> p != ".." && p != "." && p != ""
  {
    if segments == [] { return; }
    SplitOfPath(segments);
    if HasUnsafeSegment(segments) {
      var i, j :| 0 <= i < |segments| && 0 <= j < |Split(segments[i], '/')| && IsUnsafe(Split(segments[i], '/')[j]);
      var p := Split(segments[i], '/')[j];
      PieceOfSegment(segments, p);
      assert p in Split(segments[i], '/');
    }
    forall p | p in AllPieces(segments) && IsUnsafe(p) ensures HasUnsafeSegment(segments) {
      PieceOfSegment(segments, p);
      var i :| 0 <= i < |segments| && p in Split(segments[i], '/');
      var j :| 0 <= j < |Split(segments[i], '/')| && Split(segments[i], '/')[j] == p;
    }
  }

  // ---- how `fetch` reads the path -------------------------------------------------------------

  /** Control characters and spaces are dropped from the end of the whole address. */
  function StripEnd(s: string): string {
    if s != "" && s[|s| - 1] <= ' ' then StripEnd(s[..|s| - 1]) else s
  }

  /** What is dropped is exactly the control characters and spaces after the last other character. */
  lemma {:induction false} StripsTheEnd(s: string)
    ensures StripEnd(s) <= s
    ensures StripEnd(s) != "" ==> StripEnd(s)[|StripEnd(s)| - 1] > ' '
    ensures forall i :: |StripEnd(s)| <= i < |s| ==> s[i] <= ' '
  {
    if s == "" || s[|s| - 1] > ' ' {
    } else {
      StripsTheEnd(s[..|s| - 1]);
    }
  }

  predicate IsTabOrNewline(c: char) {
    c in {'\t', '\n', '\r'}
  }

  function WithoutTabs(s: string): string {
    if s == "" then "" else (if IsTabOrNewline(s[0]) then "" else [s[0]]) + WithoutTabs(s[1..])
  }

  /** The path ends where the query or the fragment begins. */
  function UpToQuery(s: string): string {
    if s == "" || s[0] == '?' || s[0] == '#' then "" else [s[0]] + UpToQuery(s[1..])
  }

  /** The path has neither mark in it, and where it ends early one of them follows. */
  lemma {:induction false} EndsAtMark(s: string)
    ensures UpToQuery(s) <= s && '?' !in UpToQuery(s) && '#' !in UpToQuery(s)
    ensures |UpToQuery(s)| < |s| ==> s[|UpToQuery(s)|] in {'?', '#'}
  {
    if s == "" || s[0] == '?' || s[0] == '#' {
    } else {
      EndsAtMark(s[1..]);
    }
  }

  /** A backslash separates like a slash. */
  function Slashed(s: string): string {
    seq(|s|, i requires 0 <= i < |s| => if s[i] == '\\' then '/' else s[i])
  }

  /** The pieces the parser finds in what follows the prefix. */
  function Pieces(text: string): seq<string> {
    Split(Slashed(UpToQuery(WithoutTabs(StripEnd(text)))), '/')
  }

  /** A dot, plain or percent-encoded. */
  predicate IsDot(s: string) {
    s == "." || s == "%2e" || s == "%2E"
  }

  predicate IsDoubleDot(s: string) {
    || (|s| >= 2 && IsDot(s[..1]) && IsDot(s[1..]))
    || (|s| >= 4 && IsDot(s[..3]) && IsDot(s[3..]))
  }

  datatype Kind = Up | Stay | Name

  function KindOf(piece: string): Kind {
    if IsDoubleDot(piece) then Up else if IsDot(piece) then Stay else Name
  }

  lemma TwoDots(a: string, b: string)
    requires IsDot(a) && IsDot(b)
    ensures IsDoubleDot(a + b)
  {
    if a == "." {
      assert (a + b)[..1] == a && (a + b)[1..] == b;
    } else {
      assert (a + b)[..3] == a && (a + b)[3..] == b;
    }
  }

  lemma DoubleDotSplits(p: string) returns (a: string, b: string)
    requires IsDoubleDot(p)
    ensures IsDot(a) && IsDot(b) && p == a + b && |p| in {2, 4, 6}
  {
    if |p| >= 2 && IsDot(p[..1]) && IsDot(p[1..]) {
      a, b := p[..1], p[1..];
    } else {
      a, b := p[..3], p[3..];
    }
  }

  /** The dot segments: a double dot is two dots, each plain or percent-encoded; one of them stays; everything else is a name. */
  lemma DotSegments(p: string)
    ensures KindOf(p) == Up <==> exists a, b :: a in {".", "%2e", "%2E"} && b in {".", "%2e", "%2E"} && p == a + b
    ensures KindOf(p) == Stay <==> p in {".", "%2e", "%2E"}
  {
    if IsDoubleDot(p) {
      var a, b := DoubleDotSplits(p);
    }
    if a, b :| a in {".", "%2e", "%2E"} && b in {".", "%2e", "%2E"} && p == a + b {
      TwoDots(a, b);
    }
    if IsDot(p) && IsDoubleDot(p) {
      var a, b := DoubleDotSplits(p);
    }
  }

  lemma {:induction false} WithoutTabsConcat(a: string, b: string)
    ensures WithoutTabs(a + b) == WithoutTabs(a) + WithoutTabs(b)
  {
    if a == "" {
      assert a + b == b;
    } else {
      assert (a + b)[1..] == a[1..] + b;
      WithoutTabsConcat(a[1..], b);
    }
  }

  /** Tabs and newlines vanish, wherever they stand, and nothing else does. */
  lemma TabsVanish(a: string, c: char, b: string)
    ensures WithoutTabs(a + [c] + b) == WithoutTabs(a) + (if c in {'\t', '\n', '\r'} then "" else [c]) + WithoutTabs(b)
  {
    WithoutTabsConcat(a + [c], b);
    WithoutTabsConcat(a, [c]);
    assert [c][1..] == "";
  }

  function Shorten(path: seq<string>): seq<string> {
    if path == [] then [] else path[..|path| - 1]
  }

  function Enter(path: seq<string>, piece: string): seq<string> {
    match KindOf(piece)
    case Up => Shorten(path)
    case Stay => path
    case Name => path + [piece]
  }

  function Walk(path: seq<string>, pieces: seq<string>): seq<string> {
    if pieces == [] then path else Enter(Walk(path, pieces[..|pieces| - 1]), pieces[|pieces| - 1])
  }

  /** The parsed path; one that ends in a dot segment names a directory. */
  function Resolve(path: seq<string>, pieces: seq<string>): seq<string> {
    Walk(path, pieces) + if pieces != [] && KindOf(pieces[|pieces| - 1]) != Name then [""] else []
  }

  /**
   The path requested upstream under a prefix (such as "v1", "fleet"), with the browser's
   query appended; nothing when the guard answers. Names are kept as written: the parser's
   percent-encoding of other characters makes and unmakes no dot.
   */
  function Requested(prefix: seq<string>, segments: seq<string>, search: string): Option<seq<string>> {
    match UpstreamPath(segments)
    case None => None
    case Some(path) => Some(Resolve(prefix, Pieces(path + search)))
  }

  /** A path that ends in a dot segment ends in an empty name, any other in its last piece. */
  lemma ResolveEnds(path: seq<string>, pieces: seq<string>)
    requires pieces != []
    ensures Resolve(path, pieces) != []
    ensures Resolve(path, pieces)[|Resolve(path, pieces)| - 1]
         == if KindOf(pieces[|pieces| - 1]) == Name then pieces[|pieces| - 1] else ""
  {
  }

  // ---- how far a path climbs -------------------------------------------------------------------

  function Count(pieces: seq<string>, kind: Kind): nat {
    if pieces == [] then 0
    else Count(pieces[..|pieces| - 1], kind) + if KindOf(pieces[|pieces| - 1]) == kind then 1 else 0
  }

  /** How many more of the first `k` pieces go up than name something. */
  function Depth(pieces: seq<string>, k: nat): int
    requires k <= |pieces|
  {
    Count(pieces[..k], Up) - Count(pieces[..k], Name)
  }

  lemma DepthOfPrefix(pieces: seq<string>, n: nat, k: nat)
    requires k <= n <= |pieces|
    ensures Depth(pieces[..n], k) == Depth(pieces, k)
  {
    assert pieces[..n][..k] == pieces[..k];
  }

  lemma DepthOfAll(pieces: seq<string>)
    ensures Depth(pieces, |pieces|) == Count(pieces, Up) - Count(pieces, Name)
  {
    assert pieces[..|pieces|] == pieces;
  }

  /** No beginning of the pieces goes up more often than it names something. */
  ghost predicate NeverClimbs(pieces: seq<string>) {
    forall k: nat :: k <= |pieces| ==> Depth(pieces, k) <= 0
  }

  /** The most it goes up: how many levels above the start the lowest point is. */
  function Climb(pieces: seq<string>): nat {
    if pieces == [] then 0
    else
      var before := pieces[..|pieces| - 1];
      var depth := Count(pieces, Up) - Count(pieces, Name);
      if depth > Climb(before) then depth else Climb(before)
  }

  /** `Climb` is the greatest excess of ups over names of any beginning of the pieces. */
  lemma {:induction false} ClimbIsMost(pieces: seq<string>)
    ensures exists k: nat :: k <= |pieces| && Depth(pieces, k) == Climb(pieces)
    ensures forall k: nat :: k <= |pieces| ==> Depth(pieces, k) <= Climb(pieces)
  {
    if pieces == [] {
      assert Depth(pieces, 0) == 0;
    } else {
      var n := |pieces| - 1;
      ClimbIsMost(pieces[..n]);
      DepthOfAll(pieces);
      forall k: nat | k <= |pieces| ensures Depth(pieces, k) <= Climb(pieces) {
        if k <= n {
          DepthOfPrefix(pieces, n, k);
        }
      }
      if Climb(pieces) == Climb(pieces[..n]) {
        var k: nat :| k <= n && Depth(pieces[..n], k) == Climb(pieces[..n]);
        DepthOfPrefix(pieces, n, k);
        assert Depth(pieces, k) == Climb(pieces);
      } else {
        assert Depth(pieces, |pieces|) == Climb(pieces);
      }
    }
  }

  /** What is left of the prefix after climbing. */
  function Kept(prefix: seq<string>, climb: nat): seq<string> {
    if climb >= |prefix| then [] else prefix[..|prefix| - climb]
  }

  /** A walk drops as many names of the prefix as it climbs, and adds what it would have left on its own. */
  lemma {:induction false} WalkSplits(prefix: seq<string>, pieces: seq<string>)
    ensures Walk(prefix, pieces) == Kept(prefix, Climb(pieces)) + Walk([], pieces)
    ensures |Walk([], pieces)| == Climb(pieces) + Count(pieces, Name) - Count(pieces, Up)
  {
    if pieces == [] {
      assert prefix + [] == prefix;
    } else {
      var before := pieces[..|pieces| - 1];
      WalkSplits(prefix, before);
      EnterSplits(Kept(prefix, Climb(before)), Walk([], before), pieces[|pieces| - 1]);
    }
  }

  lemma EnterSplits(kept: seq<string>, own: seq<string>, piece: string)
    ensures KindOf(piece) != Up || own != [] ==> Enter(kept + own, piece) == kept + Enter(own, piece)
    ensures KindOf(piece) == Up && own == [] ==> Enter(kept + own, piece) == Shorten(kept) && Enter(own, piece) == []
  {
    if KindOf(piece) == Up && own == [] {
      assert kept + own == kept;
    }
  }

  lemma ResolveSplits(prefix: seq<string>, pieces: seq<string>)
    ensures Resolve(prefix, pieces) == Kept(prefix, Climb(pieces)) + Resolve([], pieces)
  {
    WalkSplits(prefix, pieces);
  }

  // ---- staying under the prefix ---------------------------------------------------------------

  /** The names of the prefix a path climbs past. */
  function Passed(prefix: seq<string>, climb: nat): seq<string> {
    prefix[|Kept(prefix, climb)|..]
  }

  /**
   Exactly which requests that pass the guard stay under a given prefix: those whose path,
   read on its own, begins with the very names of the prefix it climbs past; so all that
   never climb, and of the others only those that spell their way back in.
   */
  lemma StaysUnderIff(prefix: seq<string>, segments: seq<string>, search: string)
    requires Requested(prefix, segments, search).Some?
    ensures var pieces := Pieces(JoinPath(segments) + search);
            && (prefix <= Requested(prefix, segments, search).value <==>
                  Passed(prefix, Climb(pieces)) <= Resolve([], pieces))
            && (Climb(pieces) == 0 ==> Requested(prefix, segments, search).value == prefix + Resolve([], pieces))
  {
    var pieces := Pieces(JoinPath(segments) + search);
    ResolveSplits(prefix, pieces);
    PrefixSplits(prefix, |Kept(prefix, Climb(pieces))|, Resolve([], pieces));
  }

  lemma PrefixSplits(s: seq<string>, k: nat, rest: seq<string>)
    requires k <= |s|
    ensures s <= s[..k] + rest <==> s[k..] <= rest
  {
    assert s == s[..k] + s[k..];
    if s <= s[..k] + rest {
      assert (s[..k] + rest)[k..|s|] == rest[..|s| - k];
    }
  }

  /** A path that climbs leaves the prefix of one name it does not happen to begin with. */
  lemma SomePrefixIsLeft(pieces: seq<string>)
    requires Climb(pieces) > 0
    ensures exists prefix: seq<string> :: !(prefix <= Resolve(prefix, pieces))
  {
    var own := Resolve([], pieces);
    var name := if own == [] then "x" else own[0] + "x";
    ResolveSplits([name], pieces);
    assert Kept([name], Climb(pieces)) == [];
    assert Resolve([name], pieces) == own;
    if own != [] {
      assert |name| == |own[0]| + 1;
      assert [name][0] != own[0];
    }
    assert !([name] <= Resolve([name], pieces));
  }

  ghost predicate StaysUnder(prefix: seq<string>, segments: seq<string>, search: string) {
    && Requested(prefix, segments, search).Some?
    && prefix <= Requested(prefix, segments, search).value
  }

  /**
   Exactly which requests that pass the guard stay under every prefix: those in which no
   beginning of the parser's pieces has more double dots than names.
   */
  lemma StaysUnderEveryPrefixIff(segments: seq<string>, search: string)
    requires UpstreamPath(segments).Some?
    ensures (forall prefix :: StaysUnder(prefix, segments, search)) <==> NeverClimbs(Pieces(JoinPath(segments) + search))
  {
    var pieces := Pieces(JoinPath(segments) + search);
    ClimbIsMost(pieces);
    if Climb(pieces) == 0 {
      assert NeverClimbs(pieces);
      forall prefix ensures StaysUnder(prefix, segments, search) {
        ResolveSplits(prefix, pieces);
      }
    } else {
      assert !NeverClimbs(pieces) by {
        var k: nat :| k <= |pieces| && Depth(pieces, k) == Climb(pieces);
      }
      SomePrefixIsLeft(pieces);
      var prefix :| !(prefix <= Resolve(prefix, pieces));
      assert !StaysUnder(prefix, segments, search);
    }
  }

  /** The guard alone does not keep a request under its prefix: a backslash hides the double dot from it. */
  lemma ABackslashClimbs(prefix: seq<string>)
    requires prefix != []
    ensures Requested(prefix, ["..\\x"], "") == Some(prefix[..|prefix| - 1] + ["x"])
  {
    BackslashPieces();
    var pieces := ["..", "x"];
    assert pieces[..1] == [".."] && [".."][..0] == [];
    assert Walk(prefix, [".."]) == Shorten(prefix);
    assert KindOf("x") == Name;
    assert Resolve(prefix, pieces) == Shorten(prefix) + ["x"];
    assert "..\\x" + "" == "..\\x";
  }

  lemma BackslashPieces()
    ensures UpstreamPath(["..\\x"]) == Some("..\\x")
    ensures Pieces("..\\x") == ["..", "x"]
  {
    var segment := "..\\x";
    SplitWhole(segment, '/');
    assert !HasUnsafeSegment([segment]);
    assert StripEnd(segment) == segment;
    assert segment == ['.', '.', '\\', 'x'] && segment[1..] == ['.', '\\', 'x'] && segment[1..][1..] == ['\\', 'x'];
    assert segment[1..][1..][1..] == ['x'] && segment[1..][1..][1..][1..] == [];
    assert WithoutTabs(segment) == segment;
    assert UpToQuery(segment) == segment;
    assert Slashed(segment) == ".." + ['/'] + "x";
    SplitConcat("..", "x", '/');
    SplitWhole("..", '/');
    SplitWhole("x", '/');
  }

  // ---- plain segments ---------------------------------------------------------------------------

  /** A character the parser passes on and reads as nothing but itself. */
  predicate IsPlain(c: char) {
    c > ' ' && c !in {'\\', '?', '#', '%'}
  }

  predicate AllPlain(s: string) {
    forall c :: c in s ==> IsPlain(c)
  }

  lemma {:induction false} StripKeepsPath(path: string, search: string)
    requires AllPlain(path) && (search == "" || search[0] == '?')
    ensures exists rest :: StripEnd(path + search) == path + rest && (rest == "" || rest[0] == '?')
  {
    if search == "" {
      assert path + search == path;
      if path != "" {
        assert path[|path| - 1] in path;
      }
      assert StripEnd(path + search) == path + "";
    } else if search[|search| - 1] <= ' ' {
      StripKeepsPath(path, search[..|search| - 1]);
      assert (path + search)[..|path + search| - 1] == path + search[..|search| - 1];
    } else {
      assert StripEnd(path + search) == path + search;
    }
  }

  lemma {:induction false} TabsKeepPath(path: string, rest: string)
    requires AllPlain(path)
    ensures WithoutTabs(path + rest) == path + WithoutTabs(rest)
  {
    if path == "" {
      assert path + rest == rest;
    } else {
      assert path[0] in path;
      assert (path + rest)[1..] == path[1..] + rest;
      TabsKeepPath(path[1..], rest);
    }
  }

  lemma {:induction false} QueryEndsPath(path: string, rest: string)
    requires AllPlain(path) && (rest == "" || rest[0] == '?')
    ensures UpToQuery(path + rest) == path
  {
    if path == "" {
      assert path + rest == rest;
    } else {
      assert path[0] in path;
      assert (path + rest)[1..] == path[1..] + rest;
      QueryEndsPath(path[1..], rest);
    }
  }

  lemma PiecesOfPlain(path: string, search: string)
    requires AllPlain(path) && (search == "" || search[0] == '?')
    ensures Pieces(path + search) == Split(path, '/')
  {
    StripKeepsPath(path, search);
    var rest :| StripEnd(path + search) == path + rest && (rest == "" || rest[0] == '?');
    TabsKeepPath(path, rest);
    QueryEndsPath(path, WithoutTabs(rest));
    assert forall i :: 0 <= i < |path| ==> path[i] in path;
    assert Slashed(path) == path;
  }

  lemma {:induction false} SplitKeepsPlain(s: string)
    requires AllPlain(s)
    ensures forall p :: p in Split(s, '/') ==> AllPlain(p)
  {
    if s == "" {
    } else {
      assert s[0] in s;
      assert forall c :: c in s[1..] ==> c in s;
      SplitKeepsPlain(s[1..]);
      assert Split(s[1..], '/')[0] in Split(s[1..], '/');
    }
  }

  lemma DotWithoutPercent(s: string)
    requires '%' !in s
    ensures IsDot(s) ==> s == "."
  {
    assert s != "" ==> s[0] in s;
  }

  /** A plain piece the guard lets through is a name. */
  lemma PlainIsName(p: string)
    requires AllPlain(p) && !IsUnsafe(p)
    ensures KindOf(p) == Name
  {
    assert '%' in p ==> IsPlain('%');
    DotWithoutPercent(p);
    if |p| >= 2 {
      DotWithoutPercent(p[..1]);
      DotWithoutPercent(p[1..]);
      assert p == p[..1] + p[1..];
      assert "." + "." == "..";
    }
    if |p| >= 4 {
      DotWithoutPercent(p[..3]);
      assert |p[..3]| == 3;
    }
  }

  lemma {:induction false} NamesStay(prefix: seq<string>, pieces: seq<string>)
    requires forall i :: 0 <= i < |pieces| ==> KindOf(pieces[i]) == Name
    ensures Walk(prefix, pieces) == Resolve(prefix, pieces) == prefix + pieces
  {
    if pieces == [] {
    } else {
      var n := |pieces| - 1;
      NamesStay(prefix, pieces[..n]);
      assert pieces == pieces[..n] + [pieces[n]];
    }
  }

  lemma {:induction false} JoinPathIsPlain(segments: seq<string>)
    requires forall i :: 0 <= i < |segments| ==> AllPlain(segments[i])
    ensures AllPlain(JoinPath(segments))
  {
    if |segments| <= 1 {
    } else {
      JoinPathIsPlain(segments[1..]);
    }
  }

  /**
   On segments without backslash, percent, query, fragment, space or control characters
   the guard does its whole job: what it lets through is requested exactly as joined, under
   the prefix, piece by piece.
   */
  lemma PlainRequestsAreExact(prefix: seq<string>, segments: seq<string>, search: string)
    requires segments != [] && (search == "" || search[0] == '?')
    requires forall i :: 0 <= i < |segments| ==> AllPlain(segments[i])
    requires UpstreamPath(segments).Some?
    ensures Requested(prefix, segments, search) == Some(prefix + AllPieces(segments))
  {
    var path := JoinPath(segments);
    JoinPathIsPlain(segments);
    PiecesOfPlain(path, search);
    SplitKeepsPlain(path);
    GuardSeesThePath(segments);
    SplitOfPath(segments);
    forall p | p in AllPieces(segments) ensures KindOf(p) == Name {
      PlainIsName(p);
    }
    NamesStay(prefix, AllPieces(segments));
  }
}
