/** URL paths: the parent of a path as Go's path.Dir computes it, on every string,
    and what it is on canonical absolute paths. */
module Paths {

  /** The last position of '/', or -1. */
  function LastSlash(p: string): (i: int)
    ensures -1 <= i < |p| && (i >= 0 ==> p[i] == '/') && forall k :: i < k < |p| ==> p[k] != '/'
  {
    if p == "" then -1
    else if p[|p| - 1] == '/' then |p| - 1
    else LastSlash(p[..|p| - 1])
  }

  /** An empty element and "." stand for nothing. */
  function Piece(x: string): seq<string> {
    if x == "" || x == "." then [] else [x]
  }

  /** The elements between slashes that stand for something. */
  function Segments(p: string): seq<string>
    decreases |p|
  {
    var i := LastSlash(p);
    if i < 0 then Piece(p) else Segments(p[..i]) + Piece(p[i + 1..])
  }

  /** ".." takes the element before it along; at the root it stands for nothing. */
  function Resolve(segs: seq<string>, rooted: bool): seq<string> {
    if segs == [] then [] else
      var out := Resolve(segs[..|segs| - 1], rooted);
      var seg := segs[|segs| - 1];
      if seg != ".." then out + [seg]
      else if out != [] && out[|out| - 1] != ".." then out[..|out| - 1]
      else if rooted then out
      else out + [".."]
  }

  function Joined(segs: seq<string>): string {
    if segs == [] then "" else Joined(segs[..|segs| - 1]) + "/" + segs[|segs| - 1]
  }

  function Render(segs: seq<string>, rooted: bool): string {
    if rooted then (if segs == [] then "/" else Joined(segs))
    else if segs == [] then "."
    else JoinedStarts(segs); Joined(segs)[1..]
  }

  lemma JoinedStarts(segs: seq<string>)
    ensures segs != [] ==> |Joined(segs)| >= 1 && Joined(segs)[0] == '/'
  {
    if |segs| > 1 { JoinedStarts(segs[..|segs| - 1]); }
  }

  predicate IsRooted(p: string) { p != "" && p[0] == '/' }

  function Clean(p: string): string {
    Render(Resolve(Segments(p), IsRooted(p)), IsRooted(p))
  }

  function Dir(p: string): string {
    Clean(p[..LastSlash(p) + 1])
  }

  // ----- The parent is shorter -----

  lemma JoinedAppend(a: seq<string>, x: string)
    ensures |Joined(a + [x])| == |Joined(a)| + 1 + |x|
  {
    assert (a + [x])[..|a|] == a;
  }

  lemma {:induction false} SegmentsLength(p: string)
    ensures |Joined(Segments(p))| <= |p| + 1
    ensures IsRooted(p) ==> |Joined(Segments(p))| <= |p|
    decreases |p|
  {
    var i := LastSlash(p);
    if i < 0 {
      assert Segments(p) == [] + Piece(p);
      JoinedAppend([], p);
    } else {
      SegmentsLength(p[..i]);
      JoinedAppend(Segments(p[..i]), p[i + 1..]);
      if Piece(p[i + 1..]) == [] { assert Segments(p) == Segments(p[..i]); }
    }
  }

  lemma {:induction false} ResolveLength(segs: seq<string>, rooted: bool)
    ensures |Joined(Resolve(segs, rooted))| <= |Joined(segs)|
  {
    if segs != [] {
      var n := |segs| - 1;
      var out := Resolve(segs[..n], rooted);
      ResolveLength(segs[..n], rooted);
      assert segs == segs[..n] + [segs[n]];
      JoinedAppend(segs[..n], segs[n]);
      JoinedAppend(out, segs[n]);
      if out != [] {
        assert out == out[..|out| - 1] + [out[|out| - 1]];
        JoinedAppend(out[..|out| - 1], out[|out| - 1]);
      }
    }
  }

  /** A trailing slash adds no element. */
  lemma SegmentsOfSlash(a: string)
    ensures Segments(a + "/") == Segments(a)
  {
    var d := a + "/";
    assert d[|d| - 1] == '/' && LastSlash(d) == |a|;
    assert d[..|a|] == a && d[|a| + 1..] == "";
    assert Segments(a) + [] == Segments(a);
  }

  /** Walking to the parent ends: it reaches "/" or ".", or gets shorter. */
  lemma DirIsShorter(p: string)
    ensures Dir(p) == "/" || Dir(p) == "." || |Dir(p)| < |p|
  {
    var i := LastSlash(p);
    if i >= 0 {
      var rooted := p[0] == '/';
      SegmentsOfSlash(p[..i]);
      assert p[..i + 1] == p[..i] + "/";
      SegmentsLength(p[..i]);
      var out := Resolve(Segments(p[..i]), rooted);
      ResolveLength(Segments(p[..i]), rooted);
      JoinedStarts(out);
      assert IsRooted(p[..i + 1]) == rooted;
      if i == 0 { assert p[..0] == ""; }
      assert rooted && i > 0 ==> IsRooted(p[..i]);
      assert Dir(p) == Render(out, rooted);
    } else {
      assert p[..0] == "";
    }
  }

  // ----- Canonical absolute paths -----

  predicate PlainSegment(s: string) {
    s != "" && s != "." && s != ".." && '/' !in s
  }

  predicate PlainSegments(segs: seq<string>) {
    forall i :: 0 <= i < |segs| ==> PlainSegment(segs[i])
  }

  predicate Pieces(segs: seq<string>) {
    forall i :: 0 <= i < |segs| ==> segs[i] != "" && segs[i] != "." && '/' !in segs[i]
  }

  /** An absolute path that cleaning leaves alone. */
  predicate Canonical(p: string) {
    IsRooted(p) && Clean(p) == p
  }

  function Abs(segs: seq<string>): string { Render(segs, true) }

  lemma {:induction false} SegmentsArePieces(p: string)
    ensures Pieces(Segments(p))
    decreases |p|
  {
    var i := LastSlash(p);
    if i >= 0 {
      SegmentsArePieces(p[..i]);
      assert '/' !in p[i + 1..];
    }
  }

  lemma {:induction false} ResolveRooted(segs: seq<string>)
    requires Pieces(segs)
    ensures PlainSegments(Resolve(segs, true))
  {
    if segs != [] { ResolveRooted(segs[..|segs| - 1]); }
  }

  /** Cleaning an absolute path yields plain elements. */
  lemma CleanIsPlain(p: string) returns (segs: seq<string>)
    requires IsRooted(p)
    ensures PlainSegments(segs) && Clean(p) == Abs(segs)
  {
    SegmentsArePieces(p);
    segs := Resolve(Segments(p), true);
    ResolveRooted(Segments(p));
  }

  lemma {:induction false} LastSlashOfJoin(a: string, x: string)
    requires '/' !in x
    ensures LastSlash(a + "/" + x) == |a|
  {
    var p := a + "/" + x;
    if x == "" {
      assert p[|p| - 1] == '/';
    } else {
      assert p[..|p| - 1] == a + "/" + x[..|x| - 1];
      assert p[|p| - 1] == x[|x| - 1] && x[|x| - 1] in x;
      LastSlashOfJoin(a, x[..|x| - 1]);
    }
  }

  lemma SegmentsOfLast(a: string, x: string)
    requires PlainSegment(x)
    ensures Segments(a + "/" + x) == Segments(a) + [x]
  {
    LastSlashOfJoin(a, x);
    var p := a + "/" + x;
    assert p[..|a|] == a && p[|a| + 1..] == x;
  }

  lemma SegmentsOfLonger(segs: seq<string>)
    requires segs != [] && PlainSegment(segs[|segs| - 1])
    ensures Segments(Joined(segs)) == Segments(Joined(segs[..|segs| - 1])) + [segs[|segs| - 1]]
  {
    SegmentsOfLast(Joined(segs[..|segs| - 1]), segs[|segs| - 1]);
  }

  lemma {:induction false} SegmentsOfJoined(segs: seq<string>)
    requires PlainSegments(segs)
    ensures Segments(Joined(segs)) == segs
  {
    if segs != [] {
      var init, last := segs[..|segs| - 1], segs[|segs| - 1];
      assert PlainSegments(init) && PlainSegment(last);
      assert segs == init + [last];
      SegmentsOfJoined(init);
      SegmentsOfLonger(segs);
    }
  }

  lemma {:induction false} ResolvePlain(segs: seq<string>)
    requires PlainSegments(segs)
    ensures Resolve(segs, true) == segs
  {
    if segs != [] { ResolvePlain(segs[..|segs| - 1]); }
  }

  lemma CleanJoinedSlash(segs: seq<string>)
    requires PlainSegments(segs)
    ensures Clean(Joined(segs) + "/") == Abs(segs) && IsRooted(Joined(segs) + "/")
  {
    JoinedStarts(segs);
    SegmentsOfSlash(Joined(segs));
    SegmentsOfJoined(segs);
    ResolvePlain(segs);
  }

  /** One more element after a slash: nothing or "." changes nothing, ".." takes the
      last element off, anything else is put at the end. */
  lemma CleanNext(a: string, x: string) returns (segs: seq<string>)
    requires IsRooted(a) && '/' !in x
    ensures PlainSegments(segs) && Clean(a) == Abs(segs) && IsRooted(a + "/" + x)
    ensures Clean(a + "/" + x) == Abs(if x == "" || x == "." then segs
                                      else if x != ".." then segs + [x]
                                      else if segs == [] then []
                                      else segs[..|segs| - 1])
  {
    SegmentsArePieces(a);
    segs := Resolve(Segments(a), true);
    ResolveRooted(Segments(a));
    LastSlashOfJoin(a, x);
    var p := a + "/" + x;
    assert p[..|a|] == a && p[|a| + 1..] == x;
    assert Segments(p) == Segments(a) + Piece(x);
    assert Segments(a) + [] == Segments(a);
    assert (Segments(a) + [x])[..|Segments(a)|] == Segments(a);
  }

  /** Plain elements render to a canonical path. */
  lemma AbsIsCanonical(segs: seq<string>)
    requires PlainSegments(segs)
    ensures Canonical(Abs(segs))
  {
    SegmentsOfJoined(segs);
    ResolvePlain(segs);
    JoinedStarts(segs);
    if segs == [] { CleanJoinedSlash([]); }
  }

  /** The parent of a canonical path drops its last element; the root is its own
      parent. */
  lemma DirOfAbs(segs: seq<string>)
    requires PlainSegments(segs)
    ensures Dir(Abs(segs)) == Abs(if segs == [] then [] else segs[..|segs| - 1])
  {
    if segs == [] {
      CleanJoinedSlash([]);
    } else {
      var n := |segs| - 1;
      var a, x := Joined(segs[..n]), segs[n];
      LastSlashOfJoin(a, x);
      assert (a + "/" + x)[..|a| + 1] == a + "/";
      CleanJoinedSlash(segs[..n]);
    }
  }

  /** With a trailing slash the parent is the path without it. */
  lemma DirOfTrailingSlash(segs: seq<string>)
    requires PlainSegments(segs) && segs != []
    ensures Dir(Abs(segs) + "/") == Abs(segs)
  {
    var p := Joined(segs) + "/";
    assert Joined(segs) + "/" + "" == p;
    LastSlashOfJoin(Joined(segs), "");
    assert p[..|p|] == p;
    CleanJoinedSlash(segs);
  }
}
