/** What the paths are that core/utils.go hands on: segments resolved as if from the
    last one back, and the same path however often it is cleaned. */
module CleanPaths {
  import opened ByteStrings
  import opened H2Request

  /** The pieces that stay, from the last one back: two dots take the next piece
      before them that would have stayed. */
  function Kept(pieces: seq<Bytes>, skip: nat): seq<Bytes> {
    if pieces == [] then []
    else
      var rest, last := pieces[..|pieces| - 1], pieces[|pieces| - 1];
      if last == [] || last == [DOT] then Kept(rest, skip)
      else if last == [DOT, DOT] then Kept(rest, skip + 1)
      else if skip > 0 then Kept(rest, skip - 1)
      else Kept(rest, 0) + [last]
  }

  /** A path with these segments. */
  function Path(segs: seq<Bytes>): Bytes {
    if segs == [] then [SLASH] else Joined(segs)
  }

  // ----- Segments, from the front and from the back

  function ResolveAll(segs: seq<Bytes>, pieces: seq<Bytes>): seq<Bytes> {
    if pieces == [] then segs else Resolved(ResolveAll(segs, pieces[..|pieces| - 1]), pieces[|pieces| - 1])
  }

  lemma {:induction false} ResolveCat(segs: seq<Bytes>, a: seq<Bytes>, b: seq<Bytes>)
    ensures ResolveAll(segs, a + b) == ResolveAll(ResolveAll(segs, a), b)
  {
    if b == [] {
      assert a + b == a;
    } else {
      assert (a + b)[..|a + b| - 1] == a + b[..|b| - 1];
      ResolveCat(segs, a, b[..|b| - 1]);
    }
  }

  lemma {:induction false} SegmentsAre(p: Bytes, segs: seq<Bytes>)
    ensures Segments(p, segs) == ResolveAll(segs, Pieces(SLASH, p))
    decreases |p|
  {
    hide Resolved;
    var k := IndexByte(p, SLASH);
    if k < 0 {
      OnePiece(SLASH, p);
      assert |[p][..0]| == 0;
    } else {
      var first: Bytes, rest: Bytes := p[..k], p[k + 1..];
      assert p == first + [SLASH] + rest;
      PiecesCat(SLASH, first, rest);
      OnePiece(SLASH, first);
      assert |[first][..0]| == 0;
      SegmentsAre(rest, Resolved(segs, first));
      ResolveCat(segs, [first], Pieces(SLASH, rest));
    }
  }

  function DropLast(s: seq<Bytes>, n: nat): seq<Bytes> {
    if n >= |s| then [] else s[..|s| - n]
  }

  lemma {:induction false} KeptIs(pieces: seq<Bytes>, skip: nat)
    ensures Kept(pieces, skip) == DropLast(ResolveAll([], pieces), skip)
  {
    if pieces != [] {
      var rest := pieces[..|pieces| - 1];
      KeptIs(rest, skip);
      KeptIs(rest, skip + 1);
      KeptIs(rest, if skip > 0 then skip - 1 else 0);
    }
  }

  // ----- The result

  /** A path that is handed on as it is. */
  predicate Tidy(p: Bytes) {
    p != [] && p[0] == SLASH && !Untidy(p)
  }

  lemma JoinedBack(segs: seq<Bytes>, s: Bytes)
    ensures Joined(segs + [s]) == Joined(segs) + [SLASH] + s
  {
    assert (segs + [s])[..|segs|] == segs;
  }

  function LastPiece(p: Bytes): Bytes {
    Pieces(SLASH, p)[|Pieces(SLASH, p)| - 1]
  }

  /** The last piece is what follows the last slash. */
  lemma {:induction false} LastPieceIs(p: Bytes)
    ensures var s := LastPiece(p);
            && |s| <= |p| && p[|p| - |s|..] == s && SLASH !in s
            && (|s| < |p| ==> p[|p| - |s| - 1] == SLASH)
  {
    if p != [] {
      var q := p[..|p| - 1];
      LastPieceIs(q);
      if p[|p| - 1] != SLASH {
        var s := LastPiece(q);
        assert p[|p| - |s| - 1..] == q[|q| - |s|..] + [p[|p| - 1]];
      }
    }
  }

  /** Behind a slash a tidy path has no dot. */
  lemma TidyPiece(p: Bytes)
    requires Tidy(p)
    ensures var s := LastPiece(p[1..]);
            && (s != [] ==> s[0] != DOT) && (s == [] <==> p[|p| - 1] == SLASH)
  {
    var q := p[1..];
    var s := LastPiece(q);
    LastPieceIs(q);
    var k := |p| - |s|;
    if s == [] {
      if q != [] { assert p[|p| - 1] == q[|q| - 1]; }
    } else {
      assert s[0] == p[k] && p[k - 1] == SLASH;
      assert s[|s| - 1] == p[|p| - 1];
    }
  }

  lemma TidyBefore(p: Bytes)
    requires Tidy(p) && |p| > 1
    ensures Tidy(p[..|p| - 1]) && (p[|p| - 2] == SLASH ==> p[|p| - 1] != SLASH && p[|p| - 1] != DOT)
  {
    var b := p[..|p| - 1];
    forall i | 0 <= i < |b| - 1
      ensures !(b[i] == SLASH && (b[i + 1] == SLASH || b[i + 1] == DOT))
    {
      assert b[i] == p[i] && b[i + 1] == p[i + 1];
    }
  }

  predicate Plain(seg: Bytes) {
    seg != [] && seg != [DOT] && seg != [DOT, DOT]
  }

  lemma KeptSnoc(pieces: seq<Bytes>, s: Bytes)
    ensures Plain(s) ==> Kept(pieces + [s], 0) == Kept(pieces, 0) + [s]
    ensures s == [] ==> Kept(pieces + [s], 0) == Kept(pieces, 0)
  {
    assert (pieces + [s])[..|pieces|] == pieces;
  }

  /** A last piece that grows by a letter. */
  lemma LetterMore(front: seq<Bytes>, s: Bytes, c: Byte)
    requires Plain(s + [c]) && (s == [] || Plain(s))
    ensures Joined(Kept(front + [s + [c]], 0))
            == Joined(Kept(front + [s], 0)) + (if s == [] then [SLASH] else []) + [c]
  {
    hide Kept, Joined, Plain;
    var k := Kept(front, 0);
    KeptSnoc(front, s);
    KeptSnoc(front, s + [c]);
    JoinedBack(k, s + [c]);
    if s == [] {
      assert s + [c] == [c];
    } else {
      JoinedBack(k, s);
      assert Joined(k) + [SLASH] + (s + [c]) == Joined(k) + [SLASH] + s + [c];
    }
  }

  lemma NoDot(s: Bytes)
    requires s != [] && s[0] != DOT
    ensures Plain(s)
  {
  }

  /** A tidy path is the path of its pieces, but for a slash at its end. */
  lemma {:induction false} TidyIs(p: Bytes)
    requires Tidy(p)
    ensures p == Joined(Kept(Pieces(SLASH, p[1..]), 0)) + if p[|p| - 1] == SLASH then [SLASH] else []
  {
    hide Untidy, Kept, Joined, Pieces, Grown, LastPiece;
    var q := p[1..];
    if q == [] {
      RootJoined(q);
    } else {
      var p', last := p[..|p| - 1], p[|p| - 1];
      TidyBefore(p);
      TidyIs(p');
      TidyPiece(p');
      var front, s := LastOf(p'[1..]);
      PiecesMore(q, p'[1..], last);
      TidyGrows(front, s, last);
      assert p == p' + [last];
    }
  }

  lemma RootJoined(q: Bytes)
    requires q == []
    ensures Joined(Kept(Pieces(SLASH, q), 0)) == []
  {
    KeptSnoc([], []);
    assert [] + [[]] == Pieces(SLASH, q);
  }

  lemma LastOf(p: Bytes) returns (front: seq<Bytes>, s: Bytes)
    ensures s == LastPiece(p) && Pieces(SLASH, p) == front + [s]
  {
    front, s := Pieces(SLASH, p)[..|Pieces(SLASH, p)| - 1], LastPiece(p);
  }

  lemma PiecesMore(q: Bytes, before: Bytes, c: Byte)
    requires q == before + [c]
    ensures Pieces(SLASH, q) == Grown(SLASH, Pieces(SLASH, before), c)
  {
    assert q[..|q| - 1] == before;
  }

  lemma GrownAt(front: seq<Bytes>, s: Bytes, c: Byte)
    ensures Grown(SLASH, front + [s], c) == if c == SLASH then front + [s] + [[]] else front + [s + [c]]
  {
    assert (front + [s])[..|front|] == front;
  }

  lemma TidyGrows(front: seq<Bytes>, s: Bytes, c: Byte)
    requires (s != [] ==> s[0] != DOT) && (s == [] ==> c != DOT)
    ensures var was := Joined(Kept(front + [s], 0));
            Joined(Kept(Grown(SLASH, front + [s], c), 0))
            == if c == SLASH then was else was + (if s == [] then [SLASH] else []) + [c]
  {
    hide Kept, Joined, Plain, Grown;
    GrownAt(front, s, c);
    if c == SLASH {
      KeptSnoc(front + [s], []);
    } else {
      if s != [] { NoDot(s); }
      NoDot(s + [c]);
      LetterMore(front, s, c);
    }
  }

  lemma NothingKept()
    ensures Kept([], 0) == [] && Joined([]) == []
  {
  }

  lemma JoinedSome(segs: seq<Bytes>)
    requires Joined(segs) == []
    ensures segs == []
  {
  }

  /** The segments of a path, whether or not it begins with a slash. */
  function SegmentsOf(p: Bytes): seq<Bytes> {
    Kept(Pieces(SLASH, if p != [] && p[0] == SLASH then p[1..] else p), 0)
  }

  /** A cleaned path is that of the segments that stay. A slash at the end stays if
      nothing else was to be cleaned. */
  lemma CleanPathIs(p: Bytes)
    ensures CleanPath(p) == Path(SegmentsOf(p)) + if Tidy(p) && |p| > 1 && p[|p| - 1] == SLASH then [SLASH] else []
  {
    hide Kept, Joined, Segments, Pieces, Untidy, ResolveAll;
    if p == [] {
      EmptyPath();
    } else if Tidy(p) {
      TidyIs(p);
      NothingKept();
      if Joined(SegmentsOf(p)) == [] { JoinedSome(SegmentsOf(p)); }
    } else {
      var q := if p[0] == SLASH then p else [SLASH] + p;
      assert q[1..] == if p[0] == SLASH then p[1..] else p;
      SegmentsAre(q[1..], []);
      KeptIs(Pieces(SLASH, q[1..]), 0);
      var segs := ResolveAll([], Pieces(SLASH, q[1..]));
      assert DropLast(segs, 0) == segs;
    }
  }

  lemma EmptyPath()
    ensures Path(SegmentsOf([])) == [SLASH]
  {
    KeptSnoc([], []);
    assert [] + [[]] == Pieces(SLASH, []);
  }

  // ----- What a clean path is

  predicate PlainAll(segs: seq<Bytes>) {
    forall i :: 0 <= i < |segs| ==> Plain(segs[i]) && SLASH !in segs[i]
  }

  lemma {:induction false} PiecesSlashless(p: Bytes)
    ensures forall i :: 0 <= i < |Pieces(SLASH, p)| ==> SLASH !in Pieces(SLASH, p)[i]
  {
    if p != [] { PiecesSlashless(p[..|p| - 1]); }
  }

  lemma {:induction false} KeptPlain(pieces: seq<Bytes>, skip: nat)
    requires forall i :: 0 <= i < |pieces| ==> SLASH !in pieces[i]
    ensures PlainAll(Kept(pieces, skip))
  {
    if pieces != [] {
      var rest := pieces[..|pieces| - 1];
      KeptPlain(rest, skip);
      KeptPlain(rest, skip + 1);
      KeptPlain(rest, if skip > 0 then skip - 1 else 0);
    }
  }

  lemma SegmentsPlain(p: Bytes)
    ensures PlainAll(SegmentsOf(p))
  {
    hide Kept, Pieces, PlainAll;
    var q := if p != [] && p[0] == SLASH then p[1..] else p;
    PiecesSlashless(q);
    KeptPlain(Pieces(SLASH, q), 0);
  }

  lemma {:induction false} PlainKept(segs: seq<Bytes>)
    requires PlainAll(segs)
    ensures Kept(segs, 0) == segs
  {
    if segs != [] { PlainKept(segs[..|segs| - 1]); }
  }

  lemma {:induction false} JoinedPieces(segs: seq<Bytes>)
    requires segs != [] && PlainAll(segs)
    ensures var p := Joined(segs); p != [] && p[0] == SLASH && Pieces(SLASH, p[1..]) == segs
  {
    hide Pieces, Plain, Joined;
    var rest, last := segs[..|segs| - 1], segs[|segs| - 1];
    assert rest + [last] == segs;
    JoinedBack(rest, last);
    OnePiece(SLASH, last);
    if rest == [] {
      NothingKept();
      assert Joined(segs)[1..] == last;
    } else {
      JoinedPieces(rest);
      PiecesCat(SLASH, Joined(rest)[1..], last);
      assert Joined(segs)[1..] == Joined(rest)[1..] + [SLASH] + last;
    }
  }

  /** A clean path begins with a slash, its segments are those of the path it was
      made from, none of them empty or dots, and cleaning it again changes nothing. */
  lemma CleanOnce(p: Bytes)
    ensures var c := CleanPath(p);
            && c != [] && c[0] == SLASH && CleanPath(c) == c
            && PlainAll(SegmentsOf(p)) && SegmentsOf(c) == SegmentsOf(p)
  {
    hide CleanPath, Kept, Joined, Pieces, Untidy, PlainAll;
    CleanPathIs(p);
    SegmentsPlain(p);
    var c, segs := CleanPath(p), SegmentsOf(p);
    if Tidy(p) {
      TidyStays(p);
    } else {
      CleanPathIs(c);
      if segs == [] {
        assert c == [SLASH];
        RootSegments();
        TidyRoot();
      } else {
        assert c == Joined(segs);
        JoinedPieces(segs);
        PlainKept(segs);
        if Tidy(c) { TidyStays(c); }
      }
    }
  }

  lemma TidyStays(p: Bytes)
    requires Tidy(p)
    ensures CleanPath(p) == p
  {
  }

  lemma TidyRoot()
    ensures CleanPath([SLASH]) == [SLASH]
  {
  }

  lemma RootSegments()
    ensures SegmentsOf([SLASH]) == []
  {
    assert [SLASH][1..] == [];
    KeptSnoc([], []);
    assert [] + [[]] == Pieces(SLASH, []);
  }
}
