/** Splitting, joining and replacing byte strings. */
module Strings {
  import opened Heap

  type Text = seq<Byte>

  /** `sep` occurs at position i. */
  predicate MatchAt(s: Text, sep: Text, i: nat) { i + |sep| <= |s| && s[i..i + |sep|] == sep }

  /** The pieces from `start` on, when no match begins between `start` and
      `pos`: leftmost matches that do not overlap. */
  function Pieces(s: Text, sep: Text, start: nat, pos: nat): (r: seq<Text>)
    requires sep != [] && start <= pos <= |s|
    ensures r != []
    decreases |s| - pos
  {
    if pos + |sep| > |s| then [s[start..]]
    else if MatchAt(s, sep, pos) then [s[start..pos]] + Pieces(s, sep, pos + |sep|, pos + |sep|)
    else Pieces(s, sep, start, pos + 1)
  }

  function Singles(s: Text): seq<Text> {
    if s == [] then [] else [[s[0]]] + Singles(s[1..])
  }

  /** An empty separator splits into single bytes. */
  function Split(s: Text, sep: Text): seq<Text> { if sep == [] then Singles(s) else Pieces(s, sep, 0, 0) }

  function Join(ps: seq<Text>, sep: Text): Text {
    if ps == [] then [] else if |ps| == 1 then ps[0] else ps[0] + sep + Join(ps[1..], sep)
  }

  /** Every match from position i on replaced. */
  function ReplaceFrom(s: Text, from: Text, to: Text, i: nat): Text
    requires from != [] && i <= |s|
    decreases |s| - i
  {
    if i == |s| then []
    else if MatchAt(s, from, i) then to + ReplaceFrom(s, from, to, i + |from|)
    else [s[i]] + ReplaceFrom(s, from, to, i + 1)
  }

  /** Replacing the empty string changes nothing. */
  function Replace(s: Text, from: Text, to: Text): Text { if from == [] then s else ReplaceFrom(s, from, to, 0) }

  // ---- laws ----

  lemma {:induction false} JoinPieces(s: Text, sep: Text, start: nat, pos: nat)
    requires sep != [] && start <= pos <= |s|
    ensures Join(Pieces(s, sep, start, pos), sep) == s[start..]
    decreases |s| - pos
  {
    hide Pieces, Join, ReplaceFrom;
    Unrolled(s, sep, sep, start, pos);
    if pos + |sep| > |s| {
      JoinOne(s[start..], sep);
    } else if MatchAt(s, sep, pos) {
      var end := pos + |sep|;
      JoinPieces(s, sep, end, end);
      JoinFront(s[start..pos], Pieces(s, sep, end, end), sep);
      assert s[start..] == s[start..pos] + s[pos..end] + s[end..];
    } else {
      JoinPieces(s, sep, start, pos + 1);
    }
  }

  lemma {:induction false} JoinSingles(s: Text)
    ensures Join(Singles(s), []) == s
  {
    if |s| == 1 {
      assert s[1..] == [] && Singles(s) == [[s[0]]];
    } else if s != [] {
      JoinSingles(s[1..]);
      assert Singles(s)[1..] == Singles(s[1..]);
      assert [s[0]] + [] + s[1..] == s;
    }
  }

  /** Joining what was split gives the string back, for every separator. */
  lemma SplitJoin(s: Text, sep: Text)
    ensures Join(Split(s, sep), sep) == s
  {
    if sep == [] {
      JoinSingles(s);
    } else {
      JoinPieces(s, sep, 0, 0);
      assert s[0..] == s;
    }
  }

  /** No piece contains the separator. */
  lemma {:induction false} PiecesClean(s: Text, sep: Text, start: nat, pos: nat, k: nat, i: nat)
    requires sep != [] && start <= pos <= |s| && k < |Pieces(s, sep, start, pos)|
    requires forall j :: start <= j < pos ==> !MatchAt(s, sep, j)
    ensures !MatchAt(Pieces(s, sep, start, pos)[k], sep, i)
    decreases |s| - pos
  {
    if pos + |sep| > |s| {
      SubMatch(s, start, |s|, sep, i);
      assert s[start..] == s[start..|s|];
    } else if MatchAt(s, sep, pos) {
      if k == 0 { SubMatch(s, start, pos, sep, i); } else { PiecesClean(s, sep, pos + |sep|, pos + |sep|, k - 1, i); }
    } else {
      PiecesClean(s, sep, start, pos + 1, k, i);
    }
  }

  lemma SubMatch(s: Text, a: nat, b: nat, sep: Text, i: nat)
    requires a <= b <= |s|
    ensures MatchAt(s[a..b], sep, i) <==> a + i + |sep| <= b && MatchAt(s, sep, a + i)
  {
    if i + |sep| <= b - a {
      var t := s[a..b];
      assert forall k :: i <= k < i + |sep| ==> t[k] == s[a + k];
      assert t[i..i + |sep|] == s[a + i..a + i + |sep|];
    }
  }

  lemma {:induction false} ReplacePieces(s: Text, from: Text, to: Text, start: nat, pos: nat)
    requires from != [] && start <= pos <= |s|
    ensures Join(Pieces(s, from, start, pos), to) == s[start..pos] + ReplaceFrom(s, from, to, pos)
    decreases |s| - pos
  {
    hide Join, Pieces, ReplaceFrom;
    Unrolled(s, from, to, start, pos);
    if pos + |from| > |s| {
      NoMoreMatches(s, from, to, pos);
      assert s[start..] == s[start..pos] + s[pos..];
      JoinOne(s[start..], to);
    } else if MatchAt(s, from, pos) {
      var next := pos + |from|;
      var rest := Pieces(s, from, next, next);
      ReplacePieces(s, from, to, next, next);
      assert s[next..next] + ReplaceFrom(s, from, to, next) == ReplaceFrom(s, from, to, next);
      JoinFront(s[start..pos], rest, to);
      Associate(s[start..pos], to, ReplaceFrom(s, from, to, next));
    } else {
      ReplacePieces(s, from, to, start, pos + 1);
      assert s[start..pos + 1] == s[start..pos] + [s[pos]];
      Associate(s[start..pos], [s[pos]], ReplaceFrom(s, from, to, pos + 1));
    }
  }

  /** One step of splitting and of replacing. */
  lemma Unrolled(s: Text, from: Text, to: Text, start: nat, pos: nat)
    requires from != [] && start <= pos <= |s|
    ensures pos + |from| > |s| ==> Pieces(s, from, start, pos) == [s[start..]]
    ensures MatchAt(s, from, pos) ==>
      var next := pos + |from|;
      && Pieces(s, from, start, pos) == [s[start..pos]] + Pieces(s, from, next, next)
      && ReplaceFrom(s, from, to, pos) == to + ReplaceFrom(s, from, to, next)
    ensures pos + |from| <= |s| && !MatchAt(s, from, pos) ==>
      && Pieces(s, from, start, pos) == Pieces(s, from, start, pos + 1)
      && ReplaceFrom(s, from, to, pos) == [s[pos]] + ReplaceFrom(s, from, to, pos + 1)
  {
  }

  lemma JoinOne(p: Text, sep: Text)
    ensures Join([p], sep) == p
  {
  }

  lemma JoinFront(p: Text, ps: seq<Text>, sep: Text)
    requires ps != []
    ensures Join([p] + ps, sep) == p + sep + Join(ps, sep)
  {
    assert ([p] + ps)[1..] == ps;
  }

  lemma Associate(a: Text, b: Text, c: Text)
    ensures a + b + c == a + (b + c)
  {
  }

  lemma {:induction false} NoMoreMatches(s: Text, from: Text, to: Text, i: nat)
    requires from != [] && i <= |s| < i + |from|
    ensures ReplaceFrom(s, from, to, i) == s[i..]
    decreases |s| - i
  {
    if i < |s| {
      NoMoreMatches(s, from, to, i + 1);
      assert s[i..] == [s[i]] + s[i + 1..];
    }
  }

  /** Replacing is splitting and joining; the empty string is replaced nowhere. */
  lemma ReplaceIsJoin(s: Text, from: Text, to: Text)
    ensures Replace(s, from, to) == if from == [] then s else Join(Split(s, from), to)
  {
    if from != [] {
      ReplacePieces(s, from, to, 0, 0);
      assert s[0..0] + ReplaceFrom(s, from, to, 0) == ReplaceFrom(s, from, to, 0);
    }
  }

  // ---- the split is the leftmost one ----

  /** The separator behind a piece is the first one in it. */
  ghost predicate Closed(p: Text, sep: Text) { forall i: nat :: i < |p| ==> !MatchAt(p + sep, sep, i) }

  ghost predicate Clean(p: Text, sep: Text) { forall i: nat :: !MatchAt(p, sep, i) }

  /** Cut at leftmost matches: each piece but the last ends at the first separator
      there is, the last one contains none. */
  ghost predicate Leftmost(ps: seq<Text>, sep: Text) {
    && ps != [] && Clean(ps[|ps| - 1], sep)
    && forall k :: 0 <= k < |ps| - 1 ==> Closed(ps[k], sep)
  }

  lemma LeftmostFront(p: Text, ps: seq<Text>, sep: Text)
    requires ps != []
    ensures Leftmost([p] + ps, sep) <==> Closed(p, sep) && Leftmost(ps, sep)
  {
    hide Closed, Clean;
    var all := [p] + ps;
    assert all[|all| - 1] == ps[|ps| - 1];
    if Leftmost(all, sep) {
      assert all[0] == p;
      forall k | 0 <= k < |ps| - 1 ensures Closed(ps[k], sep) { assert all[k + 1] == ps[k]; }
    }
    if Closed(p, sep) && Leftmost(ps, sep) {
      forall k | 0 <= k < |all| - 1 ensures Closed(all[k], sep) { if k > 0 { assert all[k] == ps[k - 1]; } }
    }
  }

  /** A separator at `pos` and none from `start` on before it. */
  lemma ClosedAt(s: Text, sep: Text, start: nat, pos: nat)
    requires sep != [] && start <= pos && MatchAt(s, sep, pos)
    ensures Closed(s[start..pos], sep) <==> forall j :: start <= j < pos ==> !MatchAt(s, sep, j)
  {
    var p := s[start..pos];
    assert p + sep == s[start..pos + |sep|];
    forall i: nat | i < |p| ensures MatchAt(p + sep, sep, i) <==> MatchAt(s, sep, start + i) {
      SubMatch(s, start, pos + |sep|, sep, i);
    }
    if Closed(p, sep) {
      forall j | start <= j < pos ensures !MatchAt(s, sep, j) { assert !MatchAt(p + sep, sep, j - start); }
    }
  }

  lemma CleanFrom(s: Text, sep: Text, start: nat)
    requires start <= |s|
    ensures Clean(s[start..], sep) <==> forall j :: start <= j <= |s| ==> !MatchAt(s, sep, j)
  {
    forall i: nat ensures MatchAt(s[start..], sep, i) <==> MatchAt(s, sep, start + i) {
      assert s[start..] == s[start..|s|];
      SubMatch(s, start, |s|, sep, i);
    }
    if Clean(s[start..], sep) {
      forall j | start <= j <= |s| ensures !MatchAt(s, sep, j) { assert !MatchAt(s[start..], sep, j - start); }
    }
  }

  lemma {:induction false} PiecesLeftmost(s: Text, sep: Text, start: nat, pos: nat)
    requires sep != [] && start <= pos <= |s| && forall j :: start <= j < pos ==> !MatchAt(s, sep, j)
    ensures Leftmost(Pieces(s, sep, start, pos), sep)
    decreases |s| - pos
  {
    hide Leftmost, Closed, Clean;
    if pos + |sep| > |s| {
      CleanFrom(s, sep, start);
      LeftmostOne(s[start..], sep);
    } else if MatchAt(s, sep, pos) {
      var end := pos + |sep|;
      PiecesLeftmost(s, sep, end, end);
      ClosedAt(s, sep, start, pos);
      LeftmostFront(s[start..pos], Pieces(s, sep, end, end), sep);
    } else {
      PiecesLeftmost(s, sep, start, pos + 1);
    }
  }

  lemma LeftmostOne(p: Text, sep: Text)
    ensures Leftmost([p], sep) <==> Clean(p, sep)
  {
  }

  /** The walk to the first match, or to the end. */
  lemma {:induction false} PiecesWalk(s: Text, sep: Text, start: nat, pos: nat, to: nat)
    requires sep != [] && start <= pos <= to <= |s| && forall j :: pos <= j < to ==> !MatchAt(s, sep, j)
    ensures MatchAt(s, sep, to) ==>
      Pieces(s, sep, start, pos) == [s[start..to]] + Pieces(s, sep, to + |sep|, to + |sep|)
    ensures to + |sep| > |s| ==> Pieces(s, sep, start, pos) == [s[start..]]
    decreases |s| - pos
  {
    if pos < to { PiecesWalk(s, sep, start, pos + 1, to); }
  }

  lemma {:induction false} LeftmostUnique(s: Text, sep: Text, start: nat, ps: seq<Text>)
    requires sep != [] && start <= |s| && ps != [] && Leftmost(ps, sep) && Join(ps, sep) == s[start..]
    ensures ps == Pieces(s, sep, start, start)
    decreases |ps|
  {
    hide Leftmost, Closed, Clean, Join, Pieces;
    var p := ps[0];
    if |ps| == 1 {
      assert ps == [p];
      LeftmostOne(p, sep);
      JoinOne(p, sep);
      CleanFrom(s, sep, start);
      PiecesWalk(s, sep, start, start, |s|);
    } else {
      var rest, to := ps[1..], start + |p|;
      assert ps == [p] + rest;
      LeftmostFront(p, rest, sep);
      JoinFront(p, rest, sep);
      Lies(s, start, p, sep, Join(rest, sep));
      ClosedAt(s, sep, start, to);
      PiecesWalk(s, sep, start, start, to);
      LeftmostUnique(s, sep, to + |sep|, rest);
    }
  }

  lemma Lies(s: Text, start: nat, p: Text, sep: Text, rest: Text)
    requires start <= |s| && s[start..] == p + sep + rest
    ensures var to := start + |p|;
            to + |sep| <= |s| && s[start..to] == p && MatchAt(s, sep, to) && s[to + |sep|..] == rest
  {
    var u, to := s[start..], start + |p|;
    assert u[..|p|] == p && u[|p|..|p| + |sep|] == sep && u[|p| + |sep|..] == rest;
    assert s[start..to] == u[..|p|] && s[to..to + |sep|] == u[|p|..|p| + |sep|] && s[to + |sep|..] == u[|p| + |sep|..];
  }

  /** Splitting is the only way to cut a text that joins back to it and cuts at
      leftmost matches. */
  lemma SplitExact(s: Text, sep: Text, ps: seq<Text>)
    requires sep != []
    ensures ps == Split(s, sep) <==> Leftmost(ps, sep) && Join(ps, sep) == s
  {
    hide Join, Pieces;
    assert s[0..] == s;
    PiecesLeftmost(s, sep, 0, 0);
    JoinPieces(s, sep, 0, 0);
    if Leftmost(ps, sep) && Join(ps, sep) == s { LeftmostUnique(s, sep, 0, ps); }
  }

  /** So what was joined splits into the same pieces exactly when no piece brings a
      separator of its own, inside or across its end. */
  lemma JoinSplit(ps: seq<Text>, sep: Text)
    requires sep != []
    ensures Split(Join(ps, sep), sep) == ps <==> Leftmost(ps, sep)
  {
    SplitExact(Join(ps, sep), sep, ps);
  }

  /** An empty separator cuts into single bytes. */
  lemma {:induction false} SinglesAre(s: Text)
    ensures |Singles(s)| == |s| && forall i :: 0 <= i < |s| ==> Singles(s)[i] == [s[i]]
  {
    if s != [] { SinglesAre(s[1..]); }
  }

  // ---- sizes ----

  function Matches(s: Text, from: Text, i: nat): nat
    requires from != [] && i <= |s|
    decreases |s| - i
  {
    if i + |from| > |s| then 0
    else if MatchAt(s, from, i) then 1 + Matches(s, from, i + |from|)
    else Matches(s, from, i + 1)
  }

  lemma OneMore(m: int, d: int)
    ensures (1 + m) * d == d + m * d
  {
  }

  lemma {:induction false} ReplaceLengthFrom(s: Text, from: Text, to: Text, i: nat)
    requires from != [] && i <= |s|
    ensures |ReplaceFrom(s, from, to, i)| + Matches(s, from, i) * |from| == |s| - i + Matches(s, from, i) * |to|
    decreases |s| - i
  {
    if i + |from| > |s| {
      NoMoreMatches(s, from, to, i);
    } else if MatchAt(s, from, i) {
      ReplaceLengthFrom(s, from, to, i + |from|);
      OneMore(Matches(s, from, i + |from|), |from|);
      OneMore(Matches(s, from, i + |from|), |to|);
    } else {
      ReplaceLengthFrom(s, from, to, i + 1);
    }
  }

  /** The counting pass predicts the length of the result. */
  lemma ReplaceLength(s: Text, from: Text, to: Text)
    requires from != []
    ensures |Replace(s, from, to)| == |s| - Matches(s, from, 0) * (|from| - |to|)
  {
    ReplaceLengthFrom(s, from, to, 0);
    var m := Matches(s, from, 0);
    assert m * (|from| - |to|) == m * |from| - m * |to|;
  }

  /** Matches do not overlap, so they fit into the text. */
  lemma {:induction false} MatchesFit(s: Text, sep: Text, i: nat)
    requires sep != [] && i <= |s|
    ensures Matches(s, sep, i) * |sep| <= |s| - i
    decreases |s| - i
  {
    if i + |sep| <= |s| {
      if MatchAt(s, sep, i) {
        MatchesFit(s, sep, i + |sep|);
        assert (1 + Matches(s, sep, i + |sep|)) * |sep| == |sep| + Matches(s, sep, i + |sep|) * |sep|;
      } else {
        MatchesFit(s, sep, i + 1);
      }
    }
  }

  lemma {:induction false} PiecesCount(s: Text, sep: Text, start: nat, pos: nat)
    requires sep != [] && start <= pos <= |s|
    ensures |Pieces(s, sep, start, pos)| == Matches(s, sep, pos) + 1
    decreases |s| - pos
  {
    if pos + |sep| <= |s| {
      if MatchAt(s, sep, pos) {
        PiecesCount(s, sep, pos + |sep|, pos + |sep|);
      } else {
        PiecesCount(s, sep, start, pos + 1);
      }
    }
  }

  /** There is at most one piece more than separators fit into the text, so one
      entry of the table of starts always stays free. */
  lemma PiecesFew(s: Text, sep: Text)
    requires sep != []
    ensures |Pieces(s, sep, 0, 0)| <= |s| / |sep| + 1
  {
    PiecesCount(s, sep, 0, 0);
    MatchesFit(s, sep, 0);
    FewStarts(Matches(s, sep, 0), |sep|, |s|);
  }

  // ---- the loops ----

  /** Copy bytes into a buffer at an offset. */
  method Paste(buf: array<Byte>, off: nat, src: Text)
    requires off + |src| <= buf.Length
    modifies buf
    ensures buf[..off + |src|] == old(buf[..off]) + src
  {
    var i := 0;
    while i < |src|
      invariant 0 <= i <= |src| && buf[..off] == old(buf[..off])
      invariant forall k :: 0 <= k < i ==> buf[off + k] == src[k]
    {
      buf[off + i] := src[i];
      i := i + 1;
    }
  }

  /** Record where pieces start, then cut. The table of starts is never too
      small. */
  method StrSplit(s: Text, sep: Text) returns (r: seq<Text>)
    ensures r == Split(s, sep)
  {
    if sep == [] {
      r := SplitBytes(s);
      return;
    }
    if |sep| > |s| {
      assert s[0..] == s;
      return [s];
    }
    r := SplitAt(s, sep);
  }

  method SplitBytes(s: Text) returns (r: seq<Text>)
    ensures r == Singles(s)
  {
    r := [];
    var i := |s|;
    assert s[i..] == [];
    while i > 0
      invariant 0 <= i <= |s| && r == Singles(s[i..])
    {
      i := i - 1;
      assert s[i..][1..] == s[i + 1..];
      r := [[s[i]]] + r;
    }
    assert s[0..] == s;
  }

  /** `ps` cut so far, the piece from `start` open. */
  function Pending(ps: seq<Text>, s: Text, sep: Text, start: nat, pos: nat): seq<Text>
    requires sep != [] && start <= pos <= |s|
  {
    ps + Pieces(s, sep, start, pos)
  }

  method SplitAt(s: Text, sep: Text) returns (r: seq<Text>)
    requires sep != [] && |sep| <= |s|
    ensures r == Pieces(s, sep, 0, 0)
  {
    hide Pieces, Matches, Pending, Marked;
    PendingStart(s, sep);
    var cap := |s| / |sep| + 2;
    var starts := new int[cap](_ => 0);
    var n, pos := 1, 0;
    ghost var ps := [];
    MatchesFit(s, sep, 0);
    FewStarts(Matches(s, sep, 0), |sep|, |s|);
    MarkedStart(s, sep);
    assert starts[..1] == [0];
    while pos <= |s| - |sep|
      invariant 1 <= n <= cap && pos <= |s| && Marked(starts[..n], ps, s, |sep|, pos)
      invariant 0 <= starts[n - 1] <= pos && n - 1 + Matches(s, sep, pos) == Matches(s, sep, 0)
      invariant Pending(ps, s, sep, starts[n - 1], pos) == Pieces(s, sep, 0, 0)
      decreases |s| - pos
    {
      if s[pos..pos + |sep|] == sep {
        PendingNext(ps, s, sep, starts[n - 1], pos);
        if n >= cap {
          assert false; // there are at most |s| / |sep| matches
        }
        MarkedNext(starts[..n], ps, s, |sep|, pos);
        ghost var st := starts[..n];
        ps := ps + [s[starts[n - 1]..pos]];
        starts[n] := pos + |sep|;
        n := n + 1;
        pos := pos + |sep|;
        assert starts[..n] == st + [pos];
      } else {
        PendingOn(ps, s, sep, starts[n - 1], pos);
        MarkedOn(starts[..n], ps, s, |sep|, pos);
        pos := pos + 1;
      }
    }
    PendingEnd(ps, s, sep, starts[n - 1], pos);
    MarkedLater(starts[..n], ps, s, |sep|, pos);
    r := CutAll(s, sep, starts, n, ps);
  }

  /** `st` holds the starts of the finished pieces and of the open one. */
  ghost predicate Marked(st: seq<int>, ps: seq<Text>, s: Text, w: nat, pos: nat) {
    && |st| == |ps| + 1 && (forall k :: 0 <= k < |st| ==> 0 <= st[k] <= pos <= |s|)
    && (forall k :: 0 <= k < |ps| ==> st[k] + w <= st[k + 1] && ps[k] == s[st[k]..st[k + 1] - w])
  }

  lemma MarkedStart(s: Text, sep: Text)
    ensures Marked([0], [], s, |sep|, 0)
  {
  }

  lemma MarkedNext(st: seq<int>, ps: seq<Text>, s: Text, w: nat, pos: nat)
    requires Marked(st, ps, s, w, pos) && pos + w <= |s|
    ensures st != [] && 0 <= st[|st| - 1] <= pos <= |s|
    ensures Marked(st + [pos + w], ps + [s[st[|st| - 1]..pos]], s, w, pos + w)
  {
  }

  lemma MarkedOn(st: seq<int>, ps: seq<Text>, s: Text, w: nat, pos: nat)
    requires Marked(st, ps, s, w, pos) && pos < |s|
    ensures Marked(st, ps, s, w, pos + 1)
  {
  }

  lemma PendingNext(ps: seq<Text>, s: Text, sep: Text, start: nat, pos: nat)
    requires sep != [] && start <= pos && MatchAt(s, sep, pos)
    ensures Pending(ps, s, sep, start, pos) == Pending(ps + [s[start..pos]], s, sep, pos + |sep|, pos + |sep|)
    ensures Matches(s, sep, pos) == 1 + Matches(s, sep, pos + |sep|)
  {
  }

  lemma PendingOn(ps: seq<Text>, s: Text, sep: Text, start: nat, pos: nat)
    requires sep != [] && start <= pos && pos + |sep| <= |s| && !MatchAt(s, sep, pos)
    ensures Pending(ps, s, sep, start, pos) == Pending(ps, s, sep, start, pos + 1)
    ensures Matches(s, sep, pos) == Matches(s, sep, pos + 1)
  {
  }

  lemma PendingEnd(ps: seq<Text>, s: Text, sep: Text, start: nat, pos: nat)
    requires sep != [] && start <= pos <= |s| < pos + |sep|
    ensures Pending(ps, s, sep, start, pos) == ps + [s[start..]]
  {
  }

  lemma PendingStart(s: Text, sep: Text)
    requires sep != []
    ensures Pending([], s, sep, 0, 0) == Pieces(s, sep, 0, 0)
  {
  }

  lemma Positive(d: int, n: nat)
    ensures d >= 1 ==> d * n >= n
  {
  }

  lemma FewStarts(m: nat, n: nat, len: nat)
    requires n > 0 && m * n <= len
    ensures m <= len / n
  {
    var d := m - len / n;
    assert d * n == m * n - len / n * n;
    Positive(d, n);
  }

  /** Cut from the last piece to the first. */
  method CutAll(s: Text, sep: Text, starts: array<int>, n: nat, ghost ps: seq<Text>) returns (r: seq<Text>)
    requires 1 <= n <= starts.Length && Marked(starts[..n], ps, s, |sep|, |s|)
    requires 0 <= starts[n - 1] <= |s|
    ensures r == ps + [s[starts[n - 1]..]]
  {
    r := [];
    var k := n;
    ghost var st, all := starts[..n], ps + [s[starts[n - 1]..]];
    while k > 0
      invariant 0 <= k <= n && r == all[k..]
    {
      k := k - 1;
      assert st[k] == starts[k] && (k + 1 < n ==> st[k + 1] == starts[k + 1]);
      var end := if k + 1 < n then starts[k + 1] - |sep| else |s|;
      assert all[k] == s[starts[k]..end];
      r := [s[starts[k]..end]] + r;
    }
  }

  /** Marks stay good for a later position. */
  lemma MarkedLater(st: seq<int>, ps: seq<Text>, s: Text, w: nat, pos: nat)
    requires Marked(st, ps, s, w, pos) && pos <= |s|
    ensures Marked(st, ps, s, w, |s|)
  {
  }

  // ---- joining ----

  function SumLen(ps: seq<Text>): nat { if ps == [] then 0 else SumLen(ps[..|ps| - 1]) + |ps[|ps| - 1]| }

  lemma {:induction false} JoinAppend(ps: seq<Text>, p: Text, sep: Text)
    ensures Join(ps + [p], sep) == if ps == [] then p else Join(ps, sep) + sep + p
  {
    var all := ps + [p];
    if |ps| == 1 {
      assert all[1..] == [p];
    } else if |ps| > 1 {
      assert all[1..] == ps[1..] + [p];
      JoinAppend(ps[1..], p, sep);
      assert ps[0] + sep + (Join(ps[1..], sep) + sep + p) == ps[0] + sep + Join(ps[1..], sep) + sep + p;
    }
  }

  /** The size pass: the pieces and one separator between each two. */
  lemma {:induction false} JoinLength(ps: seq<Text>, sep: Text, n: nat)
    requires n == |ps|
    ensures |Join(ps, sep)| == SumLen(ps) + if n == 0 then 0 else (n - 1) * |sep|
  {
    if n > 0 {
      var front, p := ps[..n - 1], ps[n - 1];
      assert ps == front + [p];
      JoinLength(front, sep, n - 1);
      JoinAppend(front, p, sep);
      if n > 1 { OneMore(n - 2, |sep|); }
    }
  }

  /** What is joined so far never outgrows the whole. */
  lemma {:induction false} JoinPrefix(ps: seq<Text>, sep: Text, k: nat)
    requires k <= |ps|
    ensures |Join(ps[..k], sep)| <= |Join(ps, sep)|
    decreases |ps| - k
  {
    if k < |ps| {
      assert ps[..k + 1] == ps[..k] + [ps[k]];
      JoinAppend(ps[..k], ps[k], sep);
      JoinPrefix(ps, sep, k + 1);
    } else {
      assert ps[..k] == ps;
    }
  }

  ghost function Strings(items: seq<Option<Text>>): (ps: seq<Text>)
    requires forall i :: 0 <= i < |items| ==> items[i].Some?
    ensures |ps| == |items| && forall i :: 0 <= i < |ps| ==> ps[i] == items[i].value
  {
    seq(|items|, i requires 0 <= i < |items| => items[i].value)
  }

  /** Join a list of strings; an element that is no string, or an improper tail,
      gives the empty string. The buffer is filled exactly. */
  method StrJoin(items: seq<Option<Text>>, proper: bool, sep: Text) returns (r: Text)
    ensures proper && (forall i :: 0 <= i < |items| ==> items[i].Some?) ==> r == Join(Strings(items), sep)
    ensures !proper || (exists i :: 0 <= i < |items| && items[i].None?) ==> r == []
  {
    var total, k := 0, 0;
    while k < |items|
      invariant 0 <= k <= |items| && forall i :: 0 <= i < k ==> items[i].Some?
      invariant total == SumLen(Strings(items[..k]))
    {
      if items[k].None? { return []; }
      assert Strings(items[..k + 1])[..k] == Strings(items[..k]);
      total := total + |items[k].value|;
      k := k + 1;
    }
    if !proper { return []; }
    ghost var ps := Strings(items);
    assert items[..k] == items;
    JoinLength(ps, sep, |items|);
    if |items| > 0 { total := total + (|items| - 1) * |sep|; }
    r := Fill(items, sep, total, ps);
  }

  method Fill(items: seq<Option<Text>>, sep: Text, total: nat, ghost ps: seq<Text>) returns (r: Text)
    requires |ps| == |items| && forall i :: 0 <= i < |items| ==> items[i] == Some(ps[i])
    requires total == |Join(ps, sep)|
    ensures r == Join(ps, sep)
  {
    hide Join;
    var tmp := new Byte[if total > 0 then total else 1](_ => 0);
    var off, k := 0, 0;
    JoinNone(sep);
    while k < |items|
      invariant 0 <= k <= |items| && 0 <= off <= total && tmp[..off] == Join(ps[..k], sep)
    {
      assert ps[..k + 1] == ps[..k] + [ps[k]];
      JoinAppend(ps[..k], ps[k], sep);
      JoinPrefix(ps, sep, k + 1);
      if k > 0 {
        Paste(tmp, off, sep);
        off := off + |sep|;
      }
      Paste(tmp, off, items[k].value);
      off := off + |items[k].value|;
      k := k + 1;
    }
    assert ps[..k] == ps;
    r := tmp[..total];
  }

  lemma JoinNone(sep: Text)
    ensures Join([], sep) == []
  {
  }

  // ---- replacing ----

  method CountMatches(s: Text, from: Text) returns (count: nat)
    requires from != []
    ensures count == Matches(s, from, 0)
  {
    count := 0;
    var i := 0;
    while i + |from| <= |s|
      invariant 0 <= i <= |s| && count + Matches(s, from, i) == Matches(s, from, 0)
      decreases |s| - i
    {
      if s[i..i + |from|] == from {
        count := count + 1;
        i := i + |from|;
      } else {
        i := i + 1;
      }
    }
  }

  /** Count first, then fill a buffer of exactly the predicted size. */
  method StrReplace(s: Text, from: Text, to: Text) returns (r: Text)
    ensures r == Replace(s, from, to)
  {
    if from == [] { return s; }
    var rlen := ReplacedLength(s, from, to);
    var tmp := new Byte[if rlen > 0 then rlen else 1](_ => 0);
    var off := FillReplaced(tmp, s, from, to);
    r := tmp[..off];
  }

  /** The filling pass. */
  method FillReplaced(tmp: array<Byte>, s: Text, from: Text, to: Text) returns (off: nat)
    requires from != [] && |ReplaceFrom(s, from, to, 0)| <= tmp.Length
    modifies tmp
    ensures off <= tmp.Length && tmp[..off] == ReplaceFrom(s, from, to, 0)
  {
    hide ReplaceFrom, MatchAt, Makes;
    ghost var whole := ReplaceFrom(s, from, to, 0);
    off := 0;
    var i := 0;
    MakesAll(tmp[..0], whole);
    while i < |s|
      invariant 0 <= i <= |s| && off <= tmp.Length && Makes(tmp[..off], ReplaceFrom(s, from, to, i), whole)
      decreases |s| - i
    {
      ReplaceStep(s, from, to, i);
      var hit := MatchAt(s, from, i);
      var piece := if hit then to else [s[i]];
      var next := if hit then i + |from| else i + 1;
      off := Emit(tmp, off, piece, ReplaceFrom(s, from, to, next), whole);
      i := next;
    }
    ReplaceEnd(s, from, to);
    MakesNone(tmp[..off], whole);
  }

  /** What is there and what is to come make the whole. */
  ghost predicate Makes(out: Text, rest: Text, whole: Text) { out + rest == whole }

  lemma MakesAll(out: Text, whole: Text)
    requires out == []
    ensures Makes(out, whole, whole)
  {
  }

  lemma MakesNone(out: Text, whole: Text)
    requires Makes(out, [], whole)
    ensures out == whole
  {
    assert out + [] == out;
  }

  /** Put out one piece of a text whose rest is known. */
  method Emit(tmp: array<Byte>, off: nat, piece: Text, ghost rest: Text, ghost whole: Text) returns (end: nat)
    requires off <= tmp.Length && Makes(tmp[..off], piece + rest, whole) && |whole| <= tmp.Length
    modifies tmp
    ensures end <= tmp.Length && Makes(tmp[..end], rest, whole)
  {
    Associate(tmp[..off], piece, rest);
    Paste(tmp, off, piece);
    end := off + |piece|;
  }

  /** The counting pass. */
  method ReplacedLength(s: Text, from: Text, to: Text) returns (rlen: nat)
    requires from != []
    ensures rlen == |Replace(s, from, to)|
  {
    hide Matches, ReplaceFrom;
    var count := CountMatches(s, from);
    ReplaceLength(s, from, to);
    rlen := |s| - count * (|from| - |to|);
  }

  lemma ReplaceStep(s: Text, from: Text, to: Text, i: nat)
    requires from != [] && i < |s|
    ensures MatchAt(s, from, i) ==> i + |from| <= |s|
    ensures ReplaceFrom(s, from, to, i) ==
            if MatchAt(s, from, i) then to + ReplaceFrom(s, from, to, i + |from|)
                else [s[i]] + ReplaceFrom(s, from, to, i + 1)
  {
  }

  lemma ReplaceEnd(s: Text, from: Text, to: Text)
    requires from != []
    ensures ReplaceFrom(s, from, to, |s|) == []
  {
  }
}
