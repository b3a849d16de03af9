/** The near-plane clip of `Camera::see`: vertices are camera-space points
    `(lateral, depth)`; the clip first corrects the wrap edge (last, first)
    and then runs `Vec::dedup_by` with a closure that drops or moves
    vertices behind the camera (depth < 0) onto the depth-0 line.

    The specification is given on sequences (`WrapFixed`, `Kept`, `Clip`),
    and the in-place code on an array (`FixWrapEdge`, `DedupInPlace`) is
    proved to compute it. */
module NearClip {
  import opened Vectors

  /** The source's interpolation expression, kept exactly as written:
      `v.0 - (u.0 - v.1) * u.1 / (u.1 - v.1)`.  Every call site has one depth
      strictly negative and the other strictly positive, so the divisor is
      nonzero. */
  function Cross(v: Vector2, u: Vector2): real
    requires u.y - v.y != 0.0
  {
    v.x - (u.x - v.y) * u.y / (u.y - v.y)
  }

  /** One depth strictly below 0 and the other strictly above. */
  predicate Straddles(v: Vector2, u: Vector2) {
    (v.y < 0.0 && 0.0 < u.y) || (u.y < 0.0 && 0.0 < v.y)
  }

  // ---------------------------------------------------------------------
  // Wrap-edge fix-up

  /** The wrap-edge fix-up on the first vertex `u` and the last vertex `v`:
      if `v` is behind and `u` in front, `v` moves to `(Cross(v, u), 0)`;
      if `v` is in front and `u` behind, `u.x` is set to `Cross(v, u)` and
      then overwritten with 0, so `u` becomes `(0, u.y)` and keeps its
      negative depth. */
  function WrapFixed(s: seq<Vector2>): (r: seq<Vector2>)
    ensures |r| == |s|
    ensures forall i :: 0 < i < |s| - 1 ==> r[i] == s[i]
    ensures |s| > 0 && s[|s| - 1].y < 0.0 && 0.0 < s[0].y ==>
      r[|s| - 1] == Vector2(Cross(s[|s| - 1], s[0]), 0.0) && r[0] == s[0]
    ensures |s| > 0 && s[0].y < 0.0 && 0.0 < s[|s| - 1].y ==>
      r[0] == Vector2(0.0, s[0].y) && r[|s| - 1] == s[|s| - 1]
    ensures |s| == 0 || !Straddles(s[|s| - 1], s[0]) ==> r == s
  {
    if |s| == 0 then s
    else
      var u, v := s[0], s[|s| - 1];
      if v.y < 0.0 then
        if u.y > 0.0 then s[|s| - 1 := Vector2(Cross(v, u), 0.0)] else s
      else if v.y > 0.0 then
        if u.y < 0.0 then s[0 := Vector2(0.0, u.y)] else s
      else s
  }

  /** The fix-up as the source performs it: through `last_mut`/`first_mut`,
      one component at a time, on the vertex buffer in place. */
  method FixWrapEdge(a: array<Vector2>)
    modifies a
    ensures a[..] == WrapFixed(old(a[..]))
  {
    if a.Length > 0 {
      var u, v := a[0], a[a.Length - 1];
      if v.y < 0.0 {
        if u.y > 0.0 {
          var last := a.Length - 1;
          a[last] := a[last].(x := a[last].x - (u.x - a[last].y) * u.y / (u.y - a[last].y));
          a[last] := a[last].(y := 0.0);
          assert a[last] == Vector2(Cross(v, u), 0.0);
          assert a[..] == old(a[..])[last := Vector2(Cross(v, u), 0.0)];
        }
      } else if v.y > 0.0 {
        if u.y < 0.0 {
          a[0] := a[0].(x := v.x - (a[0].x - v.y) * a[0].y / (a[0].y - v.y));
          a[0] := a[0].(x := 0.0);
        }
      }
    }
  }

  // ---------------------------------------------------------------------
  // The dedup pass

  /** What one call of the `dedup_by` closure does: whether the candidate
      is dropped, and the (possibly edited) candidate and retained vertex. */
  datatype Verdict = Verdict(drop: bool, candidate: Vector2, retained: Vector2)

  /** The closure `|v, u| ...`: `v` is the candidate, `u` the last vertex
      kept so far; both may be edited in place. */
  function SameBucket(v: Vector2, u: Vector2): (b: Verdict)
    ensures b.drop <==> v.y <= 0.0 && u.y < 0.0
    ensures b.drop ==> b.candidate == v && b.retained == u
    ensures b.candidate == v || (v.y < 0.0 < u.y && b.candidate == Vector2(Cross(v, u), 0.0))
    ensures b.retained == u || (u.y < 0.0 < v.y && !b.drop && b.retained == Vector2(Cross(v, u), 0.0))
    ensures v.y < 0.0 < u.y ==> b.candidate == Vector2(Cross(v, u), 0.0)
    ensures u.y < 0.0 < v.y ==> b.retained == Vector2(Cross(v, u), 0.0)
  {
    if v.y == 0.0 then
      Verdict(u.y < 0.0, v, u)
    else if v.y < 0.0 then
      if u.y < 0.0 then Verdict(true, v, u)
      else if u.y == 0.0 then Verdict(false, v, u)
      else Verdict(false, Vector2(Cross(v, u), 0.0), u)
    else
      if u.y < 0.0 then Verdict(false, v, Vector2(Cross(v, u), 0.0))
      else Verdict(false, v, u)
  }

  /** Offer one candidate to the vertices kept so far. */
  function Step(kept: seq<Vector2>, v: Vector2): (r: seq<Vector2>)
    requires |kept| > 0
    ensures |kept| <= |r| <= |kept| + 1
  {
    var b := SameBucket(v, kept[|kept| - 1]);
    var kept' := kept[|kept| - 1 := b.retained];
    if b.drop then kept' else kept' + [b.candidate]
  }

  /** The vertices kept after offering every element of `s` after the
      first, in order. */
  function Kept(s: seq<Vector2>): (r: seq<Vector2>)
    requires |s| > 0
    ensures 1 <= |r| <= |s|
    decreases |s|
  {
    if |s| == 1 then s else Step(Kept(s[..|s| - 1]), s[|s| - 1])
  }

  /** `Vec::dedup_by`: sequences of length 0 or 1 are returned unchanged. */
  function Dedup(s: seq<Vector2>): seq<Vector2> {
    if |s| == 0 then s else Kept(s)
  }

  /** The whole clip: wrap-edge fix-up, then the dedup pass. */
  function Clip(s: seq<Vector2>): seq<Vector2> {
    Dedup(WrapFixed(s))
  }

  /** `Vec::dedup_by` on the vertex buffer: a read index scans the
      candidates, a write index marks the end of the kept prefix, and the
      result is the first `len` elements. */
  method DedupInPlace(a: array<Vector2>) returns (len: nat)
    modifies a
    ensures len <= a.Length
    ensures a[..len] == Dedup(old(a[..]))
  {
    if a.Length <= 1 {
      return a.Length;
    }
    ghost var s := a[..];
    var read, write := 1, 1;
    while read < a.Length
      invariant 1 <= write <= read <= a.Length
      invariant a[..write] == Kept(s[..read])
      invariant forall k :: read <= k < a.Length ==> a[k] == s[k]
    {
      ghost var kept := a[..write];
      assert a[read] == s[read];
      var b := SameBucket(a[read], a[write - 1]);
      a[write - 1] := b.retained;
      if !b.drop {
        a[write] := b.candidate;
        write := write + 1;
      }
      assert s[..read + 1][..read] == s[..read];
      assert a[..write] == Step(kept, s[read]);
      read := read + 1;
    }
    assert s[..read] == s;
    len := write;
  }

  // ---------------------------------------------------------------------
  // Properties of the dedup pass

  /** The vertices strictly in front of the camera, in order. */
  function InFront(s: seq<Vector2>): seq<Vector2> {
    if s == [] then []
    else InFront(s[..|s| - 1]) + (if s[|s| - 1].y > 0.0 then [s[|s| - 1]] else [])
  }

  /** True when every vertex but possibly the last is at depth >= 0. */
  predicate BehindOnlyAtEnd(r: seq<Vector2>) {
    forall i :: 0 <= i < |r| - 1 ==> r[i].y >= 0.0
  }

  lemma {:induction false} InFrontReplaceLast(s: seq<Vector2>, w: Vector2)
    requires |s| > 0 && s[|s| - 1].y <= 0.0 && w.y <= 0.0
    ensures InFront(s[|s| - 1 := w]) == InFront(s)
  {
    var t := s[|s| - 1 := w];
    assert t[..|t| - 1] == s[..|s| - 1];
  }

  lemma InFrontAppend(s: seq<Vector2>, w: Vector2)
    ensures InFront(s + [w]) == InFront(s) + (if w.y > 0.0 then [w] else [])
  {
    assert (s + [w])[..|s|] == s;
  }

  lemma StepInFront(kept: seq<Vector2>, v: Vector2)
    requires |kept| > 0
    ensures InFront(Step(kept, v)) == InFront(kept) + (if v.y > 0.0 then [v] else [])
  {
    var u := kept[|kept| - 1];
    var b := SameBucket(v, u);
    var kept' := kept[|kept| - 1 := b.retained];
    if b.retained == u {
      assert kept' == kept;
    } else {
      InFrontReplaceLast(kept, b.retained);
    }
    if !b.drop {
      InFrontAppend(kept', b.candidate);
    }
  }

  /** Every vertex in front of the camera survives unchanged and in order,
      and no other vertex ends up in front. */
  lemma {:induction false} KeptInFront(s: seq<Vector2>)
    requires |s| > 0
    ensures InFront(Kept(s)) == InFront(s)
    decreases |s|
  {
    if |s| > 1 {
      var p := s[..|s| - 1];
      KeptInFront(p);
      StepInFront(Kept(p), s[|s| - 1]);
      assert s[..|s| - 1] == p;
    }
  }

  /** The shape of the kept prefix: never empty and never longer than the
      input; only its last vertex may be behind the camera; its first slot
      holds the first input vertex or, when that one was behind, a vertex
      moved onto the depth-0 line; and every kept vertex is an input vertex
      or lies on the depth-0 line. */
  lemma {:induction false} KeptShape(s: seq<Vector2>)
    requires |s| > 0
    ensures 1 <= |Kept(s)| <= |s|
    ensures BehindOnlyAtEnd(Kept(s))
    ensures Kept(s)[0] == s[0] || (s[0].y < 0.0 && Kept(s)[0].y == 0.0)
    ensures forall i :: 0 <= i < |Kept(s)| ==> Kept(s)[i] in s || Kept(s)[i].y == 0.0
    decreases |s|
  {
    if |s| > 1 {
      var p := s[..|s| - 1];
      KeptShape(p);
      var kept := Kept(p);
      var v := s[|s| - 1];
      var u := kept[|kept| - 1];
      var b := SameBucket(v, u);
      var kept' := kept[|kept| - 1 := b.retained];
      assert forall w :: w in p ==> w in s;
      assert Kept(s) == if b.drop then kept' else kept' + [b.candidate];
      if |kept| == 1 && b.retained != u {
        assert u == kept[0];
      }
    }
  }

  /** The pass never grows the buffer; inputs of length 0 or 1 pass through. */
  lemma DedupLength(s: seq<Vector2>)
    ensures |Dedup(s)| <= |s|
    ensures |s| > 0 ==> |Dedup(s)| > 0
    ensures |s| <= 1 ==> Dedup(s) == s
  {
    if |s| > 0 { KeptShape(s); }
  }

  /** After the pass, only the last vertex can still be behind the camera. */
  lemma DedupBehindOnlyAtEnd(s: seq<Vector2>)
    ensures BehindOnlyAtEnd(Dedup(s))
  {
    if |s| > 0 { KeptShape(s); }
  }

  /** The pass keeps the vertices in front of the camera, unchanged and in order. */
  lemma DedupInFront(s: seq<Vector2>)
    ensures InFront(Dedup(s)) == InFront(s)
  {
    if |s| > 0 { KeptInFront(s); }
  }

  /** The first slot is never removed, and it is left unchanged unless the
      first vertex was behind the camera. */
  lemma DedupKeepsHead(s: seq<Vector2>)
    requires |s| > 0
    ensures |Dedup(s)| > 0
    ensures s[0].y >= 0.0 ==> Dedup(s)[0] == s[0]
  {
    KeptShape(s);
  }

  // ---------------------------------------------------------------------
  // Properties of the whole clip

  lemma {:induction false} KeptAllInFront(s: seq<Vector2>)
    requires |s| > 0
    requires forall i :: 0 <= i < |s| ==> s[i].y > 0.0
    ensures Kept(s) == s
    decreases |s|
  {
    if |s| > 1 {
      var p := s[..|s| - 1];
      KeptAllInFront(p);
      assert p + [s[|s| - 1]] == s;
    }
  }

  /** A polygon wholly in front of the camera passes the clip unchanged. */
  lemma ClipAllInFront(s: seq<Vector2>)
    requires forall i :: 0 <= i < |s| ==> s[i].y > 0.0
    ensures Clip(s) == s
  {
    if |s| > 0 { KeptAllInFront(s); }
  }

  lemma {:induction false} KeptAllBehind(s: seq<Vector2>)
    requires |s| > 0
    requires forall i :: 0 <= i < |s| ==> s[i].y < 0.0
    ensures Kept(s) == [s[0]]
    decreases |s|
  {
    if |s| > 1 {
      KeptAllBehind(s[..|s| - 1]);
    }
  }

  /** A polygon wholly behind the camera collapses to its first vertex:
      every later vertex is dropped rather than moved to depth 0. */
  lemma ClipAllBehind(s: seq<Vector2>)
    requires |s| > 0
    requires forall i :: 0 <= i < |s| ==> s[i].y < 0.0
    ensures Clip(s) == [s[0]]
  {
    KeptAllBehind(s);
  }

  /** Where the line through `v` and `u` meets the depth-0 line: the point
      `(r, 0)` is on that line. */
  function EdgeCrossing(v: Vector2, u: Vector2): (r: real)
    requires u.y - v.y != 0.0
    ensures (r - v.x) * (u.y - v.y) == (u.x - v.x) * (0.0 - v.y)
  {
    v.x - (u.x - v.x) * v.y / (u.y - v.y)
  }

  /** The interpolation as written is not the crossing of the edge with the
      depth-0 line: the edge from (1, -1) to (1, 1) crosses it at x = 1, but
      the expression gives 0. */
  lemma CrossIsNotTheEdgeCrossing()
    ensures Cross(Vector2(1.0, -1.0), Vector2(1.0, 1.0)) == 0.0
    ensures EdgeCrossing(Vector2(1.0, -1.0), Vector2(1.0, 1.0)) == 1.0
    ensures Cross(Vector2(1.0, -1.0), Vector2(1.0, 1.0)) != EdgeCrossing(Vector2(1.0, -1.0), Vector2(1.0, 1.0))
  {
    var v, u := Vector2(1.0, -1.0), Vector2(1.0, 1.0);
    assert (u.x - v.y) * u.y == 2.0;
    assert (u.x - v.x) * v.y == 0.0;
  }

  // ---------------------------------------------------------------------
  // A polygon across the near plane

  /** Some vertex lies on the depth-0 line. */
  predicate HasZeroDepth(r: seq<Vector2>) {
    exists i :: 0 <= i < |r| && r[i].y == 0.0
  }

  /** A vertex on the depth-0 line, once kept, stays kept: only a last kept
      vertex behind the camera is ever edited, and only candidates are dropped. */
  lemma StepKeepsZeroDepth(kept: seq<Vector2>, v: Vector2)
    requires |kept| > 0 && HasZeroDepth(kept)
    ensures HasZeroDepth(Step(kept, v))
  {
    var i :| 0 <= i < |kept| && kept[i].y == 0.0;
    assert Step(kept, v)[i] == kept[i];
  }

  /** A polygon starting in front of the camera either stays in front or gets
      a vertex on the depth-0 line from the pass: the first candidate at depth
      <= 0 follows a kept vertex in front, so it is kept, moved to depth 0 if
      it was behind. */
  lemma {:induction false} KeptLeavingFront(s: seq<Vector2>)
    requires |s| > 0 && s[0].y > 0.0
    ensures HasZeroDepth(Kept(s)) || forall m :: 0 <= m < |s| ==> s[m].y > 0.0
    decreases |s|
  {
    if |s| > 1 {
      var p := s[..|s| - 1];
      var v := s[|s| - 1];
      KeptLeavingFront(p);
      assert Kept(s) == Step(Kept(p), v);
      if HasZeroDepth(Kept(p)) {
        StepKeepsZeroDepth(Kept(p), v);
      } else {
        KeptAllInFront(p);
        if v.y <= 0.0 {
          var w := Step(p, v)[|p|];
          assert w.y == 0.0;
        }
      }
    }
  }

  /** A polygon starting behind the camera with no vertex on the depth-0 line
      either stays behind or gets a vertex on the depth-0 line from the pass:
      the first candidate in front moves the kept vertex behind to depth 0. */
  lemma {:induction false} KeptLeavingBehind(s: seq<Vector2>)
    requires |s| > 0 && s[0].y < 0.0
    requires forall m :: 0 <= m < |s| ==> s[m].y != 0.0
    ensures HasZeroDepth(Kept(s)) || forall m :: 0 <= m < |s| ==> s[m].y < 0.0
    decreases |s|
  {
    if |s| > 1 {
      var p := s[..|s| - 1];
      var v := s[|s| - 1];
      KeptLeavingBehind(p);
      assert Kept(s) == Step(Kept(p), v);
      if HasZeroDepth(Kept(p)) {
        StepKeepsZeroDepth(Kept(p), v);
      } else {
        KeptAllBehind(p);
        if v.y > 0.0 {
          assert Step([p[0]], v)[0].y == 0.0;
        }
      }
    }
  }

  /** A polygon with corners on both sides of the camera and none on the
      depth-0 line always comes out of the clip with a vertex on the depth-0
      line, so the height map that follows divides by zero on it. */
  lemma StraddlingWorldHitsDepthZero(s: seq<Vector2>)
    requires forall m :: 0 <= m < |s| ==> s[m].y != 0.0
    requires exists i :: 0 <= i < |s| && s[i].y < 0.0
    requires exists j :: 0 <= j < |s| && s[j].y > 0.0
    ensures HasZeroDepth(Clip(s))
  {
    var i :| 0 <= i < |s| && s[i].y < 0.0;
    var j :| 0 <= j < |s| && s[j].y > 0.0;
    var t := WrapFixed(s);
    var n := |s|;
    assert Clip(s) == Kept(t);
    if s[n - 1].y < 0.0 && 0.0 < s[0].y {
      // The last vertex is moved onto the depth-0 line.
      KeptLeavingFront(t);
      assert t[n - 1].y == 0.0;
    } else if s[0].y < 0.0 && 0.0 < s[n - 1].y {
      // The first vertex keeps its depth; the last stays in front.
      assert t[0].y == s[0].y;
      assert forall m :: 0 < m < n ==> t[m] == s[m];
      KeptLeavingBehind(t);
      assert t[n - 1].y > 0.0;
    } else {
      assert t == s;
      if s[0].y > 0.0 {
        KeptLeavingFront(t);
        assert t[i].y < 0.0;
      } else {
        KeptLeavingBehind(t);
        assert t[j].y > 0.0;
      }
    }
  }
}
