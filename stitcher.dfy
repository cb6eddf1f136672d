/**
 * The polyline stitcher of the traffic overlay (src/App.tsx:375-425): the
 * segments of one level are joined greedily into flat coordinate arrays.
 *
 * A segment's identity is its key. The source's key is `segKey`
 * (SegmentKeys.SegmentKey); everything here holds for any key function
 * `key`, and two segments with equal keys count as one segment. `usedSegs`
 * holds the keys consumed so far; it is threaded through `extend` as an
 * argument and a result, where the source passes one mutable Set by reference.
 */
module Stitcher {
  import opened Wrappers
  import opened Geometry
  import opened MarchingSquares

  /** The keys of all segments of the level. */
  function KeySet<K>(segs: seq<Segment>, key: Segment -> K): set<K> {
    set k | 0 <= k < |segs| :: key(segs[k])
  }

  // extend (:378-399)

  /** Segment k is not yet used and has an end point within `eps` of cur (:384-388). */
  predicate Usable<K(==)>(segs: seq<Segment>, key: Segment -> K, used: set<K>, cur: Point, k: nat)
    requires k < |segs|
  {
    key(segs[k]) !in used && (Near(cur, segs[k].a) || Near(cur, segs[k].b))
  }

  /** The segment the inner `for (const s of segments)` stops at, searching from index `from`. */
  function FirstUsable<K(==)>(segs: seq<Segment>, key: Segment -> K, used: set<K>, cur: Point, from: nat): (r: Option<nat>)
    requires from <= |segs|
    ensures r.Some? ==> from <= r.value < |segs| && Usable(segs, key, used, cur, r.value)
    decreases |segs| - from
  {
    if from == |segs| then None
    else if Usable(segs, key, used, cur, from) then Some(from)
    else FirstUsable(segs, key, used, cur, from + 1)
  }

  /** The search is greedy in array order: no earlier segment was usable, and when it
      finds nothing, no segment from `from` on is. */
  lemma {:induction false} FirstUsableIsFirst<K>(segs: seq<Segment>, key: Segment -> K, used: set<K>, cur: Point, from: nat)
    requires from <= |segs|
    ensures var r := FirstUsable(segs, key, used, cur, from);
      (r.Some? ==> forall m :: from <= m < r.value ==> !Usable(segs, key, used, cur, m)) &&
      (r.None? ==> forall m :: from <= m < |segs| ==> !Usable(segs, key, used, cur, m))
    decreases |segs| - from
  {
    if from < |segs| && !Usable(segs, key, used, cur, from) {
      FirstUsableIsFirst(segs, key, used, cur, from + 1);
    }
  }

  /** `matchA ? s.b : matchB ? s.a : null` once s is known to match. */
  function Far(s: Segment, cur: Point): Point {
    if Near(cur, s.a) then s.b else s.a
  }

  /** Consuming an unused segment leaves fewer unused keys. */
  lemma ConsumeShrinks<K>(segs: seq<Segment>, key: Segment -> K, used: set<K>, k: nat)
    requires k < |segs| && key(segs[k]) !in used
    ensures |KeySet(segs, key) - (used + {key(segs[k])})| < |KeySet(segs, key) - used|
  {
    var x := key(segs[k]);
    assert x in KeySet(segs, key) - used;
    assert KeySet(segs, key) - (used + {x}) == (KeySet(segs, key) - used) - {x};
  }

  /** What `extend(cur, usedSegs)` returns, and the set it leaves behind. */
  function Extension<K(==)>(segs: seq<Segment>, key: Segment -> K, cur: Point, used: set<K>): (seq<real>, set<K>)
    decreases |KeySet(segs, key) - used|
  {
    match FirstUsable(segs, key, used, cur, 0)
    case None => ([], used)
    case Some(k) =>
      var next := Far(segs[k], cur);
      ConsumeShrinks(segs, key, used, k);
      var rest := Extension(segs, key, next, used + {key(segs[k])});
      (Flat(next) + rest.0, rest.1)
  }

  /** One round of the outer loop of `extend` that finds segment k. */
  lemma ExtensionStep<K>(segs: seq<Segment>, key: Segment -> K, used: set<K>, cur: Point, k: nat)
    requires k < |segs| && FirstUsable(segs, key, used, cur, 0) == Some(k)
    ensures var next := Far(segs[k], cur);
      var used' := used + {key(segs[k])};
      Extension(segs, key, cur, used).0 == [next.lon, next.lat] + Extension(segs, key, next, used').0 &&
      Extension(segs, key, cur, used).1 == Extension(segs, key, next, used').1 &&
      |KeySet(segs, key) - used'| < |KeySet(segs, key) - used|
  {
    ConsumeShrinks(segs, key, used, k);
  }

  /** The round of the outer loop of `extend` that finds nothing. */
  lemma ExtensionNone<K>(segs: seq<Segment>, key: Segment -> K, used: set<K>, cur: Point)
    requires FirstUsable(segs, key, used, cur, 0).None?
    ensures Extension(segs, key, cur, used) == ([], used)
  {
  }

  /** The loop invariant of `Extend` survives a round that consumes segment k. */
  lemma ExtendRound<K>(segs: seq<Segment>, key: Segment -> K, used: set<K>, cur: Point, k: nat, total: (seq<real>, set<K>), out: seq<real>)
    requires k < |segs| && FirstUsable(segs, key, used, cur, 0) == Some(k)
    requires total.0 == out + Extension(segs, key, cur, used).0
    requires total.1 == Extension(segs, key, cur, used).1
    ensures var next := Far(segs[k], cur);
      var used' := used + {key(segs[k])};
      total.0 == (out + Flat(next)) + Extension(segs, key, next, used').0 &&
      total.1 == Extension(segs, key, next, used').1 &&
      |KeySet(segs, key) - used'| < |KeySet(segs, key) - used|
  {
    var next := Far(segs[k], cur);
    ExtensionStep(segs, key, used, cur, k);
    var rest := Extension(segs, key, next, used + {key(segs[k])}).0;
    assert out + (Flat(next) + rest) == (out + Flat(next)) + rest;
  }

  /** The inner `for (const s of segments)` of `extend` (:383-396): the index of the first
      unused segment with an end near cur, if any. */
  method FindUsable<K(==)>(segs: seq<Segment>, key: Segment -> K, used: set<K>, cur: Point)
    returns (found: Option<nat>)
    ensures found == FirstUsable(segs, key, used, cur, 0)
  {
    var k := 0;
    while k < |segs|
      invariant 0 <= k <= |segs|
      invariant FirstUsable(segs, key, used, cur, 0) == FirstUsable(segs, key, used, cur, k)
    {
      var s := segs[k];
      if key(s) in used {
        k := k + 1;
        continue;
      }
      var matchA := Near(cur, s.a);
      var matchB := Near(cur, s.b);
      if matchA || matchB {
        return Some(k);
      }
      k := k + 1;
    }
    return None;
  }

  /** `extend` (:378-399). */
  method Extend<K(==)>(segs: seq<Segment>, key: Segment -> K, from: Point, usedIn: set<K>)
    returns (out: seq<real>, used: set<K>)
    ensures out == Extension(segs, key, from, usedIn).0
    ensures used == Extension(segs, key, from, usedIn).1
  {
    out := [];
    used := usedIn;
    var cur := from;
    ghost var total := Extension(segs, key, from, usedIn);
    while true
      invariant total.0 == out + Extension(segs, key, cur, used).0
      invariant total.1 == Extension(segs, key, cur, used).1
      decreases |KeySet(segs, key) - used|
    {
      var found := FindUsable(segs, key, used, cur);
      if found.None? {
        ExtensionNone(segs, key, used, cur);
        assert out + [] == out;
        break;
      }
      var k := found.value;
      var s := segs[k];
      var next := if Near(cur, s.a) then s.b else s.a;
      ExtendRound(segs, key, used, cur, k, total, out);
      used := used + {key(s)};
      out := out + Flat(next);
      cur := next;
    }
  }

  /** `extend` only adds keys, only keys of the level, and exactly one new key per point it
      appends: every segment it consumes was unused before. */
  lemma {:induction false} ExtensionUsed<K>(segs: seq<Segment>, key: Segment -> K, cur: Point, used: set<K>)
    ensures var r := Extension(segs, key, cur, used);
      used <= r.1 <= used + KeySet(segs, key) && |r.0| % 2 == 0 && |r.1| == |used| + |r.0| / 2
    decreases |KeySet(segs, key) - used|
  {
    match FirstUsable(segs, key, used, cur, 0)
    case None =>
    case Some(k) =>
      ConsumeShrinks(segs, key, used, k);
      ExtensionUsed(segs, key, Far(segs[k], cur), used + {key(segs[k])});
  }

  /** From p, segment s leads to q: p matches `s.a` and q is `s.b`, or p matches only `s.b`
      and q is `s.a` (:385-387). */
  predicate Joins(s: Segment, p: Point, q: Point) {
    if Near(p, s.a) then q == s.b else Near(p, s.b) && q == s.a
  }

  /** Starting at p, each (lon, lat) pair of flat is reached from the one before it through a
      segment of the level whose key is in keys. */
  ghost predicate Chain<K>(segs: seq<Segment>, key: Segment -> K, keys: set<K>, p: Point, flat: seq<real>)
    decreases |flat|
  {
    |flat| % 2 == 0 &&
    (|flat| > 0 ==>
      (exists k :: 0 <= k < |segs| && key(segs[k]) in keys && Joins(segs[k], p, PointAt(flat, 0))) &&
      Chain(segs, key, keys, PointAt(flat, 0), flat[2..]))
  }

  lemma {:induction false} ChainWeaken<K>(segs: seq<Segment>, key: Segment -> K, keys: set<K>, more: set<K>, p: Point, flat: seq<real>)
    requires Chain(segs, key, keys, p, flat) && keys <= more
    ensures Chain(segs, key, more, p, flat)
    decreases |flat|
  {
    if |flat| > 0 {
      ChainWeaken(segs, key, keys, more, PointAt(flat, 0), flat[2..]);
    }
  }

  /** Prepending a step through a segment of keys keeps a chain. */
  lemma ChainCons<K>(segs: seq<Segment>, key: Segment -> K, keys: set<K>, p: Point, q: Point, flat: seq<real>, k: nat)
    requires k < |segs| && key(segs[k]) in keys && Joins(segs[k], p, q)
    requires Chain(segs, key, keys, q, flat)
    ensures Chain(segs, key, keys, p, Flat(q) + flat)
  {
    var f := Flat(q) + flat;
    assert PointAt(f, 0) == q && f[2..] == flat;
  }

  /** Each point `extend` appends is the far end of a segment it consumed, reached from the
      point before it (the first from `from`). */
  lemma {:induction false} ExtensionChain<K>(segs: seq<Segment>, key: Segment -> K, cur: Point, used: set<K>)
    ensures var r := Extension(segs, key, cur, used);
      Chain(segs, key, r.1 - used, cur, r.0)
    decreases |KeySet(segs, key) - used|
  {
    var r := Extension(segs, key, cur, used);
    match FirstUsable(segs, key, used, cur, 0)
    case None =>
      ExtensionNone(segs, key, used, cur);
    case Some(k) =>
      var next := Far(segs[k], cur);
      var used' := used + {key(segs[k])};
      ExtensionStep(segs, key, used, cur, k);
      var rest := Extension(segs, key, next, used');
      assert r.0 == Flat(next) + rest.0 && r.1 == rest.1;
      ExtensionChain(segs, key, next, used');
      ExtensionUsed(segs, key, next, used');
      ChainWeaken(segs, key, rest.1 - used', r.1 - used, next, rest.0);
      ChainCons(segs, key, r.1 - used, cur, next, rest.0, k);
  }

  /** Started at an end `a` of an unused segment, `extend` always consumes a segment,
      because that segment itself matches. */
  lemma ExtendFromFreeSegment<K>(segs: seq<Segment>, key: Segment -> K, used: set<K>, k: nat)
    requires k < |segs| && key(segs[k]) !in used
    ensures |Extension(segs, key, segs[k].a, used).0| >= 2
  {
    var cur := segs[k].a;
    assert Usable(segs, key, used, cur, k);
    FirstUsableIsFirst(segs, key, used, cur, 0);
    var j := FirstUsable(segs, key, used, cur, 0).value;
    ExtensionStep(segs, key, used, cur, j);
  }

  // reverseFlat (:401-405)

  /** `reverseFlat(arr)`: the (lon, lat) pairs of arr from last to first, each pair kept in
      order; for an odd length the first number is never reached. */
  function ReversedPairs(arr: seq<real>): (r: seq<real>)
    ensures |r| % 2 == 0 && |arr| - 1 <= |r| <= |arr|
  {
    seq(2 * (|arr| / 2), j requires 0 <= j < 2 * (|arr| / 2) => arr[|arr| - 2 - 2 * (j / 2) + j % 2])
  }

  /** The loop `for (let i = arr.length - 2; i >= 0; i -= 2)` (:401-405). */
  method ReverseFlat(arr: seq<real>) returns (out: seq<real>)
    ensures out == ReversedPairs(arr)
  {
    out := [];
    var i := |arr| - 2;
    while i >= 0
      invariant -2 <= i <= |arr| - 2 && (|arr| - i) % 2 == 0
      invariant |out| == |arr| - 2 - i && out == ReversedPairs(arr)[..|out|]
    {
      assert ReversedPairs(arr)[..|out| + 2] == ReversedPairs(arr)[..|out|] + [arr[i], arr[i + 1]];
      out := out + [arr[i], arr[i + 1]];
      i := i - 2;
    }
  }

  /** Point m of the result is point (n - 1 - m) of an array of n points. */
  lemma ReversedPairsAt(arr: seq<real>, m: nat)
    requires |arr| % 2 == 0 && 2 * m < |arr|
    ensures |ReversedPairs(arr)| == |arr|
    ensures PointAt(ReversedPairs(arr), m) == PointAt(arr, |arr| / 2 - 1 - m)
  {
  }

  /** Reversing the pairs twice gives back an even-length array. */
  lemma ReversedPairsInvolution(arr: seq<real>)
    requires |arr| % 2 == 0
    ensures ReversedPairs(ReversedPairs(arr)) == arr
  {
  }

  // The stitch loop (:406-425)

  /** The flat arrays the loop emits for segments k .. of the level, and the set it ends with,
      when it reaches segment k with `usedSegs` equal to used. */
  function StitchFrom<K(==)>(segs: seq<Segment>, key: Segment -> K, k: nat, used: set<K>): (seq<seq<real>>, set<K>)
    requires k <= |segs|
    decreases |segs| - k
  {
    if k == |segs| then ([], used)
    else
      var s := segs[k];
      if key(s) in used then StitchFrom(segs, key, k + 1, used)
      else
        var fwd := Extension(segs, key, s.a, used);
        var bwd := Extension(segs, key, s.b, fwd.1 - {key(s)});
        var flat := Flat(s.a) + fwd.0 + ReversedPairs(bwd.0);
        var rest := StitchFrom(segs, key, k + 1, bwd.1 + {key(s)});
        ((if |flat| >= 4 then [flat] else []) + rest.0, rest.1)
  }

  /** The polylines of one level, and the final `usedSegs`. */
  function Stitch<K(==)>(segs: seq<Segment>, key: Segment -> K): (seq<seq<real>>, set<K>) {
    StitchFrom(segs, key, 0, {})
  }

  /** The loop invariant of `StitchLevel` survives the round that starts a line at segment i. */
  lemma StitchRound<K>(segs: seq<Segment>, key: Segment -> K, i: nat, used: set<K>, lines: seq<seq<real>>,
                           fwd: seq<real>, bwd: (seq<real>, set<K>), flat: seq<real>)
    requires i < |segs| && key(segs[i]) !in used
    requires Stitch(segs, key) == (lines + StitchFrom(segs, key, i, used).0, StitchFrom(segs, key, i, used).1)
    requires var e := Extension(segs, key, segs[i].a, used);
      fwd == e.0 && bwd == Extension(segs, key, segs[i].b, e.1 - {key(segs[i])})
    requires flat == Flat(segs[i].a) + fwd + ReversedPairs(bwd.0)
    ensures var lines' := if |flat| >= 4 then lines + [flat] else lines;
      var rest := StitchFrom(segs, key, i + 1, bwd.1 + {key(segs[i])});
      Stitch(segs, key) == (lines' + rest.0, rest.1)
  {
    var rest := StitchFrom(segs, key, i + 1, bwd.1 + {key(segs[i])});
    assert StitchFrom(segs, key, i, used) == ((if |flat| >= 4 then [flat] else []) + rest.0, rest.1);
    if |flat| >= 4 {
      assert lines + ([flat] + rest.0) == (lines + [flat]) + rest.0;
    } else {
      assert lines + ([] + rest.0) == lines + rest.0;
    }
  }

  /** The loop `for (const s of segments)` (:406-425). */
  method StitchLevel<K(==)>(segs: seq<Segment>, key: Segment -> K) returns (lines: seq<seq<real>>, used: set<K>)
    ensures (lines, used) == Stitch(segs, key)
  {
    lines := [];
    used := {};
    assert [] + Stitch(segs, key).0 == Stitch(segs, key).0;
    for i := 0 to |segs|
      invariant Stitch(segs, key) == (lines + StitchFrom(segs, key, i, used).0, StitchFrom(segs, key, i, used).1)
    {
      var s := segs[i];
      if key(s) in used {
        continue;
      }
      ghost var before := used;
      var fwd, bwd;
      fwd, used := Extend(segs, key, s.a, used);
      used := used - {key(s)};
      bwd, used := Extend(segs, key, s.b, used);
      ghost var afterBwd := used;
      used := used + {key(s)};
      var back := ReverseFlat(bwd);
      var flat := Flat(s.a) + fwd + back;
      StitchRound(segs, key, i, before, lines, fwd, (bwd, afterBwd), flat);
      if |flat| >= 4 {
        lines := lines + [flat];
      }
    }
    assert lines + [] == lines;
  }

  /** A subset is no larger than its superset. */
  lemma SubsetCard<T>(a: set<T>, b: set<T>)
    requires a <= b
    ensures |a| <= |b|
  {
    assert b == a + (b - a);
  }

  /** The round at an unused segment k emits a line of at least two points. */
  lemma StitchFromSeed<K>(segs: seq<Segment>, key: Segment -> K, k: nat, used: set<K>)
    requires k < |segs| && key(segs[k]) !in used
    ensures var s := segs[k];
      var fwd := Extension(segs, key, s.a, used);
      var bwd := Extension(segs, key, s.b, fwd.1 - {key(s)});
      var flat := Flat(s.a) + fwd.0 + ReversedPairs(bwd.0);
      var rest := StitchFrom(segs, key, k + 1, bwd.1 + {key(s)});
      |fwd.0| >= 2 && |flat| >= 4 && StitchFrom(segs, key, k, used) == ([flat] + rest.0, rest.1)
  {
    ExtendFromFreeSegment(segs, key, used, k);
  }

  /** The round at an unused segment k marks that segment and at most segments of the level,
      and keeps every key it had. */
  lemma SeedKeys<K>(segs: seq<Segment>, key: Segment -> K, k: nat, used: set<K>)
    requires k < |segs| && key(segs[k]) !in used
    ensures var s := segs[k];
      var fwd := Extension(segs, key, s.a, used);
      var u := Extension(segs, key, s.b, fwd.1 - {key(s)}).1 + {key(s)};
      used + {key(s)} <= u <= used + KeySet(segs, key) && |used| + 1 <= |u|
  {
    var s := segs[k];
    var x := key(s);
    var fwd := Extension(segs, key, s.a, used);
    var u := Extension(segs, key, s.b, fwd.1 - {x}).1 + {x};
    ExtensionUsed(segs, key, s.a, used);
    ExtensionUsed(segs, key, s.b, fwd.1 - {x});
    assert x in KeySet(segs, key);
    SubsetCard(used + {x}, u);
  }

  /** The loop from segment k on only adds keys, only keys of the level, and marks every
      segment from k on. */
  lemma {:induction false} StitchFromUsed<K>(segs: seq<Segment>, key: Segment -> K, k: nat, used: set<K>)
    requires k <= |segs|
    ensures var r := StitchFrom(segs, key, k, used);
      used <= r.1 <= used + KeySet(segs, key) &&
      forall m :: k <= m < |segs| ==> key(segs[m]) in r.1
    decreases |segs| - k
  {
    if k < |segs| {
      var s := segs[k];
      var x := key(s);
      if x in used {
        StitchFromUsed(segs, key, k + 1, used);
      } else {
        var fwd := Extension(segs, key, s.a, used);
        var u := Extension(segs, key, s.b, fwd.1 - {x}).1 + {x};
        SeedKeys(segs, key, k, used);
        StitchFromSeed(segs, key, k, used);
        StitchFromUsed(segs, key, k + 1, u);
      }
    }
  }

  /** Each line the loop emits from segment k on marks at least one new key. */
  lemma {:induction false} StitchFromCount<K>(segs: seq<Segment>, key: Segment -> K, k: nat, used: set<K>)
    requires k <= |segs|
    ensures var r := StitchFrom(segs, key, k, used);
      |used| + |r.0| <= |r.1|
    decreases |segs| - k
  {
    if k < |segs| {
      var s := segs[k];
      var x := key(s);
      if x in used {
        StitchFromCount(segs, key, k + 1, used);
      } else {
        var fwd := Extension(segs, key, s.a, used);
        var u := Extension(segs, key, s.b, fwd.1 - {x}).1 + {x};
        SeedKeys(segs, key, k, used);
        StitchFromSeed(segs, key, k, used);
        StitchFromCount(segs, key, k + 1, u);
      }
    }
  }

  /** Every segment of the level ends up in `usedSegs`. */
  lemma StitchMarksEveryKey<K>(segs: seq<Segment>, key: Segment -> K)
    ensures Stitch(segs, key).1 == KeySet(segs, key)
  {
    StitchFromUsed(segs, key, 0, {});
  }

  /** A non-empty level gives at least one line, and never more lines than distinct segments. */
  lemma StitchLineCount<K>(segs: seq<Segment>, key: Segment -> K)
    ensures |Stitch(segs, key).0| <= |KeySet(segs, key)|
    ensures |segs| > 0 ==> |Stitch(segs, key).0| >= 1
  {
    StitchFromCount(segs, key, 0, {});
    StitchMarksEveryKey(segs, key);
    if |segs| > 0 {
      StitchFromSeed(segs, key, 0, {});
    }
  }

  /** What every emitted line is: some segment's `a`, then a chain `fwd` of at least one step
      from `a`, then the reversed chain `bwd` from that segment's `b`; both chains run through
      segments of the level. */
  ghost predicate StitchedLine<K>(segs: seq<Segment>, key: Segment -> K, line: seq<real>) {
    exists k, fwd, bwd ::
      0 <= k < |segs| && |fwd| >= 2 &&
      Chain(segs, key, KeySet(segs, key), segs[k].a, fwd) &&
      Chain(segs, key, KeySet(segs, key), segs[k].b, bwd) &&
      line == Flat(segs[k].a) + fwd + ReversedPairs(bwd)
  }

  lemma {:induction false} StitchFromLines<K>(segs: seq<Segment>, key: Segment -> K, k: nat, used: set<K>)
    requires k <= |segs|
    ensures forall line :: line in StitchFrom(segs, key, k, used).0 ==> StitchedLine(segs, key, line)
    decreases |segs| - k
  {
    if k < |segs| {
      var s := segs[k];
      var x := key(s);
      if x in used {
        StitchFromLines(segs, key, k + 1, used);
      } else {
        var fwd := Extension(segs, key, s.a, used);
        var bwd := Extension(segs, key, s.b, fwd.1 - {x});
        var ks := KeySet(segs, key);
        ExtensionUsed(segs, key, s.a, used);
        ExtensionUsed(segs, key, s.b, fwd.1 - {x});
        ExtensionChain(segs, key, s.a, used);
        ExtensionChain(segs, key, s.b, fwd.1 - {x});
        ChainWeaken(segs, key, fwd.1 - used, ks, s.a, fwd.0);
        ChainWeaken(segs, key, bwd.1 - (fwd.1 - {x}), ks, s.b, bwd.0);
        StitchFromSeed(segs, key, k, used);
        var flat := Flat(s.a) + fwd.0 + ReversedPairs(bwd.0);
        assert StitchedLine(segs, key, flat);
        StitchFromLines(segs, key, k + 1, bwd.1 + {x});
      }
    }
  }

  /** Every line of a level is a stitched line. */
  lemma StitchLinesShape<K>(segs: seq<Segment>, key: Segment -> K)
    ensures forall line :: line in Stitch(segs, key).0 ==> StitchedLine(segs, key, line)
  {
    StitchFromLines(segs, key, 0, {});
  }

  /** The line started at an unused segment k holds at least two whole (lon, lat) pairs. */
  lemma SeedLineLength<K>(segs: seq<Segment>, key: Segment -> K, k: nat, used: set<K>)
    requires k < |segs| && key(segs[k]) !in used
    ensures var s := segs[k];
      var fwd := Extension(segs, key, s.a, used);
      var bwd := Extension(segs, key, s.b, fwd.1 - {key(s)});
      var flat := Flat(s.a) + fwd.0 + ReversedPairs(bwd.0);
      var rest := StitchFrom(segs, key, k + 1, bwd.1 + {key(s)});
      |flat| >= 4 && |flat| % 2 == 0 && StitchFrom(segs, key, k, used).0 == [flat] + rest.0
  {
    StitchFromSeed(segs, key, k, used);
    ExtensionUsed(segs, key, segs[k].a, used);
  }

  /** Every line the loop emits from segment k on holds at least two whole (lon, lat) pairs. */
  lemma {:induction false} StitchFromLengths<K>(segs: seq<Segment>, key: Segment -> K, k: nat, used: set<K>)
    requires k <= |segs|
    ensures forall line :: line in StitchFrom(segs, key, k, used).0 ==> |line| >= 4 && |line| % 2 == 0
    decreases |segs| - k
  {
    if k < |segs| {
      var s := segs[k];
      var x := key(s);
      if x in used {
        StitchFromLengths(segs, key, k + 1, used);
        assert StitchFrom(segs, key, k, used) == StitchFrom(segs, key, k + 1, used);
      } else {
        var fwd := Extension(segs, key, s.a, used);
        var bwd := Extension(segs, key, s.b, fwd.1 - {x});
        var flat := Flat(s.a) + fwd.0 + ReversedPairs(bwd.0);
        var rest := StitchFrom(segs, key, k + 1, bwd.1 + {x});
        SeedLineLength(segs, key, k, used);
        StitchFromLengths(segs, key, k + 1, bwd.1 + {x});
        forall line | line in StitchFrom(segs, key, k, used).0
          ensures |line| >= 4 && |line| % 2 == 0
        {
          if line != flat {
            assert line in rest.0;
          }
        }
      }
    }
  }

  /** Every line of a level holds at least two whole (lon, lat) pairs. */
  lemma StitchLineLengths<K>(segs: seq<Segment>, key: Segment -> K)
    ensures forall line :: line in Stitch(segs, key).0 ==> |line| >= 4 && |line| % 2 == 0
  {
    StitchFromLengths(segs, key, 0, {});
  }

  /** A lone segment whose ends are apart gives the three-point line a, b, a: `extend(s.a)`
      walks the segment to b, and once its key is deleted `extend(s.b)` walks it back to a. */
  lemma LoneSegmentRetraced<K>(s: Segment, key: Segment -> K)
    requires !Near(s.b, s.a)
    ensures Stitch([s], key).0 == [Flat(s.a) + Flat(s.b) + Flat(s.a)]
  {
    var segs := [s];
    var x := key(s);
    assert Near(s.a, s.a) && Near(s.b, s.b);
    assert Far(s, s.a) == s.b && Far(s, s.b) == s.a;
    var none: set<K> := {};
    assert none + {x} == {x};
    // extend(s.a) takes s to b, then finds nothing
    assert FirstUsable(segs, key, {}, s.a, 0) == Some(0);
    ExtensionStep(segs, key, {}, s.a, 0);
    assert FirstUsable(segs, key, {x}, s.b, 0).None?;
    ExtensionNone(segs, key, {x}, s.b);
    var fwd := Extension(segs, key, s.a, {});
    assert fwd.0 == Flat(s.b) + [] == Flat(s.b);
    // with x deleted, extend(s.b) takes s back to a
    assert {x} - {x} == {};
    assert FirstUsable(segs, key, {}, s.b, 0) == Some(0);
    ExtensionStep(segs, key, {}, s.b, 0);
    assert FirstUsable(segs, key, {x}, s.a, 0).None?;
    ExtensionNone(segs, key, {x}, s.a);
    var bwd := Extension(segs, key, s.b, fwd.1 - {x});
    assert bwd.0 == Flat(s.a) + [] == Flat(s.a);
    assert ReversedPairs(Flat(s.a)) == Flat(s.a);
    StitchFromSeed(segs, key, 0, {});
    assert StitchFrom(segs, key, 1, {x}).0 == [];
  }

  /** On the chain p-q, q-r, `extend(p)` takes p-q to q, then q-r to r, then finds nothing. */
  lemma ChainForward<K>(p: Point, q: Point, r: Point, key: Segment -> K)
    requires key(Segment(p, q)) != key(Segment(q, r))
    ensures Extension([Segment(p, q), Segment(q, r)], key, p, {}) ==
      (Flat(q) + Flat(r), {key(Segment(p, q)), key(Segment(q, r))})
  {
    var s1, s2 := Segment(p, q), Segment(q, r);
    var segs := [s1, s2];
    var x1, x2 := key(s1), key(s2);
    var none: set<K> := {};
    assert Near(p, p) && Near(q, q) && Far(s1, p) == q && Far(s2, q) == r;
    assert none + {x1} == {x1} && {x1} + {x2} == {x1, x2};
    assert FirstUsable(segs, key, {x1, x2}, r, 0).None?;
    ExtensionNone(segs, key, {x1, x2}, r);
    assert FirstUsable(segs, key, {x1}, q, 0) == Some(1);
    ExtensionStep(segs, key, {x1}, q, 1);
    assert Flat(r) + [] == Flat(r);
    assert FirstUsable(segs, key, {}, p, 0) == Some(0);
    ExtensionStep(segs, key, {}, p, 0);
  }

  /** With only q-r used, `extend(q)` takes p-q back to p, then finds nothing. */
  lemma ChainBackward<K>(p: Point, q: Point, r: Point, key: Segment -> K)
    requires !Near(q, p)
    requires key(Segment(p, q)) != key(Segment(q, r))
    ensures Extension([Segment(p, q), Segment(q, r)], key, q, {key(Segment(q, r))}) ==
      (Flat(p), {key(Segment(p, q)), key(Segment(q, r))})
  {
    var s1, s2 := Segment(p, q), Segment(q, r);
    var segs := [s1, s2];
    var x1, x2 := key(s1), key(s2);
    assert Near(q, q) && Far(s1, q) == p;
    assert {x2} + {x1} == {x1, x2};
    assert FirstUsable(segs, key, {x1, x2}, p, 0).None?;
    ExtensionNone(segs, key, {x1, x2}, p);
    assert FirstUsable(segs, key, {x2}, q, 0) == Some(0);
    ExtensionStep(segs, key, {x2}, q, 0);
    assert Flat(p) + [] == Flat(p);
  }

  /**
   * An open chain p-q, q-r comes out closed back to its start, as p q r p:
   * the backward walk from q re-takes the first segment (its key was deleted
   * for that walk) and ends at p, so after r the line jumps straight back to
   * p, closing the open chain with a chord that lies on no segment.
   */
  lemma OpenChainClosedBack<K>(p: Point, q: Point, r: Point, key: Segment -> K)
    requires !Near(q, p)
    requires key(Segment(p, q)) != key(Segment(q, r))
    ensures Stitch([Segment(p, q), Segment(q, r)], key).0 == [Flat(p) + Flat(q) + Flat(r) + Flat(p)]
  {
    var s1, s2 := Segment(p, q), Segment(q, r);
    var segs := [s1, s2];
    var x1, x2 := key(s1), key(s2);
    ChainForward(p, q, r, key);
    var fwd := Extension(segs, key, p, {});
    assert fwd.1 - {x1} == {x2};
    ChainBackward(p, q, r, key);
    var bwd := Extension(segs, key, q, fwd.1 - {x1});
    assert ReversedPairs(Flat(p)) == Flat(p);
    assert Flat(p) + fwd.0 + ReversedPairs(bwd.0) == Flat(p) + Flat(q) + Flat(r) + Flat(p);
    assert bwd.1 + {x1} == {x1, x2};
    StitchFromSeed(segs, key, 0, {});
    assert StitchFrom(segs, key, 1, {x1, x2}).0 == [];
  }
}
