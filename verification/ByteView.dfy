/** The byte-indexed reading of the index: what it says about each single byte. Splitting entries
    does not change it, and counting a segment on one entry changes it on that entry's bytes only. */
module ByteView {
  import opened Common
  import opened OrderedMap
  import opened ByteRanges
  import opened Index

  /** Entries end no later than the next one starts. */
  ghost predicate Disjoint(m: Ranges) {
    forall j, k :: j in m && k in m && j < k ==> m[j].endSeq <= k
  }

  predicate Covers(m: Ranges, k: int, b: int) {
    k in m && k <= b < m[k].endSeq
  }

  ghost predicate Covered(m: Ranges, b: int) {
    exists k :: Covers(m, k, b)
  }

  /** The information for byte `b`, if some entry holds it. */
  ghost function At(m: Ranges, b: int): Option<ByteInfo> {
    if Covered(m, b) then
      var k :| Covers(m, k, b);
      Some(m[k].Info())
    else
      None
  }

  lemma LaterBeyond(m: Ranges, k: int)
    requires Disjoint(m) && k in m
    ensures forall j :: j in m && k < j ==> m[k].endSeq <= j
  {
  }

  lemma CoverUnique(m: Ranges, j: int, k: int, b: int)
    requires Disjoint(m) && Covers(m, j, b) && Covers(m, k, b)
    ensures j == k
  {
  }

  lemma AtIs(m: Ranges, k: int, b: int)
    requires Disjoint(m) && Covers(m, k, b)
    ensures Covered(m, b) && At(m, b) == Some(m[k].Info())
  {
    var j :| Covers(m, j, b) && At(m, b) == Some(m[j].Info());
    CoverUnique(m, j, k, b);
  }

  /** Counting or marking entry `s` without moving its ends. */
  lemma TouchDisjoint(m: Ranges, s: int, r: Range)
    requires Keyed(m) && Disjoint(m) && s in m && r.startSeq == s && r.endSeq == m[s].endSeq && r.Sized()
    ensures Keyed(m[s := r]) && Disjoint(m[s := r])
  {
    PutKeyed(m, s, r);
  }

  lemma TouchByte(m: Ranges, s: int, r: Range, b: int)
    requires Keyed(m) && Disjoint(m) && s in m && r.startSeq == s && r.endSeq == m[s].endSeq && r.Sized()
    ensures At(m[s := r], b) == if s <= b < m[s].endSeq then Some(r.Info()) else At(m, b)
  {
    var m' := m[s := r];
    TouchDisjoint(m, s, r);
    if s <= b < m[s].endSeq {
      assert Covers(m', s, b);
      AtIs(m', s, b);
    } else if Covered(m, b) {
      var k :| Covers(m, k, b);
      assert Covers(m', k, b);
      AtIs(m, k, b);
      AtIs(m', k, b);
    }
    if Covered(m', b) {
      var k :| Covers(m', k, b);
      assert Covers(m, k, b);
    }
  }

  /** Splitting an entry strictly inside its interval. */
  lemma SplitDisjoint(m: Ranges, k: int, at: int)
    requires Keyed(m) && Disjoint(m) && k in m && k < at < m[k].endSeq
    ensures at !in m
    ensures Keyed(SplitAt(m, k, at)) && Disjoint(SplitAt(m, k, at))
  {
    hide Range.Left, Range.Right;
    SplitKeyed(m, k, at);
  }

  lemma SplitByte(m: Ranges, k: int, at: int, b: int)
    requires Keyed(m) && Disjoint(m) && k in m && k < at < m[k].endSeq
    ensures At(SplitAt(m, k, at), b) == At(m, b)
  {
    hide Range.Left, Range.Right;
    var m' := SplitAt(m, k, at);
    SplitDisjoint(m, k, at);
    if Covered(m, b) {
      var j :| Covers(m, j, b);
      AtIs(m, j, b);
      var j' := if j == k && at <= b then at else j;
      assert Covers(m', j', b);
      AtIs(m', j', b);
    }
    if Covered(m', b) {
      var j :| Covers(m', j, b);
      assert Covers(m, if j == at then k else j, b);
    }
  }

  /** The map in which `[s, q)`, a part of entry `k`, is an entry of its own. */
  function Carve(m: Ranges, k: int, s: int, q: int): Ranges
    requires k in m && m[k].startSeq <= s < q <= m[k].endSeq && m[k].startSeq == k && (k < s ==> s !in m)
  {
    var m' := if k < s then SplitAt(m, k, s) else m;
    if q < m[k].endSeq then SplitAt(m', s, q) else m'
  }

  lemma CarveShape(m: Ranges, k: int, s: int, q: int)
    requires Keyed(m) && Disjoint(m) && k in m && k <= s < q <= m[k].endSeq
    ensures var c := Carve(m, k, s, q);
      && Keyed(c) && Disjoint(c)
      && c.Keys == m.Keys + {s} + (if q < m[k].endSeq then {q} else {})
      && s in c && c[s].endSeq == q && c[s].Info() == m[k].Info()
  {
    hide Range.Left, Range.Right;
    if k < s { SplitDisjoint(m, k, s); }
    var m' := if k < s then SplitAt(m, k, s) else m;
    if q < m[k].endSeq { SplitDisjoint(m', s, q); }
  }

  lemma CarveByte(m: Ranges, k: int, s: int, q: int, b: int)
    requires Keyed(m) && Disjoint(m) && k in m && k <= s < q <= m[k].endSeq
    ensures At(Carve(m, k, s, q), b) == At(m, b)
  {
    hide Range.Left, Range.Right;
    if k < s {
      SplitDisjoint(m, k, s);
      SplitByte(m, k, s, b);
    }
    var m' := if k < s then SplitAt(m, k, s) else m;
    if q < m[k].endSeq {
      SplitByte(m', s, q, b);
    }
  }
}
