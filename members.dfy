/**
 * The member-list helpers of the reconciler (deckhand/haproxy.go):
 * `mergeMembers`, `isLastMembers`, and the member splice inside
 * `ContainerRemoved`. Members are equal when host and port are equal,
 * which for `Member` is plain equality.
 */
module Members {
  import opened Wrappers
  import opened Aqueduct

  predicate NoDuplicates(ms: seq<Member>)
  {
    forall i, j | 0 <= i < j < |ms| :: ms[i] != ms[j]
  }

  // ---------------------------------------------------------------- merge

  /** The members of ms that differ from m, in order. */
  function OthersThan(m: Member, ms: seq<Member>): (r: seq<Member>)
    ensures forall x :: x in r <==> x in ms && x != m
  {
    if ms == [] then []
    else
      var init := ms[..|ms| - 1];
      var last := ms[|ms| - 1];
      assert ms == init + [last];
      if last == m then OthersThan(m, init) else OthersThan(m, init) + [last]
  }

  /**
   * What mergeMembers appends: for each member m of the first list in
   * order, every member of the second list, in order, that differs from m.
   */
  function MergeExtras(ms1: seq<Member>, ms2: seq<Member>): seq<Member>
  {
    if ms1 == [] then [] else MergeExtras(ms1[..|ms1| - 1], ms2) + OthersThan(ms1[|ms1| - 1], ms2)
  }

  /** The member list of b1 after `mergeMembers(b1, b2)` with a non-nil b2. */
  function Merged(ms1: seq<Member>, ms2: seq<Member>): seq<Member>
  {
    ms1 + MergeExtras(ms1, ms2)
  }

  /**
   * `mergeMembers(b1, b2)`: appends to b1's members while ranging over a
   * snapshot of them; a nil b2 changes nothing. The reconciler's b1 is a
   * freshly built backend, never b2 itself.
   */
  method MergeMembers(b1: Backend, b2: Backend?)
    requires b1 != b2
    modifies b1
    ensures b2 == null ==> b1.Value() == old(b1.Value())
    ensures b2 != null ==> b1.Value() == old(b1.Value()).(members := Merged(old(b1.members), b2.members))
  {
    if b2 == null {
      return;
    }
    var snapshot := b1.members;
    var others := b2.members;
    for i := 0 to |snapshot|
      invariant b1.Value() == old(b1.Value()).(members := snapshot + MergeExtras(snapshot[..i], others))
    {
      AppendOthers(b1, snapshot[i], others);
      assert snapshot[..i + 1][..i] == snapshot[..i];
    }
    assert snapshot[..|snapshot|] == snapshot;
  }

  /** The inner loop of mergeMembers: appends, in order, the members of others that differ from m. */
  method AppendOthers(b1: Backend, m: Member, others: seq<Member>)
    modifies b1
    ensures b1.Value() == old(b1.Value()).(members := old(b1.members) + OthersThan(m, others))
  {
    for j := 0 to |others|
      invariant b1.Value() == old(b1.Value()).(members := old(b1.members) + OthersThan(m, others[..j]))
    {
      var mm := others[j];
      assert others[..j + 1][..j] == others[..j];
      if m.host == mm.host && m.port == mm.port {
        continue;
      }
      b1.members := b1.members + [mm];
    }
    assert others[..|others|] == others;
  }

  lemma {:induction false} ExtrasMembership(ms1: seq<Member>, ms2: seq<Member>, x: Member)
    ensures x in MergeExtras(ms1, ms2) <==> x in ms2 && OthersThan(x, ms1) != []
  {
    if ms1 != [] {
      ExtrasMembership(ms1[..|ms1| - 1], ms2, x);
    }
  }

  /**
   * As a set, the merge holds b1's members and, unless b1 had none, all of
   * b2's: an empty b1 gains nothing from the live backend.
   */
  lemma MergedMembership(ms1: seq<Member>, ms2: seq<Member>, x: Member)
    ensures x in Merged(ms1, ms2) <==> x in ms1 || (ms1 != [] && x in ms2)
  {
    ExtrasMembership(ms1, ms2, x);
    if ms1 != [] && x !in ms1 {
      assert ms1[0] in OthersThan(x, ms1);
    }
    if OthersThan(x, ms1) != [] {
      assert OthersThan(x, ms1)[0] in ms1;
    }
  }

  lemma {:induction false} OthersThanNoDuplicates(m: Member, ms: seq<Member>)
    requires NoDuplicates(ms)
    ensures NoDuplicates(OthersThan(m, ms))
  {
    if ms != [] {
      var init := ms[..|ms| - 1];
      var last := ms[|ms| - 1];
      assert ms == init + [last];
      assert NoDuplicates(init);
      OthersThanNoDuplicates(m, init);
      assert last !in init;
      assert last !in OthersThan(m, init);
    }
  }

  /**
   * With one new member (the usual case: a container publishing a port
   * once) the merge is the new member, then the live members other than
   * it, whatever the live list holds; it has no duplicates when the live
   * list had none.
   */
  lemma MergeSingle(x: Member, live: seq<Member>)
    ensures Merged([x], live) == [x] + OthersThan(x, live)
    ensures NoDuplicates(live) ==> NoDuplicates(Merged([x], live))
  {
    assert [x][..0] == [];
    assert MergeExtras([x], live) == OthersThan(x, live);
    if NoDuplicates(live) {
      OthersThanNoDuplicates(x, live);
      assert x !in OthersThan(x, live);
    }
  }

  /**
   * Not a set union: merging new members [h1, h3] with live members
   * [h1, h2] gives [h1, h3, h2, h1, h2].
   */
  lemma MergeDuplicates(h1: Member, h2: Member, h3: Member)
    requires h1 != h2 && h1 != h3 && h2 != h3
    ensures Merged([h1, h3], [h1, h2]) == [h1, h3, h2, h1, h2]
    ensures !NoDuplicates(Merged([h1, h3], [h1, h2]))
  {
    OthersThanPair(h1, h1, h2);
    OthersThanPair(h3, h1, h2);
    assert [h1, h3][..1] == [h1] && [h1][..0] == [];
    assert MergeExtras([h1], [h1, h2]) == [h2];
    assert MergeExtras([h1, h3], [h1, h2]) == [h2] + [h1, h2];
    var r := Merged([h1, h3], [h1, h2]);
    assert r[0] == r[3];
  }

  lemma OthersThanPair(m: Member, a: Member, b: Member)
    ensures OthersThan(m, [a, b]) == (if a == m then [] else [a]) + (if b == m then [] else [b])
  {
    assert [a, b][..1] == [a] && [a][..0] == [];
    assert OthersThan(m, [a]) == if a == m then [] else [a];
  }

  // ---------------------------------------------------------- last members

  /**
   * When isLastMembers holds: live has no members, or both lists have
   * exactly one. Only the lengths count, never a host or a port.
   */
  predicate LastByCount(live: seq<Member>, b: seq<Member>)
  {
    |live| == 0 || (|live| == 1 && |b| == 1)
  }

  /**
   * `isLastMembers(live, b)`: after a length check it compares the loop
   * indices of the two member lists, not the members at those indices.
   */
  method IsLastMembers(live: BackendRec, b: BackendRec) returns (last: bool)
    ensures last <==> LastByCount(live.members, b.members)
  {
    if |live.members| > |b.members| {
      return false;
    }
    for m := 0 to |live.members|
      invariant m == 0 || (m == 1 && |b.members| == 1)
    {
      for mm := 0 to |b.members|
        invariant mm == 0 || (mm == 1 && m == 0)
      {
        if m != mm {
          return false;
        }
      }
    }
    return true;
  }

  // ------------------------------------------------------------ the splice

  /** A Go slice: its backing array and its current length. */
  datatype Slice = Slice(buf: seq<Member>, len: nat)

  /**
   * `append(s[:i], s[end:]...)` on a slice whose capacity suffices: the
   * elements buf[end..len] move down to position i; the rest of the backing
   * array keeps its old contents.
   */
  function Shift(buf: seq<Member>, len: nat, i: nat, end: nat): (r: seq<Member>)
    requires i <= end <= len <= |buf|
    ensures |r| == |buf|
    ensures forall k | 0 <= k < |buf| :: r[k] == if i <= k < i + len - end then buf[k + end - i] else buf[k]
  {
    buf[..i] + buf[end..len] + buf[i + len - end..]
  }

  /**
   * One splice of the removal loop at index i: end is i + 1, or i when
   * i + 1 is the current length (the splice is then a no-op). An end past
   * the current length is Go's slice-bounds panic (None).
   */
  function SpliceAt(s: Slice, i: nat): (r: Option<Slice>)
    requires s.len <= |s.buf| && i < |s.buf|
    ensures r.Some? ==> |r.value.buf| == |s.buf| && r.value.len <= s.len
  {
    var end := if i + 1 == s.len then i else i + 1;
    if end > s.len then None
    else Some(Slice(Shift(s.buf, s.len, i, end), s.len - (end - i)))
  }

  /** The inner loop: for each contributed member in order, splice at i when it equals m. */
  function ScanContributed(s: Slice, i: nat, m: Member, bms: seq<Member>): (r: Option<Slice>)
    requires s.len <= |s.buf| && i < |s.buf|
    ensures r.Some? ==> |r.value.buf| == |s.buf| && r.value.len <= s.len
    decreases |bms|
  {
    if bms == [] then Some(s)
    else
      var next := if m == bms[0] then SpliceAt(s, i) else Some(s);
      if next.None? then None else ScanContributed(next.value, i, m, bms[1..])
  }

  /**
   * The outer loop from index i on: it ranges over the ORIGINAL length, and
   * its member m is read from the backing array at the start of the
   * iteration, after the splices made so far.
   */
  function ScanLive(s: Slice, i: nat, bms: seq<Member>): (r: Option<Slice>)
    requires s.len <= |s.buf| && i <= |s.buf|
    ensures r.Some? ==> |r.value.buf| == |s.buf| && r.value.len <= s.len
    decreases |s.buf| - i
  {
    if i == |s.buf| then Some(s)
    else
      var r := ScanContributed(s, i, s.buf[i], bms);
      if r.None? then None else ScanLive(r.value, i + 1, bms)
  }

  /** The rest of the outer loop once the inner loop at index i has ended. */
  function Resume(r: Option<Slice>, i: nat, bms: seq<Member>): Option<Slice>
    requires r.Some? ==> r.value.len <= |r.value.buf| && i < |r.value.buf|
  {
    if r.None? then None else ScanLive(r.value, i + 1, bms)
  }

  /**
   * The live member list after the splice loop of ContainerRemoved removes
   * the contributed members bms, or None when the loop panics.
   */
  function RemoveMembers(live: seq<Member>, bms: seq<Member>): Option<seq<Member>>
  {
    var r := ScanLive(Slice(live, |live|), 0, bms);
    if r.None? then None else Some(r.value.buf[..r.value.len])
  }

  /**
   * One splice, in place on the backing array a of a slice of length len:
   * `append(a[:i], a[end:len]...)` moves a[end..len] down to i (Go's copy
   * handles the overlap).
   */
  method SpliceInPlace(a: array<Member>, len: nat, i: nat) returns (panicked: bool, newLen: nat)
    requires len <= a.Length && i < a.Length
    modifies a
    ensures panicked <==> SpliceAt(Slice(old(a[..]), len), i).None?
    ensures !panicked ==> SpliceAt(Slice(old(a[..]), len), i) == Some(Slice(a[..], newLen))
  {
    var end := i + 1;
    if end == len {
      end := end - 1;
    }
    if end > len {
      return true, len;
    }
    forall k | i <= k < i + len - end {
      a[k] := a[k + end - i];
    }
    assert a[..] == Shift(old(a[..]), len, i, end);
    return false, len - (end - i);
  }

  /**
   * The splice loop of ContainerRemoved over live's members, in place on
   * the slice's backing array; `panicked` is Go's slice-bounds panic.
   */
  method RemoveMatching(live: Backend, bms: seq<Member>) returns (panicked: bool)
    modifies live
    ensures panicked <==> RemoveMembers(old(live.members), bms).None?
    ensures !panicked ==> live.Value() == old(live.Value()).(members := RemoveMembers(old(live.members), bms).value)
    ensures panicked ==> live.Value() == old(live.Value())
  {
    var orig := live.members;
    var n0 := |orig|;
    var a := new Member[n0](k requires 0 <= k < n0 => orig[k]);
    var len: nat := n0;
    ghost var total := ScanLive(Slice(orig, n0), 0, bms);
    assert a[..] == orig;
    var i := 0;
    while i < n0
      modifies a
      invariant 0 <= i <= n0 && len <= n0 && a.Length == n0
      invariant ScanLive(Slice(a[..], len), i, bms) == total
    {
      var m := a[i];
      var j := 0;
      while j < |bms|
        modifies a
        invariant 0 <= j <= |bms| && len <= n0
        invariant Resume(ScanContributed(Slice(a[..], len), i, m, bms[j..]), i, bms) == total
      {
        var bm := bms[j];
        assert bms[j..][1..] == bms[j + 1..];
        if m.host == bm.host && m.port == bm.port {
          var p;
          p, len := SpliceInPlace(a, len, i);
          if p {
            return true;
          }
        }
        j := j + 1;
      }
      i := i + 1;
    }
    assert total == Some(Slice(a[..], len));
    live.members := a[..len];
    return false;
  }

  // ------------------------------------------------- what the splice does

  /** The members a slice currently holds. */
  function Contents(s: Slice): seq<Member>
    requires s.len <= |s.buf|
  {
    s.buf[..s.len]
  }

  lemma {:induction false} ScanContributedNoMatch(s: Slice, i: nat, m: Member, bms: seq<Member>)
    requires s.len <= |s.buf| && i < |s.buf| && m !in bms
    ensures ScanContributed(s, i, m, bms) == Some(s)
    decreases |bms|
  {
    if bms != [] {
      ScanContributedNoMatch(s, i, m, bms[1..]);
    }
  }

  /** Outer iterations whose member matches nothing contributed change nothing. */
  lemma {:induction false} ScanLiveSkip(s: Slice, i: nat, j: nat, bms: seq<Member>)
    requires s.len <= |s.buf| && i <= j <= |s.buf|
    requires forall k | i <= k < j :: s.buf[k] !in bms
    ensures ScanLive(s, i, bms) == ScanLive(s, j, bms)
    decreases j - i
  {
    if i < j {
      ScanContributedNoMatch(s, i, s.buf[i], bms);
      ScanLiveSkip(s, i + 1, j, bms);
    }
  }

  /** A live list none of whose members was contributed comes back unchanged. */
  lemma RemoveNoMatch(live: seq<Member>, bms: seq<Member>)
    requires forall k | 0 <= k < |live| :: live[k] !in bms
    ensures RemoveMembers(live, bms) == Some(live)
  {
    ScanLiveSkip(Slice(live, |live|), 0, |live|, bms);
    assert live[..|live|] == live;
  }

  lemma SpliceAtShrinks(s: Slice, i: nat)
    requires s.len <= |s.buf| && i < |s.buf| && SpliceAt(s, i).Some?
    ensures multiset(Contents(SpliceAt(s, i).value)) <= multiset(Contents(s))
  {
    var t := SpliceAt(s, i).value;
    if i + 1 == s.len {
      assert Contents(t) == Contents(s);
    } else {
      assert Contents(t) == s.buf[..i] + s.buf[i + 1..s.len];
      assert Contents(s) == s.buf[..i] + [s.buf[i]] + s.buf[i + 1..s.len];
    }
  }

  lemma {:induction false} ScanContributedShrinks(s: Slice, i: nat, m: Member, bms: seq<Member>)
    requires s.len <= |s.buf| && i < |s.buf| && ScanContributed(s, i, m, bms).Some?
    ensures multiset(Contents(ScanContributed(s, i, m, bms).value)) <= multiset(Contents(s))
    decreases |bms|
  {
    if bms != [] {
      var next := if m == bms[0] then SpliceAt(s, i) else Some(s);
      if m == bms[0] {
        SpliceAtShrinks(s, i);
      }
      ScanContributedShrinks(next.value, i, m, bms[1..]);
    }
  }

  lemma {:induction false} ScanLiveShrinks(s: Slice, i: nat, bms: seq<Member>)
    requires s.len <= |s.buf| && i <= |s.buf| && ScanLive(s, i, bms).Some?
    ensures multiset(Contents(ScanLive(s, i, bms).value)) <= multiset(Contents(s))
    decreases |s.buf| - i
  {
    if i < |s.buf| {
      var r := ScanContributed(s, i, s.buf[i], bms);
      ScanContributedShrinks(s, i, s.buf[i], bms);
      ScanLiveShrinks(r.value, i + 1, bms);
    }
  }

  /**
   * The splice never invents a member: what is written back is a
   * sub-multiset of the live members, so never longer.
   */
  lemma RemoveShrinks(live: seq<Member>, bms: seq<Member>)
    requires RemoveMembers(live, bms).Some?
    ensures multiset(RemoveMembers(live, bms).value) <= multiset(live)
    ensures |RemoveMembers(live, bms).value| <= |live|
  {
    var s0 := Slice(live, |live|);
    assert Contents(s0) == live;
    ScanLiveShrinks(s0, 0, bms);
    var r := RemoveMembers(live, bms).value;
    assert |multiset(r)| <= |multiset(live)| by {
      var d := multiset(live) - multiset(r);
      assert multiset(live) == multiset(r) + d;
    }
  }

  /**
   * Removing one contributed member that sits before the last index of a
   * live list without duplicates splices exactly that member out.
   */
  lemma RemoveSingleInside(live: seq<Member>, j: nat)
    requires NoDuplicates(live) && j + 1 < |live|
    ensures RemoveMembers(live, [live[j]]) == Some(live[..j] + live[j + 1..])
  {
    var n := |live|;
    var x := live[j];
    var s0 := Slice(live, n);
    ScanLiveSkip(s0, 0, j, [x]);
    var t := Slice(Shift(live, n, j, j + 1), n - 1);
    assert SpliceAt(s0, j) == Some(t);
    assert ScanContributed(s0, j, x, [x]) == Some(t);
    forall k | j + 1 <= k < n
      ensures t.buf[k] !in [x]
    {
      if k < n - 1 {
        assert t.buf[k] == live[k + 1];
      } else {
        assert t.buf[k] == live[n - 1];
      }
    }
    ScanLiveSkip(t, j + 1, n, [x]);
    assert Contents(t) == live[..j] + live[j + 1..];
  }

  /**
   * Removing one contributed member that sits at the last index is a
   * no-op: the splice's end is moved back onto i.
   */
  lemma RemoveSingleLast(live: seq<Member>)
    requires NoDuplicates(live) && |live| > 0
    ensures RemoveMembers(live, [live[|live| - 1]]) == Some(live)
  {
    var n := |live|;
    var x := live[n - 1];
    var s0 := Slice(live, n);
    ScanLiveSkip(s0, 0, n - 1, [x]);
    assert Shift(live, n, n - 1, n - 1) == live;
    assert SpliceAt(s0, n - 1) == Some(s0);
    assert ScanContributed(s0, n - 1, x, [x]) == Some(s0);
    assert ScanLive(s0, n - 1, [x]) == Some(s0);
    assert live[..n] == live;
  }

  /**
   * Without duplicate-freedom the last-index case can panic instead: live
   * [x, x] minus [x] splices index 0, then reads the stale x at index 1,
   * whose slice end 2 lies past the new length 1.
   */
  lemma RemoveDuplicatePanics(x: Member)
    ensures RemoveMembers([x, x], [x]) == None
  {
    var s0 := Slice([x, x], 2);
    var s1 := Slice([x, x], 1);
    assert Shift([x, x], 2, 0, 1) == [x, x];
    assert SpliceAt(s0, 0) == Some(s1);
    assert [x][1..] == [];
    assert ScanContributed(s0, 0, x, [x]) == Some(s1);
    assert SpliceAt(s1, 1) == None;
    assert ScanContributed(s1, 1, x, [x]) == None;
    assert ScanLive(s1, 1, [x]) == None;
    assert ScanLive(s0, 0, [x]) == None;
  }

  /** Live [a, b] minus [b] is written back as [a, b]. */
  lemma RemoveLastOfTwo(a: Member, b: Member)
    requires a != b
    ensures RemoveMembers([a, b], [b]) == Some([a, b])
  {
    RemoveSingleLast([a, b]);
  }

  /**
   * A container replacing another on the same end key leaves a stale
   * member: the new member m2 merged into live [m1] gives [m2, m1], and
   * removing the old container's m1 afterwards writes [m2, m1] back, since
   * m1 sits at the last index.
   */
  lemma ReplacementLeavesStale(m1: Member, m2: Member)
    requires m1 != m2
    ensures Merged([m2], [m1]) == [m2, m1]
    ensures RemoveMembers(Merged([m2], [m1]), [m1]) == Some([m2, m1])
  {
    MergeSingle(m2, [m1]);
    assert [m1][..0] == [];
    assert OthersThan(m2, [m1]) == [m1];
    RemoveLastOfTwo(m2, m1);
  }

  /** Live [a, b] minus [a] is written back as [b]. */
  lemma RemoveFirstOfTwo(a: Member, b: Member)
    requires a != b
    ensures RemoveMembers([a, b], [a]) == Some([b])
  {
    RemoveSingleInside([a, b], 0);
    assert [a, b][..0] + [a, b][1..] == [b];
  }

  /**
   * Live [a, b] minus [a, b] panics: after a is spliced out, the stale copy
   * of b at index 1 of the backing array matches, and the slice end 2 lies
   * past the new length 1.
   */
  lemma RemoveBothPanics(a: Member, b: Member)
    requires a != b
    ensures RemoveMembers([a, b], [a, b]) == None
  {
    var s0 := Slice([a, b], 2);
    var s1 := Slice([b, b], 1);
    assert Shift([a, b], 2, 0, 1) == [b, b];
    assert SpliceAt(s0, 0) == Some(s1);
    assert [a, b][1..] == [b] && [b][1..] == [];
    assert ScanContributed(s1, 0, a, [b]) == Some(s1);
    assert ScanContributed(s0, 0, a, [a, b]) == Some(s1);
    assert SpliceAt(s1, 1) == None;
    assert ScanContributed(s1, 1, b, [b]) == None;
    assert ScanContributed(s1, 1, b, [a, b]) == None;
    assert ScanLive(s1, 1, [a, b]) == None;
    assert ScanLive(s0, 0, [a, b]) == None;
  }

  /**
   * Live [a, b, c] minus [a, b] is written back as [b, c]: after a is
   * spliced out, b has moved to index 0, which the loop has passed.
   */
  lemma RemoveSkipsShifted(a: Member, b: Member, c: Member)
    requires a != b && a != c && b != c
    ensures RemoveMembers([a, b, c], [a, b]) == Some([b, c])
  {
    var s0 := Slice([a, b, c], 3);
    var s1 := Slice([b, c, c], 2);
    assert Shift([a, b, c], 3, 0, 1) == [b, c, c];
    assert SpliceAt(s0, 0) == Some(s1);
    assert [a, b][1..] == [b] && [b][1..] == [];
    assert ScanContributed(s1, 0, a, [b]) == Some(s1);
    assert ScanContributed(s0, 0, a, [a, b]) == Some(s1);
    ScanLiveSkip(s1, 1, 3, [a, b]);
    assert Contents(s1) == [b, c];
  }
}
