// Four-wave-mixing bookkeeping of the resource manager
// (ResourceManager.cpp:1825-1972): the channel comb, the window of
// channels near a wavelength, and the enumeration of the channel triples
// (fi, fj, fk) whose mixing product fi + fj - fk lands on a channel.
//
// Frequencies are `fc + i * step` in the source; the model keeps the
// integer channel offset `i`. Every test the enumeration makes has the
// form `±f + ±f + ±f == fc` with coefficients summing to one, so in exact
// arithmetic it holds of the frequencies exactly when it holds of the
// offsets. The source compares `float` values, so the two agree up to
// rounding.

module FourWaveMixing {
  import opened Common

  /** The integers `lo, lo + 1, ..., hi - 1`. */
  function Range(lo: int, hi: int): (r: seq<int>)
    ensures |r| == if lo < hi then hi - lo else 0
  {
    if lo < hi then seq(hi - lo, n => lo + n) else []
  }

  lemma RangeSnoc(lo: int, hi: int)
    requires lo <= hi
    ensures Range(lo, hi + 1) == Range(lo, hi) + [hi]
  {
    assert Range(lo, hi + 1) == Range(lo, hi) + [hi];
  }

  /** The offsets `gen_frequency_comb(fc, step, left, right, wo_fc)` writes:
      `-left .. -1`, then the centre if `wo_fc`, then `1 .. right`. */
  function Comb(left: int, right: int, woFc: bool): seq<int>
  {
    Range(-left, 0) + (if woFc then [0] else []) + Range(1, right + 1)
  }

  /** `gen_frequency_comb` (ResourceManager.cpp:1825-1839): two counting
      loops with the optional centre between them; the count it returns
      is the length of the result. */
  method GenFrequencyComb(left: int, right: int, woFc: bool) returns (fs: seq<int>)
    ensures fs == Comb(left, right, woFc)
  {
    fs := [];
    var i := -left;
    while i < 0
      invariant -left <= i && (i <= 0 || i == -left)
      invariant fs == Range(-left, i)
    {
      RangeSnoc(-left, i);
      fs := fs + [i];
      i := i + 1;
    }
    assert fs == Range(-left, 0);
    if woFc {
      fs := fs + [0];
    }
    ghost var lower := fs;
    i := 1;
    while i <= right
      invariant 1 <= i && (i <= right + 1 || i == 1)
      invariant fs == lower + Range(1, i)
    {
      RangeSnoc(1, i);
      fs := fs + [i];
      i := i + 1;
    }
  }

  /** The comb is strictly increasing, holds exactly the offsets of its
      three parts, and has `left + right` channels plus the centre. */
  lemma CombLayout(left: int, right: int, woFc: bool)
    requires 0 <= left && 0 <= right
    ensures var fs := Comb(left, right, woFc);
      |fs| == left + right + (if woFc then 1 else 0)
      && (forall a, b :: 0 <= a < b < |fs| ==> fs[a] < fs[b])
      && (forall x :: x in fs <==> -left <= x <= right && (x != 0 || woFc))
  {
    var fs := Comb(left, right, woFc);
    var low, mid, high := Range(-left, 0), (if woFc then [0] else []), Range(1, right + 1);
    assert fs == low + mid + high;
    forall a, b | 0 <= a < b < |fs| ensures fs[a] < fs[b] {
    }
    forall x ensures x in fs <==> -left <= x <= right && (x != 0 || woFc) {
      if -left <= x < 0 {
        assert low[x + left] == x;
      } else if 1 <= x <= right {
        assert high[x - 1] == x;
      }
    }
  }

  function Abs(a: int): nat
  {
    if a < 0 then -a else a
  }

  /** The channels `0 .. n - 1` within `halfwin` of `lambda`, in order:
      the filter `build_FWM_fs` applies. */
  function Window(n: nat, lambda: int, halfwin: int): (r: seq<nat>)
    ensures forall m :: 0 <= m < |r| ==> r[m] < n
  {
    if n == 0 then []
    else Window(n - 1, lambda, halfwin) + (if Abs(n - 1 - lambda) <= halfwin then [n - 1] else [])
  }

  /** `build_FWM_fs` (ResourceManager.cpp:1848-1861): the indices of the
      channels in the window around `lambda` and their frequencies, in
      channel order; the count it returns is the length of each. */
  method BuildFwmFs(sysFs: seq<int>, wavelengths: nat, lambda: int, halfwin: int)
      returns (interFs: seq<int>, interIndices: seq<nat>)
    requires wavelengths <= |sysFs|
    ensures interIndices == Window(wavelengths, lambda, halfwin)
    ensures |interFs| == |interIndices|
    ensures forall m :: 0 <= m < |interFs| ==> interFs[m] == sysFs[interIndices[m]]
  {
    interFs, interIndices := [], [];
    var i := 0;
    while i < wavelengths
      invariant 0 <= i <= wavelengths
      invariant interIndices == Window(i, lambda, halfwin)
      invariant |interFs| == |interIndices|
      invariant forall m :: 0 <= m < |interFs| ==> interFs[m] == sysFs[interIndices[m]]
    {
      if Abs(i - lambda) <= halfwin {
        interIndices := interIndices + [i];
        interFs := interFs + [sysFs[i]];
      }
      i := i + 1;
    }
  }

  /** The window is the contiguous run of channels from
      `max(0, lambda - halfwin)` up to `min(n - 1, lambda + halfwin)`. */
  lemma {:induction false} WindowIsRange(n: nat, lambda: int, halfwin: int)
    ensures Window(n, lambda, halfwin) == Range(Max(0, lambda - halfwin), Min(n, lambda + halfwin + 1))
  {
    if n > 0 {
      WindowIsRange(n - 1, lambda, halfwin);
      var lo := Max(0, lambda - halfwin);
      var rest := Range(lo, Min(n - 1, lambda + halfwin + 1));
      if Abs(n - 1 - lambda) <= halfwin {
        assert Range(lo, Min(n, lambda + halfwin + 1)) == rest + [n - 1];
      } else {
        assert Range(lo, Min(n, lambda + halfwin + 1)) == rest;
      }
    }
  }

  function Max(a: int, b: int): int { if a < b then b else a }
  function Min(a: int, b: int): int { if a < b then a else b }

  /** `degeneracy` (ResourceManager.cpp:1963-1972): -1 for the self- and
      cross-phase terms (fk equal to fi or fj), 3 for a degenerate pair
      (fi == fj), 6 otherwise. */
  function Degeneracy(fi: int, fj: int, fk: int): int
  {
    if fi == fk || fj == fk then -1 else if fi == fj then 3 else 6
  }

  /** The factor takes only the three values, is -1 exactly for the
      excluded terms, and does not depend on the order of fi and fj. */
  lemma DegeneracyCases(fi: int, fj: int, fk: int)
    ensures Degeneracy(fi, fj, fk) in {-1, 3, 6}
    ensures Degeneracy(fi, fj, fk) == -1 <==> fk == fi || fk == fj
    ensures Degeneracy(fi, fj, fk) == 3 <==> fi == fj && fk != fi
    ensures Degeneracy(fi, fj, fk) == Degeneracy(fj, fi, fk)
  {
  }

  /** One entry of `fs_coms`: four consecutive ints in the source's flat
      vector. */
  datatype FwmTerm = FwmTerm(fi: nat, fj: nat, fk: nat, d: int)

  predicate Matches(t: FwmTerm, fi: int, fj: int, fk: int)
  {
    t.fi == fi && t.fj == fj && t.fk == fk
  }

  predicate HasKey(coms: seq<FwmTerm>, fi: int, fj: int, fk: int)
  {
    exists m :: 0 <= m < |coms| && Matches(coms[m], fi, fj, fk)
  }

  /** `can_find` (ResourceManager.cpp:1948-1955): whether one of the first
      `num` entries has the triple (fi, fj, fk). */
  method CanFind(fi: int, fj: int, fk: int, coms: seq<FwmTerm>, num: nat) returns (found: bool)
    requires num <= |coms|
    ensures found <==> HasKey(coms[..num], fi, fj, fk)
  {
    var i := 0;
    while i < num
      invariant 0 <= i <= num
      invariant forall m :: 0 <= m < i ==> !Matches(coms[m], fi, fj, fk)
    {
      if Matches(coms[i], fi, fj, fk) {
        assert coms[..num][i] == coms[i];
        return true;
      }
      i := i + 1;
    }
    found := false;
    forall m | 0 <= m < num ensures !Matches(coms[..num][m], fi, fj, fk) {
      assert coms[..num][m] == coms[m];
    }
  }

  /** The term `wave_combines` records for the mixing of channels a and b
      against c, fi and fj sorted, unless it is excluded. */
  function Ordered(a: nat, b: nat, c: nat): Option<FwmTerm>
  {
    var d := Degeneracy(a, b, c);
    if d == -1 then None
    else if a > b then Some(FwmTerm(b, a, c, d))
    else Some(FwmTerm(a, b, c, d))
  }

  /** The body of the triple loop of `wave_combines` for (i, j, k): the
      first of the three sign patterns that yields `fc` decides which
      channel is fk. */
  function Candidate(fc: int, fs: seq<int>, i: nat, j: nat, k: nat): Option<FwmTerm>
    requires i < |fs| && j < |fs| && k < |fs|
  {
    if -fs[i] + fs[j] + fs[k] == fc then Ordered(j, k, i)
    else if fs[i] - fs[j] + fs[k] == fc then Ordered(i, k, j)
    else if fs[i] + fs[j] - fs[k] == fc then Ordered(i, j, k)
    else None
  }

  /** Recording a candidate unless its triple is already there. */
  function AddTerm(coms: seq<FwmTerm>, o: Option<FwmTerm>): seq<FwmTerm>
  {
    match o
    case None => coms
    case Some(t) => if HasKey(coms, t.fi, t.fj, t.fk) then coms else coms + [t]
  }

  /** `acc` after the innermost loop has run for k' < k. */
  function ScanK(fc: int, fs: seq<int>, i: nat, j: nat, k: nat, acc: seq<FwmTerm>): seq<FwmTerm>
    requires i < |fs| && j < |fs| && k <= |fs|
  {
    if k == 0 then acc else AddTerm(ScanK(fc, fs, i, j, k - 1, acc), Candidate(fc, fs, i, j, k - 1))
  }

  /** `acc` after the middle loop has run for j' < j. */
  function ScanJ(fc: int, fs: seq<int>, i: nat, j: nat, acc: seq<FwmTerm>): seq<FwmTerm>
    requires i < |fs| && j <= |fs|
  {
    if j == 0 then acc else ScanK(fc, fs, i, j - 1, |fs|, ScanJ(fc, fs, i, j - 1, acc))
  }

  /** The entries after the outer loop has run for i' < i. */
  function ScanI(fc: int, fs: seq<int>, i: nat): seq<FwmTerm>
    requires i <= |fs|
  {
    if i == 0 then [] else ScanJ(fc, fs, i - 1, |fs|, ScanI(fc, fs, i - 1))
  }

  /** `wave_combines` (ResourceManager.cpp:1871-1940): every (i, j, k) in
      loop order, each candidate looked up with `can_find` among the
      entries so far and appended if new; the count it returns is the
      number of entries. */
  method WaveCombines(fc: int, fs: seq<int>) returns (coms: seq<FwmTerm>, num: nat)
    ensures coms == ScanI(fc, fs, |fs|)
    ensures num == |coms|
  {
    coms, num := [], 0;
    var n := |fs|;
    var i := 0;
    while i < n
      invariant 0 <= i <= n
      invariant coms == ScanI(fc, fs, i) && num == |coms|
    {
      ghost var atI := coms;
      var j := 0;
      while j < n
        invariant 0 <= j <= n
        invariant coms == ScanJ(fc, fs, i, j, atI) && num == |coms|
      {
        ghost var atJ := coms;
        var k := 0;
        while k < n
          invariant 0 <= k <= n
          invariant coms == ScanK(fc, fs, i, j, k, atJ) && num == |coms|
        {
          var o := Candidate(fc, fs, i, j, k);
          if o.Some? {
            var t := o.value;
            var found := CanFind(t.fi, t.fj, t.fk, coms, num);
            assert coms[..num] == coms;
            if !found {
              coms := coms + [t];
              num := num + 1;
            }
          }
          k := k + 1;
        }
        j := j + 1;
      }
      i := i + 1;
    }
  }

  /** What every recorded entry satisfies: channel indices of `fs` with fi
      and fj sorted, fk distinct from both, the mixing product fi + fj - fk
      on `fc`, and the degeneracy factor of the triple. */
  predicate WellFormed(fc: int, fs: seq<int>, t: FwmTerm)
  {
    t.fi <= t.fj < |fs| && t.fk < |fs| && t.fk != t.fi && t.fk != t.fj
    && fs[t.fi] + fs[t.fj] - fs[t.fk] == fc
    && t.d == Degeneracy(t.fi, t.fj, t.fk) && t.d in {3, 6}
  }

  /** Well-formed entries with pairwise distinct triples. */
  predicate Good(fc: int, fs: seq<int>, coms: seq<FwmTerm>)
  {
    (forall m :: 0 <= m < |coms| ==> WellFormed(fc, fs, coms[m]))
    && (forall m, m' :: 0 <= m < m' < |coms| ==> !Matches(coms[m'], coms[m].fi, coms[m].fj, coms[m].fk))
  }

  lemma CandidateSound(fc: int, fs: seq<int>, i: nat, j: nat, k: nat)
    requires i < |fs| && j < |fs| && k < |fs|
    ensures Candidate(fc, fs, i, j, k).Some? ==> WellFormed(fc, fs, Candidate(fc, fs, i, j, k).value)
  {
  }

  lemma AddTermGood(fc: int, fs: seq<int>, coms: seq<FwmTerm>, o: Option<FwmTerm>)
    requires Good(fc, fs, coms)
    requires o.Some? ==> WellFormed(fc, fs, o.value)
    ensures Good(fc, fs, AddTerm(coms, o))
  {
    if o.Some? && !HasKey(coms, o.value.fi, o.value.fj, o.value.fk) {
      var r := coms + [o.value];
      forall m, m' | 0 <= m < m' < |r| ensures !Matches(r[m'], r[m].fi, r[m].fj, r[m].fk) {
        if m' == |coms| {
          assert !Matches(coms[m], o.value.fi, o.value.fj, o.value.fk);
        }
      }
    }
  }

  lemma {:induction false} ScanKGood(fc: int, fs: seq<int>, i: nat, j: nat, k: nat, acc: seq<FwmTerm>)
    requires i < |fs| && j < |fs| && k <= |fs|
    requires Good(fc, fs, acc)
    ensures Good(fc, fs, ScanK(fc, fs, i, j, k, acc))
  {
    if k > 0 {
      ScanKGood(fc, fs, i, j, k - 1, acc);
      CandidateSound(fc, fs, i, j, k - 1);
      AddTermGood(fc, fs, ScanK(fc, fs, i, j, k - 1, acc), Candidate(fc, fs, i, j, k - 1));
    }
  }

  lemma {:induction false} ScanJGood(fc: int, fs: seq<int>, i: nat, j: nat, acc: seq<FwmTerm>)
    requires i < |fs| && j <= |fs|
    requires Good(fc, fs, acc)
    ensures Good(fc, fs, ScanJ(fc, fs, i, j, acc))
  {
    if j > 0 {
      ScanJGood(fc, fs, i, j - 1, acc);
      ScanKGood(fc, fs, i, j - 1, |fs|, ScanJ(fc, fs, i, j - 1, acc));
    }
  }

  lemma {:induction false} ScanIGood(fc: int, fs: seq<int>, i: nat)
    requires i <= |fs|
    ensures Good(fc, fs, ScanI(fc, fs, i))
  {
    if i > 0 {
      ScanIGood(fc, fs, i - 1);
      ScanJGood(fc, fs, i - 1, |fs|, ScanI(fc, fs, i - 1));
    }
  }

  /** Every entry `wave_combines` records is a genuine mixing term with fi
      and fj sorted and a degeneracy of 3 or 6, and no triple is recorded
      twice. */
  lemma WaveCombinesSound(fc: int, fs: seq<int>)
    ensures Good(fc, fs, ScanI(fc, fs, |fs|))
  {
    ScanIGood(fc, fs, |fs|);
  }

  predicate IsPrefix(a: seq<FwmTerm>, b: seq<FwmTerm>)
  {
    |a| <= |b| && b[..|a|] == a
  }

  lemma PrefixHasKey(a: seq<FwmTerm>, b: seq<FwmTerm>, fi: int, fj: int, fk: int)
    requires IsPrefix(a, b) && HasKey(a, fi, fj, fk)
    ensures HasKey(b, fi, fj, fk)
  {
    var m :| 0 <= m < |a| && Matches(a[m], fi, fj, fk);
    assert b[m] == a[m];
  }

  lemma {:induction false} ScanKGrows(fc: int, fs: seq<int>, i: nat, j: nat, k: nat, k': nat, acc: seq<FwmTerm>)
    requires i < |fs| && j < |fs| && k <= k' <= |fs|
    ensures IsPrefix(ScanK(fc, fs, i, j, k, acc), ScanK(fc, fs, i, j, k', acc))
    decreases k'
  {
    if k < k' {
      ScanKGrows(fc, fs, i, j, k, k' - 1, acc);
      var before := ScanK(fc, fs, i, j, k' - 1, acc);
      assert IsPrefix(before, AddTerm(before, Candidate(fc, fs, i, j, k' - 1)));
    }
  }

  lemma {:induction false} ScanKExtends(fc: int, fs: seq<int>, i: nat, j: nat, acc: seq<FwmTerm>)
    requires i < |fs| && j < |fs|
    ensures IsPrefix(acc, ScanK(fc, fs, i, j, |fs|, acc))
  {
    ScanKGrows(fc, fs, i, j, 0, |fs|, acc);
  }

  lemma {:induction false} ScanJGrows(fc: int, fs: seq<int>, i: nat, j: nat, j': nat, acc: seq<FwmTerm>)
    requires i < |fs| && j <= j' <= |fs|
    ensures IsPrefix(ScanJ(fc, fs, i, j, acc), ScanJ(fc, fs, i, j', acc))
    decreases j'
  {
    if j < j' {
      ScanJGrows(fc, fs, i, j, j' - 1, acc);
      ScanKExtends(fc, fs, i, j' - 1, ScanJ(fc, fs, i, j' - 1, acc));
    }
  }

  lemma {:induction false} ScanIGrows(fc: int, fs: seq<int>, i: nat, i': nat)
    requires i <= i' <= |fs|
    ensures IsPrefix(ScanI(fc, fs, i), ScanI(fc, fs, i'))
    decreases i'
  {
    if i < i' {
      ScanIGrows(fc, fs, i, i' - 1);
      ScanJGrows(fc, fs, i' - 1, 0, |fs|, ScanI(fc, fs, i' - 1));
    }
  }

  /** Every mixing term on `fc` is found: for channels a <= b and c
      distinct from both with fs[a] + fs[b] - fs[c] == fc, the triple
      (a, b, c) is recorded (it is the first sign pattern of the
      iteration (c, a, b)). */
  lemma WaveCombinesComplete(fc: int, fs: seq<int>, a: nat, b: nat, c: nat)
    requires a <= b < |fs| && c < |fs| && c != a && c != b
    requires fs[a] + fs[b] - fs[c] == fc
    ensures HasKey(ScanI(fc, fs, |fs|), a, b, c)
  {
    var atJ := ScanJ(fc, fs, c, a, ScanI(fc, fs, c));
    var before := ScanK(fc, fs, c, a, b, atJ);
    var t := Candidate(fc, fs, c, a, b).value;
    assert Matches(t, a, b, c);
    var after := ScanK(fc, fs, c, a, b + 1, atJ);
    assert HasKey(after, a, b, c) by {
      if !HasKey(before, a, b, c) {
        assert after[|before|] == t;
      }
    }
    ScanKGrows(fc, fs, c, a, b + 1, |fs|, atJ);
    PrefixHasKey(after, ScanK(fc, fs, c, a, |fs|, atJ), a, b, c);
    ScanJGrows(fc, fs, c, a + 1, |fs|, ScanI(fc, fs, c));
    PrefixHasKey(ScanJ(fc, fs, c, a + 1, ScanI(fc, fs, c)), ScanI(fc, fs, c + 1), a, b, c);
    ScanIGrows(fc, fs, c + 1, |fs|);
    PrefixHasKey(ScanI(fc, fs, c + 1), ScanI(fc, fs, |fs|), a, b, c);
  }
}
