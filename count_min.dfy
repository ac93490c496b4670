/** The Count-Min sketch of count_min.py: N hash generators of modulus K and
    dimension D, and an N x K grid of counters. Processing a stream adds one
    to cell (i, h_i(v)) for every item v and every row i; the estimate for
    a value is the least of the N cells it addresses. */
module CountMinSketch {

  import opened Wrappers
  import opened Hashing

  // ---------------------------------------------------------------------
  // Specification: grids as sequences of rows, and what processing does

  /** g has n rows of w counters each. */
  ghost predicate IsGrid(g: seq<seq<int>>, n: nat, w: nat)
  {
    |g| == n && forall i :: 0 <= i < n ==> |g[i]| == w
  }

  /** Every counter of g is at least zero. */
  ghost predicate NonNegative(g: seq<seq<int>>)
  {
    forall i, b :: 0 <= i < |g| && 0 <= b < |g[i]| ==> g[i][b] >= 0
  }

  /** The freshly built grid: n rows of w zeros. */
  function Zero(n: nat, w: nat): (g: seq<seq<int>>)
    ensures IsGrid(g, n, w) && NonNegative(g)
    ensures forall i, b :: 0 <= i < n && 0 <= b < w ==> g[i][b] == 0
  {
    seq(n, _ => seq(w, _ => 0))
  }

  /** The number of occurrences of v in stream. */
  function Occurrences(stream: seq<string>, v: string): nat
  {
    if stream == [] then 0
    else Occurrences(stream[..|stream| - 1], v) + (if stream[|stream| - 1] == v then 1 else 0)
  }

  /** The number of items of stream that the hash with coefficients z,
      modulus w and dimension d sends to bucket b. */
  function Hits(z: seq<int>, w: nat, d: nat, stream: seq<string>, b: int): nat
    requires w > 0
  {
    if stream == [] then 0
    else Hits(z, w, d, stream[..|stream| - 1], b)
         + (if HashValue(z, w, d, stream[|stream| - 1]) == b then 1 else 0)
  }

  /** The grid after processing stream from g: every cell (i, b) has grown
      by the number of items that row i's hash sends to b. */
  function Ingest(g: seq<seq<int>>, zs: seq<seq<int>>, w: nat, d: nat, stream: seq<string>): (g': seq<seq<int>>)
    requires w > 0 && IsGrid(g, |zs|, w)
    ensures IsGrid(g', |zs|, w)
  {
    seq(|zs|, i requires 0 <= i < |zs| =>
      seq(w, b requires 0 <= b < w => g[i][b] + Hits(zs[i], w, d, stream, b)))
  }

  /** The least element of a non-empty sequence (Python's `min`). */
  function Min(s: seq<int>): (m: int)
    requires |s| > 0
    ensures forall i :: 0 <= i < |s| ==> m <= s[i]
    ensures exists i :: 0 <= i < |s| && m == s[i]
  {
    if |s| == 1 then s[0]
    else
      var m' := Min(s[..|s| - 1]);
      assert forall i :: 0 <= i < |s| - 1 ==> s[..|s| - 1][i] == s[i];
      if s[|s| - 1] < m' then s[|s| - 1] else m'
  }

  /** The counters that v addresses, one per row. */
  function Addressed(g: seq<seq<int>>, zs: seq<seq<int>>, w: nat, d: nat, v: string): (cells: seq<int>)
    requires w > 0 && IsGrid(g, |zs|, w)
    ensures |cells| == |zs|
  {
    seq(|zs|, i requires 0 <= i < |zs| => g[i][HashValue(zs[i], w, d, v)])
  }

  /** The Count-Min estimate of v: the least counter v addresses. */
  function Estimate(g: seq<seq<int>>, zs: seq<seq<int>>, w: nat, d: nat, v: string): (r: int)
    requires w > 0 && |zs| > 0 && IsGrid(g, |zs|, w)
  {
    Min(Addressed(g, zs, w, d, v))
  }

  /** The estimate is a counter that v addresses in some row, and no row
      addresses a smaller one. */
  lemma EstimateIsLeastAddressed(g: seq<seq<int>>, zs: seq<seq<int>>, w: nat, d: nat, v: string)
    requires w > 0 && |zs| > 0 && IsGrid(g, |zs|, w)
    ensures forall i :: 0 <= i < |zs| ==> Estimate(g, zs, w, d, v) <= g[i][HashValue(zs[i], w, d, v)]
    ensures exists i :: 0 <= i < |zs| && Estimate(g, zs, w, d, v) == g[i][HashValue(zs[i], w, d, v)]
  {
    var cells := Addressed(g, zs, w, d, v);
    assert forall i :: 0 <= i < |zs| ==> cells[i] == g[i][HashValue(zs[i], w, d, v)];
    var j :| 0 <= j < |cells| && cells[j] == Min(cells);
  }

  /** The sum of a row of counters. */
  function Sum(row: seq<int>): int
  {
    if row == [] then 0 else Sum(row[..|row| - 1]) + row[|row| - 1]
  }

  // ---------------------------------------------------------------------
  // Properties of the specification

  /** Every occurrence of v lands in the bucket v hashes to. */
  lemma {:induction false} HitsCoverOccurrences(z: seq<int>, w: nat, d: nat, stream: seq<string>, v: string)
    requires w > 0
    ensures Hits(z, w, d, stream, HashValue(z, w, d, v)) >= Occurrences(stream, v)
    decreases |stream|
  {
    if stream != [] {
      HitsCoverOccurrences(z, w, d, stream[..|stream| - 1], v);
    }
  }

  /** Hits over a concatenation is the sum of the hits over the parts. */
  lemma {:induction false} HitsConcat(z: seq<int>, w: nat, d: nat, s1: seq<string>, s2: seq<string>, b: int)
    requires w > 0
    ensures Hits(z, w, d, s1 + s2, b) == Hits(z, w, d, s1, b) + Hits(z, w, d, s2, b)
    decreases |s2|
  {
    if s2 == [] {
      assert s1 + s2 == s1;
    } else {
      assert (s1 + s2)[..|s1 + s2| - 1] == s1 + s2[..|s2| - 1];
      HitsConcat(z, w, d, s1, s2[..|s2| - 1], b);
    }
  }

  /** With a single bucket every item is a hit. */
  lemma {:induction false} HitsSingleBucket(z: seq<int>, d: nat, stream: seq<string>)
    ensures Hits(z, 1, d, stream, 0) == |stream|
    decreases |stream|
  {
    if stream != [] {
      HitsSingleBucket(z, d, stream[..|stream| - 1]);
    }
  }

  /** Two grids of the same shape with the same counters are equal. */
  lemma GridEquality(a: seq<seq<int>>, b: seq<seq<int>>, n: nat, w: nat)
    requires IsGrid(a, n, w) && IsGrid(b, n, w)
    requires forall i, c :: 0 <= i < n && 0 <= c < w ==> a[i][c] == b[i][c]
    ensures a == b
  {
    forall i | 0 <= i < n ensures a[i] == b[i] {
      assert forall c :: 0 <= c < w ==> a[i][c] == b[i][c];
    }
  }

  /** Processing the empty stream changes nothing. */
  lemma IngestNothing(g: seq<seq<int>>, zs: seq<seq<int>>, w: nat, d: nat)
    requires w > 0 && IsGrid(g, |zs|, w)
    ensures Ingest(g, zs, w, d, []) == g
  {
    GridEquality(Ingest(g, zs, w, d, []), g, |zs|, w);
  }

  /** Processing two streams one after the other is processing their
      concatenation. */
  lemma IngestConcat(g: seq<seq<int>>, zs: seq<seq<int>>, w: nat, d: nat, s1: seq<string>, s2: seq<string>)
    requires w > 0 && IsGrid(g, |zs|, w)
    ensures Ingest(Ingest(g, zs, w, d, s1), zs, w, d, s2) == Ingest(g, zs, w, d, s1 + s2)
  {
    forall i, b | 0 <= i < |zs| && 0 <= b < w
      ensures Ingest(Ingest(g, zs, w, d, s1), zs, w, d, s2)[i][b] == Ingest(g, zs, w, d, s1 + s2)[i][b]
    {
      HitsConcat(zs[i], w, d, s1, s2, b);
    }
    GridEquality(Ingest(Ingest(g, zs, w, d, s1), zs, w, d, s2), Ingest(g, zs, w, d, s1 + s2), |zs|, w);
  }

  /** Processing never decreases a counter, and so never decreases an
      estimate. */
  lemma IngestMonotone(g: seq<seq<int>>, zs: seq<seq<int>>, w: nat, d: nat, stream: seq<string>, v: string)
    requires w > 0 && |zs| > 0 && IsGrid(g, |zs|, w)
    ensures forall i, b :: 0 <= i < |zs| && 0 <= b < w ==> Ingest(g, zs, w, d, stream)[i][b] >= g[i][b]
    ensures Estimate(Ingest(g, zs, w, d, stream), zs, w, d, v) >= Estimate(g, zs, w, d, v)
  {
    var after := Addressed(Ingest(g, zs, w, d, stream), zs, w, d, v);
    var before := Addressed(g, zs, w, d, v);
    MinPointwise(before, after);
  }

  lemma {:induction false} MinPointwise(lo: seq<int>, hi: seq<int>)
    requires |lo| == |hi| > 0
    requires forall i :: 0 <= i < |lo| ==> lo[i] <= hi[i]
    ensures Min(lo) <= Min(hi)
  {
  }

  /** A fresh sketch estimates 0 for every value. */
  lemma FreshEstimate(n: nat, zs: seq<seq<int>>, w: nat, d: nat, v: string)
    requires w > 0 && n == |zs| > 0
    ensures Estimate(Zero(n, w), zs, w, d, v) == 0
  {
  }

  /** The one-sided guarantee: after processing stream from a grid with no
      negative counter (in particular the fresh one), the estimate of v is
      never negative and never below the number of occurrences of v. */
  lemma NoUnderestimation(g: seq<seq<int>>, zs: seq<seq<int>>, w: nat, d: nat, stream: seq<string>, v: string)
    requires w > 0 && |zs| > 0 && IsGrid(g, |zs|, w) && NonNegative(g)
    ensures Estimate(Ingest(g, zs, w, d, stream), zs, w, d, v) >= Occurrences(stream, v) >= 0
  {
    var cells := Addressed(Ingest(g, zs, w, d, stream), zs, w, d, v);
    var i :| 0 <= i < |cells| && Min(cells) == cells[i];
    HitsCoverOccurrences(zs[i], w, d, stream, v);
  }

  /** With one row and one bucket every estimate is the number of items
      processed so far. */
  lemma SingleCellEstimate(zs: seq<seq<int>>, d: nat, stream: seq<string>, v: string)
    requires |zs| == 1
    ensures Estimate(Ingest(Zero(1, 1), zs, 1, d, stream), zs, 1, d, v) == |stream|
  {
    HitsSingleBucket(zs[0], d, stream);
    assert Addressed(Ingest(Zero(1, 1), zs, 1, d, stream), zs, 1, d, v) == [|stream|];
  }

  lemma {:induction false} SumIncrement(row: seq<int>, b: nat)
    requires b < |row|
    ensures Sum(row[b := row[b] + 1]) == Sum(row) + 1
    decreases |row|
  {
    var row' := row[b := row[b] + 1];
    if b < |row| - 1 {
      assert row'[..|row| - 1] == row[..|row| - 1][b := row[b] + 1];
      SumIncrement(row[..|row| - 1], b);
    } else {
      assert row'[..|row| - 1] == row[..|row| - 1];
    }
  }

  /** Processing one more item adds one to exactly one cell of each row:
      the cell that row's hash sends the last item to. */
  lemma IngestStep(g: seq<seq<int>>, zs: seq<seq<int>>, w: nat, d: nat, stream: seq<string>, i: nat)
    requires w > 0 && IsGrid(g, |zs|, w) && i < |zs| && stream != []
    ensures var h := HashValue(zs[i], w, d, stream[|stream| - 1]);
      var before := Ingest(g, zs, w, d, stream[..|stream| - 1])[i];
      Ingest(g, zs, w, d, stream)[i] == before[h := before[h] + 1]
  {
  }

  /** Every row's total grows by the length of the stream. */
  lemma {:induction false} RowTotal(g: seq<seq<int>>, zs: seq<seq<int>>, w: nat, d: nat, stream: seq<string>, i: nat)
    requires w > 0 && IsGrid(g, |zs|, w) && i < |zs|
    ensures Sum(Ingest(g, zs, w, d, stream)[i]) == Sum(g[i]) + |stream|
    decreases |stream|
  {
    if stream == [] {
      IngestNothing(g, zs, w, d);
    } else {
      var s := stream[..|stream| - 1];
      var before := Ingest(g, zs, w, d, s)[i];
      var h := HashValue(zs[i], w, d, stream[|stream| - 1]);
      IngestStep(g, zs, w, d, stream, i);
      SumIncrement(before, h);
      RowTotal(g, zs, w, d, s, i);
      assert Sum(Ingest(g, zs, w, d, stream)[i]) == Sum(before) + 1;
    }
  }

  /** If every counter holds the hits of `before`, then after processing
      `stream` every counter holds the hits of `before + stream`. */
  lemma IngestCountsHits(g: seq<seq<int>>, zs: seq<seq<int>>, w: nat, d: nat, before: seq<string>, stream: seq<string>)
    requires w > 0 && IsGrid(g, |zs|, w)
    requires forall i, b :: 0 <= i < |zs| && 0 <= b < w ==> g[i][b] == Hits(zs[i], w, d, before, b)
    ensures forall i, b :: 0 <= i < |zs| && 0 <= b < w ==>
      Ingest(g, zs, w, d, stream)[i][b] == Hits(zs[i], w, d, before + stream, b)
  {
    forall i, b | 0 <= i < |zs| && 0 <= b < w {
      HitsConcat(zs[i], w, d, before, stream, b);
    }
  }

  /** The least of the first i + 1 elements, from the least of the first i. */
  lemma MinPrefix(s: seq<int>, i: nat)
    requires i < |s|
    ensures Min(s[..i + 1]) == if i == 0 then s[0] else if s[i] < Min(s[..i]) then s[i] else Min(s[..i])
  {
    assert s[..i + 1][..i] == s[..i];
  }

  // ---------------------------------------------------------------------
  // The sketch object

  /** The coefficient sequences of a list of generated hash functions. */
  ghost function CoeffsOf(gs: seq<HashGenerator>): (zs: seq<seq<int>>)
    reads gs
    requires forall i :: 0 <= i < |gs| ==> gs[i].z.Some?
    ensures |zs| == |gs| && forall i :: 0 <= i < |gs| ==> zs[i] == gs[i].z.value
  {
    if gs == [] then [] else CoeffsOf(gs[..|gs| - 1]) + [gs[|gs| - 1].z.value]
  }

  class CountMin {
    const D: nat
    const K: nat
    const N: nat
    const hashGenerators: seq<HashGenerator>
    const sketch: array2<int>
    /** The result of the last GetFreq, absent before the first one. */
    var frequencies: Option<map<string, int>>
    /** Every item processed so far, in order. */
    ghost var ingested: seq<string>

    /** N generated hash functions of modulus K and dimension D, and an
        N x K grid. */
    ghost predicate WellFormed()
      reads hashGenerators
    {
      K > 0 && |hashGenerators| == N &&
      sketch.Length0 == N && sketch.Length1 == K &&
      forall i :: 0 <= i < N ==>
        hashGenerators[i].p == K && hashGenerators[i].k == D && hashGenerators[i].Generated()
    }

    /** The object invariant: every counter (i, b) holds the number of
        items ingested so far that row i's hash sends to bucket b, so the
        grid is the zero grid after processing them (see IngestedGrid). */
    ghost predicate Valid()
      reads this`ingested, hashGenerators, sketch
    {
      WellFormed() &&
      forall i, b :: 0 <= i < N && 0 <= b < K ==> sketch[i, b] == Hits(Coeffs()[i], K, D, ingested, b)
    }

    /** The coefficients of every row's hash function. */
    ghost function Coeffs(): (zs: seq<seq<int>>)
      reads hashGenerators
      requires WellFormed()
      ensures |zs| == N
    {
      CoeffsOf(hashGenerators)
    }

    /** The counters, row by row. */
    ghost function Grid(): (g: seq<seq<int>>)
      reads sketch
      ensures IsGrid(g, sketch.Length0, sketch.Length1)
      ensures forall i, b :: 0 <= i < sketch.Length0 && 0 <= b < sketch.Length1 ==> g[i][b] == sketch[i, b]
    {
      seq(sketch.Length0, i requires 0 <= i < sketch.Length0 reads sketch =>
        seq(sketch.Length1, b requires 0 <= b < sketch.Length1 reads sketch => sketch[i, b]))
    }

    /** Builds N generators of modulus K and dimension D, generates each
        one's coefficients (row i's random draws are `draws[i]`), and
        allocates an N x K grid of zeros. */
    constructor (D: nat, K: nat, N: nat, draws: seq<seq<int>>)
      requires K > 0
      requires |draws| == N
      requires forall i :: 0 <= i < N ==> |draws[i]| == D && forall c :: c in draws[i] ==> 0 <= c < K
      ensures Valid()
      ensures this.D == D && this.K == K && this.N == N
      ensures Coeffs() == draws
      ensures Grid() == Zero(N, K) && ingested == []
      ensures frequencies == None
      ensures fresh(sketch) && forall i :: 0 <= i < N ==> fresh(hashGenerators[i])
    {
      this.D, this.K, this.N := D, K, N;
      var gens: seq<HashGenerator> := [];
      while |gens| < N
        invariant |gens| <= N
        invariant forall i :: 0 <= i < |gens| ==> fresh(gens[i]) && gens[i].p == K && gens[i].k == D
        invariant forall i, j :: 0 <= i < j < |gens| ==> gens[i] != gens[j]
      {
        var hg := new HashGenerator(K, D);
        gens := gens + [hg];
      }
      for i := 0 to N
        invariant forall j :: 0 <= j < N ==> fresh(gens[j]) && gens[j].p == K && gens[j].k == D
        invariant forall j, l :: 0 <= j < l < N ==> gens[j] != gens[l]
        invariant forall j :: 0 <= j < i ==> gens[j].z == Some(draws[j]) && gens[j].Generated()
      {
        var _ := gens[i].GenerateHashFunction(draws[i]);
      }
      hashGenerators := gens;
      sketch := new int[N, K]((_, _) => 0);
      frequencies := None;
      ingested := [];
      new;
      GridEquality(Grid(), Zero(N, K), N, K);
    }

    /** Adds one to cell (i, h_i(v)) for every item v of stream and every
        row i; the grid afterwards is Ingest of the grid before. */
    method ProcessStream(stream: seq<string>)
      requires Valid()
      modifies this`ingested, sketch
      ensures Valid()
      ensures Grid() == Ingest(old(Grid()), Coeffs(), K, D, stream)
      ensures ingested == old(ingested) + stream
    {
      ghost var zs := Coeffs();
      for j := 0 to |stream|
        invariant ingested == old(ingested) && Coeffs() == zs
        invariant forall r, b :: 0 <= r < N && 0 <= b < K ==>
          sketch[r, b] == old(sketch[r, b]) + Hits(zs[r], K, D, stream[..j], b)
      {
        AddItem(stream[j]);
        assert stream[..j + 1][..j] == stream[..j];
      }
      assert stream[..|stream|] == stream;
      GridEquality(Grid(), Ingest(old(Grid()), zs, K, D, stream), N, K);
      IngestCountsHits(old(Grid()), zs, K, D, ingested, stream);
      ingested := ingested + stream;
    }

    /** The body of the loop over the stream: for every row i, add one to
        the cell that row i's hash sends value to. */
    method AddItem(value: string)
      requires WellFormed()
      modifies sketch
      ensures forall r, b :: 0 <= r < N && 0 <= b < K ==>
        sketch[r, b] == old(sketch[r, b]) + (if HashValue(Coeffs()[r], K, D, value) == b then 1 else 0)
    {
      for i := 0 to N
        invariant forall r, b :: 0 <= r < N && 0 <= b < K ==>
          sketch[r, b] == old(sketch[r, b]) + (if r < i && HashValue(Coeffs()[r], K, D, value) == b then 1 else 0)
      {
        AddressedCell(this, value, i);
        var bucket := hashGenerators[i].Hash(value);
        sketch[i, bucket] := sketch[i, bucket] + 1;
      }
    }

    /** The least of the N counters that v addresses (the `min` over rows
        of get_freq). */
    method MinAddressed(v: string) returns (m: int)
      requires WellFormed() && N > 0
      ensures m == Estimate(Grid(), Coeffs(), K, D, v)
    {
      ghost var cells := Addressed(Grid(), Coeffs(), K, D, v);
      AddressedCell(this, v, 0);
      m := sketch[0, hashGenerators[0].Hash(v)];
      MinPrefix(cells, 0);
      for i := 1 to N
        invariant m == Min(cells[..i])
      {
        AddressedCell(this, v, i);
        var c := sketch[i, hashGenerators[i].Hash(v)];
        MinPrefix(cells, i);
        if c < m {
          m := c;
        }
      }
      assert cells[..N] == cells;
    }

    /** Maps every distinct element of values to its estimate, and keeps the
        map in `frequencies`. With N == 0 Python's `min` of an empty list
        raises, so values must then be empty. */
    method GetFreq(values: seq<string>) returns (freq: map<string, int>)
      requires Valid() && (N > 0 || values == [])
      modifies this`frequencies
      ensures Valid() && Grid() == old(Grid())
      ensures frequencies == Some(freq)
      ensures freq.Keys == set v | v in values
      ensures N > 0 ==> forall v :: v in freq ==> freq[v] == Estimate(Grid(), Coeffs(), K, D, v)
      ensures forall v :: v in freq ==> freq[v] >= Occurrences(ingested, v)
    {
      freq := map[];
      for idx := 0 to |values|
        invariant forall v :: v in freq <==> v in values[..idx]
        invariant N > 0 ==> forall v :: v in freq ==> freq[v] == Estimate(Grid(), Coeffs(), K, D, v)
        invariant forall v :: v in freq ==> freq[v] >= Occurrences(ingested, v)
      {
        var value := values[idx];
        assert values[..idx + 1] == values[..idx] + [value];
        if value !in freq {
          var m := MinAddressed(value);
          EstimateBoundsOccurrences(this, value);
          freq := freq[value := m];
        }
      }
      assert values[..|values|] == values;
      assert freq.Keys == set v | v in values;
      label done:
      frequencies := Some(freq);
      OnlyFrequenciesChanged@done(this);
    }
  }

  /** Assigning the last query result changes neither the grid, nor the
      hash functions, nor what was ingested. */
  twostate lemma OnlyFrequenciesChanged(cm: CountMin)
    requires old(cm.WellFormed()) && unchanged(cm`ingested, cm.sketch)
    requires forall i :: 0 <= i < |cm.hashGenerators| ==> unchanged(cm.hashGenerators[i])
    ensures cm.WellFormed() && cm.Grid() == old(cm.Grid()) && cm.Coeffs() == old(cm.Coeffs())
    ensures cm.ingested == old(cm.ingested) && cm.Valid() == old(cm.Valid())
  {
  }

  /** A valid sketch's grid is the zero grid after processing everything
      ingested so far. */
  lemma IngestedGrid(cm: CountMin)
    requires cm.Valid()
    ensures cm.Grid() == Ingest(Zero(cm.N, cm.K), cm.Coeffs(), cm.K, cm.D, cm.ingested)
  {
    GridEquality(cm.Grid(), Ingest(Zero(cm.N, cm.K), cm.Coeffs(), cm.K, cm.D, cm.ingested), cm.N, cm.K);
  }

  /** A valid sketch never estimates fewer occurrences of v than were
      ingested. */
  lemma EstimateBoundsOccurrences(cm: CountMin, v: string)
    requires cm.Valid() && cm.N > 0
    ensures Estimate(cm.Grid(), cm.Coeffs(), cm.K, cm.D, v) >= Occurrences(cm.ingested, v)
  {
    IngestedGrid(cm);
    NoUnderestimation(Zero(cm.N, cm.K), cm.Coeffs(), cm.K, cm.D, cm.ingested, v);
  }

  /** The cell of row i that v addresses, read through the row's generator. */
  lemma AddressedCell(cm: CountMin, v: string, i: nat)
    requires cm.WellFormed() && i < cm.N
    ensures cm.hashGenerators[i].Hash(v) == HashValue(cm.Coeffs()[i], cm.K, cm.D, v)
    ensures Addressed(cm.Grid(), cm.Coeffs(), cm.K, cm.D, v)[i] == cm.sketch[i, cm.hashGenerators[i].Hash(v)]
  {
  }
}
