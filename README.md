# Count-Min sketch over fixed-length string keys

This project models the algorithmic core of a Count-Min sketch written in
Python, and proves properties of it in Dafny.

- `hash_generator.dfy` (module `Hashing`) models `HashGenerator`, a linear
  hash over keys embedded in ℤ^k. A key is right-padded with spaces to
  length `k`. Each character becomes its code point (`ord`). Only the first
  `k` codes are kept. The hash is the dot product with `k` coefficients
  `z`, taken modulo `p`. The pure hash is `HashValue(z, p, k, s)`. The
  class `HashGenerator` holds `p`, `k` and the coefficients, and its
  `Hash` function calls `HashValue`. The random draw of the coefficients
  is the parameter `draws` of `GenerateHashFunction`. Each draw must lie
  in `[0, p)`.
- `count_min.dfy` (module `CountMinSketch`) models `CountMin`. The class
  has `N` generators of modulus `K` and dimension `D`. Its counters are an
  `N × K` `array2<int>`, and its last query result is the field
  `frequencies`. `ProcessStream` and `GetFreq` are loops over that state.
  Each one is proved against specification functions on sequences:
  - `Hits` counts the stream items that a row's hash sends to a bucket;
  - `Ingest` is the grid after processing a stream;
  - `Estimate` is the least counter a value addresses;
  - `Occurrences` is the true count.
  The lemmas about these functions state the sketch's guarantees.
- `wrappers.dfy` holds `Option`. Python creates `self.z` and
  `self.frequencies` only on first assignment, and `None` stands for
  "not yet created".

The class keeps a ghost record `ingested` of every item processed so far.
Its invariant `Valid()` says that every counter `(i, b)` holds the number
of ingested items that row `i` hashes to bucket `b`. So the grid is always
the zero grid after processing `ingested`, and `GetFreq` never reports
fewer occurrences than were ingested.

Determinism needs no lemma. `HashValue` and `HashGenerator.Hash` are
functions, so equal strings with the same stored coefficients always hash
equally.

## Model

| member | source | states |
|---|---|---|
| Hashing.HashGenerator.constructor | hash_generator.py:6-23 | stores `p` and `k` unchanged; no coefficients exist yet (`z == None`) |
| Hashing.HashGenerator.GenerateHashFunction | hash_generator.py:25-33 | stores and returns the draws as `z`: exactly `k` coefficients, each in `[0, p)`; `p` and `k` unchanged; with `k > 0` and `p <= 0` no draw exists, so no call is possible |
| Hashing.HashGenerator.Hash | hash_generator.py:35-49 | for `p > 0` and generated coefficients, the hash lies in `[0, p)` |
| Hashing.HashValue | hash_generator.py:46-49 | pad, then code points, then the first `k`, then the dot product modulo `p`; always in `[0, p)` |
| Hashing.Pad | hash_generator.py:46 | `ljust`: keeps `s` as a prefix; the length is `max(|s|, k)`; every added character is a space |
| Hashing.Key | hash_generator.py:46-49 | the key the hash reads has length `k`: `s[i]` where `i < |s|`, a space elsewhere |
| Hashing.Embed | hash_generator.py:47 | `[ord(ch) for ch in s]`: one code per character, `e[i]` is the code point of `s[i]` |
| Hashing.Dot | hash_generator.py:49 | the zip-based `sum(map(...))`: an empty side gives 0; non-negative coefficients and codes give a non-negative sum |
| Hashing.HashIsWeightedSum | hash_generator.py:46-49 | the hash equals `(Σ_{i < min(|z|,k)} z[i]·ord(key[i])) mod p`, an index-by-index reference sum over the padded key |
| Hashing.DotIsWeightedSum | hash_generator.py:49 | the zip-based `sum(map(...))` equals the index-wise weighted sum over the first `min(|z|, |t|)` positions |
| Hashing.HashDependsOnlyOnKey | hash_generator.py:46-49 | two strings with the same padded, truncated key hash alike |
| Hashing.Truncation | hash_generator.py:46-49 | strings that share their first `k` characters hash identically |
| Hashing.Padding | hash_generator.py:46 | a string shorter than `k` hashes like itself explicitly padded with spaces to length `k`; every string hashes like its own key |
| CountMinSketch.CountMin.constructor | count_min.py:6-28 | keeps `D`, `K`, `N`; there are `N` fresh generators, each with `p = K`, `k = D` and `D` coefficients in `[0, K)` (row `i`'s are `draws[i]`); the grid is `N` rows of `K` zeros, nothing is ingested yet, and `Valid()` holds |
| CountMinSketch.CountMin.ProcessStream | count_min.py:30-43 | the grid becomes `Ingest` of the old grid: each cell `(i, b)` grows by exactly the number of stream items with `h_i(v) = b`, and nothing else changes; every bucket index used is in `[0, K)`; the grid's shape and the generators are unchanged; the stream is appended to `ingested` and `Valid()` is kept |
| CountMinSketch.CountMin.AddItem | count_min.py:41-43 | one pass of the inner loop: for every row `i`, the cell `(i, h_i(v))` grows by one and every other cell is unchanged |
| CountMinSketch.CountMin.MinAddressed | count_min.py:61-62 | the loop's result is the least counter that `v` addresses over all rows, i.e. `Estimate` of the current grid |
| CountMinSketch.CountMin.GetFreq | count_min.py:45-64 | the keys are exactly the distinct elements of `values`; each maps to `min_i sketch[i][h_i(v)]`, which is at least the number of times `v` was ingested; the map is kept in `frequencies`; the grid and `Valid()` are kept |
| CountMinSketch.Addressed | count_min.py:61 | the list comprehension `[sketch[i][h_i(v)] for i in range(N)]` has one cell per row |
| CountMinSketch.EstimateIsLeastAddressed | count_min.py:61-62 | the estimate is the counter `v` addresses in some row, and no row's addressed counter is smaller |
| CountMinSketch.AddressedCell | count_min.py:61 | row `i`'s generator hashes `v` with row `i`'s coefficients, and the addressed cell of row `i` is `sketch[i][hash_generators[i].hash(v)]` |
| CountMinSketch.IngestCountsHits | count_min.py:40-43 | if every counter holds the hits of the items processed before, then after a stream every counter holds the hits of the items before followed by the stream |
| CountMinSketch.IngestedGrid | count_min.py:28-43 | a valid sketch's grid is the zero grid after processing every item ingested so far |
| CountMinSketch.EstimateBoundsOccurrences | count_min.py:28-62 | a valid sketch's estimate of `v` is at least the number of times `v` was ingested |
| CountMinSketch.Min | count_min.py:61-62 | Python's `min`: the result is one of the elements and no element is smaller |
| CountMinSketch.Zero | count_min.py:28 | `N` rows of `K` counters, all zero |
| CountMinSketch.Ingest | count_min.py:40-43 | the processed grid keeps the `N × K` shape |
| CountMinSketch.HitsCoverOccurrences | count_min.py:40-43 | every occurrence of `v` lands in the bucket that `v` hashes to, so that bucket's hits are at least the occurrences of `v` |
| CountMinSketch.HitsConcat | count_min.py:40-43 | the hits of a concatenated stream are the sum of the hits of its parts |
| CountMinSketch.HitsSingleBucket | count_min.py:40-43 | with `K = 1`, every item hits bucket 0 |
| CountMinSketch.IngestNothing | count_min.py:40-43 | processing an empty stream leaves the grid as it was |
| CountMinSketch.IngestConcat | count_min.py:40-43 | processing `s1` and then `s2` gives the same grid as processing `s1 + s2` |
| CountMinSketch.IngestStep | count_min.py:40-43 | one more item adds one to exactly one cell of each row: the cell that row's hash picks |
| CountMinSketch.IngestMonotone | count_min.py:40-43 | processing never decreases a counter, and so never decreases an estimate |
| CountMinSketch.RowTotal | count_min.py:40-43 | every row's total grows by exactly `len(stream)` |
| CountMinSketch.FreshEstimate | count_min.py:28 | a fresh sketch estimates 0 for every value |
| CountMinSketch.NoUnderestimation | count_min.py:40-62 | after processing `S` from a grid without negative counters (the fresh one in particular), the estimate of any `v` is at least its number of occurrences in `S`, and so never negative |
| CountMinSketch.SingleCellEstimate | count_min.py:40-62 | with `N = 1` and `K = 1`, every estimate equals the number of items processed |

## Left out

- The random draw of coefficients (`random.randint`) is not modelled. The draws are an input sequence, each draw constrained to `[0, p)`.
- The probabilistic ε/δ error bound is not modelled. It is a statement about random coefficients, not about any fixed run.
- Keys are strings only (`seq<char>`), and `ord` is the character's code point. Python accepts any object with `ljust`.
- `k`, `D` and `N` are `nat`. Negative values are not modelled: Python treats a negative `range` as empty and `ljust` with a negative width as the identity.
- Hashing.HashGenerator.Hash: requires `p > 0`. Python raises `ZeroDivisionError` for `p = 0`. With `p < 0` it returns a non-positive remainder, but a non-empty coefficient draw is then impossible.
- CountMinSketch.CountMin.constructor: requires `K > 0`, which excludes some sketches Python accepts. With `N = 0` Python constructs the sketch for any `K`; `process_stream` then does nothing and `get_freq([])` returns `{}`. With `N > 0`, `D > 0` and `K <= 0`, Python's `randint` raises. With `N > 0`, `D = 0` and `K <= 0`, construction succeeds. Every later hash then either divides by zero (`K = 0`) or yields bucket 0 of an empty row, an `IndexError` (count_min.py:28, 43).
- CountMinSketch.CountMin.GetFreq: Python returns the very dict it stores in `self.frequencies`, so a caller's later change to the result also changes the stored one. The model returns a map value and stores a copy, so it does not capture that aliasing (count_min.py:56, 64). It also fills the map locally and stores it once, after the loop, where Python fills `self.frequencies` in place. The two differ only if the loop stopped midway, and the requires rules that out.
- CountMinSketch.CountMin.GetFreq: requires `N > 0` unless `values` is empty, because Python's `min` of an empty list raises `ValueError`.
- The experiment scripts are not part of this model. They cover text loading and cleaning, plotting, the floating-point width and height formulas, and error histograms. They also import a `count_min_sketch` module that is not part of this model.
- Re-generating a generator's coefficients after construction is not modelled as part of `CountMin`. The class never calls it again, and its methods keep the generators unchanged.
