/**
 * The synthetic sequence generator of the pipeline (`generate_asv_data`):
 * for each species a random pattern over A, C, G, T is drawn, and every copy
 * of it is mutated at `num_mutations` distinct positions, each to a base
 * different from the one there. Known species come first, then novel ones.
 *
 * The random draws are inputs: the positions in `base_pairs` that
 * `random.choices` picks for a pattern, the index set that
 * `np.random.choice(..., replace=False)` picks for a copy, and the position
 * that `random.choice` picks among the three other bases.
 */
module AsvGenerator {
  import opened Text

  /** A nucleotide: an element of `base_pairs`. */
  datatype Base = A | C | G | T

  /** `base_pairs`, in its order. */
  const BasePairs: seq<Base> := [A, C, G, T]

  /** The one-letter string Python keeps for each element of `base_pairs`. */
  function Letter(b: Base): char {
    match b
    case A => 'A'
    case C => 'C'
    case G => 'G'
    case T => 'T'
  }

  predicate IsBaseLetter(c: char) {
    c == 'A' || c == 'C' || c == 'G' || c == 'T'
  }

  /** A string over the alphabet of `base_pairs`. */
  predicate IsDna(s: string) {
    forall i :: 0 <= i < |s| ==> IsBaseLetter(s[i])
  }

  /** `''.join(sequence)` for a list of one-letter bases. */
  function Spell(s: seq<Base>): (r: string)
    ensures |r| == |s|
  {
    seq(|s|, i requires 0 <= i < |s| => Letter(s[i]))
  }

  /** A joined list of bases is a string over the alphabet of `base_pairs`. */
  lemma SpellIsDna(s: seq<Base>)
    ensures IsDna(Spell(s))
  {
    forall i | 0 <= i < |s| ensures IsBaseLetter(Spell(s)[i]) {
      assert Spell(s)[i] == Letter(s[i]);
    }
  }

  /** Joining loses nothing: different base lists give different strings. */
  lemma SpellInjective(s: seq<Base>, s': seq<Base>)
    requires Spell(s) == Spell(s')
    ensures s == s'
  {
    forall i | 0 <= i < |s| ensures s[i] == s'[i] {
      assert Letter(s[i]) == Spell(s)[i] == Spell(s')[i] == Letter(s'[i]);
    }
  }

  /** `[c for c in s if c != b]`. */
  function Without(s: seq<Base>, b: Base): seq<Base>
    decreases |s|
  {
    if s == [] then [] else (if s[0] == b then [] else [s[0]]) + Without(s[1..], b)
  }

  /** The replacement candidates for `b`: three bases, none of them `b` itself, in `base_pairs` order. */
  function OtherBases(b: Base): (r: seq<Base>)
    ensures |r| == 3
    ensures forall k :: 0 <= k < 3 ==> r[k] != b
  {
    match b
    case A => [C, G, T]
    case C => [A, G, T]
    case G => [A, C, T]
    case T => [A, C, G]
  }

  /** The candidates are exactly `[b for b in base_pairs if b != original_base]`. */
  lemma OtherBasesIsFilter(b: Base)
    ensures OtherBases(b) == Without(BasePairs, b)
  {
    assert BasePairs[1..] == [C, G, T] && BasePairs[2..] == [G, T] && BasePairs[3..] == [T];
  }

  /** Every base other than `b` is a candidate, so each of the three can be picked. */
  lemma OtherBasesComplete(b: Base, c: Base)
    ensures c in OtherBases(b) <==> c != b
  {
  }

  /**
   * `random.choices(base_pairs, k=asv_length)`, given the drawn positions in
   * `base_pairs`; the source joins it into a string and splits it back with
   * `list(pattern)`, which gives the same bases.
   */
  function Pattern(draws: seq<nat>): (pattern: seq<Base>)
    requires forall i :: 0 <= i < |draws| ==> draws[i] < |BasePairs|
    ensures |pattern| == |draws|
  {
    seq(|draws|, i requires 0 <= i < |draws| => BasePairs[draws[i]])
  }

  // ---------------------------------------------------------------------
  // Mutating one copy

  /** The draws for one copy: the mutation indices and, per index, the pick among the other bases. */
  datatype CopyDraws = CopyDraws(indices: seq<nat>, choices: seq<nat>)

  /** The draws can be applied to a sequence of length `len`. */
  predicate FitsLength(d: CopyDraws, len: nat) {
    && |d.indices| == |d.choices|
    && (forall j :: 0 <= j < |d.indices| ==> d.indices[j] < len)
    && (forall j :: 0 <= j < |d.choices| ==> d.choices[j] < 3)
  }

  /** `np.random.choice(asv_length, num_mutations, replace=False)` never repeats an index. */
  predicate Distinct(s: seq<nat>) {
    forall j, k :: 0 <= j < k < |s| ==> s[j] != s[k]
  }

  /** The draws `np.random.choice` and `random.choice` can produce for one copy. */
  predicate ValidCopyDraws(d: CopyDraws, asvLength: nat, numMutations: nat) {
    FitsLength(d, asvLength) && |d.indices| == numMutations && Distinct(d.indices)
  }

  /** One pass of the innermost loop body: the base at `idx` becomes the `c`-th other base. */
  function MutateAt(s: seq<Base>, idx: nat, c: nat): (r: seq<Base>)
    requires idx < |s| && c < 3
    ensures |r| == |s| && r[idx] != s[idx] && r[idx] in OtherBases(s[idx])
    ensures forall j :: 0 <= j < |s| && j != idx ==> r[j] == s[j]
  {
    s[idx := OtherBases(s[idx])[c]]
  }

  /** The copy after the first `m` passes of the mutation loop. */
  function AfterPasses(s: seq<Base>, d: CopyDraws, m: nat): (r: seq<Base>)
    requires FitsLength(d, |s|) && m <= |d.indices|
    ensures |r| == |s|
    decreases m
  {
    if m == 0 then s else MutateAt(AfterPasses(s, d, m - 1), d.indices[m - 1], d.choices[m - 1])
  }

  /** The copy once every pass has run. */
  function ApplyMutations(s: seq<Base>, d: CopyDraws): (r: seq<Base>)
    requires FitsLength(d, |s|)
  {
    AfterPasses(s, d, |d.indices|)
  }

  /** Number of positions where two equally long sequences differ. */
  function Hamming<X(==)>(a: seq<X>, b: seq<X>): (d: nat)
    requires |a| == |b|
    ensures d <= |a|
    decreases |a|
  {
    if a == [] then 0 else (if a[0] != b[0] then 1 else 0) + Hamming(a[1..], b[1..])
  }

  lemma {:induction false} HammingToSelf<X>(a: seq<X>)
    ensures Hamming(a, a) == 0
    decreases |a|
  {
    if a != [] {
      HammingToSelf(a[1..]);
    }
  }

  /** Changing one position where `a` and `b` agree to a value `a` does not have adds exactly one difference. */
  lemma {:induction false} HammingAfterChange<X>(a: seq<X>, b: seq<X>, i: nat, v: X)
    requires |a| == |b| && i < |a| && a[i] == b[i] && v != a[i]
    ensures Hamming(a, b[i := v]) == Hamming(a, b) + 1
    decreases |a|
  {
    if i == 0 {
      assert b[i := v][1..] == b[1..];
    } else {
      assert b[i := v][1..] == b[1..][i - 1 := v];
      HammingAfterChange(a[1..], b[1..], i - 1, v);
    }
  }

  /** Joining into strings keeps the distance, letter for base. */
  lemma {:induction false} HammingOfSpelled(a: seq<Base>, b: seq<Base>)
    requires |a| == |b|
    ensures Hamming(Spell(a), Spell(b)) == Hamming(a, b)
    decreases |a|
  {
    if a != [] {
      assert Spell(a)[1..] == Spell(a[1..]) && Spell(b)[1..] == Spell(b[1..]);
      assert Spell(a)[0] == Letter(a[0]) && Spell(b)[0] == Letter(b[0]);
      HammingOfSpelled(a[1..], b[1..]);
    }
  }

  /** Positions that none of the first `m` passes names keep the pattern's base. */
  lemma {:induction false} PassesKeepOtherPositions(s: seq<Base>, d: CopyDraws, m: nat, i: nat)
    requires FitsLength(d, |s|) && m <= |d.indices|
    requires i < |s| && forall j :: 0 <= j < m ==> d.indices[j] != i
    ensures AfterPasses(s, d, m)[i] == s[i]
    decreases m
  {
    if m > 0 {
      PassesKeepOtherPositions(s, d, m - 1, i);
    }
  }

  /** Positions outside the index set keep the pattern's base. */
  lemma MutationKeepsOtherPositions(s: seq<Base>, d: CopyDraws, i: nat)
    requires FitsLength(d, |s|)
    requires i < |s| && i !in d.indices
    ensures ApplyMutations(s, d)[i] == s[i]
  {
    PassesKeepOtherPositions(s, d, |d.indices|, i);
  }

  /**
   * With distinct indices, after `m` passes the base at the k-th index
   * (k < m) is the base picked among the pattern's other bases there, so it
   * differs from the pattern's base.
   */
  lemma {:induction false} PassesChangeEachIndex(s: seq<Base>, d: CopyDraws, m: nat, k: nat)
    requires FitsLength(d, |s|) && Distinct(d.indices)
    requires k < m <= |d.indices|
    ensures AfterPasses(s, d, m)[d.indices[k]] == OtherBases(s[d.indices[k]])[d.choices[k]]
    ensures AfterPasses(s, d, m)[d.indices[k]] != s[d.indices[k]]
    decreases m
  {
    if k == m - 1 {
      PassesKeepOtherPositions(s, d, k, d.indices[k]);
    } else {
      PassesChangeEachIndex(s, d, m - 1, k);
      assert d.indices[k] != d.indices[m - 1];
    }
  }

  /** The base at every drawn index is one of the other bases of the pattern's base there. */
  lemma MutationChangesEachIndex(s: seq<Base>, d: CopyDraws, k: nat)
    requires FitsLength(d, |s|) && Distinct(d.indices)
    requires k < |d.indices|
    ensures ApplyMutations(s, d)[d.indices[k]] == OtherBases(s[d.indices[k]])[d.choices[k]]
    ensures ApplyMutations(s, d)[d.indices[k]] != s[d.indices[k]]
  {
    PassesChangeEachIndex(s, d, |d.indices|, k);
  }

  /** With distinct indices, `m` passes leave the copy exactly `m` substitutions away from its pattern. */
  lemma {:induction false} PassesHammingDistance(s: seq<Base>, d: CopyDraws, m: nat)
    requires FitsLength(d, |s|) && Distinct(d.indices) && m <= |d.indices|
    ensures Hamming(s, AfterPasses(s, d, m)) == m
    decreases m
  {
    if m == 0 {
      HammingToSelf(s);
    } else {
      PassesHammingDistance(s, d, m - 1);
      var before := AfterPasses(s, d, m - 1);
      var idx := d.indices[m - 1];
      PassesKeepOtherPositions(s, d, m - 1, idx);
      HammingAfterChange(s, before, idx, OtherBases(before[idx])[d.choices[m - 1]]);
    }
  }

  /** With distinct indices, every copy is exactly `|d.indices|` substitutions away from its pattern. */
  lemma MutationHammingDistance(s: seq<Base>, d: CopyDraws)
    requires FitsLength(d, |s|) && Distinct(d.indices)
    ensures Hamming(s, ApplyMutations(s, d)) == |d.indices|
  {
    PassesHammingDistance(s, d, |d.indices|);
  }

  /**
   * One copy: `sequence = list(pattern)`, then `sequence[idx] = new_base`
   * for each drawn index in turn.
   */
  method MutateCopy(pattern: seq<Base>, d: CopyDraws) returns (copy: seq<Base>)
    requires FitsLength(d, |pattern|)
    ensures copy == ApplyMutations(pattern, d)
    ensures |copy| == |pattern|
    ensures Distinct(d.indices) ==> Hamming(pattern, copy) == |d.indices|
  {
    var sequence := new Base[|pattern|](i requires 0 <= i < |pattern| => pattern[i]);
    var m := 0;
    assert sequence[..] == pattern;
    while m < |d.indices|
      invariant 0 <= m <= |d.indices|
      invariant sequence[..] == AfterPasses(pattern, d, m)
    {
      var idx := d.indices[m];
      var originalBase := sequence[idx];
      var newBase := OtherBases(originalBase)[d.choices[m]];
      ghost var before := sequence[..];
      sequence[idx] := newBase;
      assert sequence[..] == before[idx := newBase];
      m := m + 1;
    }
    copy := sequence[..];
    if Distinct(d.indices) {
      MutationHammingDistance(pattern, d);
    }
  }

  // ---------------------------------------------------------------------
  // Rows appended block by block

  /** The rows of consecutive blocks, one block after another: what appending each block's rows in turn builds. */
  function Concat<X>(blocks: seq<seq<X>>): seq<X>
    decreases |blocks|
  {
    if blocks == [] then [] else Concat(blocks[..|blocks| - 1]) + blocks[|blocks| - 1]
  }

  /** Every block holds `per` rows. */
  predicate Uniform<X>(blocks: seq<seq<X>>, per: nat) {
    forall k :: 0 <= k < |blocks| ==> |blocks[k]| == per
  }

  /** The rows taken by the first `i` blocks of `per` rows each. */
  function RowsBefore(i: nat, per: nat): nat
    decreases i
  {
    if i == 0 then 0 else RowsBefore(i - 1, per) + per
  }

  lemma {:induction false} RowsBeforeIsProduct(i: nat, per: nat)
    ensures RowsBefore(i, per) == i * per
    decreases i
  {
    if i > 0 {
      RowsBeforeIsProduct(i - 1, per);
      assert i * per == (i - 1) * per + per;
    }
  }

  /** Block `i` lies within the first `n` blocks' rows when `i < n`. */
  lemma {:induction false} BlockWithin(i: nat, n: nat, per: nat)
    requires i < n
    ensures RowsBefore(i, per) + per <= RowsBefore(n, per)
    decreases n
  {
    if i < n - 1 {
      BlockWithin(i, n - 1, per);
    }
  }

  /** Appending one more block. */
  lemma ConcatStep<X>(blocks: seq<seq<X>>, i: nat)
    requires i < |blocks|
    ensures Concat(blocks[..i + 1]) == Concat(blocks[..i]) + blocks[i]
  {
    assert blocks[..i + 1][..i] == blocks[..i];
  }

  /** Taking one more element of a sequence. */
  lemma TakeOneMore<X>(s: seq<X>, c: nat)
    requires c < |s|
    ensures s[..c + 1] == s[..c] + [s[c]]
  {
  }

  /** Blocks of `per` rows each give `per` rows per block. */
  lemma {:induction false} ConcatLength<X>(blocks: seq<seq<X>>, per: nat)
    requires Uniform(blocks, per)
    ensures |Concat(blocks)| == RowsBefore(|blocks|, per)
    decreases |blocks|
  {
    if blocks != [] {
      var n := |blocks| - 1;
      assert Uniform(blocks[..n], per);
      ConcatLength(blocks[..n], per);
    }
  }

  /** Row `j` of block `i` sits at position `RowsBefore(i, per) + j`. */
  lemma {:induction false} ConcatAt<X>(blocks: seq<seq<X>>, per: nat, i: nat, j: nat)
    requires Uniform(blocks, per) && i < |blocks| && j < per
    ensures RowsBefore(i, per) + j < |Concat(blocks)|
    ensures Concat(blocks)[RowsBefore(i, per) + j] == blocks[i][j]
    decreases |blocks|
  {
    var n := |blocks| - 1;
    var prefix := blocks[..n];
    assert Uniform(prefix, per);
    ConcatLength(prefix, per);
    if i < n {
      BlockWithin(i, n, per);
      ConcatAt(prefix, per, i, j);
      assert prefix[i] == blocks[i];
    }
  }

  /** Every row comes from some block. */
  lemma {:induction false} ConcatMember<X>(blocks: seq<seq<X>>, r: nat)
    requires r < |Concat(blocks)|
    ensures exists i, j :: 0 <= i < |blocks| && 0 <= j < |blocks[i]| && Concat(blocks)[r] == blocks[i][j]
    decreases |blocks|
  {
    var n := |blocks| - 1;
    var prefix := blocks[..n];
    if r < |Concat(prefix)| {
      ConcatMember(prefix, r);
      var i, j :| 0 <= i < |prefix| && 0 <= j < |prefix[i]| && Concat(prefix)[r] == prefix[i][j];
      assert prefix[i] == blocks[i];
    } else {
      assert Concat(blocks)[r] == blocks[n][r - |Concat(prefix)|];
    }
  }

  // ---------------------------------------------------------------------
  // Species, labels and the generated table

  /** The draws for one species: its pattern draws and the draws of each copy. */
  datatype SpeciesDraws = SpeciesDraws(pattern: seq<nat>, copies: seq<CopyDraws>)

  predicate ValidSpeciesDraws(d: SpeciesDraws, asvLength: nat, numMutations: nat, copies: nat) {
    && |d.pattern| == asvLength
    && (forall i :: 0 <= i < |d.pattern| ==> d.pattern[i] < |BasePairs|)
    && |d.copies| == copies
    && (forall c :: 0 <= c < |d.copies| ==> ValidCopyDraws(d.copies[c], asvLength, numMutations))
  }

  predicate ValidGroupDraws(species: seq<SpeciesDraws>, asvLength: nat, numMutations: nat, perSpecies: nat) {
    forall i :: 0 <= i < |species| ==> ValidSpeciesDraws(species[i], asvLength, numMutations, perSpecies)
  }

  /** The copies of one pattern, joined into strings, in the order the inner loop appends them. */
  function SpeciesCopies(pattern: seq<Base>, copies: seq<CopyDraws>): (rows: seq<string>)
    requires forall c :: 0 <= c < |copies| ==> FitsLength(copies[c], |pattern|)
    ensures |rows| == |copies|
  {
    seq(|copies|, c requires 0 <= c < |copies| => Spell(ApplyMutations(pattern, copies[c])))
  }

  /** The copies of each species of a run (all known, or all novel), species by species. */
  function SpeciesBlocks(species: seq<SpeciesDraws>, asvLength: nat, numMutations: nat, perSpecies: nat): (blocks: seq<seq<string>>)
    requires ValidGroupDraws(species, asvLength, numMutations, perSpecies)
    ensures |blocks| == |species|
  {
    seq(|species|, i requires 0 <= i < |species| => SpeciesCopies(Pattern(species[i].pattern), species[i].copies))
  }

  /** The sequences a run of species contributes to `asv_sequences`. */
  function GroupSequences(species: seq<SpeciesDraws>, asvLength: nat, numMutations: nat, perSpecies: nat): seq<string>
    requires ValidGroupDraws(species, asvLength, numMutations, perSpecies)
  {
    Concat(SpeciesBlocks(species, asvLength, numMutations, perSpecies))
  }

  /** `f'{kind} Species {i}'`. */
  function SpeciesLabel(kind: string, i: nat): string {
    kind + " Species " + NatToString(i)
  }

  /** `n` copies of the same label. */
  function Repeat(x: string, n: nat): (r: seq<string>)
    ensures |r| == n
  {
    seq(n, _ => x)
  }

  /** The labels of each species of a run, `perSpecies` copies each. */
  function LabelBlocks(kind: string, n: nat, perSpecies: nat): (blocks: seq<seq<string>>)
    ensures |blocks| == n
  {
    seq(n, i requires 0 <= i < n => Repeat(SpeciesLabel(kind, i), perSpecies))
  }

  /** The labels a run of `n` species contributes to `labels`. */
  function GroupLabels(kind: string, n: nat, perSpecies: nat): seq<string> {
    Concat(LabelBlocks(kind, n, perSpecies))
  }

  /** Each species of a run contributes exactly `perSpecies` copies. */
  lemma SpeciesBlocksUniform(species: seq<SpeciesDraws>, asvLength: nat, numMutations: nat, perSpecies: nat)
    requires ValidGroupDraws(species, asvLength, numMutations, perSpecies)
    ensures Uniform(SpeciesBlocks(species, asvLength, numMutations, perSpecies), perSpecies)
  {
    var blocks := SpeciesBlocks(species, asvLength, numMutations, perSpecies);
    forall k | 0 <= k < |blocks| ensures |blocks[k]| == perSpecies {
      assert ValidSpeciesDraws(species[k], asvLength, numMutations, perSpecies);
    }
  }

  /** A run of `n` species holds `n * perSpecies` sequences and as many labels. */
  lemma GroupLengths(species: seq<SpeciesDraws>, kind: string, asvLength: nat, numMutations: nat, perSpecies: nat)
    requires ValidGroupDraws(species, asvLength, numMutations, perSpecies)
    ensures |GroupSequences(species, asvLength, numMutations, perSpecies)| == |species| * perSpecies
    ensures |GroupLabels(kind, |species|, perSpecies)| == |species| * perSpecies
  {
    SpeciesBlocksUniform(species, asvLength, numMutations, perSpecies);
    ConcatLength(SpeciesBlocks(species, asvLength, numMutations, perSpecies), perSpecies);
    ConcatLength(LabelBlocks(kind, |species|, perSpecies), perSpecies);
    RowsBeforeIsProduct(|species|, perSpecies);
  }

  /**
   * Copy `j` of species `i` sits at row `i * perSpecies + j` of its run,
   * and it is that species' pattern mutated by that copy's draws.
   */
  lemma GroupRowAt(species: seq<SpeciesDraws>, asvLength: nat, numMutations: nat, perSpecies: nat, i: nat, j: nat)
    requires ValidGroupDraws(species, asvLength, numMutations, perSpecies)
    requires i < |species| && j < perSpecies
    ensures i * perSpecies + j < |GroupSequences(species, asvLength, numMutations, perSpecies)|
    ensures GroupSequences(species, asvLength, numMutations, perSpecies)[i * perSpecies + j]
         == Spell(ApplyMutations(Pattern(species[i].pattern), species[i].copies[j]))
  {
    SpeciesBlocksUniform(species, asvLength, numMutations, perSpecies);
    ConcatAt(SpeciesBlocks(species, asvLength, numMutations, perSpecies), perSpecies, i, j);
    RowsBeforeIsProduct(i, perSpecies);
  }

  /** Row `i * perSpecies + j` of a run carries the label of species `i`. */
  lemma GroupLabelAt(kind: string, n: nat, perSpecies: nat, i: nat, j: nat)
    requires i < n && j < perSpecies
    ensures i * perSpecies + j < |GroupLabels(kind, n, perSpecies)|
    ensures GroupLabels(kind, n, perSpecies)[i * perSpecies + j] == SpeciesLabel(kind, i)
  {
    ConcatAt(LabelBlocks(kind, n, perSpecies), perSpecies, i, j);
    RowsBeforeIsProduct(i, perSpecies);
  }

  /**
   * Copy `j` of species `i` has the configured length and alphabet, differs
   * from the species' pattern in exactly `numMutations` positions, and keeps
   * the pattern's base everywhere outside its drawn index set.
   */
  lemma GroupRowIsMutatedCopy(species: seq<SpeciesDraws>, asvLength: nat, numMutations: nat, perSpecies: nat, i: nat, j: nat)
    requires ValidGroupDraws(species, asvLength, numMutations, perSpecies)
    requires i < |species| && j < perSpecies
    ensures i * perSpecies + j < |GroupSequences(species, asvLength, numMutations, perSpecies)|
    ensures var row := GroupSequences(species, asvLength, numMutations, perSpecies)[i * perSpecies + j];
            var pattern := Spell(Pattern(species[i].pattern));
            && |row| == asvLength && IsDna(row)
            && Hamming(pattern, row) == numMutations
            && forall p :: 0 <= p < asvLength && p !in species[i].copies[j].indices ==> row[p] == pattern[p]
  {
    GroupRowAt(species, asvLength, numMutations, perSpecies, i, j);
    assert ValidSpeciesDraws(species[i], asvLength, numMutations, perSpecies);
    var pattern := Pattern(species[i].pattern);
    var d := species[i].copies[j];
    assert ValidCopyDraws(d, asvLength, numMutations);
    var copy := ApplyMutations(pattern, d);
    MutationHammingDistance(pattern, d);
    HammingOfSpelled(pattern, copy);
    SpellIsDna(copy);
    forall p | 0 <= p < asvLength && p !in d.indices ensures Spell(copy)[p] == Spell(pattern)[p] {
      MutationKeepsOtherPositions(pattern, d, p);
    }
  }

  /** Every row of a run has the configured length and the alphabet of `base_pairs`. */
  lemma GroupRowsAreDna(species: seq<SpeciesDraws>, asvLength: nat, numMutations: nat, perSpecies: nat)
    requires ValidGroupDraws(species, asvLength, numMutations, perSpecies)
    ensures forall r :: 0 <= r < |GroupSequences(species, asvLength, numMutations, perSpecies)| ==>
      var row := GroupSequences(species, asvLength, numMutations, perSpecies)[r];
      |row| == asvLength && IsDna(row)
  {
    var blocks := SpeciesBlocks(species, asvLength, numMutations, perSpecies);
    forall r | 0 <= r < |Concat(blocks)| ensures |Concat(blocks)[r]| == asvLength && IsDna(Concat(blocks)[r]) {
      ConcatMember(blocks, r);
      var i, j :| 0 <= i < |blocks| && 0 <= j < |blocks[i]| && Concat(blocks)[r] == blocks[i][j];
      assert ValidSpeciesDraws(species[i], asvLength, numMutations, perSpecies);
      SpellIsDna(ApplyMutations(Pattern(species[i].pattern), species[i].copies[j]));
    }
  }

  /** Labels name their species unambiguously: the kind and the species number can be read back. */
  lemma SpeciesLabelInjective(kind: string, i: nat, kind': string, i': nat)
    requires kind in {"Known", "Novel"} && kind' in {"Known", "Novel"}
    requires SpeciesLabel(kind, i) == SpeciesLabel(kind', i')
    ensures kind == kind' && i == i'
  {
    var first := SpeciesLabel(kind, i);
    assert first[..5] == kind && SpeciesLabel(kind', i')[..5] == kind';
    assert first[14..] == NatToString(i) && SpeciesLabel(kind', i')[14..] == NatToString(i');
    NatToStringInjective(i, i');
  }

  // ---------------------------------------------------------------------
  // generate_asv_data

  /**
   * The innermost loop for one species: `|copies|` mutated copies of
   * `pattern`, each joined into a string and labelled `tag`.
   */
  method SpeciesAsvs(pattern: seq<Base>, copies: seq<CopyDraws>, tag: string) returns (rows: seq<string>, labels: seq<string>)
    requires forall c :: 0 <= c < |copies| ==> FitsLength(copies[c], |pattern|)
    ensures rows == SpeciesCopies(pattern, copies)
    ensures labels == Repeat(tag, |copies|)
  {
    ghost var block := SpeciesCopies(pattern, copies);
    rows, labels := [], [];
    var c := 0;
    while c < |copies|
      invariant 0 <= c <= |copies|
      invariant rows == block[..c] && labels == Repeat(tag, |copies|)[..c]
    {
      var sequence := MutateCopy(pattern, copies[c]);
      rows := rows + [Spell(sequence)];
      labels := labels + [tag];
      TakeOneMore(block, c);
      TakeOneMore(Repeat(tag, |copies|), c);
      c := c + 1;
    }
  }

  /**
   * One of the two outer loops: the copies of each species of a run in turn,
   * labelled `f'{kind} Species {i}'`.
   */
  method RunAsvs(kind: string, species: seq<SpeciesDraws>, asvLength: nat, numMutations: nat, perSpecies: nat)
    returns (rows: seq<string>, labels: seq<string>)
    requires ValidGroupDraws(species, asvLength, numMutations, perSpecies)
    ensures rows == GroupSequences(species, asvLength, numMutations, perSpecies)
    ensures labels == GroupLabels(kind, |species|, perSpecies)
  {
    ghost var blocks := SpeciesBlocks(species, asvLength, numMutations, perSpecies);
    ghost var tags := LabelBlocks(kind, |species|, perSpecies);
    rows, labels := [], [];
    var i := 0;
    while i < |species|
      invariant 0 <= i <= |species|
      invariant rows == Concat(blocks[..i]) && labels == Concat(tags[..i])
    {
      var d := species[i];
      assert ValidSpeciesDraws(d, asvLength, numMutations, perSpecies);
      var speciesRows, speciesLabels := SpeciesAsvs(Pattern(d.pattern), d.copies, SpeciesLabel(kind, i));
      rows, labels := rows + speciesRows, labels + speciesLabels;
      ConcatStep(blocks, i);
      ConcatStep(tags, i);
      i := i + 1;
    }
    assert blocks[..i] == blocks && tags[..i] == tags;
  }

  /**
   * `generate_asv_data`: the known species' copies, species by species,
   * then the novel species' copies, with one label per sequence.
   * `numMutations` stands for `int(asv_length * 0.01)`.
   */
  method GenerateAsvData(
    nKnownSpecies: nat, nNovelSpecies: nat,
    knownAsvsPerSpecies: nat, novelAsvsPerSpecies: nat,
    asvLength: nat, numMutations: nat,
    knownDraws: seq<SpeciesDraws>, novelDraws: seq<SpeciesDraws>)
    returns (asvSequences: seq<string>, labels: seq<string>)
    requires numMutations <= asvLength
    requires |knownDraws| == nKnownSpecies && ValidGroupDraws(knownDraws, asvLength, numMutations, knownAsvsPerSpecies)
    requires |novelDraws| == nNovelSpecies && ValidGroupDraws(novelDraws, asvLength, numMutations, novelAsvsPerSpecies)
    ensures asvSequences == GroupSequences(knownDraws, asvLength, numMutations, knownAsvsPerSpecies)
                          + GroupSequences(novelDraws, asvLength, numMutations, novelAsvsPerSpecies)
    ensures labels == GroupLabels("Known", nKnownSpecies, knownAsvsPerSpecies)
                    + GroupLabels("Novel", nNovelSpecies, novelAsvsPerSpecies)
    ensures |asvSequences| == |labels| == nKnownSpecies * knownAsvsPerSpecies + nNovelSpecies * novelAsvsPerSpecies
    ensures forall r :: 0 <= r < |asvSequences| ==> |asvSequences[r]| == asvLength && IsDna(asvSequences[r])
  {
    var knownRows, knownLabels := RunAsvs("Known", knownDraws, asvLength, numMutations, knownAsvsPerSpecies);
    var novelRows, novelLabels := RunAsvs("Novel", novelDraws, asvLength, numMutations, novelAsvsPerSpecies);
    asvSequences, labels := knownRows + novelRows, knownLabels + novelLabels;

    GroupRowsAreDna(knownDraws, asvLength, numMutations, knownAsvsPerSpecies);
    GroupRowsAreDna(novelDraws, asvLength, numMutations, novelAsvsPerSpecies);
    GroupLengths(knownDraws, "Known", asvLength, numMutations, knownAsvsPerSpecies);
    GroupLengths(novelDraws, "Novel", asvLength, numMutations, novelAsvsPerSpecies);
  }
}
