# Biodiversity pipeline: report synthesis and synthetic ASV generation

This project models the two deterministic parts of an eDNA biodiversity pipeline in Dafny.

- **Report synthesis** (`run_conceptual_transformer`, module `Taxonomy`,
  `conceptual_transformer.dfy`).
  - Each clustered row is named through a fixed table with the default `Unknown Taxa {x}`. The
    name column is added to the caller's table in place (class `ClusteredData`).
  - Rows are counted by name: the substrings `Known` and `Novel`, and equality with `Noise`.
  - A taxonomic profile is built with one entry per cluster, in ascending cluster order. Each
    entry has a status, a read count, a confidence and a lineage.
  - Random values are parameters (`ReportDraws`): the Shannon index, the average confidence,
    each entry's confidence draw and the phylum drawn for a lineage.
- **Synthetic sequence generation** (`generate_asv_data`, module `AsvGenerator`,
  `generate_asv_data.dfy`).
  - Every species gets a random pattern over A, C, G, T.
  - Every copy of the pattern is overwritten in place, in an array, at distinct drawn indices.
    Each drawn index gets one of the three other bases.
  - Copies are appended to two parallel lists: sequences and labels. Known species come first,
    then novel ones.
  - The random draws are parameters (`SpeciesDraws`, `CopyDraws`). Their preconditions are what
    the random library guarantees: positions in `base_pairs`, distinct indices below the
    sequence length, and a choice among three.
- **Shared text helpers** (module `Text`, `text.dfy`).
  - Python's substring test.
  - Python's `str()` of an integer.

Main facts proved:

- The report:
  - `known_species_count` is always 0, because the `Known` test is case-sensitive and no name
    contains `Known`.
  - `novel_taxa_count` is the number of rows of cluster 1.
  - `unassigned_reads_count` is the number of rows of cluster -1.
  - Every profile entry is `Noise`, except cluster 1, which is `Novel`.
  - The read counts are at least 1 each and sum to the row count.
- The generator:
  - Every copy has the pattern's length and alphabet.
  - Every copy differs from its pattern in exactly `num_mutations` positions.
  - Every copy keeps the pattern's base elsewhere.
  - Row `i * per_species + j` of a run is copy `j` of species `i` and carries the label
    `{kind} Species {i}`.

## Model

| member | source | states |
|---|---|---|
| Taxonomy.TableName | conceptual_transformer.py:14-19 | the dict `cluster_to_name` as a partial lookup: it has an entry exactly for the ids 0, 1, 2 and -1, with the four fixed names |
| Taxonomy.ClusterName | conceptual_transformer.py:22 | the lambda `cluster_to_name.get(x, f'Unknown Taxa {x}')`: the table entry, or `Unknown Taxa ` followed by `str(x)`; what the names contain is stated by the lemmas below |
| Taxonomy.NameColumn | conceptual_transformer.py:22 | the `.apply` over the `cluster_id` column: one name per row, in row order, of the same length as the column |
| Taxonomy.NoiseNameIff | conceptual_transformer.py:14-22 | a row's assigned name is `Noise` exactly when its cluster id is -1 (the table's noise entry; no default name collides with it) |
| Taxonomy.NovelNameIff | conceptual_transformer.py:14-22 | a row's assigned name contains `Novel` exactly when its cluster id is 1; no other table entry and no `Unknown Taxa {x}` default contains it |
| Taxonomy.NoNameContainsKnown | conceptual_transformer.py:14-22 | no table name and no default name contains `Known` (case-sensitive test) |
| Taxonomy.UnknownNameLetters | conceptual_transformer.py:22 | for an id missing from the table, the default name `Unknown Taxa {x}` contains neither `N` nor `K`, whatever the digits and sign of x |
| Taxonomy.ClusteredData.AssignNames | conceptual_transformer.py:22 | adds the `assigned_name` column in place: same row count, `cluster_id` unchanged, each row's name is the table entry or `Unknown Taxa {x}` for its id |
| Taxonomy.CountContaining | conceptual_transformer.py:26-27 | the filter `str.contains(pat)` followed by `.shape[0]`: the number of names containing `pat`, at most the row count; its value on the name column is stated by the two count lemmas below |
| Taxonomy.CountEqual | conceptual_transformer.py:28 | the filter `== name` followed by `.shape[0]`: the number of names equal to `name`, at most the row count; its value on the name column is stated by `UnassignedCountIsNoise` |
| Taxonomy.NovelCountIsClusterOne | conceptual_transformer.py:27 | the number of names containing `Novel` equals the number of rows with cluster id 1 |
| Taxonomy.UnassignedCountIsNoise | conceptual_transformer.py:28 | the number of names equal to `Noise` equals the number of rows with cluster id -1 |
| Taxonomy.KnownCountIsZero | conceptual_transformer.py:26 | the number of names containing `Known` is 0 for every table |
| Taxonomy.GroupKeys | conceptual_transformer.py:45 | the groupby keys are strictly increasing and are exactly the ids that occur in the table |
| Taxonomy.InsertSorted | conceptual_transformer.py:45 | inserting an id into a strictly increasing key list keeps it strictly increasing and adds exactly that id |
| Taxonomy.GroupRows | conceptual_transformer.py:45 | a group holds only positions of rows whose id is the key, every such row is among them, in strictly increasing table order (so each row once), and it is no larger than the table |
| Taxonomy.GroupFirstRowIsFirst | conceptual_transformer.py:46 | the row `iloc[0]` reads is the first row of the table whose id is the key |
| Taxonomy.GroupOfMemberNonEmpty | conceptual_transformer.py:45 | an id that occurs in the table has a non-empty group, so `iloc[0]` exists |
| Taxonomy.StatusOf | conceptual_transformer.py:47 | the conditional expression for `status`: `Novel` if the name contains `Novel`, else `Known` if it contains `Known`, else `Noise`; applied to the table by `ClusterStatus` |
| Taxonomy.Lineage | conceptual_transformer.py:58 | `Closest known: ` plus the drawn phylum for a `Novel` entry, `Full classification: ...` otherwise |
| Taxonomy.ClusterStatus | conceptual_transformer.py:47 | the status derived from a cluster's name is `Novel` for cluster 1 and `Noise` for every other id (including 0, 2, -1 and unknown ids); never `Known` |
| Taxonomy.TaxonomicProfile | conceptual_transformer.py:45-59 | the loop appends, per group in key order, the entry with the group's key, first name, derived status, group size, a confidence only when `Known`, and the lineage for its status; the result is ordered, complete and has read counts of at least 1 |
| Taxonomy.ProfileShape | conceptual_transformer.py:45-56 | a profile has one entry per distinct id, ids strictly ascending, every read count at least 1 |
| Taxonomy.GroupSizeTotalIsRowCount | conceptual_transformer.py:45-56 | the group sizes over all groupby keys add up to the number of rows |
| Taxonomy.ReadCountsSumToTotal | conceptual_transformer.py:56 | the profile's read counts sum to `total_asvs_processed` |
| Taxonomy.ProfileClassification | conceptual_transformer.py:46-58 | each entry built from the assigned names carries its cluster's own name, status `Novel` with a `Closest known: Phylum …` lineage for cluster 1 and `Noise` with `Full classification: ...` otherwise, and no confidence |
| Taxonomy.RunConceptualTransformer | conceptual_transformer.py:6-61 | names the rows in place; fails exactly on an empty table (the rate divides by the row count); otherwise the report's counts, rate and profile are as in the lemmas above and the random metrics are the drawn values |
| Text.Contains | conceptual_transformer.py:47 | Python's `pat in s` (and `str.contains` for a pattern without metacharacters), as a recursive prefix test; its meaning is stated by `ContainsIff` |
| Text.ContainsIff | conceptual_transformer.py:47 | the substring test holds exactly when the pattern occurs at some position |
| Text.MissingLeadCharNotContained | conceptual_transformer.py:26-27 | a text lacking the pattern's first character does not contain the pattern |
| Text.NatToString | conceptual_transformer.py:22 | `str(n)` is non-empty and has one digit exactly when n < 10 |
| Text.NatToStringDigits | conceptual_transformer.py:22 | `str(n)` of a natural number consists of decimal digits |
| Text.IntToStringChars | conceptual_transformer.py:22 | `str(x)` of an integer holds only digits and a minus sign |
| Text.IntToString | conceptual_transformer.py:22 | `str(x)` inside the f-string: a minus sign for a negative x, then the decimal digits of its magnitude; its characters are stated by `IntToStringChars` |
| Text.NatToStringInjective | generate_asv_data.py:36 | different species numbers print differently |
| AsvGenerator.Spell | generate_asv_data.py:35 | `''.join(sequence)`: one letter per base, of the same length; its alphabet and injectivity are stated by `SpellIsDna` and `SpellInjective` |
| AsvGenerator.SpellIsDna | generate_asv_data.py:35 | a joined list of bases is a string over A, C, G, T |
| AsvGenerator.SpellInjective | generate_asv_data.py:26-28 | joining and splitting a base list lose nothing |
| AsvGenerator.OtherBases | generate_asv_data.py:33 | the candidates for a replacement are three bases, none equal to the original |
| AsvGenerator.OtherBasesIsFilter | generate_asv_data.py:33 | the candidate table is exactly `[b for b in base_pairs if b != original_base]` |
| AsvGenerator.OtherBasesComplete | generate_asv_data.py:33 | a base is a candidate exactly when it differs from the original |
| AsvGenerator.Pattern | generate_asv_data.py:26 | a pattern has one base per draw, so `asv_length` bases |
| AsvGenerator.MutateAt | generate_asv_data.py:32-34 | one pass of the mutation loop: the base at `idx` becomes a base among the other three, so it differs from the current one, and every other position and the length are unchanged |
| AsvGenerator.ApplyMutations | generate_asv_data.py:31-34 | the copy after every pass of the mutation loop, in drawn order; what it changes is stated by `MutationKeepsOtherPositions`, `MutationChangesEachIndex` and `MutationHammingDistance` |
| AsvGenerator.AfterPasses | generate_asv_data.py:31-34 | every pass of the mutation loop keeps the copy's length |
| AsvGenerator.HammingOfSpelled | generate_asv_data.py:35 | joining into strings keeps the number of differing positions |
| AsvGenerator.HammingAfterChange | generate_asv_data.py:34 | overwriting an unchanged position with a different base adds exactly one difference |
| AsvGenerator.MutationKeepsOtherPositions | generate_asv_data.py:28-34 | positions outside the drawn index set keep the pattern's base |
| AsvGenerator.MutationChangesEachIndex | generate_asv_data.py:30-34 | with distinct indices, the base at each drawn index is the drawn pick among the pattern base's three others, so it differs from the pattern |
| AsvGenerator.PassesHammingDistance | generate_asv_data.py:30-34 | with distinct indices, after m passes the copy differs from the pattern in exactly m positions |
| AsvGenerator.MutationHammingDistance | generate_asv_data.py:29-34 | with distinct indices, a copy differs from its pattern in exactly `num_mutations` positions |
| AsvGenerator.MutateCopy | generate_asv_data.py:28-34 | the in-place loop over a copy of the pattern yields the pattern with every drawn substitution applied in order, of the same length, at Hamming distance `num_mutations` when the indices are distinct |
| AsvGenerator.SpeciesAsvs | generate_asv_data.py:27-36 | the inner loop appends the species' mutated copies in draw order and the same label once per copy |
| AsvGenerator.RunAsvs | generate_asv_data.py:25-36 | the outer loop appends the blocks of species 0, 1, … in order, each with its own label |
| AsvGenerator.ConcatLength | generate_asv_data.py:25-27 | blocks of `per` rows each give `RowsBefore(n, per)` rows, which `RowsBeforeIsProduct` shows is `n * per` |
| AsvGenerator.ConcatAt | generate_asv_data.py:25-27 | row j of block i sits at position `RowsBefore(i, per) + j` (that is, `i * per + j`) of the appended rows |
| AsvGenerator.RowsBeforeIsProduct | generate_asv_data.py:25-27 | the rows taken by the first i blocks of `per` rows number `i * per` |
| AsvGenerator.GroupLengths | generate_asv_data.py:25-36 | a run of n species holds `n * per_species` sequences and as many labels |
| AsvGenerator.GroupRowAt | generate_asv_data.py:25-35 | row `i * per_species + j` of a run is copy j of species i's pattern, mutated by that copy's draws |
| AsvGenerator.GroupLabelAt | generate_asv_data.py:36 | row `i * per_species + j` of a run is labelled `{kind} Species {i}`, shared by all copies of species i |
| AsvGenerator.GroupRowIsMutatedCopy | generate_asv_data.py:26-35 | each row has length `asv_length`, only A, C, G, T, Hamming distance `num_mutations` to its species' pattern, and the pattern's base outside its index set |
| AsvGenerator.GroupRowsAreDna | generate_asv_data.py:20-35 | every row of a run has length `asv_length` and only A, C, G, T |
| AsvGenerator.SpeciesLabel | generate_asv_data.py:36 | the label `f'{kind} Species {i}'`; `SpeciesLabelInjective` states that it determines kind and number |
| AsvGenerator.SpeciesLabelInjective | generate_asv_data.py:36 | a label determines its kind (`Known`/`Novel`) and its species number |
| AsvGenerator.GenerateAsvData | generate_asv_data.py:5-57 | the sequence list is the known run followed by the novel run, the label list likewise; both have `n_known*known_per + n_novel*novel_per` entries; every sequence has length `asv_length` over A, C, G, T |

## Left out

- Seeding and the random generators (generate_asv_data.py:17-18, and `np.random`/`random` in both files) are not modelled. Their outputs are parameters. The generator's draws are constrained to what the libraries can return. The report's draws (`ReportDraws`) are opaque, unconstrained reals: the ranges of `np.random.uniform(1.5, 3.5)`, `(0.7, 0.99)` and `(0.8, 0.99)` are not stated.
- The drawn confidence and phylum are indexed by the entry's position in the profile. The source consumes a draw only for a `Known` entry (confidence) or a `Novel` entry (phylum). Any sequence of draws can be laid out this way, but the model does not follow the generator's internal state.
- The default arguments of `generate_asv_data` (300 and 200 species, 100 and 50 copies, length 250, seed 42) are not modelled: every count is an explicit parameter.
- `GenerateAsvData` types the species counts, copy counts and length as natural numbers. The source also accepts negative counts, for which `range` runs zero times; such calls behave like a count of 0. A negative `asv_length` is an error path the model drops: `random.choices` then gives an empty pattern, and `np.random.choice(asv_length, 0, replace=False)` raises. The generator's only caller passes the default length 250.
- `int(asv_length * 0.01)` is floating-point arithmetic. `GenerateAsvData` takes `numMutations` as a parameter with `numMutations <= asvLength`.
- The rounding of the Shannon index, of the confidences and of the average confidence, and the `"…%"` string formatting of the rate, are not modelled. The rate is kept as the exact real `unassigned / total * 100`.
- `avg_confidence` is a formatted string in the source. The model keeps it as the drawn real.
- The exact exception raised on an empty table is not modelled. The model returns `Failure(EmptyTable)` after adding the name column. The source raises either at the first `.str.contains` (an empty integer column gives an empty integer name column, which has no `.str` accessor) or at the rate's division (an empty object column), depending on the column's dtype.
- `Series.str.contains` uses regular expressions and handles missing values. The patterns used (`Known`, `Novel`) contain no metacharacters and names are never missing, so it is modelled as a plain substring test.
- Other DataFrame columns (coordinates, sequences) are not modelled. pandas index handling is not modelled either. The generated table is returned as two parallel sequences of strings instead of a DataFrame.
- JSON serialisation and the `int(...)` conversions of ids and counts are not modelled.
- The `__main__` blocks of both files (CSV/JSON reading and writing, printing) are not modelled.
- autoencoder_simulation.py, run_clustering.py and main.py are not part of this model. They are library calls over floating-point data and file orchestration.
