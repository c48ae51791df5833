/**
 * The report synthesiser of the pipeline (`run_conceptual_transformer`):
 * it names every clustered row through a fixed table, counts rows by name,
 * and builds one taxonomic-profile entry per cluster, in ascending cluster
 * order. Random draws (the Shannon index, the average confidence, a
 * confidence per "Known" entry and the phylum in a "Novel" lineage) are
 * parameters of the model.
 */
module Taxonomy {
  import opened Text

  datatype Option<T> = None | Some(value: T)

  datatype Result<T, E> = Success(value: T) | Failure(error: E)

  /** The source cannot build a report for an empty table: it raises, at the latest when the unassigned rate divides by zero. */
  datatype ReportError = EmptyTable

  /** DBSCAN's label for points that belong to no cluster. */
  const NoiseClusterId: int := -1

  /** The fixed naming table `cluster_to_name`, as a partial lookup. */
  function TableName(id: int): (name: Option<string>)
    ensures name.Some? <==> id == 0 || id == 1 || id == 2 || id == NoiseClusterId
  {
    if id == 0 then Some("Bathynomus giganteus")
    else if id == 1 then Some("Novel Taxa 1")
    else if id == 2 then Some("Halobates micans")
    else if id == NoiseClusterId then Some("Noise")
    else None
  }

  /** `cluster_to_name.get(x, f'Unknown Taxa {x}')`. */
  function ClusterName(id: int): string {
    match TableName(id)
    case Some(name) => name
    case None => "Unknown Taxa " + IntToString(id)
  }

  /** The `assigned_name` column computed from the `cluster_id` column, row by row. */
  function NameColumn(ids: seq<int>): (names: seq<string>)
    ensures |names| == |ids|
  {
    seq(|ids|, i requires 0 <= i < |ids| => ClusterName(ids[i]))
  }

  // ---------------------------------------------------------------------
  // Which names match 'Novel', 'Known' and 'Noise'

  lemma UnknownNameLetters(id: int)
    requires TableName(id).None?
    ensures 'N' !in ClusterName(id) && 'K' !in ClusterName(id)
  {
    var digits := IntToString(id);
    var name := "Unknown Taxa " + digits;
    assert ClusterName(id) == name;
    IntToStringChars(id);
    forall i | 0 <= i < |name| ensures name[i] != 'N' && name[i] != 'K' {
      if i >= 13 {
        assert name[i] == digits[i - 13];
      }
    }
  }

  /** A name contains 'Novel' exactly when it is the name of cluster 1. */
  lemma NovelNameIff(id: int)
    ensures Contains(ClusterName(id), "Novel") <==> id == 1
  {
    var name := ClusterName(id);
    if id == 1 {
      assert name[..5] == "Novel";
    } else if id == NoiseClusterId {
      assert name == "Noise";
      assert name[..5] != "Novel" by { assert name[2] != "Novel"[2]; }
      assert !Contains(name[1..], "Novel");
    } else if TableName(id).Some? {
      MissingLeadCharNotContained(name, "Novel");
    } else {
      UnknownNameLetters(id);
      MissingLeadCharNotContained(name, "Novel");
    }
  }

  /** No table entry and no default name contains 'Known' (the test is case-sensitive). */
  lemma NoNameContainsKnown(id: int)
    ensures !Contains(ClusterName(id), "Known")
  {
    if TableName(id).None? {
      UnknownNameLetters(id);
    }
    MissingLeadCharNotContained(ClusterName(id), "Known");
  }

  /** A name equals 'Noise' exactly when it is the name of DBSCAN's noise label. */
  lemma NoiseNameIff(id: int)
    ensures ClusterName(id) == "Noise" <==> id == NoiseClusterId
  {
    if TableName(id).None? {
      assert ClusterName(id)[0] == 'U';
    }
  }

  // ---------------------------------------------------------------------
  // Counting rows by name (the boolean filters followed by `.shape[0]`)

  /** Number of names that contain `pat`. */
  function CountContaining(names: seq<string>, pat: string): (n: nat)
    ensures n <= |names|
    decreases |names|
  {
    if names == [] then 0
    else CountContaining(names[..|names| - 1], pat) + (if Contains(names[|names| - 1], pat) then 1 else 0)
  }

  /** Number of names equal to `name`. */
  function CountEqual(names: seq<string>, name: string): (n: nat)
    ensures n <= |names|
    decreases |names|
  {
    if names == [] then 0
    else CountEqual(names[..|names| - 1], name) + (if names[|names| - 1] == name then 1 else 0)
  }

  // ---------------------------------------------------------------------
  // groupby('cluster_id'): sorted distinct keys and the rows of each group

  ghost predicate StrictlyIncreasing(s: seq<int>) {
    forall i, j :: 0 <= i < j < |s| ==> s[i] < s[j]
  }

  /** Inserts `x` into a strictly increasing sequence unless it is already there. */
  function InsertSorted(keys: seq<int>, x: int): (r: seq<int>)
    requires StrictlyIncreasing(keys)
    ensures StrictlyIncreasing(r)
    ensures forall k :: k in r <==> k in keys || k == x
    decreases |keys|
  {
    if keys == [] then [x]
    else if x < keys[0] then [x] + keys
    else if x == keys[0] then keys
    else
      var rest := InsertSorted(keys[1..], x);
      assert forall j :: 0 <= j < |rest| ==> keys[0] < rest[j] by {
        forall j | 0 <= j < |rest| ensures keys[0] < rest[j] {
          if rest[j] != x {
            assert rest[j] in rest;
            var i :| 0 <= i < |keys[1..]| && keys[1..][i] == rest[j];
            assert keys[0] < keys[i + 1];
          }
        }
      }
      [keys[0]] + rest
  }

  /** The group keys of `groupby` with its default `sort=True`: each distinct id once, ascending. */
  function GroupKeys(ids: seq<int>): (keys: seq<int>)
    ensures StrictlyIncreasing(keys)
    ensures forall k :: k in keys <==> k in ids
    decreases |ids|
  {
    if ids == [] then []
    else InsertSorted(GroupKeys(ids[..|ids| - 1]), ids[|ids| - 1])
  }

  /** The positions of the rows in the group of `key`, in table order. */
  function GroupRows(ids: seq<int>, key: int): (rows: seq<nat>)
    ensures forall j :: 0 <= j < |rows| ==> rows[j] < |ids| && ids[rows[j]] == key
    ensures forall i :: 0 <= i < |ids| && ids[i] == key ==> i in rows
    ensures forall a, b :: 0 <= a < b < |rows| ==> rows[a] < rows[b]
    ensures |rows| <= |ids|
    decreases |ids|
  {
    if ids == [] then []
    else GroupRows(ids[..|ids| - 1], key) + (if ids[|ids| - 1] == key then [|ids| - 1] else [])
  }

  // ---------------------------------------------------------------------
  // The counts of the report, in terms of cluster ids

  /** Splits the name column of a non-empty table into the column of all rows but the last, and the last name. */
  lemma NameColumnSplit(ids: seq<int>)
    requires ids != []
    ensures NameColumn(ids)[..|ids| - 1] == NameColumn(ids[..|ids| - 1])
    ensures NameColumn(ids)[|ids| - 1] == ClusterName(ids[|ids| - 1])
  {
    var n := |ids| - 1;
    forall i | 0 <= i < n ensures NameColumn(ids)[..n][i] == NameColumn(ids[..n])[i] {
      assert ids[..n][i] == ids[i];
    }
  }

  /** `novel_taxa_count` is the number of rows of cluster 1. */
  lemma {:induction false} NovelCountIsClusterOne(ids: seq<int>)
    ensures CountContaining(NameColumn(ids), "Novel") == |GroupRows(ids, 1)|
    decreases |ids|
  {
    if ids != [] {
      var n := |ids| - 1;
      NameColumnSplit(ids);
      NovelCountIsClusterOne(ids[..n]);
      NovelNameIff(ids[n]);
    }
  }

  /** `unassigned_reads_count` is the number of rows DBSCAN labelled as noise. */
  lemma {:induction false} UnassignedCountIsNoise(ids: seq<int>)
    ensures CountEqual(NameColumn(ids), "Noise") == |GroupRows(ids, NoiseClusterId)|
    decreases |ids|
  {
    if ids != [] {
      var n := |ids| - 1;
      NameColumnSplit(ids);
      UnassignedCountIsNoise(ids[..n]);
      NoiseNameIff(ids[n]);
    }
  }

  /** `known_species_count` is always 0: no name the table can produce contains 'Known'. */
  lemma {:induction false} KnownCountIsZero(ids: seq<int>)
    ensures CountContaining(NameColumn(ids), "Known") == 0
    decreases |ids|
  {
    if ids != [] {
      var n := |ids| - 1;
      NameColumnSplit(ids);
      KnownCountIsZero(ids[..n]);
      NoNameContainsKnown(ids[n]);
    }
  }

  /** Total size of the groups of `keys`. */
  function GroupSizeTotal(ids: seq<int>, keys: seq<int>): nat
    decreases |keys|
  {
    if keys == [] then 0 else |GroupRows(ids, keys[0])| + GroupSizeTotal(ids, keys[1..])
  }

  /** A row appended to the table joins exactly one group, if its id is among distinct `keys`. */
  lemma {:induction false} GroupSizeTotalAppend(ids: seq<int>, x: int, keys: seq<int>)
    requires StrictlyIncreasing(keys)
    ensures GroupSizeTotal(ids + [x], keys) == GroupSizeTotal(ids, keys) + (if x in keys then 1 else 0)
    decreases |keys|
  {
    if keys != [] {
      assert (ids + [x])[..|ids|] == ids;
      GroupSizeTotalAppend(ids, x, keys[1..]);
      assert x == keys[0] ==> x !in keys[1..];
      assert x in keys <==> x == keys[0] || x in keys[1..];
    }
  }

  /** Groups over distinct keys that cover every id partition the rows. */
  lemma {:induction false} GroupSizeTotalIsRowCount(ids: seq<int>, keys: seq<int>)
    requires StrictlyIncreasing(keys)
    requires forall id :: id in ids ==> id in keys
    ensures GroupSizeTotal(ids, keys) == |ids|
    decreases |ids|
  {
    if ids == [] {
      GroupSizeTotalOfEmpty(keys);
    } else {
      var n := |ids| - 1;
      assert ids == ids[..n] + [ids[n]];
      GroupSizeTotalIsRowCount(ids[..n], keys);
      GroupSizeTotalAppend(ids[..n], ids[n], keys);
    }
  }

  lemma {:induction false} GroupSizeTotalOfEmpty(keys: seq<int>)
    ensures GroupSizeTotal([], keys) == 0
    decreases |keys|
  {
    if keys != [] {
      GroupSizeTotalOfEmpty(keys[1..]);
    }
  }

  // ---------------------------------------------------------------------
  // The report

  datatype Status = Novel | Known | Noise

  datatype Phylum = Chordata | Arthropoda

  datatype ProfileEntry = ProfileEntry(
    clusterId: int,
    name: string,
    status: Status,
    readCount: nat,
    confidence: Option<real>,
    lineage: string)

  datatype Metrics = Metrics(shannonIndex: real, unassignedReadsRate: real, avgConfidence: real)

  datatype Report = Report(
    totalAsvsProcessed: nat,
    knownSpeciesCount: nat,
    novelTaxaCount: nat,
    unassignedReadsCount: nat,
    metrics: Metrics,
    taxonomicProfile: seq<ProfileEntry>)

  /**
   * The random draws of one run: the two uniform placeholders of the metrics,
   * and, for the profile entry at position k, the uniform confidence draw and
   * the `random.choice` between the two phyla.
   */
  datatype ReportDraws = ReportDraws(
    shannonIndex: real,
    avgConfidence: real,
    confidence: nat -> real,
    phylum: nat -> Phylum)

  /** `'Novel' if 'Novel' in name else 'Known' if 'Known' in name else 'Noise'`. */
  function StatusOf(name: string): Status {
    if Contains(name, "Novel") then Novel
    else if Contains(name, "Known") then Known
    else Noise
  }

  function PhylumName(p: Phylum): string {
    match p
    case Chordata => "Phylum Chordata"
    case Arthropoda => "Phylum Arthropoda"
  }

  function Lineage(status: Status, p: Phylum): string {
    if status == Novel then "Closest known: " + PhylumName(p) else "Full classification: ..."
  }

  /** Every cluster is classified 'Novel' if it is cluster 1 and 'Noise' otherwise; none is 'Known'. */
  lemma ClusterStatus(id: int)
    ensures StatusOf(ClusterName(id)) == if id == 1 then Novel else Noise
  {
    NovelNameIff(id);
    NoNameContainsKnown(id);
  }

  /**
   * `entry` is the profile entry the loop body builds for the group at
   * position `k` of the groupby, whose key is `key`.
   */
  ghost predicate IsEntryFor(entry: ProfileEntry, ids: seq<int>, names: seq<string>, k: nat, key: int, draws: ReportDraws)
    requires |names| == |ids|
  {
    var rows := GroupRows(ids, key);
    && |rows| > 0
    && entry.clusterId == key
    && entry.name == names[rows[0]]
    && entry.status == StatusOf(entry.name)
    && entry.readCount == |rows|
    && entry.confidence == (if entry.status == Known then Some(draws.confidence(k)) else None)
    && entry.lineage == Lineage(entry.status, draws.phylum(k))
  }

  /** `profile` is the taxonomic profile of the table with columns `ids` and `names`. */
  ghost predicate IsTaxonomicProfile(profile: seq<ProfileEntry>, ids: seq<int>, names: seq<string>, draws: ReportDraws)
    requires |names| == |ids|
  {
    var keys := GroupKeys(ids);
    && |profile| == |keys|
    && forall k :: 0 <= k < |profile| ==> IsEntryFor(profile[k], ids, names, k, keys[k], draws)
  }

  /** A cluster id that occurs in the table has a non-empty group. */
  lemma GroupOfMemberNonEmpty(ids: seq<int>, key: int)
    requires key in ids
    ensures |GroupRows(ids, key)| > 0
  {
    var i :| 0 <= i < |ids| && ids[i] == key;
    assert i in GroupRows(ids, key);
  }

  /** `group.iloc[0]` is the first row of the table, in table order, whose id is the key. */
  lemma GroupFirstRowIsFirst(ids: seq<int>, key: int)
    requires key in ids
    ensures |GroupRows(ids, key)| > 0
    ensures forall i :: 0 <= i < GroupRows(ids, key)[0] ==> ids[i] != key
  {
    GroupOfMemberNonEmpty(ids, key);
  }

  /**
   * The loop over `groupby('cluster_id')` that appends one entry per group
   * to `report["taxonomic_profile"]`.
   */
  method TaxonomicProfile(ids: seq<int>, names: seq<string>, draws: ReportDraws) returns (profile: seq<ProfileEntry>)
    requires |names| == |ids|
    ensures IsTaxonomicProfile(profile, ids, names, draws)
    ensures ProfileIsOrderedAndComplete(profile, ids)
  {
    var keys := GroupKeys(ids);
    profile := [];
    var k := 0;
    while k < |keys|
      invariant 0 <= k <= |keys|
      invariant |profile| == k
      invariant forall j :: 0 <= j < k ==> IsEntryFor(profile[j], ids, names, j, keys[j], draws)
    {
      var clusterId := keys[k];
      var group := GroupRows(ids, clusterId);
      GroupOfMemberNonEmpty(ids, clusterId);
      var name := names[group[0]];
      var status := StatusOf(name);
      var confidence := if status == Known then Some(draws.confidence(k)) else None;
      var entry := ProfileEntry(clusterId, name, status, |group|, confidence, Lineage(status, draws.phylum(k)));
      assert IsEntryFor(entry, ids, names, k, keys[k], draws);
      ghost var before := profile;
      profile := profile + [entry];
      assert forall j :: 0 <= j < k ==> profile[j] == before[j];
      k := k + 1;
    }
    ProfileShape(profile, ids, names, draws);
  }

  /**
   * One entry per distinct cluster id, in ascending id order, and no empty
   * group.
   */
  ghost predicate ProfileIsOrderedAndComplete(profile: seq<ProfileEntry>, ids: seq<int>) {
    && (forall j, k :: 0 <= j < k < |profile| ==> profile[j].clusterId < profile[k].clusterId)
    && (forall id :: id in ids <==> exists k :: 0 <= k < |profile| && profile[k].clusterId == id)
    && (forall k :: 0 <= k < |profile| ==> profile[k].readCount >= 1)
  }

  lemma ProfileShape(profile: seq<ProfileEntry>, ids: seq<int>, names: seq<string>, draws: ReportDraws)
    requires |names| == |ids|
    requires IsTaxonomicProfile(profile, ids, names, draws)
    ensures ProfileIsOrderedAndComplete(profile, ids)
  {
    var keys := GroupKeys(ids);
    assert forall k :: 0 <= k < |profile| ==> profile[k].clusterId == keys[k];
    forall id | id in ids ensures exists k :: 0 <= k < |profile| && profile[k].clusterId == id {
      var k :| 0 <= k < |keys| && keys[k] == id;
      assert profile[k].clusterId == id;
    }
  }

  function SumReadCounts(profile: seq<ProfileEntry>): nat
    decreases |profile|
  {
    if profile == [] then 0 else profile[0].readCount + SumReadCounts(profile[1..])
  }

  lemma {:induction false} SumReadCountsIsGroupTotal(profile: seq<ProfileEntry>, ids: seq<int>, keys: seq<int>)
    requires |profile| == |keys|
    requires forall k :: 0 <= k < |keys| ==> profile[k].readCount == |GroupRows(ids, keys[k])|
    ensures SumReadCounts(profile) == GroupSizeTotal(ids, keys)
    decreases |keys|
  {
    if keys != [] {
      SumReadCountsIsGroupTotal(profile[1..], ids, keys[1..]);
    }
  }

  /** The read counts of the profile add up to `total_asvs_processed`. */
  lemma ReadCountsSumToTotal(profile: seq<ProfileEntry>, ids: seq<int>, names: seq<string>, draws: ReportDraws)
    requires |names| == |ids|
    requires IsTaxonomicProfile(profile, ids, names, draws)
    ensures SumReadCounts(profile) == |ids|
  {
    var keys := GroupKeys(ids);
    SumReadCountsIsGroupTotal(profile, ids, keys);
    GroupSizeTotalIsRowCount(ids, keys);
  }

  /**
   * What the entry at position `k` says once names come from the table:
   * the cluster's own name, 'Novel' with a "Closest known" lineage for
   * cluster 1, 'Noise' with the fixed lineage for every other cluster, and
   * never a confidence.
   */
  ghost predicate IsClassifiedEntry(entry: ProfileEntry, k: nat, draws: ReportDraws) {
    && entry.name == ClusterName(entry.clusterId)
    && entry.status == (if entry.clusterId == 1 then Novel else Noise)
    && entry.confidence == None
    && entry.lineage == (if entry.clusterId == 1 then "Closest known: " + PhylumName(draws.phylum(k))
                         else "Full classification: ...")
  }

  /** Every entry of the profile built from the assigned names is classified as above. */
  lemma ProfileClassification(profile: seq<ProfileEntry>, ids: seq<int>, draws: ReportDraws)
    requires IsTaxonomicProfile(profile, ids, NameColumn(ids), draws)
    ensures forall k :: 0 <= k < |profile| ==> IsClassifiedEntry(profile[k], k, draws)
  {
    var keys := GroupKeys(ids);
    forall k | 0 <= k < |profile| ensures IsClassifiedEntry(profile[k], k, draws) {
      var rows := GroupRows(ids, keys[k]);
      assert ids[rows[0]] == keys[k];
      ClusterStatus(keys[k]);
    }
  }

  // ---------------------------------------------------------------------
  // The DataFrame handed to the synthesiser

  /**
   * The clustered table. Only the `cluster_id` column and the
   * `assigned_name` column this component adds are modelled; the latter is
   * None until it has been added.
   */
  class ClusteredData {
    var clusterIds: seq<int>
    var assignedNames: Option<seq<string>>

    constructor (ids: seq<int>)
      ensures clusterIds == ids && assignedNames == None
    {
      clusterIds := ids;
      assignedNames := None;
    }

    /**
     * `clustered_data['assigned_name'] = clustered_data['cluster_id'].apply(...)`:
     * adds (or overwrites) the name column; the ids are untouched.
     */
    method AssignNames()
      modifies this
      ensures clusterIds == old(clusterIds)
      ensures assignedNames == Some(NameColumn(clusterIds))
    {
      assignedNames := Some(NameColumn(clusterIds));
    }
  }

  /**
   * `run_conceptual_transformer`: names the rows of `data` in place, then
   * builds the report. On an empty table the source raises (at the first
   * substring filter or at the rate's division, depending on the column's
   * dtype), after the name column has been added; the model reports
   * EmptyTable.
   */
  method RunConceptualTransformer(data: ClusteredData, draws: ReportDraws) returns (result: Result<Report, ReportError>)
    modifies data
    ensures data.clusterIds == old(data.clusterIds)
    ensures data.assignedNames == Some(NameColumn(data.clusterIds))
    ensures result.Failure? <==> |data.clusterIds| == 0
    ensures result.Success? ==>
      var ids, report := data.clusterIds, result.value;
      && report.totalAsvsProcessed == |ids|
      && report.knownSpeciesCount == 0
      && report.novelTaxaCount == |GroupRows(ids, 1)|
      && report.unassignedReadsCount == |GroupRows(ids, NoiseClusterId)|
      && report.metrics.shannonIndex == draws.shannonIndex
      && report.metrics.unassignedReadsRate == report.unassignedReadsCount as real / |ids| as real * 100.0
      && report.metrics.avgConfidence == draws.avgConfidence
      && IsTaxonomicProfile(report.taxonomicProfile, ids, NameColumn(ids), draws)
      && ProfileIsOrderedAndComplete(report.taxonomicProfile, ids)
      && SumReadCounts(report.taxonomicProfile) == |ids|
      && forall k :: 0 <= k < |report.taxonomicProfile| ==> IsClassifiedEntry(report.taxonomicProfile[k], k, draws)
  {
    data.AssignNames();
    var ids := data.clusterIds;
    var names := data.assignedNames.value;

    var total := |ids|;
    var known := CountContaining(names, "Known");
    var novel := CountContaining(names, "Novel");
    var unassigned := CountEqual(names, "Noise");
    if total == 0 {
      return Failure(EmptyTable);
    }
    var metrics := Metrics(draws.shannonIndex, unassigned as real / total as real * 100.0, draws.avgConfidence);

    var profile := TaxonomicProfile(ids, names, draws);
    KnownCountIsZero(ids);
    NovelCountIsClusterOne(ids);
    UnassignedCountIsNoise(ids);
    ReadCountsSumToTotal(profile, ids, names, draws);
    ProfileClassification(profile, ids, draws);
    result := Success(Report(total, known, novel, unassigned, metrics, profile));
  }
}
