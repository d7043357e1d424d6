/** Looking up an earlier upload of the same image: `findExactUpload` by
    content hash and `findNearDuplicateUpload` by perceptual hash within a
    Hamming threshold. The Firestore queries themselves are outside the model;
    their results arrive as snapshots whose consistency with the store the
    callers state. */
module Duplicates {
  import opened Basics
  import opened Fingerprints

  /** One document of the prefix query: its id and its stored
      `fingerprints.dhash` (the empty string when missing). */
  datatype Candidate = Candidate(id: string, dhash: string)

  /** `best`: the position of the chosen candidate in the snapshot and its distance. */
  datatype NearMatch = NearMatch(index: nat, distance: nat)

  /** The distance of every candidate to the new hash, in snapshot order. */
  function Distances(dhash: string, candidates: seq<Candidate>): (d: seq<Distance>)
    ensures |d| == |candidates|
    ensures forall i :: 0 <= i < |candidates| ==> d[i] == DistanceOf(dhash, candidates[i].dhash)
  {
    seq(|candidates|, i requires 0 <= i < |candidates| => DistanceOf(dhash, candidates[i].dhash))
  }

  /** `m` is the first minimum within the threshold among the first `n`
      distances. */
  predicate BestAmongFirst(dists: seq<Distance>, threshold: int, m: NearMatch, n: nat)
  {
    && n <= |dists|
    && m.index < n
    && dists[m.index] == Finite(m.distance)
    && m.distance <= threshold
    && (forall i :: 0 <= i < n && dists[i].Finite? ==> m.distance <= dists[i].bits)
    && (forall i :: 0 <= i < m.index && dists[i].Finite? ==> m.distance < dists[i].bits)
  }

  /** The specification of the selection: the candidate of minimal distance
      within the threshold, the first one on a tie. */
  predicate IsBestMatch(dhash: string, candidates: seq<Candidate>, threshold: int, m: NearMatch)
  {
    BestAmongFirst(Distances(dhash, candidates), threshold, m, |candidates|)
  }

  /** No candidate is within the threshold. */
  predicate NoneQualifies(dhash: string, candidates: seq<Candidate>, threshold: int)
  {
    forall i :: 0 <= i < |candidates| ==> !DistanceOf(dhash, candidates[i].dhash).AtMost(threshold)
  }

  /** `findNearDuplicateUpload` over the snapshot of the prefix query
      (at most 25 uploads sharing the 4-digit prefix): keep the closest
      candidate within the threshold, replacing it only on a strictly
      smaller distance. */
  method FindNearDuplicate(dhash: string, candidates: seq<Candidate>, threshold: int) returns (best: Option<NearMatch>)
    ensures dhash == "" ==> best == None
    ensures best.None? <==> dhash == "" || NoneQualifies(dhash, candidates, threshold)
    ensures best.Some? ==> IsBestMatch(dhash, candidates, threshold, best.value)
  {
    if dhash == "" {
      return None;
    }
    ghost var dists := Distances(dhash, candidates);
    best := None;
    for k := 0 to |candidates|
      invariant best.None? <==> forall i :: 0 <= i < k ==> !dists[i].AtMost(threshold)
      invariant best.Some? ==> BestAmongFirst(dists, threshold, best.value, k)
    {
      var distance := HammingDistance(dhash, candidates[k].dhash);
      assert distance == dists[k];
      if distance.AtMost(threshold) && (best.None? || distance.bits < best.value.distance) {
        best := Some(NearMatch(k, distance.bits));
      }
    }
  }

  /** A candidate with an identical perceptual hash is chosen when no earlier
      candidate is at distance 0 and the threshold is not negative. */
  lemma IdenticalHashIsBest(dhash: string, candidates: seq<Candidate>, threshold: int, k: nat)
    requires dhash != "" && k < |candidates| && candidates[k].dhash == dhash
    requires threshold >= 0
    requires forall i :: 0 <= i < k ==> DistanceOf(dhash, candidates[i].dhash) != Finite(0)
    ensures IsBestMatch(dhash, candidates, threshold, NearMatch(k, 0))
  {
    DistanceToSelf(dhash);
    forall i | 0 <= i < k && DistanceOf(dhash, candidates[i].dhash).Finite?
      ensures 0 < DistanceOf(dhash, candidates[i].dhash).bits
    {
    }
  }

  /** The selection is unique: the specification determines the match. */
  lemma BestMatchUnique(dhash: string, candidates: seq<Candidate>, threshold: int, m1: NearMatch, m2: NearMatch)
    requires IsBestMatch(dhash, candidates, threshold, m1)
    requires IsBestMatch(dhash, candidates, threshold, m2)
    ensures m1 == m2
  {
  }

  /** One document of the exact query: its id and its stored SHA-256 digest. */
  datatype StoredHash = StoredHash(id: string, sha256: string)

  /** `findExactUpload`: the first upload whose digest equals the new one
      (`limit(1)` in the store's order). */
  function FindExact(sha256: string, uploads: seq<StoredHash>): (r: Option<nat>)
    ensures r.Some? ==> r.value < |uploads| && uploads[r.value].sha256 == sha256
    ensures r.Some? ==> forall i :: 0 <= i < r.value ==> uploads[i].sha256 != sha256
    ensures r.None? <==> forall i :: 0 <= i < |uploads| ==> uploads[i].sha256 != sha256
  {
    if |uploads| == 0 then None
    else if uploads[0].sha256 == sha256 then Some(0)
    else
      var rest := FindExact(sha256, uploads[1..]);
      assert forall i :: 1 <= i < |uploads| ==> uploads[i] == uploads[1..][i - 1];
      match rest
      case None => None
      case Some(k) => Some(k + 1)
  }
}
