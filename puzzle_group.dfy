/**
 * The value part of a client-side piece group: its id, its position and
 * the `puzzles` map from piece id to piece, kept as the list of its keys
 * in insertion order (the order a JavaScript `Map` iterates in). The value
 * under a key is the piece with that id.
 */
module PuzzleGroup {
  import opened PuzzleCollider

  datatype Group = Group(id: int, position: Position, puzzles: seq<nat>)

  predicate NoDuplicates(keys: seq<nat>) {
    forall i, j :: 0 <= i < j < |keys| ==> keys[i] != keys[j]
  }

  /** `Map.set`: a new key goes last; an existing key keeps its place. */
  function MapSet(keys: seq<nat>, k: nat): (r: seq<nat>)
    ensures k in r && forall q :: q in r <==> q in keys || q == k
    ensures NoDuplicates(keys) ==> NoDuplicates(r)
    ensures |keys| <= |r|
  {
    if k in keys then keys else keys + [k]
  }

  /** `Map.delete`: the key is dropped, the others keep their order. */
  function MapDelete(keys: seq<nat>, k: nat): (r: seq<nat>)
    ensures forall q :: q in r <==> q in keys && q != k
    ensures NoDuplicates(keys) ==> NoDuplicates(r)
    ensures |r| <= |keys|
    decreases |keys|
  {
    if keys == [] then []
    else if keys[0] == k then MapDelete(keys[1..], k)
    else
      var rest := MapDelete(keys[1..], k);
      assert NoDuplicates(keys) ==> keys[0] !in keys[1..];
      [keys[0]] + rest
  }

  /** Setting every key of `ks`, in order. */
  function MapSetAll(keys: seq<nat>, ks: seq<nat>): (r: seq<nat>)
    ensures forall q :: q in r <==> q in keys || q in ks
    ensures NoDuplicates(keys) ==> NoDuplicates(r)
    ensures |keys| <= |r|
    decreases |ks|
  {
    if ks == [] then keys else MapSetAll(MapSet(keys, ks[0]), ks[1..])
  }

  lemma {:induction false} MapSetAllSnoc(keys: seq<nat>, ks: seq<nat>, k: nat)
    ensures MapSetAll(keys, ks + [k]) == MapSet(MapSetAll(keys, ks), k)
    decreases |ks|
  {
    if ks == [] {
      assert [k][1..] == [];
    } else {
      assert (ks + [k])[1..] == ks[1..] + [k];
      MapSetAllSnoc(MapSet(keys, ks[0]), ks[1..], k);
    }
  }

  /** Setting a key twice is setting it once. */
  lemma MapSetIdempotent(keys: seq<nat>, k: nat)
    ensures MapSet(MapSet(keys, k), k) == MapSet(keys, k)
  {
  }

  /** Deleting a key just added to a map that did not hold it restores the map. */
  lemma {:induction false} MapDeleteOfSet(keys: seq<nat>, k: nat)
    requires k !in keys
    ensures MapDelete(MapSet(keys, k), k) == keys
    decreases |keys|
  {
    var s := keys + [k];
    assert MapSet(keys, k) == s;
    if keys == [] {
      assert s[1..] == [];
    } else {
      assert s[0] == keys[0] && s[0] != k;
      assert s[1..] == keys[1..] + [k];
      MapDeleteOfSet(keys[1..], k);
      assert MapDelete(s, k) == [keys[0]] + MapDelete(s[1..], k);
      assert [keys[0]] + keys[1..] == keys;
    }
  }

  /** Deleting an absent key changes nothing. */
  lemma {:induction false} MapDeleteAbsent(keys: seq<nat>, k: nat)
    requires k !in keys
    ensures MapDelete(keys, k) == keys
    decreases |keys|
  {
    if keys != [] {
      MapDeleteAbsent(keys[1..], k);
    }
  }
}
