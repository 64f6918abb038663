/**
 Key-wise, last-write-wins merging of partial mappings: Python's
 `dict.update`, and the fold of it over a stream of updates.
 */
module MapMerge {

  /** `result` is `acc` updated by `upd`: every key of either is present,
      keys of `upd` carry `upd`'s value and the others keep `acc`'s. */
  ghost predicate UpdatedBy<K, V>(acc: map<K, V>, upd: map<K, V>, result: map<K, V>)
  {
    && result.Keys == acc.Keys + upd.Keys
    && (forall k :: k in upd ==> result[k] == upd[k])
    && (forall k :: k in acc && k !in upd ==> result[k] == acc[k])
  }

  /** `acc.update(upd)`. */
  function Update<K, V>(acc: map<K, V>, upd: map<K, V>): (r: map<K, V>)
    ensures UpdatedBy(acc, upd, r)
    ensures acc.Keys <= r.Keys
  {
    acc + upd
  }

  /** The accumulated mapping after applying `ups` to `acc` in order. */
  function FoldUpdate<K, V>(acc: map<K, V>, ups: seq<map<K, V>>): map<K, V>
    decreases |ups|
  {
    if ups == [] then acc else FoldUpdate(Update(acc, ups[0]), ups[1..])
  }

  /** Update number `i` of `ups` mentions key `k`. */
  ghost predicate WrittenBy<K, V>(ups: seq<map<K, V>>, k: K, i: int)
  {
    0 <= i < |ups| && k in ups[i]
  }

  /** Update number `i` is the last one of `ups` that mentions `k`. */
  ghost predicate LastWriter<K, V>(ups: seq<map<K, V>>, k: K, i: int)
  {
    WrittenBy(ups, k, i) && forall j :: i < j < |ups| ==> k !in ups[j]
  }

  /** The fold is the key-wise union of the start and all updates, and the
      value of a key is the one written by the last update that mentions
      it, or the starting value when no update mentions it. */
  lemma {:induction false} FoldUpdateLastWriteWins<K, V>(acc: map<K, V>, ups: seq<map<K, V>>, k: K)
    ensures k in FoldUpdate(acc, ups) <==> k in acc || exists i :: WrittenBy(ups, k, i)
    ensures forall i :: LastWriter(ups, k, i) ==> FoldUpdate(acc, ups)[k] == ups[i][k]
    ensures k in acc && (forall i :: !WrittenBy(ups, k, i)) ==> FoldUpdate(acc, ups)[k] == acc[k]
    decreases |ups|
  {
    if ups != [] {
      var acc' := Update(acc, ups[0]);
      var rest := ups[1..];
      FoldUpdateLastWriteWins(acc', rest, k);
      forall i | 0 <= i
        ensures WrittenBy(rest, k, i) <==> WrittenBy(ups, k, i + 1)
      {
        if i < |rest| {
          assert rest[i] == ups[i + 1];
        }
      }
      if k in FoldUpdate(acc, ups) && !(k in acc) {
        if k in ups[0] {
          assert WrittenBy(ups, k, 0);
        } else {
          var i :| WrittenBy(rest, k, i);
          assert WrittenBy(ups, k, i + 1);
        }
      }
      if exists i :: WrittenBy(ups, k, i) {
        var i :| WrittenBy(ups, k, i);
        if i > 0 {
          assert WrittenBy(rest, k, i - 1);
        }
      }
      forall i | LastWriter(ups, k, i)
        ensures FoldUpdate(acc, ups)[k] == ups[i][k]
      {
        if i == 0 {
          assert forall j :: !WrittenBy(rest, k, j);
        } else {
          assert LastWriter(rest, k, i - 1);
        }
      }
      if k in acc && (forall i :: !WrittenBy(ups, k, i)) {
        assert k !in ups[0] by { assert !WrittenBy(ups, k, 0); }
        assert forall j :: !WrittenBy(rest, k, j);
      }
    }
  }

  /** No key is ever removed by a sequence of updates. */
  lemma {:induction false} FoldUpdateKeepsKeys<K, V>(acc: map<K, V>, ups: seq<map<K, V>>)
    ensures acc.Keys <= FoldUpdate(acc, ups).Keys
    decreases |ups|
  {
    if ups != [] {
      FoldUpdateKeepsKeys(Update(acc, ups[0]), ups[1..]);
    }
  }
}
