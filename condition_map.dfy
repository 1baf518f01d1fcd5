/**
 * `get_condition_name_to_id` (scripts/get_condition_map.py): the registry
 * turned around, display name to condition id, built by a dict
 * comprehension over the registry in its iteration order.
 */
module ConditionMap {
  import opened Dicts

  /**
   * `{name: cid for cid, name in id_to_name.items()}`: each entry assigns
   * `name -> cid`, so a repeated name keeps the position of its first
   * occurrence and the id of its last.
   */
  function NameToId(idToName: Dict<string, string>): Dict<string, string>
  {
    if |idToName| == 0 then []
    else
      var n := |idToName| - 1;
      Put(NameToId(idToName[..n]), idToName[n].1, idToName[n].0)
  }

  /** No two ids share a display name. */
  ghost predicate DistinctNames(idToName: Dict<string, string>)
  {
    forall i, j :: 0 <= i < j < |idToName| ==> idToName[i].1 != idToName[j].1
  }

  /** Entry `i` is the last entry of `idToName` with display name `name`. */
  ghost predicate LastWithName(idToName: Dict<string, string>, i: int, name: string)
  {
    && 0 <= i < |idToName| && idToName[i].1 == name
    && forall j :: i < j < |idToName| ==> idToName[j].1 != name
  }

  /** The inverse is keyed by exactly the display names, each once. */
  lemma {:induction false} NameToIdKeys(idToName: Dict<string, string>)
    ensures Keys(NameToId(idToName)) == Values(idToName)
    ensures DistinctKeys(NameToId(idToName))
  {
    if |idToName| > 0 {
      var n := |idToName| - 1;
      SplitLast(idToName);
      NameToIdKeys(idToName[..n]);
      PutInPlace(NameToId(idToName[..n]), idToName[n].1, idToName[n].0);
    }
  }

  /** When several ids share a name, the one iterated last is kept. */
  lemma {:induction false} NameToIdLastWins(idToName: Dict<string, string>, i: int, name: string)
    requires LastWithName(idToName, i, name)
    ensures Get(NameToId(idToName), name) == Some(idToName[i].0)
  {
    var n := |idToName| - 1;
    var prefix := idToName[..n];
    GetPut(NameToId(prefix), idToName[n].1, idToName[n].0, name);
    if i < n {
      assert LastWithName(prefix, i, name);
      NameToIdLastWins(prefix, i, name);
    }
  }

  /** Every entry `name -> cid` of the inverse points back: `id_to_name[cid] == name`. */
  lemma NameToIdPointsBack(idToName: Dict<string, string>, name: string)
    requires DistinctKeys(idToName)
    requires name in Values(idToName)
    ensures Get(NameToId(idToName), name).Some?
    ensures Get(idToName, Get(NameToId(idToName), name).value) == Some(name)
  {
    var i := LastIndexOf(idToName, name);
    NameToIdLastWins(idToName, i, name);
    GetAt(idToName, i);
  }

  /** The position of the last entry named `name`. */
  lemma {:induction false} LastIndexOf(idToName: Dict<string, string>, name: string) returns (i: int)
    requires name in Values(idToName)
    ensures LastWithName(idToName, i, name)
  {
    var n := |idToName| - 1;
    SplitLast(idToName);
    if idToName[n].1 == name {
      i := n;
    } else {
      i := LastIndexOf(idToName[..n], name);
    }
  }

  /** The inverse is never larger, and is as large exactly when names are distinct. */
  lemma {:induction false} NameToIdSize(idToName: Dict<string, string>)
    ensures |NameToId(idToName)| <= |idToName|
    ensures |NameToId(idToName)| == |idToName| <==> DistinctNames(idToName)
  {
    if |idToName| > 0 {
      var n := |idToName| - 1;
      var prefix := idToName[..n];
      SplitLast(idToName);
      NameToIdSize(prefix);
      NameToIdKeys(prefix);
      if idToName[n].1 in Values(prefix) {
        var j :| 0 <= j < |prefix| && prefix[j].1 == idToName[n].1;
        assert idToName[j].1 == idToName[n].1;
      } else {
        if DistinctNames(idToName) {
          assert DistinctNames(prefix) by {
            forall a, b | 0 <= a < b < |prefix| ensures prefix[a].1 != prefix[b].1 {
              assert idToName[a] == prefix[a] && idToName[b] == prefix[b];
            }
          }
        }
        if DistinctNames(prefix) {
          forall a, b | 0 <= a < b < |idToName| ensures idToName[a].1 != idToName[b].1 {
            if b < n {
              assert idToName[a] == prefix[a] && idToName[b] == prefix[b];
            } else {
              assert idToName[a].1 in Values(prefix) by { assert prefix[a] == idToName[a]; }
            }
          }
        }
      }
    }
  }

  /** With distinct names the inverse is the registry with every pair swapped, in the same order. */
  lemma {:induction false} NameToIdSwaps(idToName: Dict<string, string>)
    requires DistinctNames(idToName)
    ensures |NameToId(idToName)| == |idToName|
    ensures forall i :: 0 <= i < |idToName| ==> NameToId(idToName)[i] == (idToName[i].1, idToName[i].0)
  {
    if |idToName| > 0 {
      var n := |idToName| - 1;
      var prefix := idToName[..n];
      assert DistinctNames(prefix) by {
        forall a, b | 0 <= a < b < |prefix| ensures prefix[a].1 != prefix[b].1 {
          assert idToName[a] == prefix[a] && idToName[b] == prefix[b];
        }
      }
      NameToIdSwaps(prefix);
      NameToIdKeys(prefix);
      SplitLast(idToName);
      assert idToName[n].1 !in Values(prefix);
    }
  }

  /** With distinct ids and distinct names, inverting twice gives the registry back. */
  lemma NameToIdRoundTrip(idToName: Dict<string, string>)
    requires DistinctKeys(idToName) && DistinctNames(idToName)
    ensures NameToId(NameToId(idToName)) == idToName
  {
    var inv := NameToId(idToName);
    NameToIdSwaps(idToName);
    assert DistinctNames(inv) by {
      forall a, b | 0 <= a < b < |inv| ensures inv[a].1 != inv[b].1 {
        assert inv[a].1 == idToName[a].0 && inv[b].1 == idToName[b].0;
      }
    }
    NameToIdSwaps(inv);
  }
}
