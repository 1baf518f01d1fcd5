/**
 * Clinical-data key normalisation (api.py, written out three times: in
 * `start_chat`, `generate_educational_note` and `update_clinical_data`).
 * A clinical-data dict that is non-empty and has neither of the Persian keys
 * for age and gender gets its nine known English keys renamed to Persian;
 * every other key is copied after the renamed ones.
 */
module ClinicalKeys {
  import opened Dicts

  /** `key_mapping`: English key to Persian key, in the source's order. */
  const KeyMapping: Dict<string, string> := [
    ("age", "سن"),
    ("gender", "جنسیت"),
    ("weight", "وزن"),
    ("height", "قد"),
    ("blood_pressure", "فشار خون"),
    ("fasting_blood_sugar", "قند خون ناشتا"),
    ("cholesterol", "کلسترول"),
    ("current_medications", "داروهای فعلی"),
    ("medical_history", "سابقه بیماری")
  ]

  const AgeKey: string := "سن"
  const GenderKey: string := "جنسیت"

  /** The data is left as it is: empty, or already carrying a Persian age or gender key. */
  predicate AlreadyPersian(data: Dict<string, string>)
  {
    |data| == 0 || AgeKey in Keys(data) || GenderKey in Keys(data)
  }

  /** The target keys of a mapping are pairwise distinct. */
  ghost predicate TargetsDistinct(mapping: Dict<string, string>)
  {
    forall i, j :: 0 <= i < j < |mapping| ==> mapping[i].1 != mapping[j].1
  }

  /** `persian_data` after the renaming loop has handled the first `n` entries of `mapping`. */
  function Renamed(data: Dict<string, string>, mapping: Dict<string, string>, n: nat): Dict<string, string>
    requires n <= |mapping|
  {
    if n == 0 then []
    else
      var acc := Renamed(data, mapping, n - 1);
      var (english, persian) := mapping[n - 1];
      match Get(data, english)
      case Some(v) => Put(acc, persian, v)
      case None => acc
  }

  /** `persian_data` after the copying loop has handled the first `n` entries of `data`. */
  function WithExtras(base: Dict<string, string>, data: Dict<string, string>, mapping: Dict<string, string>, n: nat): Dict<string, string>
    requires n <= |data|
  {
    if n == 0 then base
    else
      var acc := WithExtras(base, data, mapping, n - 1);
      var (k, v) := data[n - 1];
      if k in Keys(mapping) then acc else Put(acc, k, v)
  }

  /** The normalised clinical data. */
  function Normalise(data: Dict<string, string>): Dict<string, string>
  {
    if AlreadyPersian(data) then data
    else WithExtras(Renamed(data, KeyMapping, |KeyMapping|), data, KeyMapping, |data|)
  }

  /** The target keys produced from the source keys present in `data`. */
  function RenamedKeys(data: Dict<string, string>, mapping: Dict<string, string>, n: nat): set<string>
    requires n <= |mapping|
  {
    set i | 0 <= i < n && mapping[i].0 in Keys(data) :: mapping[i].1
  }

  /** The first loop of the conversion block: the mapping's source keys, in mapping order. */
  method RenameKnownKeys(data: Dict<string, string>, mapping: Dict<string, string>) returns (persianData: Dict<string, string>)
    ensures persianData == Renamed(data, mapping, |mapping|)
  {
    persianData := [];
    var i := 0;
    while i < |mapping|
      invariant 0 <= i <= |mapping|
      invariant persianData == Renamed(data, mapping, i)
    {
      var english := mapping[i].0;
      if english in Keys(data) {
        persianData := Put(persianData, mapping[i].1, Get(data, english).value);
      }
      i := i + 1;
    }
  }

  /** The second loop of the conversion block: every key the mapping does not rename, in the data's order. */
  method CopyExtraKeys(base: Dict<string, string>, data: Dict<string, string>, mapping: Dict<string, string>)
    returns (persianData: Dict<string, string>)
    ensures persianData == WithExtras(base, data, mapping, |data|)
  {
    persianData := base;
    var j := 0;
    while j < |data|
      invariant 0 <= j <= |data|
      invariant persianData == WithExtras(base, data, mapping, j)
    {
      if data[j].0 !in Keys(mapping) {
        persianData := Put(persianData, data[j].0, data[j].1);
      }
      j := j + 1;
    }
  }

  /** The conversion block, as the three endpoints run it. */
  method NormaliseClinicalData(data: Dict<string, string>) returns (result: Dict<string, string>)
    ensures result == Normalise(data)
  {
    if |data| > 0 && AgeKey !in Keys(data) && GenderKey !in Keys(data) {
      var persianData := RenameKnownKeys(data, KeyMapping);
      result := CopyExtraKeys(persianData, data, KeyMapping);
    } else {
      result := data;
    }
  }

  lemma PersianKeysDistinct()
    ensures TargetsDistinct(KeyMapping)
  {
  }

  /** One more mapping entry adds its target key exactly when its source key is present. */
  lemma RenamedKeysStep(data: Dict<string, string>, mapping: Dict<string, string>, n: nat)
    requires 0 < n <= |mapping|
    ensures RenamedKeys(data, mapping, n) ==
      RenamedKeys(data, mapping, n - 1) + (if mapping[n - 1].0 in Keys(data) then {mapping[n - 1].1} else {})
  {
    var prev := RenamedKeys(data, mapping, n - 1);
    forall x | x in RenamedKeys(data, mapping, n)
      ensures x in prev || (mapping[n - 1].0 in Keys(data) && x == mapping[n - 1].1)
    {
      var i :| 0 <= i < n && mapping[i].0 in Keys(data) && x == mapping[i].1;
      if i < n - 1 {
        assert x in prev;
      }
    }
  }

  /** With distinct targets, an entry's target key is not produced by any earlier entry. */
  lemma RenamedKeysFresh(data: Dict<string, string>, mapping: Dict<string, string>, n: nat)
    requires 0 < n <= |mapping| && TargetsDistinct(mapping)
    ensures mapping[n - 1].1 !in RenamedKeys(data, mapping, n - 1)
  {
    forall i | 0 <= i < n - 1
      ensures mapping[i].1 != mapping[n - 1].1
    {
    }
  }

  /** The renaming loop yields one entry per source key present, each under its target key. */
  lemma {:induction false} RenamedShape(data: Dict<string, string>, mapping: Dict<string, string>, n: nat)
    requires n <= |mapping| && TargetsDistinct(mapping)
    ensures Keys(Renamed(data, mapping, n)) == RenamedKeys(data, mapping, n)
    ensures DistinctKeys(Renamed(data, mapping, n))
  {
    if n > 0 {
      RenamedShape(data, mapping, n - 1);
      RenamedKeysStep(data, mapping, n);
      var (english, persian) := mapping[n - 1];
      if Get(data, english).Some? {
        PutInPlace(Renamed(data, mapping, n - 1), persian, Get(data, english).value);
      }
    }
  }

  /** Each target key the loop has reached holds the value of its source key, if present. */
  lemma {:induction false} RenamedGet(data: Dict<string, string>, mapping: Dict<string, string>, n: nat, i: nat)
    requires i < n <= |mapping| && TargetsDistinct(mapping)
    ensures Get(Renamed(data, mapping, n), mapping[i].1) == Get(data, mapping[i].0)
  {
    var acc := Renamed(data, mapping, n - 1);
    var (english, persian) := mapping[n - 1];
    if i < n - 1 {
      RenamedGet(data, mapping, n - 1, i);
      assert persian != mapping[i].1;
    } else {
      RenamedShape(data, mapping, n - 1);
      RenamedKeysFresh(data, mapping, n);
    }
    if Get(data, english).Some? {
      GetPut(acc, persian, Get(data, english).value, mapping[i].1);
    }
  }

  /** The copying loop adds the data's keys the mapping does not rename, each once. */
  lemma {:induction false} WithExtrasKeys(base: Dict<string, string>, data: Dict<string, string>, mapping: Dict<string, string>, n: nat)
    requires n <= |data| && DistinctKeys(base)
    ensures Keys(WithExtras(base, data, mapping, n)) == Keys(base) + (Keys(data[..n]) - Keys(mapping))
    ensures DistinctKeys(WithExtras(base, data, mapping, n))
  {
    if n > 0 {
      WithExtrasKeys(base, data, mapping, n - 1);
      var english := Keys(mapping);
      var (key, v) := data[n - 1];
      assert data[..n] == data[..n - 1] + [(key, v)];
      KeysSnoc(data[..n - 1], key, v);
      if key in english {
        assert Keys(data[..n]) - english == Keys(data[..n - 1]) - english;
      } else {
        assert Keys(data[..n]) - english == (Keys(data[..n - 1]) - english) + {key};
        PutInPlace(WithExtras(base, data, mapping, n - 1), key, v);
      }
    }
  }

  /** A key copied by the loop overwrites whatever the renaming put under it. */
  lemma {:induction false} WithExtrasGet(base: Dict<string, string>, data: Dict<string, string>, mapping: Dict<string, string>, n: nat, k: string)
    requires n <= |data| && DistinctKeys(data)
    ensures Get(WithExtras(base, data, mapping, n), k) ==
      if k in Keys(data[..n]) && k !in Keys(mapping) then Get(data, k) else Get(base, k)
  {
    if n > 0 {
      WithExtrasGet(base, data, mapping, n - 1, k);
      var acc := WithExtras(base, data, mapping, n - 1);
      assert data[..n] == data[..n - 1] + [data[n - 1]];
      KeysSnoc(data[..n - 1], data[n - 1].0, data[n - 1].1);
      if data[n - 1].0 !in Keys(mapping) {
        GetPut(acc, data[n - 1].0, data[n - 1].1, k);
        GetAt(data, n - 1);
      }
    }
  }

  /** Empty data, or data already keyed in Persian, is returned unchanged. */
  lemma NormaliseKeepsPersian(data: Dict<string, string>)
    requires AlreadyPersian(data)
    ensures Normalise(data) == data
  {
  }

  /**
   * Otherwise: each English key present is renamed with its value kept, every
   * other key is copied, and on a collision the copied key's value wins.
   */
  lemma NormaliseRenames(data: Dict<string, string>)
    requires DistinctKeys(data) && !AlreadyPersian(data)
    ensures Keys(Normalise(data)) == RenamedKeys(data, KeyMapping, |KeyMapping|) + (Keys(data) - Keys(KeyMapping))
    ensures DistinctKeys(Normalise(data))
    ensures forall k :: k in Keys(data) && k !in Keys(KeyMapping) ==> Get(Normalise(data), k) == Get(data, k)
    ensures forall i :: 0 <= i < |KeyMapping| && KeyMapping[i].1 !in Keys(data) ==>
      Get(Normalise(data), KeyMapping[i].1) == Get(data, KeyMapping[i].0)
  {
    var base := Renamed(data, KeyMapping, |KeyMapping|);
    PersianKeysDistinct();
    RenamedShape(data, KeyMapping, |KeyMapping|);
    assert data[..|data|] == data;
    WithExtrasKeys(base, data, KeyMapping, |data|);
    forall k | k in Keys(data) && k !in Keys(KeyMapping)
      ensures Get(Normalise(data), k) == Get(data, k)
    {
      WithExtrasGet(base, data, KeyMapping, |data|, k);
    }
    forall i | 0 <= i < |KeyMapping| && KeyMapping[i].1 !in Keys(data)
      ensures Get(Normalise(data), KeyMapping[i].1) == Get(data, KeyMapping[i].0)
    {
      WithExtrasGet(base, data, KeyMapping, |data|, KeyMapping[i].1);
      RenamedGet(data, KeyMapping, |KeyMapping|, i);
    }
  }
}
