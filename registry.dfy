/**
 * The condition registry (`get_available_conditions`, api.py): a map from
 * condition id to display name, collected from the metadata of the items in
 * the vector store, with a fixed three-condition map when reading the store
 * fails in any way. The store read itself is not modelled: its outcome is an
 * input.
 */
module Registry {
  import opened Dicts

  /** The two metadata keys the registry looks at; `None` when a key is absent. */
  datatype Metadata = Metadata(conditionId: Option<string>, conditionName: Option<string>)

  /** `cond_id and cond_name`: both keys present and non-empty. */
  predicate Usable(m: Metadata)
  {
    && m.conditionId.Some? && m.conditionId.value != ""
    && m.conditionName.Some? && m.conditionName.value != ""
  }

  /** The map returned when the vector store cannot be read. */
  const FallbackConditions: Dict<string, string> := [
    ("cond_type_2_diabetes", "دیابت نوع ۲"),
    ("cond_hypertension", "فشار خون بالا"),
    ("cond_asthma", "آسم")
  ]

  /** One turn of the collecting loop: a usable entry whose id is new is added. */
  function Absorb(conditions: Dict<string, string>, m: Metadata): Dict<string, string>
  {
    if Usable(m) && m.conditionId.value !in Keys(conditions)
    then conditions + [(m.conditionId.value, m.conditionName.value)]
    else conditions
  }

  /** The registry after the loop has seen every entry of `metas`, in order. */
  function Collect(metas: seq<Metadata>): Dict<string, string>
  {
    if |metas| == 0 then []
    else Absorb(Collect(metas[..|metas| - 1]), metas[|metas| - 1])
  }

  /** The registry for a store read that either failed (`None`) or returned `metas`. */
  function AvailableConditions(read: Option<seq<Metadata>>): Dict<string, string>
  {
    match read
    case None => FallbackConditions
    case Some(metas) => Collect(metas)
  }

  /** Entry `i` is the first usable entry of `metas` that carries id `k`. */
  ghost predicate FirstUsableWithId(metas: seq<Metadata>, i: int, k: string)
  {
    && 0 <= i < |metas| && Usable(metas[i]) && metas[i].conditionId.value == k
    && forall j :: 0 <= j < i ==> !(Usable(metas[j]) && metas[j].conditionId.value == k)
  }

  /** The collecting loop of `get_available_conditions`. */
  method ExtractConditions(metas: seq<Metadata>) returns (conditions: Dict<string, string>)
    ensures conditions == Collect(metas)
  {
    conditions := [];
    var i := 0;
    while i < |metas|
      invariant 0 <= i <= |metas|
      invariant conditions == Collect(metas[..i])
    {
      var m := metas[i];
      if m.conditionId.Some? && m.conditionId.value != ""
         && m.conditionName.Some? && m.conditionName.value != ""
         && m.conditionId.value !in Keys(conditions)
      {
        conditions := conditions + [(m.conditionId.value, m.conditionName.value)];
      }
      assert metas[..i + 1][..i] == metas[..i];
      i := i + 1;
    }
    assert metas[..i] == metas;
  }

  /** `get_available_conditions`, given the outcome of the store read. */
  method GetAvailableConditions(read: Option<seq<Metadata>>) returns (conditions: Dict<string, string>)
    ensures read.None? ==> conditions == FallbackConditions
    ensures read.Some? ==> conditions == Collect(read.value)
  {
    if read.None? {
      conditions := FallbackConditions;
    } else {
      conditions := ExtractConditions(read.value);
    }
  }

  /** The registry's ids are exactly the ids of the usable entries, each once. */
  lemma {:induction false} CollectKeys(metas: seq<Metadata>, k: string)
    ensures k in Keys(Collect(metas)) <==>
      exists i :: 0 <= i < |metas| && Usable(metas[i]) && metas[i].conditionId.value == k
    ensures DistinctKeys(Collect(metas))
  {
    if |metas| > 0 {
      var n := |metas| - 1;
      var prefix := metas[..n];
      CollectKeys(prefix, k);
      var c := Collect(prefix);
      var m := metas[n];
      if Usable(m) && m.conditionId.value !in Keys(c) {
        KeysSnoc(c, m.conditionId.value, m.conditionName.value);
      }
      if k in Keys(Collect(metas)) {
        if k in Keys(c) {
          var i :| 0 <= i < |prefix| && Usable(prefix[i]) && prefix[i].conditionId.value == k;
          assert metas[i] == prefix[i];
        } else {
          assert Usable(metas[n]) && metas[n].conditionId.value == k;
        }
      }
      if exists i :: 0 <= i < |metas| && Usable(metas[i]) && metas[i].conditionId.value == k {
        var i :| 0 <= i < |metas| && Usable(metas[i]) && metas[i].conditionId.value == k;
        if i < n {
          assert prefix[i] == metas[i];
        }
      }
    }
  }

  /** Every name in the registry is non-empty. */
  lemma {:induction false} CollectNamesNonEmpty(metas: seq<Metadata>)
    ensures forall e :: e in Collect(metas) ==> e.0 != "" && e.1 != ""
  {
    if |metas| > 0 {
      CollectNamesNonEmpty(metas[..|metas| - 1]);
    }
  }

  /** The first usable entry carrying an id decides that id's name. */
  lemma {:induction false} CollectFirstWins(metas: seq<Metadata>, i: int, k: string)
    requires FirstUsableWithId(metas, i, k)
    ensures Get(Collect(metas), k) == Some(metas[i].conditionName.value)
  {
    var n := |metas| - 1;
    var prefix := metas[..n];
    var c := Collect(prefix);
    var m := metas[n];
    if i == n {
      CollectKeys(prefix, k);
      assert k !in Keys(c);
      GetSnoc(c, k, m.conditionName.value, k);
    } else {
      assert FirstUsableWithId(prefix, i, k) by {
        forall j | 0 <= j < i ensures prefix[j] == metas[j] { }
      }
      CollectFirstWins(prefix, i, k);
      if Usable(m) && m.conditionId.value !in Keys(c) {
        GetSnoc(c, m.conditionId.value, m.conditionName.value, k);
      }
    }
  }

  /** A failed store read yields exactly the three fixed conditions. */
  lemma FallbackRegistry()
    ensures AvailableConditions(None) == FallbackConditions
    ensures Keys(AvailableConditions(None)) == {"cond_type_2_diabetes", "cond_hypertension", "cond_asthma"}
    ensures Get(AvailableConditions(None), "cond_asthma") == Some("آسم")
  {
    var f := FallbackConditions;
    assert f[0].0 == "cond_type_2_diabetes" && f[1].0 == "cond_hypertension" && f[2].0 == "cond_asthma";
    assert Keys(f) == {f[0].0, f[1].0, f[2].0};
  }
}
