/**
 * Nested configuration dictionaries (`config/manager.py`): walking a dotted
 * key path, writing at one, and the recursive merge of one layer into
 * another.  A configuration is a `map<string, Json>` whose values may be
 * further objects; nested dicts are values here, so a write rebuilds the
 * objects along its path instead of mutating them in place.
 */
module ConfigTree {
  import opened Wrappers
  import opened Json

  type Dict = map<string, Json>

  const SetTypeError := "TypeError: configuration path runs through a non-dict value"

  /**
   * The value reached from `v` by walking `keys` through nested objects, or
   * None when a segment is missing or an intermediate value is not a dict.
   */
  function Lookup(v: Json, keys: seq<string>): Option<Json>
    decreases |keys|
  {
    if |keys| == 0 then Some(v)
    else if v.JObj? && keys[0] in v.m then Lookup(v.m[keys[0]], keys[1..])
    else None
  }

  /** Walking `a + b` is walking `a` and then `b` from where it ended. */
  lemma {:induction false} LookupConcat(v: Json, a: seq<string>, b: seq<string>)
    ensures Lookup(v, a + b) == (match Lookup(v, a) case Some(w) => Lookup(w, b) case None => None)
    decreases |a|
  {
    if |a| > 0 {
      assert (a + b)[0] == a[0];
      assert (a + b)[1..] == a[1..] + b;
      if v.JObj? && a[0] in v.m {
        LookupConcat(v.m[a[0]], a[1..], b);
      }
    } else {
      assert a + b == b;
    }
  }

  /**
   * `set`'s walk: missing intermediate keys become empty dicts, the last key
   * is assigned, and an existing non-dict intermediate raises TypeError
   * before anything is created.
   */
  function SetPath(m: Dict, keys: seq<string>, value: Json): Result<Dict>
    requires |keys| >= 1
    decreases |keys|
  {
    if |keys| == 1 then Ok(m[keys[0] := value])
    else
      var child := if keys[0] in m then m[keys[0]] else JObj(map[]);
      if !child.JObj? then Err(SetTypeError)
      else match SetPath(child.m, keys[1..], value)
        case Ok(inner) => Ok(m[keys[0] := JObj(inner)])
        case Err(e) => Err(e)
  }

  /** After a successful write, reading the same path gives the value written. */
  lemma {:induction false} GetAfterSet(m: Dict, keys: seq<string>, value: Json)
    requires |keys| >= 1 && SetPath(m, keys, value).Ok?
    ensures Lookup(JObj(SetPath(m, keys, value).value), keys) == Some(value)
    decreases |keys|
  {
    if |keys| > 1 {
      var child := if keys[0] in m then m[keys[0]] else JObj(map[]);
      GetAfterSet(child.m, keys[1..], value);
    }
  }

  /**
   * A write fails exactly when some proper prefix of the path already leads
   * to a value that is not a dict.
   */
  lemma {:induction false} SetFailsIffBlocked(m: Dict, keys: seq<string>, value: Json)
    requires |keys| >= 1
    ensures SetPath(m, keys, value).Err? <==>
              exists i :: 1 <= i < |keys| && Lookup(JObj(m), keys[..i]).Some? && !Lookup(JObj(m), keys[..i]).value.JObj?
    decreases |keys|
  {
    if |keys| > 1 {
      var k := keys[0];
      var child := if k in m then m[k] else JObj(map[]);
      if k !in m {
        // Every longer prefix starts with a missing key; the write creates the rest.
        forall i | 1 <= i < |keys|
          ensures Lookup(JObj(m), keys[..i]).None?
        {
          assert keys[..i][0] == k;
        }
        SetFailsIffBlocked(map[], keys[1..], value);
        forall i | 1 <= i < |keys| - 1
          ensures Lookup(JObj(map[]), keys[1..][..i]).None?
        {
          assert keys[1..][..i][0] == keys[1];
        }
      } else if !m[k].JObj? {
        assert keys[..1] == [k];
        assert Lookup(JObj(m), keys[..1]) == Some(m[k]);
      } else {
        SetFailsIffBlocked(m[k].m, keys[1..], value);
        assert Lookup(JObj(m), keys[..1]) == Some(m[k]);
        forall i | 2 <= i < |keys|
          ensures Lookup(JObj(m), keys[..i]) == Lookup(m[k], keys[1..][..i - 1])
        {
          assert keys[..i][0] == k;
          assert keys[..i][1..] == keys[1..][..i - 1];
        }
        if SetPath(m, keys, value).Err? {
          var j :| 1 <= j < |keys| - 1 && Lookup(m[k], keys[1..][..j]).Some? && !Lookup(m[k], keys[1..][..j]).value.JObj?;
          assert Lookup(JObj(m), keys[..j + 1]) == Lookup(m[k], keys[1..][..j]);
        }
        if exists i :: 1 <= i < |keys| && Lookup(JObj(m), keys[..i]).Some? && !Lookup(JObj(m), keys[..i]).value.JObj? {
          var i :| 1 <= i < |keys| && Lookup(JObj(m), keys[..i]).Some? && !Lookup(JObj(m), keys[..i]).value.JObj?;
          assert i >= 2;
          assert Lookup(m[k], keys[1..][..i - 1]) == Lookup(JObj(m), keys[..i]);
        }
      }
    }
  }

  /** Writing where a value is found never fails: the path is all dicts. */
  lemma {:induction false} SetWhereFound(m: Dict, keys: seq<string>, value: Json)
    requires |keys| >= 1 && Lookup(JObj(m), keys).Some?
    ensures SetPath(m, keys, value).Ok?
    decreases |keys|
  {
    if |keys| > 1 {
      SetWhereFound(m[keys[0]].m, keys[1..], value);
    }
  }

  /** Two paths diverge when neither is a prefix of the other. */
  predicate Diverge(a: seq<string>, b: seq<string>)
    decreases |a|
  {
    |a| > 0 && |b| > 0 && (a[0] != b[0] || Diverge(a[1..], b[1..]))
  }

  /** A write leaves every path that diverges from its own untouched. */
  lemma {:induction false} SetLeavesOthers(m: Dict, keys: seq<string>, value: Json, other: seq<string>)
    requires |keys| >= 1 && SetPath(m, keys, value).Ok?
    requires Diverge(keys, other)
    ensures Lookup(JObj(SetPath(m, keys, value).value), other) == Lookup(JObj(m), other)
    decreases |keys|
  {
    if keys[0] == other[0] {
      var child := if keys[0] in m then m[keys[0]] else JObj(map[]);
      SetLeavesOthers(child.m, keys[1..], value, other[1..]);
    }
  }

  // ------------------------------------------------------------ merging

  /**
   * `_merge_config`: every key of `override` replaces the base's value,
   * except that two dicts under the same key are merged recursively; keys
   * only in the base stay as they were.
   */
  function Merged(base: Dict, override: Dict): Dict
    decreases JObj(override)
  {
    map k | k in base.Keys + override.Keys ::
      if k !in override then base[k]
      else if k in base && base[k].JObj? && override[k].JObj? then JObj(Merged(base[k].m, override[k].m))
      else override[k]
  }

  /** A value the override holds at a non-dict leaf is what the merge holds there. */
  lemma {:induction false} OverrideLeafWins(base: Dict, override: Dict, keys: seq<string>, v: Json)
    requires Lookup(JObj(override), keys) == Some(v) && !v.JObj?
    ensures Lookup(JObj(Merged(base, override)), keys) == Some(v)
    decreases |keys|
  {
    var k := keys[0];
    if k in base && base[k].JObj? && override[k].JObj? {
      OverrideLeafWins(base[k].m, override[k].m, keys[1..], v);
    }
  }

  /**
   * The override leaves a path alone when, walking it, the override reaches
   * a dict that lacks the next key.
   */
  ghost predicate LeavesPath(override: Dict, keys: seq<string>)
  {
    exists i :: 0 <= i < |keys| && Lookup(JObj(override), keys[..i]).Some?
                && Lookup(JObj(override), keys[..i]).value.JObj?
                && keys[i] !in Lookup(JObj(override), keys[..i]).value.m
  }

  /** Base values on a path the override leaves alone survive the merge. */
  lemma {:induction false} BaseKept(base: Dict, override: Dict, keys: seq<string>)
    requires LeavesPath(override, keys) && Lookup(JObj(base), keys).Some?
    ensures Lookup(JObj(Merged(base, override)), keys) == Lookup(JObj(base), keys)
    decreases |keys|
  {
    var i :| 0 <= i < |keys| && Lookup(JObj(override), keys[..i]).Some?
             && Lookup(JObj(override), keys[..i]).value.JObj?
             && keys[i] !in Lookup(JObj(override), keys[..i]).value.m;
    var k := keys[0];
    if i > 0 {
      assert keys[..i][0] == k;
      assert keys[..i][1..] == keys[1..][..i - 1];
      assert Lookup(override[k], keys[1..][..i - 1]) == Lookup(JObj(override), keys[..i]);
      if |keys| > 1 {
        assert override[k].JObj? by {
          if i > 1 {
            assert |keys[1..][..i - 1]| > 0;
          }
        }
        assert LeavesPath(override[k].m, keys[1..]) by {
          assert 0 <= i - 1 < |keys[1..]| && keys[1..][i - 1] == keys[i];
        }
        BaseKept(base[k].m, override[k].m, keys[1..]);
      }
    }
  }

  /** Merging a dict into itself gives it back. */
  lemma {:induction false} SelfMerge(m: Dict)
    ensures Merged(m, m) == m
    decreases JObj(m)
  {
    forall k | k in m && m[k].JObj?
      ensures Merged(m[k].m, m[k].m) == m[k].m
    {
      assert JObj(m[k].m) == m[k];
      SelfMerge(m[k].m);
    }
  }

  /** Applying the same layer twice is the same as applying it once. */
  lemma {:induction false} MergeIdempotent(base: Dict, override: Dict)
    ensures Merged(Merged(base, override), override) == Merged(base, override)
    decreases JObj(override)
  {
    var once := Merged(base, override);
    forall k | k in override && override[k].JObj?
      ensures Merged(once[k].m, override[k].m) == once[k].m || !once[k].JObj?
    {
      assert JObj(override[k].m) == override[k];
      if k in base && base[k].JObj? {
        MergeIdempotent(base[k].m, override[k].m);
      } else {
        SelfMerge(override[k].m);
      }
    }
  }

  /** Merging an empty layer changes nothing. */
  lemma MergeEmpty(base: Dict)
    ensures Merged(base, map[]) == base
  {
  }

  /** `_merge_config` in place: the override's keys are merged into `base` one at a time. */
  method MergeConfig(base: Dict, override: Dict) returns (r: Dict)
    ensures r == Merged(base, override)
    decreases JObj(override)
  {
    r := base;
    var rest := override.Keys;
    while rest != {}
      invariant rest <= override.Keys
      invariant r == PartlyMerged(base, override, override.Keys - rest)
      decreases rest
    {
      var key :| key in rest;
      var value := override[key];
      var done := override.Keys - rest;
      PartlyMergedStep(base, override, done, key);
      if key in r && r[key].JObj? && value.JObj? {
        assert JObj(value.m) == value;
        var inner := MergeConfig(r[key].m, value.m);
        r := r[key := JObj(inner)];
      } else {
        r := r[key := value];
      }
      assert override.Keys - (rest - {key}) == done + {key};
      rest := rest - {key};
    }
  }

  /** The merge after the keys in `done` have been handled. */
  function PartlyMerged(base: Dict, override: Dict, done: set<string>): Dict
    requires done <= override.Keys
  {
    map k | k in base.Keys + done :: if k in done then Merged(base, override)[k] else base[k]
  }

  /** Handling one more key updates that key alone, to its merged value. */
  lemma PartlyMergedStep(base: Dict, override: Dict, done: set<string>, key: string)
    requires done <= override.Keys && key in override && key !in done
    ensures PartlyMerged(base, override, done + {key}) ==
            PartlyMerged(base, override, done)[key := Merged(base, override)[key]]
    ensures var r := PartlyMerged(base, override, done);
            Merged(base, override)[key] ==
              if key in r && r[key].JObj? && override[key].JObj? then JObj(Merged(r[key].m, override[key].m))
              else override[key]
  {
  }

  // ------------------------------------------------------------ counting

  /** Number of non-dict leaves below a value; a leaf counts one. */
  ghost function Leaves(v: Json): nat
  {
    match v
    case JObj(m) => LeavesOver(m, m.Keys)
    case _ => 1
  }

  ghost function LeavesOver(m: Dict, keys: set<string>): nat
    requires keys <= m.Keys
    decreases JObj(m), |keys|
  {
    if keys == {} then 0 else var k :| k in keys; Leaves(m[k]) + LeavesOver(m, keys - {k})
  }

  /** The sum does not depend on which key is taken first. */
  lemma {:induction false} LeavesOverPick(m: Dict, keys: set<string>, k: string)
    requires keys <= m.Keys && k in keys
    ensures LeavesOver(m, keys) == Leaves(m[k]) + LeavesOver(m, keys - {k})
    decreases |keys|
  {
    var j :| j in keys && LeavesOver(m, keys) == Leaves(m[j]) + LeavesOver(m, keys - {j});
    if j != k {
      LeavesOverPick(m, keys - {j}, k);
      LeavesOverPick(m, keys - {k}, j);
      assert keys - {j} - {k} == keys - {k} - {j};
    }
  }

  /** Adding a new leaf at the top adds one to the count. */
  lemma AddLeaf(m: Dict, k: string, v: Json)
    requires k !in m && !v.JObj?
    ensures Leaves(JObj(m[k := v])) == Leaves(JObj(m)) + 1
  {
    var m' := m[k := v];
    LeavesOverPick(m', m'.Keys, k);
    assert m'.Keys - {k} == m.Keys;
    LeavesOverSame(m, m', m.Keys);
  }

  /** The sum over `keys` only sees the values under those keys. */
  lemma {:induction false} LeavesOverSame(m: Dict, m': Dict, keys: set<string>)
    requires keys <= m.Keys && keys <= m'.Keys
    requires forall k :: k in keys ==> m[k] == m'[k]
    ensures LeavesOver(m, keys) == LeavesOver(m', keys)
    decreases |keys|
  {
    if keys != {} {
      var k :| k in keys && LeavesOver(m, keys) == Leaves(m[k]) + LeavesOver(m, keys - {k});
      LeavesOverPick(m', keys, k);
      LeavesOverSame(m, m', keys - {k});
    }
  }

  /** `_count_config_keys`: walks the values, recursing into dicts. */
  method CountConfigKeys(config: Dict) returns (count: nat)
    ensures count == Leaves(JObj(config))
    decreases JObj(config)
  {
    count := 0;
    var rest := config.Keys;
    while rest != {}
      invariant rest <= config.Keys
      invariant count + LeavesOver(config, rest) == Leaves(JObj(config))
      decreases rest
    {
      var key :| key in rest;
      LeavesOverPick(config, rest, key);
      var value := config[key];
      if value.JObj? {
        assert JObj(value.m) == value;
        var inner := CountConfigKeys(value.m);
        count := count + inner;
      } else {
        count := count + 1;
      }
      rest := rest - {key};
    }
  }
}
