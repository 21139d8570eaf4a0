/** Layering configuration files (src/mergemate/config/loader.py). A value is a dict or anything else. */
module DeepMerge {
  import opened Wrappers

  datatype Value = Leaf(text: string) | Node(entries: map<string, Value>)

  type Dict = v: Value | v.Node? witness Node(map[])

  predicate BothDicts(a: Dict, b: Dict, k: string) {
    k in a.entries && k in b.entries && a.entries[k].Node? && b.entries[k].Node?
  }

  /** The keys both layers go on merging below: dicts on both sides, not to be replaced as a whole. */
  predicate Merges(a: Dict, b: Dict, replaceKeys: set<string>, k: string) {
    k !in replaceKeys && BothDicts(a, b, k)
  }

  function Merge(a: Dict, b: Dict, replaceKeys: set<string>): Dict
    decreases b
  {
    Node(map k | k in a.entries.Keys + b.entries.Keys ::
           if k !in b.entries then a.entries[k]
           else if Merges(a, b, replaceKeys, k) then Merge(a.entries[k], b.entries[k], replaceKeys)
           else b.entries[k])
  }

  lemma MergedEntries(base: Dict, override: Dict, replaceKeys: set<string>) returns (goal: map<string, Value>)
    ensures goal == Merge(base, override, replaceKeys).entries
    ensures forall k :: k in goal <==> k in base.entries || k in override.entries
    ensures forall k :: k in base.entries && k !in override.entries ==> goal[k] == base.entries[k]
  {
    goal := Merge(base, override, replaceKeys).entries;
  }

  /** The loop of `_deep_merge`: a copy of the base, changed key by key of the override. */
  method MergeInto(base: Dict, override: Dict, replaceKeys: set<string>) returns (merged: Dict)
    ensures merged == Merge(base, override, replaceKeys)
    decreases override, 1
  {
    var entries := base.entries;
    var left := override.entries.Keys;
    ghost var goal := MergedEntries(base, override, replaceKeys);
    while left != {}
      invariant left <= override.entries.Keys
      invariant forall k :: k in entries <==> k in base.entries || (k in override.entries && k !in left)
      invariant forall k :: k in base.entries && k in left ==> entries[k] == base.entries[k]
      invariant forall k :: k in entries && k !in left ==> entries[k] == goal[k]
      decreases left
    {
      var key :| key in left;
      var present := if key in entries then Some(entries[key]) else None;
      var entry := MergeEntry(base, override, replaceKeys, key, present);
      entries := entries[key := entry];
      left := left - {key};
    }
    merged := Node(entries);
    assert entries == goal;
  }

  /** One turn of the loop: what the key is set to, given what the copy holds there. */
  method MergeEntry(base: Dict, override: Dict, replaceKeys: set<string>, key: string, present: Option<Value>)
    returns (entry: Value)
    requires key in override.entries
    requires present == if key in base.entries then Some(base.entries[key]) else None
    ensures entry == Merge(base, override, replaceKeys).entries[key]
    decreases override, 0
  {
    var value := override.entries[key];
    if key in replaceKeys {
      return value;
    }
    if value.Node? && present.Some? && present.value.Node? {
      entry := MergeInto(present.value, value, replaceKeys);
      return;
    }
    return value;
  }

  // ---------------------------------------------------------------- idempotence and absorption

  /** Merging a layer with itself changes nothing. */
  lemma {:induction false} MergeSelf(a: Dict, replaceKeys: set<string>)
    ensures Merge(a, a, replaceKeys) == a
    decreases a
  {
    forall k | k in a.entries && a.entries[k].Node?
      ensures Merge(a.entries[k], a.entries[k], replaceKeys) == a.entries[k]
    {
      MergeSelf(a.entries[k], replaceKeys);
    }
    assert Merge(a, a, replaceKeys).entries == a.entries;
  }

  /** Applying the same override twice is applying it once. */
  lemma {:induction false} MergeAbsorbs(a: Dict, b: Dict, replaceKeys: set<string>)
    ensures Merge(Merge(a, b, replaceKeys), b, replaceKeys) == Merge(a, b, replaceKeys)
    decreases b
  {
    var m := Merge(a, b, replaceKeys);
    forall k | k in b.entries && b.entries[k].Node?
      ensures k in m.entries && m.entries[k].Node?
      ensures k !in replaceKeys ==> Merge(m.entries[k], b.entries[k], replaceKeys) == m.entries[k]
    {
      if Merges(a, b, replaceKeys, k) {
        MergeAbsorbs(a.entries[k], b.entries[k], replaceKeys);
      } else {
        MergeSelf(b.entries[k], replaceKeys);
      }
    }
    assert Merge(m, b, replaceKeys).entries == m.entries;
  }

  // ---------------------------------------------------------------- looking up a path

  function Lookup(v: Value, path: seq<string>): Option<Value> {
    if path == [] then Some(v)
    else if v.Node? && path[0] in v.entries then Lookup(v.entries[path[0]], path[1..])
    else None
  }

  datatype Side = Base | Override | Both

  /** Who decides what stands at a path: both as long as they hold dicts there and no replace key has been
      passed; the base where the override first lacks the key; otherwise the override. */
  function Decider(a: Dict, b: Dict, path: seq<string>, replaceKeys: set<string>): Side {
    if path == [] then Both
    else if path[0] !in b.entries then Base
    else if Merges(a, b, replaceKeys, path[0]) then
      Decider(a.entries[path[0]], b.entries[path[0]], path[1..], replaceKeys)
    else Override
  }

  lemma {:induction false} LookupDecided(a: Dict, b: Dict, path: seq<string>, replaceKeys: set<string>)
    ensures var found := Lookup(Merge(a, b, replaceKeys), path);
            match Decider(a, b, path, replaceKeys)
            case Base => found == Lookup(a, path)
            case Override => found == Lookup(b, path)
            case Both =>
              && Lookup(a, path).Some? && Lookup(a, path).value.Node?
              && Lookup(b, path).Some? && Lookup(b, path).value.Node?
              && found == Some(Merge(Lookup(a, path).value, Lookup(b, path).value, replaceKeys))
    decreases path
  {
    if path != [] && path[0] in b.entries && Merges(a, b, replaceKeys, path[0]) {
      LookupDecided(a.entries[path[0]], b.entries[path[0]], path[1..], replaceKeys);
    }
  }

  /** A setting the override gives always wins; a setting of the result comes from one of the layers; and
      below a replace key of the override nothing of the base is left. */
  lemma {:induction false} SettingsComeFrom(a: Dict, b: Dict, path: seq<string>, replaceKeys: set<string>, text: string)
    ensures Lookup(b, path) == Some(Leaf(text)) ==> Lookup(Merge(a, b, replaceKeys), path) == Some(Leaf(text))
    ensures Lookup(Merge(a, b, replaceKeys), path) == Some(Leaf(text)) ==>
              Lookup(a, path) == Some(Leaf(text)) || Lookup(b, path) == Some(Leaf(text))
    ensures path != [] && path[0] in replaceKeys && path[0] in b.entries ==>
              Lookup(Merge(a, b, replaceKeys), path) == Lookup(b, path)
  {
    LookupDecided(a, b, path, replaceKeys);
    BaseDecidesOnlyMissing(a, b, path, replaceKeys);
  }

  lemma {:induction false} BaseDecidesOnlyMissing(a: Dict, b: Dict, path: seq<string>, replaceKeys: set<string>)
    ensures Decider(a, b, path, replaceKeys).Base? ==> Lookup(b, path).None?
    decreases path
  {
    if path != [] && path[0] in b.entries && Merges(a, b, replaceKeys, path[0]) {
      BaseDecidesOnlyMissing(a.entries[path[0]], b.entries[path[0]], path[1..], replaceKeys);
    }
  }

  // ---------------------------------------------------------------- the layers of a configuration

  datatype Setting = Text(text: string) | Section

  /** What stands at a path, apart from what a section holds. */
  function Found(v: Value, path: seq<string>): Option<Setting> {
    match Lookup(v, path)
    case None => None
    case Some(Leaf(text)) => Some(Text(text))
    case Some(Node(_)) => Some(Section)
  }

  /** The layer hides whatever lower layers have at the path: on the way there it has a value that is no
      dict, or any value under a replace key. */
  predicate Hides(v: Value, path: seq<string>, replaceKeys: set<string>) {
    && path != [] && v.Node? && path[0] in v.entries
    && (v.entries[path[0]].Leaf? || path[0] in replaceKeys || Hides(v.entries[path[0]], path[1..], replaceKeys))
  }

  /** A merge holds at a path what the override has there, or else what the base has unless that is hidden. */
  lemma {:induction false} MergeFound(a: Dict, b: Dict, path: seq<string>, replaceKeys: set<string>)
    ensures Found(Merge(a, b, replaceKeys), path)
            == if Found(b, path).Some? then Found(b, path)
               else if Hides(b, path, replaceKeys) then None else Found(a, path)
    decreases path
  {
    if path != [] {
      var k, m := path[0], Merge(a, b, replaceKeys);
      FoundBelow(a, path);
      FoundBelow(b, path);
      FoundBelow(m, path);
      if k in b.entries && Merges(a, b, replaceKeys, k) {
        MergeFound(a.entries[k], b.entries[k], path[1..], replaceKeys);
      }
    }
  }

  lemma FoundBelow(v: Dict, path: seq<string>)
    requires path != []
    ensures Found(v, path) == if path[0] in v.entries then Found(v.entries[path[0]], path[1..]) else None
    ensures path[0] in v.entries && v.entries[path[0]].Leaf? && path[1..] != [] ==> Found(v, path) == None
    ensures path[0] in v.entries && path[1..] == [] ==> Found(v, path).Some?
  {
  }

  /** The keys an explicit configuration file replaces as a whole; the local one replaces none. */
  const REPLACED: set<string> := {"agents"}

  /** The explicit file is absent, too, when it is the local one. */
  function Effective(defaults: Dict, local: Dict, explicit: Option<Dict>): Dict {
    var merged := Merge(defaults, local, {});
    if explicit.Some? then Merge(merged, explicit.value, REPLACED) else merged
  }

  method LoadRuntimeSettings(defaults: Dict, local: Dict, explicit: Option<Dict>) returns (effective: Dict)
    ensures effective == Effective(defaults, local, explicit)
  {
    effective := MergeInto(defaults, local, {});
    if explicit.Some? {
      effective := MergeInto(effective, explicit.value, REPLACED);
    }
  }

  /** Which layer decides what stands at a path: the explicit file if it has anything there or hides the rest,
      else the local file likewise, else the defaults. */
  lemma LayersDecide(defaults: Dict, local: Dict, explicit: Option<Dict>, path: seq<string>)
    ensures Found(Effective(defaults, local, explicit), path)
            == if explicit.Some? && Found(explicit.value, path).Some? then Found(explicit.value, path)
               else if explicit.Some? && Hides(explicit.value, path, {"agents"}) then None
               else if Found(local, path).Some? then Found(local, path)
               else if Hides(local, path, {}) then None
               else Found(defaults, path)
  {
    MergeFound(defaults, local, path, {});
    if explicit.Some? {
      MergeFound(Merge(defaults, local, {}), explicit.value, path, REPLACED);
    }
  }

  // ---------------------------------------------------------------- when merges agree

  lemma SameDict(a: Dict, b: Dict)
    requires a.entries.Keys == b.entries.Keys
    ensures a == b <==> forall k :: k in a.entries ==> a.entries[k] == b.entries[k]
  {
    if forall k :: k in a.entries ==> a.entries[k] == b.entries[k] {
      assert a.entries == b.entries;
    }
  }

  /** Every setting of `a` recurs in `b`, or is replaced there by another value. */
  ghost predicate Covered(a: Dict, b: Dict, replaceKeys: set<string>)
    decreases b
  {
    forall k :: k in a.entries ==> k in b.entries && CoveredAt(a, b, replaceKeys, k)
  }

  ghost predicate CoveredAt(a: Dict, b: Dict, replaceKeys: set<string>, k: string)
    requires k in a.entries && k in b.entries
    decreases b, 0
  {
    Merges(a, b, replaceKeys, k) ==> Covered(a.entries[k], b.entries[k], replaceKeys)
  }

  lemma {:induction false} MergeIsOverrideIff(a: Dict, b: Dict, replaceKeys: set<string>)
    ensures Merge(a, b, replaceKeys) == b <==> Covered(a, b, replaceKeys)
    decreases b
  {
    var m := Merge(a, b, replaceKeys);
    forall k | k in b.entries && k in a.entries
      ensures m.entries[k] == b.entries[k] <==> CoveredAt(a, b, replaceKeys, k)
    {
      if Merges(a, b, replaceKeys, k) {
        MergeIsOverrideIff(a.entries[k], b.entries[k], replaceKeys);
      }
    }
    if m == b {
      assert forall k :: k in a.entries ==> k in m.entries;
    } else if Covered(a, b, replaceKeys) {
      assert m.entries.Keys == b.entries.Keys;
      SameDict(m, b);
    }
  }

  /** Under a key both have as dicts, the two sets of replace keys lead to the same merge. */
  ghost predicate SameAt(a: Dict, b: Dict, s: set<string>, t: set<string>, k: string)
    requires BothDicts(a, b, k)
    decreases b, 0
  {
    if k in s && k in t then true
    else if k in s then Covered(a.entries[k], b.entries[k], t)
    else if k in t then Covered(a.entries[k], b.entries[k], s)
    else SameMerge(a.entries[k], b.entries[k], s, t)
  }

  ghost predicate SameMerge(a: Dict, b: Dict, s: set<string>, t: set<string>)
    decreases b
  {
    forall k :: BothDicts(a, b, k) ==> SameAt(a, b, s, t, k)
  }

  lemma {:induction false} SameMergeIff(a: Dict, b: Dict, s: set<string>, t: set<string>)
    ensures Merge(a, b, s) == Merge(a, b, t) <==> SameMerge(a, b, s, t)
    decreases b
  {
    var left, right := Merge(a, b, s), Merge(a, b, t);
    forall k | BothDicts(a, b, k)
      ensures left.entries[k] == right.entries[k] <==> SameAt(a, b, s, t, k)
    {
      SameAtIff(a, b, s, t, k);
    }
    SameDict(left, right);
  }

  lemma {:induction false} SameAtIff(a: Dict, b: Dict, s: set<string>, t: set<string>, k: string)
    requires BothDicts(a, b, k)
    ensures Merge(a, b, s).entries[k] == Merge(a, b, t).entries[k] <==> SameAt(a, b, s, t, k)
    decreases b, 0
  {
    MergeIsOverrideIff(a.entries[k], b.entries[k], s);
    MergeIsOverrideIff(a.entries[k], b.entries[k], t);
    if k !in s && k !in t {
      SameMergeIff(a.entries[k], b.entries[k], s, t);
    }
  }

  // ---------------------------------------------------------------- associativity

  /** Merging under `s` and then, with another layer, under `t`: the two groupings agree at a key that both
      outer layers have as dicts. */
  ghost predicate AgreeAt(a: Dict, b: Dict, c: Dict, s: set<string>, t: set<string>, k: string)
    requires BothDicts(a, c, k)
    decreases c, 0
  {
    if k !in b.entries then SameAt(a, c, s, t, k)
    else if k in s then true
    else if b.entries[k].Leaf? || k in t then Covered(a.entries[k], c.entries[k], s)
    else Agree(a.entries[k], b.entries[k], c.entries[k], s, t)
  }

  ghost predicate Agree(a: Dict, b: Dict, c: Dict, s: set<string>, t: set<string>)
    decreases c
  {
    forall k :: BothDicts(a, c, k) ==> AgreeAt(a, b, c, s, t, k)
  }

  /** Both groupings at one key. */
  lemma GroupedAt(a: Dict, b: Dict, c: Dict, s: set<string>, t: set<string>, k: string)
    requires k in a.entries || k in b.entries || k in c.entries
    ensures var left, right := Merge(Merge(a, b, s), c, t).entries, Merge(a, Merge(b, c, t), s).entries;
            && k in left && k in right
            && if !BothDicts(a, c, k) then left[k] == right[k]
               else if k !in b.entries then
                 left[k] == Merge(a, c, t).entries[k] && right[k] == Merge(a, c, s).entries[k]
               else if k in s then left[k] == right[k]
               else if b.entries[k].Leaf? || k in t then
                 left[k] == c.entries[k] && right[k] == Merge(a.entries[k], c.entries[k], s)
               else
                 && left[k] == Merge(Merge(a.entries[k], b.entries[k], s), c.entries[k], t)
                 && right[k] == Merge(a.entries[k], Merge(b.entries[k], c.entries[k], t), s)
  {
    var ab, bc := Merge(a, b, s), Merge(b, c, t);
    assert k in ab.entries <==> k in a.entries || k in b.entries;
    assert k in bc.entries <==> k in b.entries || k in c.entries;
  }

  lemma {:induction false} AgreeAtIff(a: Dict, b: Dict, c: Dict, s: set<string>, t: set<string>, k: string)
    requires BothDicts(a, c, k)
    ensures Merge(Merge(a, b, s), c, t).entries[k] == Merge(a, Merge(b, c, t), s).entries[k]
            <==> AgreeAt(a, b, c, s, t, k)
    decreases c, 0
  {
    GroupedAt(a, b, c, s, t, k);
    if k !in b.entries {
      SameAtIff(a, c, s, t, k);
    } else if k in s {
    } else if b.entries[k].Leaf? || k in t {
      MergeIsOverrideIff(a.entries[k], c.entries[k], s);
    } else {
      AssociativeIff(a.entries[k], b.entries[k], c.entries[k], s, t);
    }
  }

  /** Grouping does not matter exactly when the layers agree in that sense, whatever the two sets of replace
      keys. */
  lemma {:induction false} AssociativeIff(a: Dict, b: Dict, c: Dict, s: set<string>, t: set<string>)
    ensures Merge(Merge(a, b, s), c, t) == Merge(a, Merge(b, c, t), s) <==> Agree(a, b, c, s, t)
    decreases c
  {
    var left, right := Merge(Merge(a, b, s), c, t), Merge(a, Merge(b, c, t), s);
    forall k | k in left.entries
      ensures k in right.entries
      ensures BothDicts(a, c, k) ==> (left.entries[k] == right.entries[k] <==> AgreeAt(a, b, c, s, t, k))
      ensures !BothDicts(a, c, k) ==> left.entries[k] == right.entries[k]
    {
      GroupedAt(a, b, c, s, t, k);
      if BothDicts(a, c, k) {
        AgreeAtIff(a, b, c, s, t, k);
      }
    }
    assert left.entries.Keys == right.entries.Keys;
    SameDict(left, right);
  }

  /** The middle layer never puts anything but a dict where both outer layers have dicts. */
  ghost predicate NeverInTheWay(a: Dict, b: Dict, c: Dict)
    decreases c
  {
    forall k :: k in c.entries && BothDicts(a, c, k) && k in b.entries ==>
      b.entries[k].Node? && NeverInTheWay(a.entries[k], b.entries[k], c.entries[k])
  }

  /** With one set of replace keys throughout, that is enough. */
  lemma {:induction false} AssociativeWhenNeverInTheWay(a: Dict, b: Dict, c: Dict, rk: set<string>)
    requires NeverInTheWay(a, b, c)
    ensures Merge(Merge(a, b, rk), c, rk) == Merge(a, Merge(b, c, rk), rk)
  {
    NeverInTheWayAgrees(a, b, c, rk);
    AssociativeIff(a, b, c, rk, rk);
  }

  lemma {:induction false} NeverInTheWayAgrees(a: Dict, b: Dict, c: Dict, rk: set<string>)
    requires NeverInTheWay(a, b, c)
    ensures Agree(a, b, c, rk, rk)
    decreases c
  {
    forall k | BothDicts(a, c, k)
      ensures AgreeAt(a, b, c, rk, rk, k)
    {
      if k !in b.entries {
        SameAtIff(a, c, rk, rk, k);
      } else if k !in rk {
        NeverInTheWayAgrees(a.entries[k], b.entries[k], c.entries[k], rk);
      }
    }
  }

  function Single(k: string, v: Value): Dict {
    Node(map[k := v])
  }

  /** With the two sets the configuration is loaded with it is not: the layers cannot be regrouped, whichever
      of the two the outer merge uses. */
  lemma LayersDoNotRegroup()
    ensures exists a: Dict, b: Dict, c: Dict ::
              NeverInTheWay(a, b, c)
              && Merge(Merge(a, b, {}), c, {"agents"}) != Merge(a, Merge(b, c, {"agents"}), {})
    ensures exists a: Dict, b: Dict, c: Dict ::
              NeverInTheWay(a, b, c)
              && Merge(Merge(a, b, {}), c, {"agents"}) != Merge(a, Merge(b, c, {"agents"}), {"agents"})
  {
    var none: Dict := Node(map[]);
    var coder := Single("coder", Leaf("x"));
    var a, b := Single("agents", coder), Single("agents", none);
    var inner := Merge(none, b, REPLACED);
    assert inner.entries["agents"] == none;
    assert Merge(coder, none, {}).entries["coder"] == Leaf("x");
    var left, right := Merge(Merge(a, none, {}), b, REPLACED), Merge(a, inner, {});
    assert left.entries["agents"] == none && right.entries["agents"] == Merge(coder, none, {});
    assert NeverInTheWay(a, none, b) && left != right;
    var left', right' := Merge(Merge(a, b, {}), none, REPLACED), Merge(a, Merge(b, none, REPLACED), REPLACED);
    assert Merge(a, b, {}).entries["agents"] == Merge(coder, none, {});
    assert left'.entries["agents"] == Merge(coder, none, {}) && right'.entries["agents"] == none;
    assert NeverInTheWay(a, b, none) && left' != right';
  }
}
