/** The repair and migration of loaded category data (`normalizeCategories`).

    Loaded data is arbitrary JSON. The repair deep-copies it (or the seed when
    it is `null`/`undefined`), puts back a default DIRECT section or DIRECT
    groups where they are missing, puts back the default INDIRECT section when
    it is missing, migrates the legacy INDIRECT shape `{label, items}` into a
    single `PODSTAWOWE` group, empties every INDIRECT group that is not an
    array and drops the legacy `items` field.

    JavaScript can also run the routine on values outside this shape: a
    primitive root makes a property assignment throw a `TypeError` in a strict
    module, and an array root, DIRECT or INDIRECT gets a named property
    attached, which no JSON value has. Those are the two failures below; a
    throw later in the routine is reported as the throw. */
module Normalize {
  import opened JsonValue
  import opened Taxonomy
  import opened Wrappers

  datatype Failure =
    | TypeErrorThrown   // the routine throws a TypeError
    | OutsideJsonModel  // the routine attaches a named property to an array and returns without throwing

  datatype Outcome = Normalized(value: Json) | Failed(failure: Failure)

  /** `cloneDefaultCategories()`: a fresh copy of the seed taxonomy, as JSON. */
  function CloneDefaultCategories(): (j: Json)
    ensures Decode(j) == Some(Default)
  {
    DecodeEncode(Default);
    Encode(Default)
  }

  const DefaultDirectJson: Json := EncodeSection(DefaultDirect)
  const DefaultDirectGroupsJson: Json := JObject(EncodeGroups(DefaultDirect.groups))
  const DefaultIndirectJson: Json := EncodeSection(DefaultIndirect)

  /** `JSON.parse(JSON.stringify(raw ?? DATA))`. The round trip through text is
      the identity on JSON values, and values cannot be shared, so the copy is
      the value itself. */
  function Seed(raw: Json): Json {
    if raw.JNull? then Encode(Default) else raw
  }

  /** The test `!x || typeof x !== 'object'` that sends a section back to its default. */
  predicate Missing(x: Json) {
    !Truthy(x) || !IsObjectType(x)
  }

  /** DIRECT after its two repairs: the default section when it is missing,
      and the default groups when its `groups` is missing. An array is kept:
      the source attaches `groups` to it as a named property. */
  function RepairedDirect(d: Json): (r: Json)
    ensures d.JArray? ==> r == d
    ensures !d.JArray? ==> r.JObject? && Truthy(Lookup(r.fields, "groups"))
  {
    var direct := if Missing(d) then DefaultDirectJson else d;
    if direct.JObject? && !Truthy(Lookup(direct.fields, "groups"))
    then JObject(direct.fields["groups" := DefaultDirectGroupsJson])
    else direct
  }

  /** The groups that a legacy INDIRECT section `{label, items}` migrates into. */
  function LegacyGroups(indirect: map<string, Json>): Json {
    var items := Lookup(indirect, "items");
    JObject(map[FallbackIndirectGroup := if items.JArray? then items else JArray([])])
  }

  function RepairGroupValue(j: Json): Json {
    if j.JArray? then j else JArray([])
  }

  /** `Object.keys(groups).forEach(...)` replacing each own value that is not
      an array by `[]`. An array's own keys are its indices; a number or a
      boolean has none; a string's are its indices too, and assigning to one
      throws; `Object.keys(null)` throws. */
  function RepairGroups(groups: Json): (r: Outcome)
    ensures r.Failed? <==> groups.JNull? || NonEmptyString(groups)
    ensures r.Failed? ==> r.failure == TypeErrorThrown
    ensures r.Normalized? && Truthy(groups) ==> GroupsRepaired(r.value)
  {
    match groups
    case JObject(m) => Normalized(JObject(map k | k in m :: RepairGroupValue(m[k])))
    case JArray(es) =>
      Normalized(JArray(seq(|es|, i requires 0 <= i < |es| => RepairGroupValue(es[i]))))
    case JString(s) => if s == "" then Normalized(groups) else Failed(TypeErrorThrown)
    case JNull => Failed(TypeErrorThrown)
    case _ => Normalized(groups)
  }

  /** INDIRECT, an object, after the migration, the per-group repair and the
      removal of `items`. */
  function RepairedIndirect(indirect: map<string, Json>): (r: Outcome)
    ensures r.Failed? <==> NonEmptyString(Lookup(indirect, "groups"))
    ensures r.Failed? ==> r.failure == TypeErrorThrown
    ensures r.Normalized? ==>
      && r.value.JObject? && "items" !in r.value.fields
      && GroupsRepaired(Lookup(r.value.fields, "groups"))
  {
    var g := Lookup(indirect, "groups");
    match RepairGroups(if Truthy(g) then g else LegacyGroups(indirect))
    case Failed(f) => Failed(f)
    case Normalized(g') => Normalized(JObject(indirect["groups" := g'] - {"items"}))
  }

  /** The INDIRECT half of the repair, on the top-level fields with DIRECT
      already repaired. */
  function RepairIndirectInto(fields: map<string, Json>): Outcome {
    var indirect := Lookup(fields, "INDIRECT");
    if Missing(indirect) then Normalized(JObject(fields["INDIRECT" := DefaultIndirectJson]))
    else if !indirect.JObject? then Failed(OutsideJsonModel)
    else match RepairedIndirect(indirect.fields)
      case Failed(f) => Failed(f)
      case Normalized(i) => Normalized(JObject(fields["INDIRECT" := i]))
  }

  /** What `normalizeCategories` returns for `raw`, stated over values. An
      array DIRECT does not stop the routine: it goes on to repair INDIRECT,
      which may still throw; when it does not, the value it returns has left
      JSON. */
  function Repair(raw: Json): (r: Outcome)
    ensures r.Normalized? ==> WellShaped(r.value)
  {
    var cloned := Seed(raw);
    if !cloned.JObject? then
      Failed(if cloned.JArray? then OutsideJsonModel else TypeErrorThrown)
    else
      var direct := RepairedDirect(Lookup(cloned.fields, "DIRECT"));
      var rest := RepairIndirectInto(cloned.fields["DIRECT" := direct]);
      if direct.JObject? || rest == Failed(TypeErrorThrown) then rest
      else Failed(OutsideJsonModel)
  }

  /** The in-place loop over the keys of an object of groups. */
  method RepairGroupMap(m: map<string, Json>) returns (repaired: map<string, Json>)
    ensures repaired == map k | k in m :: RepairGroupValue(m[k])
  {
    var keys := m.Keys;
    repaired := m;
    while keys != {}
      invariant keys <= m.Keys
      invariant repaired.Keys == m.Keys
      invariant forall k :: k in m ==>
        repaired[k] == if k in keys then m[k] else RepairGroupValue(m[k])
      decreases keys
    {
      var k :| k in keys;
      if !repaired[k].JArray? {
        repaired := repaired[k := JArray([])];
      }
      keys := keys - {k};
    }
  }

  /** The same loop when `groups` is an array: its keys are its indices. */
  method RepairGroupArray(es: seq<Json>) returns (repaired: seq<Json>)
    ensures repaired == seq(|es|, i requires 0 <= i < |es| => RepairGroupValue(es[i]))
  {
    repaired := es;
    for i := 0 to |es|
      invariant |repaired| == |es|
      invariant forall j :: 0 <= j < |es| ==>
        repaired[j] == if j < i then RepairGroupValue(es[j]) else es[j]
    {
      if !repaired[i].JArray? {
        repaired := repaired[i := JArray([])];
      }
    }
  }

  /** `Object.keys(indirect.groups).forEach(...)` on whatever `groups` holds. */
  method RepairGroupsInPlace(groups: Json) returns (r: Outcome)
    ensures r == RepairGroups(groups)
  {
    match groups {
      case JObject(m) =>
        var repaired := RepairGroupMap(m);
        r := Normalized(JObject(repaired));
      case JArray(es) =>
        var repaired := RepairGroupArray(es);
        r := Normalized(JArray(repaired));
      case JString(s) =>
        r := if s == "" then Normalized(groups) else Failed(TypeErrorThrown);
      case JNull =>
        r := Failed(TypeErrorThrown);
      case _ =>
        r := Normalized(groups);
    }
  }

  /** `normalizeCategories(raw)`: the repair as the source performs it, by
      assignments to the copy and a loop over the INDIRECT group keys. */
  method NormalizeCategories(raw: Json) returns (r: Outcome)
    ensures r == Repair(raw)
  {
    var cloned := Seed(raw);
    if !cloned.JObject? {
      return Failed(if cloned.JArray? then OutsideJsonModel else TypeErrorThrown);
    }
    var fields := cloned.fields;

    if Missing(Lookup(fields, "DIRECT")) {
      fields := fields["DIRECT" := DefaultDirectJson];
    }
    var direct := fields["DIRECT"];
    // An array DIRECT gets `groups` as a named property: the routine goes on,
    // but a value it returns is no longer JSON.
    var leftJson := !direct.JObject?;
    if direct.JObject? && !Truthy(Lookup(direct.fields, "groups")) {
      fields := fields["DIRECT" := JObject(direct.fields["groups" := DefaultDirectGroupsJson])];
    }

    assert fields == cloned.fields["DIRECT" := RepairedDirect(Lookup(cloned.fields, "DIRECT"))];
    var indirect := Lookup(fields, "INDIRECT");
    if Missing(indirect) {
      fields := fields["INDIRECT" := DefaultIndirectJson];
      return if leftJson then Failed(OutsideJsonModel) else Normalized(JObject(fields));
    }
    if !indirect.JObject? {
      return Failed(OutsideJsonModel);
    }

    var ifields := indirect.fields;
    if !Truthy(Lookup(ifields, "groups")) {
      var legacy := Lookup(ifields, "items");
      var legacyItems := if legacy.JArray? then legacy else JArray([]);
      ifields := ifields["groups" := JObject(map[FallbackIndirectGroup := legacyItems])];
    }
    ghost var g := Lookup(indirect.fields, "groups");
    assert ifields["groups"] == if Truthy(g) then g else LegacyGroups(indirect.fields);
    var groups := RepairGroupsInPlace(ifields["groups"]);
    if groups.Failed? {
      return groups;
    }
    assert ifields["groups" := groups.value] == indirect.fields["groups" := groups.value];
    ifields := ifields["groups" := groups.value] - {"items"};
    fields := fields["INDIRECT" := JObject(ifields)];
    return if leftJson then Failed(OutsideJsonModel) else Normalized(JObject(fields));
  }

  // ---- What the repair guarantees

  predicate NonEmptyString(j: Json) {
    j.JString? && j.s != ""
  }

  /** The inputs the repair completes on: `null`/`undefined`, or an object
      whose DIRECT is not an array, whose INDIRECT is not an array, and whose
      INDIRECT `groups`, when INDIRECT is an object, is not a non-empty string. */
  predicate Repairable(raw: Json) {
    || raw.JNull?
    || (raw.JObject?
        && !Lookup(raw.fields, "DIRECT").JArray?
        && var indirect := Lookup(raw.fields, "INDIRECT");
           !indirect.JArray?
           && (indirect.JObject? ==> !NonEmptyString(Lookup(indirect.fields, "groups"))))
  }

  /** The repair fails exactly outside `Repairable`; in particular it is total
      on objects built from the declared shape. */
  lemma NormalizeSucceedsIff(raw: Json)
    ensures Repair(raw).Normalized? <==> Repairable(raw)
  {
  }

  /** The repair throws exactly on a primitive root and on an object whose
      INDIRECT is an object with a non-empty string as `groups`, whatever its
      DIRECT is: an array DIRECT does not stop the routine before the throw. */
  lemma NormalizeThrowsIff(raw: Json)
    ensures Repair(raw) == Failed(TypeErrorThrown) <==>
      || raw.JBool? || raw.JNum? || raw.JString?
      || (raw.JObject?
          && var indirect := Lookup(raw.fields, "INDIRECT");
             indirect.JObject? && NonEmptyString(Lookup(indirect.fields, "groups")))
  {
    if raw.JObject? {
      var direct := RepairedDirect(Lookup(raw.fields, "DIRECT"));
      assert Lookup(raw.fields["DIRECT" := direct], "INDIRECT") == Lookup(raw.fields, "INDIRECT");
    }
  }

  /** An array DIRECT does not stop the routine: with INDIRECT `groups` equal
      to `"ab"` it still throws in the group loop. */
  lemma ArrayDirectStillThrows()
    ensures Repair(JObject(map["DIRECT" := JArray([]),
                               "INDIRECT" := JObject(map["groups" := JString("ab")])]))
         == Failed(TypeErrorThrown)
  {
    NormalizeThrowsIff(JObject(map["DIRECT" := JArray([]),
                                   "INDIRECT" := JObject(map["groups" := JString("ab")])]));
  }

  /** A repaired INDIRECT `groups`: truthy, an object or array whose every
      group is an array, or a value with no own keys. */
  predicate GroupsRepaired(g: Json) {
    && Truthy(g)
    && !NonEmptyString(g)
    && (g.JObject? ==> forall k :: k in g.fields ==> g.fields[k].JArray?)
    && (g.JArray? ==> forall i :: 0 <= i < |g.elems| ==> g.elems[i].JArray?)
  }

  /** The shape every repaired value has: DIRECT is an object with truthy
      `groups`; INDIRECT is an object with repaired `groups` and no `items`. */
  predicate WellShaped(v: Json) {
    && v.JObject?
    && "DIRECT" in v.fields && v.fields["DIRECT"].JObject?
    && Truthy(Lookup(v.fields["DIRECT"].fields, "groups"))
    && "INDIRECT" in v.fields && v.fields["INDIRECT"].JObject?
    && "items" !in v.fields["INDIRECT"].fields
    && GroupsRepaired(Lookup(v.fields["INDIRECT"].fields, "groups"))
  }

  /** Repairing already repaired groups changes nothing. */
  lemma RepairedGroupsAreFixed(g: Json)
    requires GroupsRepaired(g)
    ensures RepairGroups(g) == Normalized(g)
  {
    match g
    case JObject(m) =>
      assert (map k | k in m :: RepairGroupValue(m[k])) == m;
    case JArray(es) =>
      assert seq(|es|, i requires 0 <= i < |es| => RepairGroupValue(es[i])) == es;
    case _ =>
  }

  /** A well-shaped value passes through the repair unchanged: none of the
      repairs fires, and removing `items` again removes nothing. */
  lemma WellShapedIsFixedPoint(v: Json)
    requires WellShaped(v)
    ensures Repair(v) == Normalized(v)
  {
    var indirect := v.fields["INDIRECT"];
    var g := Lookup(indirect.fields, "groups");
    RepairedGroupsAreFixed(g);
    assert indirect.fields["groups" := g] - {"items"} == indirect.fields;
    assert v.fields["DIRECT" := v.fields["DIRECT"]]["INDIRECT" := indirect] == v.fields;
  }

  /** The values the repair leaves unchanged are exactly the well-shaped ones. */
  lemma FixedPointsAreWellShaped(v: Json)
    ensures Repair(v) == Normalized(v) <==> WellShaped(v)
  {
    if WellShaped(v) {
      WellShapedIsFixedPoint(v);
    }
  }

  /** Repairing twice is repairing once. */
  lemma NormalizeIdempotent(raw: Json)
    requires Repair(raw).Normalized?
    ensures Repair(Repair(raw).value) == Repair(raw)
  {
    WellShapedIsFixedPoint(Repair(raw).value);
  }

  /** The top-level fields other than DIRECT and INDIRECT are copied unchanged,
      and both sections are present afterwards. */
  lemma NormalizeKeepsOtherFields(raw: Json)
    requires raw.JObject? && Repair(raw).Normalized?
    ensures Repair(raw).value.JObject?
    ensures Repair(raw).value.fields.Keys == raw.fields.Keys + {"DIRECT", "INDIRECT"}
    ensures forall k :: k in raw.fields && k != "DIRECT" && k != "INDIRECT" ==>
      Repair(raw).value.fields[k] == raw.fields[k]
  {
  }

  /** DIRECT: a missing (falsy or non-object) section becomes the default
      section, a section without `groups` gets the default groups and keeps
      its other fields, and a section with `groups` is kept as it is. */
  lemma NormalizeRepairsDirect(raw: Json)
    requires raw.JObject? && Repair(raw).Normalized?
    ensures var d := Lookup(raw.fields, "DIRECT");
            var d' := Repair(raw).value.fields["DIRECT"];
            && (Missing(d) ==> d' == DefaultDirectJson)
            && (!Missing(d) ==> d.JObject? && d'.JObject?)
            && (!Missing(d) && Truthy(Lookup(d.fields, "groups")) ==> d' == d)
            && (!Missing(d) && !Truthy(Lookup(d.fields, "groups")) ==>
                  d'.fields.Keys == d.fields.Keys + {"groups"}
                  && d'.fields["groups"] == DefaultDirectGroupsJson
                  && forall k :: k in d.fields && k != "groups" ==> d'.fields[k] == d.fields[k])
  {
  }

  /** INDIRECT: a missing (falsy or non-object) section becomes exactly the
      default section, with no migration or group repair. */
  lemma NormalizeDefaultsIndirect(raw: Json)
    requires raw.JObject? && Repair(raw).Normalized?
    requires Missing(Lookup(raw.fields, "INDIRECT"))
    ensures Repair(raw).value.fields["INDIRECT"] == DefaultIndirectJson
  {
  }

  /** The legacy INDIRECT shape, an object without `groups`, migrates to one
      `PODSTAWOWE` group holding `items` when it is an array and nothing
      otherwise; `items` disappears and the other fields stay. */
  lemma NormalizeMigratesLegacy(raw: Json)
    requires raw.JObject? && Repair(raw).Normalized?
    requires var i := Lookup(raw.fields, "INDIRECT");
             i.JObject? && !Truthy(Lookup(i.fields, "groups"))
    ensures var i := Lookup(raw.fields, "INDIRECT").fields;
            var i' := Repair(raw).value.fields["INDIRECT"];
            var items := Lookup(i, "items");
            && i'.JObject?
            && i'.fields.Keys == i.Keys + {"groups"} - {"items"}
            && i'.fields["groups"]
               == JObject(map[FallbackIndirectGroup := if items.JArray? then items else JArray([])])
            && forall k :: k in i && k != "groups" && k != "items" ==> i'.fields[k] == i[k]
  {
    var i := Lookup(raw.fields, "INDIRECT").fields;
    var legacy := LegacyGroups(i);
    assert RepairGroups(legacy) == Normalized(legacy) by {
      assert (map k | k in legacy.fields :: RepairGroupValue(legacy.fields[k])) == legacy.fields;
    }
  }

  /** An INDIRECT object whose `groups` is an object keeps every group key;
      each group that is an array is kept and every other becomes `[]`;
      `items` disappears and the other fields stay. */
  lemma NormalizeRepairsIndirectGroups(raw: Json)
    requires raw.JObject? && Repair(raw).Normalized?
    requires var i := Lookup(raw.fields, "INDIRECT");
             i.JObject? && Lookup(i.fields, "groups").JObject?
    ensures var i := Lookup(raw.fields, "INDIRECT").fields;
            var g := i["groups"].fields;
            var i' := Repair(raw).value.fields["INDIRECT"];
            && i'.JObject?
            && i'.fields.Keys == i.Keys - {"items"}
            && i'.fields["groups"].JObject?
            && i'.fields["groups"].fields.Keys == g.Keys
            && (forall k :: k in g && g[k].JArray? ==> i'.fields["groups"].fields[k] == g[k])
            && (forall k :: k in g && !g[k].JArray? ==> i'.fields["groups"].fields[k] == JArray([]))
            && forall k :: k in i && k != "groups" && k != "items" ==> i'.fields[k] == i[k]
  {
  }

  lemma EncodeWellShaped(t: Taxonomy)
    ensures WellShaped(Encode(t))
  {
  }

  /** Data already in the canonical shape loads back unchanged. */
  lemma NormalizeCanonical(t: Taxonomy)
    ensures Repair(Encode(t)) == Normalized(Encode(t))
  {
    EncodeWellShaped(t);
    WellShapedIsFixedPoint(Encode(t));
  }

  /** `null`/`undefined` loads as a fresh copy of the seed taxonomy. */
  lemma NormalizeAbsent()
    ensures Repair(JNull) == Normalized(CloneDefaultCategories())
    ensures Decode(Repair(JNull).value) == Some(Default)
  {
    NormalizeCanonical(Default);
  }

  /** Categories in the legacy shape: a canonical DIRECT section and an
      INDIRECT section `{label, items}` holding one flat list of items. */
  function LegacyCategories(direct: Section, caption: string, items: seq<Item>): Json {
    JObject(map["DIRECT" := EncodeSection(direct), "INDIRECT" := LegacyIndirect(caption, items)])
  }

  function LegacyIndirect(caption: string, items: seq<Item>): Json {
    JObject(map["label" := JString(caption), "items" := EncodeItems(items)])
  }

  lemma LegacyIndirectMigrates(caption: string, items: seq<Item>)
    ensures RepairedIndirect(LegacyIndirect(caption, items).fields)
         == Normalized(EncodeSection(Section(caption, map[FallbackIndirectGroup := items])))
  {
    var i := LegacyIndirect(caption, items).fields;
    var section := Section(caption, map[FallbackIndirectGroup := items]);
    var legacy := LegacyGroups(i);
    assert !Truthy(Lookup(i, "groups"));
    assert RepairGroups(legacy) == Normalized(legacy) by {
      assert (map k | k in legacy.fields :: RepairGroupValue(legacy.fields[k])) == legacy.fields;
    }
    assert legacy.fields == EncodeGroups(section.groups);
    assert i["groups" := legacy] - {"items"} == EncodeSection(section).fields;
  }

  /** One pass of the repair over an object whose DIRECT needs no repair and
      whose INDIRECT object repairs to `indirect`. */
  lemma NormalizeStep(fields: map<string, Json>, indirect: Json)
    requires "DIRECT" in fields && RepairedDirect(fields["DIRECT"]) == fields["DIRECT"]
    requires fields["DIRECT"].JObject?
    requires "INDIRECT" in fields && fields["INDIRECT"].JObject?
    requires RepairedIndirect(fields["INDIRECT"].fields) == Normalized(indirect)
    ensures Repair(JObject(fields)) == Normalized(JObject(fields["INDIRECT" := indirect]))
  {
    assert fields["DIRECT" := fields["DIRECT"]] == fields;
  }

  /** Legacy data migrates to the taxonomy whose INDIRECT section holds the
      flat list as its single `PODSTAWOWE` group. */
  lemma NormalizeLegacy(direct: Section, caption: string, items: seq<Item>)
    ensures Repair(LegacyCategories(direct, caption, items))
         == Normalized(Encode(Taxonomy(direct, Section(caption, map[FallbackIndirectGroup := items]))))
  {
    var raw := LegacyCategories(direct, caption, items);
    var section := Section(caption, map[FallbackIndirectGroup := items]);
    assert RepairedDirect(EncodeSection(direct)) == EncodeSection(direct);
    LegacyIndirectMigrates(caption, items);
    NormalizeStep(raw.fields, EncodeSection(section));
    assert raw.fields["INDIRECT" := EncodeSection(section)] == Encode(Taxonomy(direct, section)).fields;
  }

  /** The file the main process writes on first run (its seed DIRECT section
      and the seed INDIRECT items as a flat list) migrates to exactly the seed
      taxonomy. */
  lemma NormalizeLegacyFirstRun()
    ensures Repair(LegacyCategories(DefaultDirect, DefaultIndirect.caption, DefaultIndirectItems))
         == Normalized(Encode(Default))
  {
    NormalizeLegacy(DefaultDirect, DefaultIndirect.caption, DefaultIndirectItems);
  }
}
