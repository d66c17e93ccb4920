/** The category taxonomy: two sections, DIRECT and INDIRECT, each a display
    label and a map from group name to an ordered group of items; the seed
    taxonomy the renderer starts from; and its JSON form. */
module Taxonomy {
  import opened JsonValue
  import opened Wrappers

  /** An item `{id, label}`; `label` is a keyword of Dafny, so the field is `caption`. */
  datatype Item = Item(id: string, caption: string)

  datatype Section = Section(caption: string, groups: map<string, seq<Item>>)

  datatype Kind = Direct | Indirect

  datatype Taxonomy = Taxonomy(direct: Section, indirect: Section) {

    function Get(kind: Kind): Section {
      if kind == Direct then direct else indirect
    }

    /** This taxonomy with the groups of one section replaced; the section's
        label and the other section are kept. */
    function WithGroups(kind: Kind, groups: map<string, seq<Item>>): (t: Taxonomy)
      ensures t.Get(kind) == Section(Get(kind).caption, groups)
      ensures t.Get(Other(kind)) == Get(Other(kind))
    {
      if kind == Direct then this.(direct := direct.(groups := groups))
      else this.(indirect := indirect.(groups := groups))
    }
  }

  /** Replacing a section's groups twice keeps only the second replacement. */
  lemma WithGroupsTwice(t: Taxonomy, kind: Kind, g1: map<string, seq<Item>>, g2: map<string, seq<Item>>)
    ensures t.WithGroups(kind, g1).WithGroups(kind, g2) == t.WithGroups(kind, g2)
  {
  }

  /** Replacing a section's groups by themselves changes nothing. */
  lemma WithOwnGroups(t: Taxonomy, kind: Kind)
    ensures t.WithGroups(kind, t.Get(kind).groups) == t
  {
  }

  function Other(kind: Kind): (o: Kind)
    ensures o != kind
  {
    if kind == Direct then Indirect else Direct
  }

  /** `i` is the position of the first item of `items` with the id. */
  predicate IsFirstMatch(items: seq<Item>, id: string, i: int) {
    0 <= i < |items| && items[i].id == id && forall j :: 0 <= j < i ==> items[j].id != id
  }

  /** `items.findIndex(item => item.id === id)`: the position of the first item
      with the id, or -1 when there is none. `items.find` is the item there. */
  function FindIndex(items: seq<Item>, id: string): (r: int)
    ensures -1 <= r < |items|
    ensures r == -1 <==> forall i :: 0 <= i < |items| ==> items[i].id != id
    ensures r >= 0 ==> IsFirstMatch(items, id, r)
  {
    if items == [] then -1
    else if items[0].id == id then 0
    else
      var k := FindIndex(items[1..], id);
      if k == -1 then -1 else k + 1
  }

  /** The name of the INDIRECT group that a legacy flat item list migrates into. */
  const FallbackIndirectGroup: string := "PODSTAWOWE"

  const DefaultDirect: Section := Section("KOSZTY BEZPOŚREDNIE", map[
    "WYNAGRODZENIA" := [
      Item("1.1", "WYNAGRODZENIA ETATOWE"),
      Item("1.2", "WYNAGRODZENIA DODATKOWE"),
      Item("1.3", "STYPENDIA")],
    "APARATURA" := [Item("2", "APARATURA")],
    "INNE" := [
      Item("3.1", "LAPTOPY DLA ZESPOŁU"),
      Item("3.2", "Moviesens Software"),
      Item("3.3", "PAVLOVIA PLATFORM LICENCE"),
      Item("3.4", "FIRMA REKRUTACYJNA (USŁUGI OBCE)"),
      Item("3.5", "DYSK ZEWNĘTRZNY"),
      Item("3.6", "KONFERENCJE"),
      Item("3.7", "PROGRAMING EXP. (USŁUGI OBCE)"),
      Item("3.8", "WYKONAWCY ZBIOROWI"),
      Item("3.9", "MATERIAŁY BIUROWE")]])

  /** The seed INDIRECT items, which the legacy first-run file holds as a flat list. */
  const DefaultIndirectItems: seq<Item> := [
    Item("P1", "Koszty OA"),
    Item("P2", "Koszty 15% kierownika"),
    Item("P3", "Koszty pośrednie IP")]

  const DefaultIndirect: Section :=
    Section("KOSZTY POŚREDNIE", map[FallbackIndirectGroup := DefaultIndirectItems])

  /** The hard-coded seed taxonomy. */
  const Default: Taxonomy := Taxonomy(DefaultDirect, DefaultIndirect)

  // ---- JSON form

  function EncodeItem(item: Item): Json {
    JObject(map["id" := JString(item.id), "label" := JString(item.caption)])
  }

  function EncodeItems(items: seq<Item>): (j: Json)
    ensures j.JArray? && |j.elems| == |items|
    ensures forall i :: 0 <= i < |items| ==> j.elems[i] == EncodeItem(items[i])
  {
    JArray(seq(|items|, i requires 0 <= i < |items| => EncodeItem(items[i])))
  }

  function EncodeGroups(groups: map<string, seq<Item>>): (m: map<string, Json>)
    ensures m.Keys == groups.Keys
    ensures forall k :: k in groups ==> m[k] == EncodeItems(groups[k])
  {
    map k | k in groups :: EncodeItems(groups[k])
  }

  function EncodeSection(s: Section): Json {
    JObject(map["label" := JString(s.caption), "groups" := JObject(EncodeGroups(s.groups))])
  }

  /** The taxonomy as the JSON object `{DIRECT: …, INDIRECT: …}` it is persisted as. */
  function Encode(t: Taxonomy): Json {
    JObject(map["DIRECT" := EncodeSection(t.direct), "INDIRECT" := EncodeSection(t.indirect)])
  }

  function DecodeString(j: Json): Option<string> {
    if j.JString? then Some(j.s) else None
  }

  function DecodeItem(j: Json): Option<Item> {
    if j.JObject? && DecodeString(Lookup(j.fields, "id")).Some?
       && DecodeString(Lookup(j.fields, "label")).Some?
    then Some(Item(j.fields["id"].s, j.fields["label"].s))
    else None
  }

  function DecodeItems(j: Json): Option<seq<Item>> {
    if j.JArray? && forall i :: 0 <= i < |j.elems| ==> DecodeItem(j.elems[i]).Some?
    then Some(seq(|j.elems|, i requires 0 <= i < |j.elems| => DecodeItem(j.elems[i]).value))
    else None
  }

  function DecodeGroups(j: Json): Option<map<string, seq<Item>>> {
    if j.JObject? && forall k :: k in j.fields ==> DecodeItems(j.fields[k]).Some?
    then Some(map k | k in j.fields :: DecodeItems(j.fields[k]).value)
    else None
  }

  function DecodeSection(j: Json): Option<Section> {
    if j.JObject? && DecodeString(Lookup(j.fields, "label")).Some?
       && DecodeGroups(Lookup(j.fields, "groups")).Some?
    then Some(Section(j.fields["label"].s, DecodeGroups(j.fields["groups"]).value))
    else None
  }

  /** Reads a JSON value as a taxonomy when it has the declared `Categories` shape. */
  function Decode(j: Json): Option<Taxonomy> {
    if j.JObject? && DecodeSection(Lookup(j.fields, "DIRECT")).Some?
       && DecodeSection(Lookup(j.fields, "INDIRECT")).Some?
    then Some(Taxonomy(DecodeSection(j.fields["DIRECT"]).value,
                       DecodeSection(j.fields["INDIRECT"]).value))
    else None
  }

  lemma DecodeEncodeItems(items: seq<Item>)
    ensures DecodeItems(EncodeItems(items)) == Some(items)
  {
    var j := EncodeItems(items);
    forall i | 0 <= i < |items| ensures DecodeItem(j.elems[i]) == Some(items[i]) {
      assert j.elems[i] == EncodeItem(items[i]);
    }
    var d := seq(|j.elems|, i requires 0 <= i < |j.elems| => DecodeItem(j.elems[i]).value);
    assert d == items;
  }

  lemma DecodeEncodeSection(s: Section)
    ensures DecodeSection(EncodeSection(s)) == Some(s)
  {
    var m := EncodeGroups(s.groups);
    forall k | k in m ensures DecodeItems(m[k]) == Some(s.groups[k]) {
      DecodeEncodeItems(s.groups[k]);
    }
    var d := map k | k in m :: DecodeItems(m[k]).value;
    assert d == s.groups;
    assert DecodeGroups(JObject(m)) == Some(s.groups);
  }

  /** Every taxonomy is read back from its JSON form unchanged, so `Encode` loses nothing. */
  lemma DecodeEncode(t: Taxonomy)
    ensures Decode(Encode(t)) == Some(t)
  {
    DecodeEncodeSection(t.direct);
    DecodeEncodeSection(t.indirect);
  }
}
