/** The taxonomy edits of the administration panel (`AdminPanel`).

    Each handler deep-copies the taxonomy it is given, changes the copy and
    hands the copy to `onDataChange`; the taxonomy it was given is a value and
    is never changed. The handlers for the DIRECT and the INDIRECT section are
    the same code with the section swapped, so each pair is one member here
    with the section as a parameter. */
module Admin {
  import opened Taxonomy
  import opened Text
  import opened Wrappers

  /** What a handler does with `onDataChange`: nothing, hand it a new
      taxonomy, or the handler throws a `TypeError` first (it reads a group
      that is not there). */
  datatype Effect = NoChange | DataChange(next: Taxonomy) | Throws

  // ---- Updates of one group's item list

  /** `items.map((item, i) => i === index ? {...item, label} : item)`. */
  function Relabel(items: seq<Item>, index: nat, caption: string): (r: seq<Item>)
    requires index < |items|
    ensures |r| == |items|
    ensures r[index] == Item(items[index].id, caption)
    ensures forall i :: 0 <= i < |items| && i != index ==> r[i] == items[i]
  {
    seq(|items|, i requires 0 <= i < |items| =>
      if i == index then items[i].(caption := caption) else items[i])
  }

  /** `items.filter(item => item.id !== id)`. */
  function WithoutId(items: seq<Item>, id: string): (r: seq<Item>)
    ensures |r| <= |items|
    ensures forall x :: x in r <==> x in items && x.id != id
  {
    if items == [] then []
    else if items[0].id == id then WithoutId(items[1..], id)
    else [items[0]] + WithoutId(items[1..], id)
  }

  /** Filtering keeps the order of the remaining items: it distributes over
      concatenation. */
  lemma {:induction false} WithoutIdConcat(a: seq<Item>, b: seq<Item>, id: string)
    ensures WithoutId(a + b, id) == WithoutId(a, id) + WithoutId(b, id)
  {
    if a == [] {
      assert a + b == b;
    } else {
      assert (a + b)[0] == a[0];
      assert (a + b)[1..] == a[1..] + b;
      WithoutIdConcat(a[1..], b, id);
    }
  }

  /** Filtering out an id that no item has keeps the list as it is. */
  lemma {:induction false} WithoutAbsentId(items: seq<Item>, id: string)
    requires forall i :: 0 <= i < |items| ==> items[i].id != id
    ensures WithoutId(items, id) == items
  {
    if items != [] {
      WithoutAbsentId(items[1..], id);
    }
  }

  /** `${groupName.charAt(0)}.${length + 1}`: the id a new item gets. */
  function NewItemId(groupName: string, length: nat): (id: string)
    ensures |id| > |FirstChar(groupName)| + 1
    ensures id[..|FirstChar(groupName)|] == FirstChar(groupName)
    ensures id[|FirstChar(groupName)|] == '.'
    ensures forall i :: |FirstChar(groupName)| < i < |id| ==> IsDigit(id[i])
  {
    FirstChar(groupName) + "." + Decimal(length + 1)
  }

  /** The new id is the first character of the group name (none for an empty
      name), a dot, and the decimal digits of the new group length. */
  lemma NewItemIdParts(groupName: string, length: nat)
    ensures var id := NewItemId(groupName, length);
            var p := |FirstChar(groupName)|;
            && p == (if groupName == "" then 0 else 1)
            && id[..p] == groupName[..p]
            && id[p] == '.'
            && (forall i :: p < i < |id| ==> IsDigit(id[i]))
            && ParseDecimal(id[p + 1..]) == length + 1
  {
    var id := NewItemId(groupName, length);
    var p := |FirstChar(groupName)|;
    assert id[p + 1..] == Decimal(length + 1);
    DecimalRoundTrip(length + 1);
  }

  // ---- The edits, as functions of the taxonomy they are given

  /** `next` differs from `data` at most in group `key` of section `kind`: the
      other section, the section label and every other group are the same. */
  ghost predicate SameExcept(data: Taxonomy, next: Taxonomy, kind: Kind, key: string) {
    && next.Get(Other(kind)) == data.Get(Other(kind))
    && next.Get(kind).caption == data.Get(kind).caption
    && forall g :: g != key ==>
         (g in next.Get(kind).groups <==> g in data.Get(kind).groups)
         && (g in data.Get(kind).groups ==> next.Get(kind).groups[g] == data.Get(kind).groups[g])
  }

  /** `saveDirectEdit`/`saveIndirectEdit`: the first item of the group with
      the id gets the new label; an id that is not there changes nothing. */
  function EditItemEffect(data: Taxonomy, kind: Kind, groupKey: string, itemId: string, caption: string)
    : (e: Effect)
    ensures groupKey !in data.Get(kind).groups <==> e == Throws
    ensures groupKey in data.Get(kind).groups ==>
      var items := data.Get(kind).groups[groupKey];
      && (e == NoChange <==> forall i :: 0 <= i < |items| ==> items[i].id != itemId)
      && (e.DataChange? ==>
            && SameExcept(data, e.next, kind, groupKey)
            && groupKey in e.next.Get(kind).groups
            && exists index :: IsFirstMatch(items, itemId, index)
                 && var items' := e.next.Get(kind).groups[groupKey];
                 && |items'| == |items|
                 && items'[index] == Item(itemId, caption)
                 && forall i :: 0 <= i < |items| && i != index ==> items'[i] == items[i])
  {
    var groups := data.Get(kind).groups;
    if groupKey !in groups then Throws
    else
      var items := groups[groupKey];
      var index := FindIndex(items, itemId);
      if index == -1 then NoChange
      else DataChange(data.WithGroups(kind, groups[groupKey := Relabel(items, index, caption)]))
  }

  /** `deleteDirectItem`/`deleteIndirectItem`: after confirmation, every item
      of the group with the id is removed. */
  function DeleteItemEffect(data: Taxonomy, kind: Kind, groupKey: string, itemId: string, confirmed: bool)
    : (e: Effect)
    ensures !confirmed ==> e == NoChange
    ensures confirmed && groupKey !in data.Get(kind).groups ==> e == Throws
    ensures confirmed && groupKey in data.Get(kind).groups ==>
      && e.DataChange?
      && SameExcept(data, e.next, kind, groupKey)
      && groupKey in e.next.Get(kind).groups
      && e.next.Get(kind).groups[groupKey] == WithoutId(data.Get(kind).groups[groupKey], itemId)
  {
    var groups := data.Get(kind).groups;
    if !confirmed then NoChange
    else if groupKey !in groups then Throws
    else DataChange(data.WithGroups(kind, groups[groupKey := WithoutId(groups[groupKey], itemId)]))
  }

  /** `addDirectItem`/`addIndirectItem`: a label that is not blank is appended,
      as typed, to the selected group under a synthesised id. */
  function AddItemEffect(data: Taxonomy, kind: Kind, groupName: string, caption: string)
    : (e: Effect)
    ensures IsBlank(caption) ==> e == NoChange
    ensures !IsBlank(caption) && groupName !in data.Get(kind).groups ==> e == Throws
    ensures !IsBlank(caption) && groupName in data.Get(kind).groups ==>
      var items := data.Get(kind).groups[groupName];
      && e.DataChange?
      && SameExcept(data, e.next, kind, groupName)
      && groupName in e.next.Get(kind).groups
      && var items' := e.next.Get(kind).groups[groupName];
         && |items'| == |items| + 1
         && items'[..|items|] == items
         && items'[|items|] == Item(NewItemId(groupName, |items|), caption)
  {
    TrimEmptyIffBlank(caption);
    var groups := data.Get(kind).groups;
    if Trim(caption) == "" then NoChange
    else if groupName !in groups then Throws
    else
      var items := groups[groupName];
      DataChange(data.WithGroups(kind,
        groups[groupName := items + [Item(NewItemId(groupName, |items|), caption)]]))
  }

  /** `addDirectGroup`/`addIndirectGroup`: a name that is neither blank nor
      already a group becomes, as typed, a new empty group. */
  function AddGroupEffect(data: Taxonomy, kind: Kind, name: string): (e: Effect)
    ensures IsBlank(name) || name in data.Get(kind).groups <==> e == NoChange
    ensures e != Throws
    ensures e.DataChange? ==>
      && SameExcept(data, e.next, kind, name)
      && e.next.Get(kind).groups.Keys == data.Get(kind).groups.Keys + {name}
      && e.next.Get(kind).groups[name] == []
  {
    TrimEmptyIffBlank(name);
    var groups := data.Get(kind).groups;
    if Trim(name) == "" || name in groups then NoChange
    else DataChange(data.WithGroups(kind, groups[name := []]))
  }

  /** `deleteDirectGroup`/`deleteIndirectGroup`: after confirmation the group
      and its items are gone and everything else stays. */
  function DeleteGroupEffect(data: Taxonomy, kind: Kind, name: string, confirmed: bool): (e: Effect)
    ensures !confirmed <==> e == NoChange
    ensures e != Throws
    ensures e.DataChange? ==>
      && SameExcept(data, e.next, kind, name)
      && e.next.Get(kind).groups.Keys == data.Get(kind).groups.Keys - {name}
  {
    if !confirmed then NoChange
    else DataChange(data.WithGroups(kind, data.Get(kind).groups - {name}))
  }

  // ---- How the edits relate

  /** Deleting a group just added gives back the taxonomy before. */
  lemma DeleteGroupUndoesAddGroup(data: Taxonomy, kind: Kind, name: string)
    requires AddGroupEffect(data, kind, name).DataChange?
    ensures DeleteGroupEffect(AddGroupEffect(data, kind, name).next, kind, name, true) == DataChange(data)
  {
    var groups := data.Get(kind).groups;
    TrimEmptyIffBlank(name);
    assert AddGroupEffect(data, kind, name).next == data.WithGroups(kind, groups[name := []]);
    assert groups[name := []] - {name} == groups;
    WithGroupsTwice(data, kind, groups[name := []], groups);
    WithOwnGroups(data, kind);
  }

  /** Editing an item back to its old label gives back the taxonomy before. */
  lemma EditItemUndo(data: Taxonomy, kind: Kind, groupKey: string, itemId: string, caption: string)
    requires EditItemEffect(data, kind, groupKey, itemId, caption).DataChange?
    ensures var items := data.Get(kind).groups[groupKey];
            var was := items[FindIndex(items, itemId)].caption;
            var next := EditItemEffect(data, kind, groupKey, itemId, caption).next;
            EditItemEffect(next, kind, groupKey, itemId, was) == DataChange(data)
  {
    var groups := data.Get(kind).groups;
    var items := groups[groupKey];
    var index := FindIndex(items, itemId);
    var relabelled := Relabel(items, index, caption);
    assert FindIndex(relabelled, itemId) == index by {
      assert IsFirstMatch(relabelled, itemId, index);
    }
    assert Relabel(relabelled, index, items[index].caption) == items;
    assert groups[groupKey := relabelled][groupKey := items] == groups;
    WithGroupsTwice(data, kind, groups[groupKey := relabelled], groups);
    WithOwnGroups(data, kind);
  }

  /** Deleting the id of an item just added removes it again and gives back
      the taxonomy before, provided no older item of the group had that id. */
  lemma DeleteItemUndoesAddItem(data: Taxonomy, kind: Kind, groupName: string, caption: string)
    requires AddItemEffect(data, kind, groupName, caption).DataChange?
    requires var items := data.Get(kind).groups[groupName];
             forall i :: 0 <= i < |items| ==> items[i].id != NewItemId(groupName, |items|)
    ensures var items := data.Get(kind).groups[groupName];
            var next := AddItemEffect(data, kind, groupName, caption).next;
            DeleteItemEffect(next, kind, groupName, NewItemId(groupName, |items|), true) == DataChange(data)
  {
    var groups := data.Get(kind).groups;
    var items := groups[groupName];
    var id := NewItemId(groupName, |items|);
    var added := items + [Item(id, caption)];
    AddItemAppends(data, kind, groupName, caption);
    WithoutAppendedId(items, id, caption);
    assert groups[groupName := added][groupName := items] == groups;
    WithGroupsTwice(data, kind, groups[groupName := added], groups);
    WithOwnGroups(data, kind);
  }

  /** Helper: the taxonomy an accepted add produces. */
  lemma AddItemAppends(data: Taxonomy, kind: Kind, groupName: string, caption: string)
    requires AddItemEffect(data, kind, groupName, caption).DataChange?
    ensures var groups := data.Get(kind).groups;
            var items := groups[groupName];
            AddItemEffect(data, kind, groupName, caption).next
              == data.WithGroups(kind, groups[groupName := items + [Item(NewItemId(groupName, |items|), caption)]])
  {
    TrimEmptyIffBlank(caption);
  }

  /** Helper: filtering out the id of the one appended item, when no older
      item has it, gives back the older items. */
  lemma WithoutAppendedId(items: seq<Item>, id: string, caption: string)
    requires forall i :: 0 <= i < |items| ==> items[i].id != id
    ensures WithoutId(items + [Item(id, caption)], id) == items
  {
    WithoutIdConcat(items, [Item(id, caption)], id);
    WithoutAbsentId(items, id);
    assert WithoutId([Item(id, caption)], id) == [];
  }

  /** The first item added to a new group gets the id `<first char>.1`. */
  lemma FirstItemOfNewGroup(data: Taxonomy, kind: Kind, name: string, caption: string)
    requires AddGroupEffect(data, kind, name).DataChange?
    requires !IsBlank(caption)
    ensures var next := AddGroupEffect(data, kind, name).next;
            var e := AddItemEffect(next, kind, name, caption);
            e.DataChange? && e.next.Get(kind).groups[name] == [Item(FirstChar(name) + ".1", caption)]
  {
    var next := AddGroupEffect(data, kind, name).next;
    var e := AddItemEffect(next, kind, name, caption);
    assert Decimal(1) == "1";
    assert NewItemId(name, 0) == FirstChar(name) + ".1";
    assert next.Get(kind).groups[name] == [];
    assert e.next.Get(kind).groups[name] == [] + [Item(NewItemId(name, 0), caption)];
  }

  /** Adding the DIRECT group `TESTY`, adding the item `Pierwszy test` to it
      (which gets the id `T.1`) and deleting the group again gives back the
      taxonomy before. */
  lemma NewGroupScenario(data: Taxonomy)
    requires "TESTY" !in data.direct.groups
    ensures var t1 := AddGroupEffect(data, Direct, "TESTY");
            && t1.DataChange?
            && var t2 := AddItemEffect(t1.next, Direct, "TESTY", "Pierwszy test");
               && t2.DataChange?
               && t2.next.direct.groups["TESTY"] == [Item("T.1", "Pierwszy test")]
               && DeleteGroupEffect(t2.next, Direct, "TESTY", true) == DataChange(data)
  {
    assert !IsWhiteSpace("TESTY"[0]) && !IsWhiteSpace("Pierwszy test"[0]);
    var t1 := AddGroupEffect(data, Direct, "TESTY");
    FirstItemOfNewGroup(data, Direct, "TESTY", "Pierwszy test");
    var t2 := AddItemEffect(t1.next, Direct, "TESTY", "Pierwszy test");
    assert FirstChar("TESTY") + ".1" == "T.1";
    assert t2.next.direct.groups["TESTY"] == [Item("T.1", "Pierwszy test")];
    assert t2.next.direct.groups.Keys == data.direct.groups.Keys + {"TESTY"};
    assert t2.next.direct.groups - {"TESTY"} == data.direct.groups;
    assert t2.next.indirect == data.indirect;
    assert DeleteGroupEffect(t2.next, Direct, "TESTY", true).next == data;
  }

  /** The synthesised id repeats one already in the group once an earlier
      item has been deleted: from `[T.1, T.2]`, deleting `T.1` and adding an
      item gives two items with id `T.2`. */
  lemma NewItemIdCanRepeat(data: Taxonomy, caption: string)
    requires data.direct.groups == map["TESTY" := [Item("T.1", "a"), Item("T.2", "b")]]
    requires !IsBlank(caption)
    ensures var after := DeleteItemEffect(data, Direct, "TESTY", "T.1", true).next;
            var e := AddItemEffect(after, Direct, "TESTY", caption);
            e.DataChange? && e.next.direct.groups["TESTY"] == [Item("T.2", "b"), Item("T.2", caption)]
  {
    var items := [Item("T.1", "a"), Item("T.2", "b")];
    assert WithoutId(items, "T.1") == [Item("T.2", "b")] by {
      assert items[1..] == [Item("T.2", "b")];
      assert WithoutId([Item("T.2", "b")], "T.1") == [Item("T.2", "b")] + WithoutId([], "T.1");
    }
    assert Decimal(2) == "2";
    assert NewItemId("TESTY", 1) == "T.2";
  }

  // ---- The component

  /** `JSON.parse(JSON.stringify(data))`: a fresh copy of the taxonomy whose
      group maps the handlers change in place before handing it on. */
  class Draft {
    var directCaption: string
    var directGroups: map<string, seq<Item>>
    var indirectCaption: string
    var indirectGroups: map<string, seq<Item>>

    constructor (data: Taxonomy)
      ensures Value() == data
    {
      directCaption := data.direct.caption;
      directGroups := data.direct.groups;
      indirectCaption := data.indirect.caption;
      indirectGroups := data.indirect.groups;
    }

    /** The taxonomy the copy now holds. */
    function Value(): Taxonomy
      reads this
    {
      Taxonomy(Section(directCaption, directGroups), Section(indirectCaption, indirectGroups))
    }

    function Groups(kind: Kind): (groups: map<string, seq<Item>>)
      reads this
      ensures groups == Value().Get(kind).groups
    {
      if kind == Direct then directGroups else indirectGroups
    }

    /** `copy.<section>.groups[key] = items`. */
    method Put(kind: Kind, key: string, items: seq<Item>)
      modifies this
      ensures Value() == old(Value()).WithGroups(kind, old(Groups(kind))[key := items])
    {
      if kind == Direct {
        directGroups := directGroups[key := items];
      } else {
        indirectGroups := indirectGroups[key := items];
      }
    }

    /** `delete copy.<section>.groups[key]`. */
    method Remove(kind: Kind, key: string)
      modifies this
      ensures Value() == old(Value()).WithGroups(kind, old(Groups(kind)) - {key})
    {
      if kind == Direct {
        directGroups := directGroups - {key};
      } else {
        indirectGroups := indirectGroups - {key};
      }
    }
  }

  /** The panel's own state (its `useState` fields). The taxonomy is the
      `data` prop, passed to each handler; what a handler returns is what it
      hands to `onDataChange`. */
  class AdminPanel {
    var editingId: Option<string>
    var editValue: string
    var newDirectLabel: string
    var newIndirectLabel: string
    var newDirectGroupName: string
    var newIndirectGroupName: string
    var selectedDirectGroup: string
    var selectedIndirectGroup: string

    function NewLabel(kind: Kind): string
      reads this
    {
      if kind == Direct then newDirectLabel else newIndirectLabel
    }

    function NewGroupName(kind: Kind): string
      reads this
    {
      if kind == Direct then newDirectGroupName else newIndirectGroupName
    }

    function Selected(kind: Kind): string
      reads this
    {
      if kind == Direct then selectedDirectGroup else selectedIndirectGroup
    }

    /** The initial state: nothing being edited, empty inputs, and a group of
      each section selected (the empty name when the section has none). */
    constructor (data: Taxonomy)
      ensures editingId == None && editValue == ""
      ensures forall kind :: NewLabel(kind) == "" && NewGroupName(kind) == ""
      ensures forall kind :: data.Get(kind).groups == map[] ==> Selected(kind) == ""
      ensures forall kind :: data.Get(kind).groups != map[] ==> Selected(kind) in data.Get(kind).groups
    {
      var direct := FirstKeyOr(data.direct.groups);
      var indirect := FirstKeyOr(data.indirect.groups);
      editingId := None;
      editValue := "";
      newDirectLabel, newIndirectLabel := "", "";
      newDirectGroupName, newIndirectGroupName := "", "";
      selectedDirectGroup, selectedIndirectGroup := direct, indirect;
    }

    /** `startEdit`: the item being edited and its label in the edit box. */
    method StartEdit(id: string, currentLabel: string)
      modifies this`editingId, this`editValue
      ensures editingId == Some(id) && editValue == currentLabel
    {
      editingId := Some(id);
      editValue := currentLabel;
    }

    /** `saveDirectEdit`/`saveIndirectEdit`. */
    method SaveEdit(data: Taxonomy, kind: Kind, groupKey: string, itemId: string) returns (effect: Effect)
      modifies this`editingId
      ensures effect == EditItemEffect(data, kind, groupKey, itemId, editValue)
      ensures editingId == if effect == Throws then old(editingId) else None
    {
      if groupKey !in data.Get(kind).groups {
        return Throws;
      }
      var copy := new Draft(data);
      var items := copy.Groups(kind)[groupKey];
      var index := FindIndex(items, itemId);
      if index != -1 {
        copy.Put(kind, groupKey, Relabel(items, index, editValue));
        effect := DataChange(copy.Value());
      } else {
        effect := NoChange;
      }
      editingId := None;
    }

    /** `deleteDirectItem`/`deleteIndirectItem`; `confirmed` is the answer to `confirm`. */
    method DeleteItem(data: Taxonomy, kind: Kind, groupKey: string, itemId: string, confirmed: bool)
      returns (effect: Effect)
      ensures effect == DeleteItemEffect(data, kind, groupKey, itemId, confirmed)
    {
      if !confirmed {
        return NoChange;
      }
      var copy := new Draft(data);
      if groupKey !in copy.Groups(kind) {
        return Throws;
      }
      copy.Put(kind, groupKey, WithoutId(copy.Groups(kind)[groupKey], itemId));
      effect := DataChange(copy.Value());
    }

    /** `addDirectItem`/`addIndirectItem`: appends the typed label to the
      selected group and clears the label input. */
    method AddItem(data: Taxonomy, kind: Kind) returns (effect: Effect)
      modifies this`newDirectLabel, this`newIndirectLabel
      ensures effect == AddItemEffect(data, kind, Selected(kind), old(NewLabel(kind)))
      ensures NewLabel(kind) == if effect.DataChange? then "" else old(NewLabel(kind))
      ensures NewLabel(Other(kind)) == old(NewLabel(Other(kind)))
    {
      var caption := NewLabel(kind);
      var groupName := Selected(kind);
      TrimEmptyIffBlank(caption);
      if Trim(caption) == "" {
        return NoChange;
      }
      var copy := new Draft(data);
      if groupName !in copy.Groups(kind) {
        return Throws;
      }
      var group := copy.Groups(kind)[groupName];
      var newId := NewItemId(groupName, |group|);
      copy.Put(kind, groupName, group + [Item(newId, caption)]);
      effect := DataChange(copy.Value());
      if kind == Direct {
        newDirectLabel := "";
      } else {
        newIndirectLabel := "";
      }
    }

    /** `addDirectGroup`/`addIndirectGroup`: adds the typed name as an empty
      group, selects it and clears the name input; `warned` is the alert that
      the name is taken. */
    method AddGroup(data: Taxonomy, kind: Kind) returns (effect: Effect, warned: bool)
      modifies this`newDirectGroupName, this`newIndirectGroupName,
               this`selectedDirectGroup, this`selectedIndirectGroup
      ensures effect == AddGroupEffect(data, kind, old(NewGroupName(kind)))
      ensures warned <==> !IsBlank(old(NewGroupName(kind))) && old(NewGroupName(kind)) in data.Get(kind).groups
      ensures effect.DataChange? ==> Selected(kind) == old(NewGroupName(kind)) && NewGroupName(kind) == ""
      ensures effect == NoChange ==> Selected(kind) == old(Selected(kind)) && NewGroupName(kind) == old(NewGroupName(kind))
      ensures Selected(Other(kind)) == old(Selected(Other(kind)))
      ensures NewGroupName(Other(kind)) == old(NewGroupName(Other(kind)))
    {
      var name := NewGroupName(kind);
      TrimEmptyIffBlank(name);
      if Trim(name) == "" {
        return NoChange, false;
      }
      if name in data.Get(kind).groups {
        return NoChange, true;
      }
      var copy := new Draft(data);
      copy.Put(kind, name, []);
      effect, warned := DataChange(copy.Value()), false;
      if kind == Direct {
        selectedDirectGroup, newDirectGroupName := name, "";
      } else {
        selectedIndirectGroup, newIndirectGroupName := name, "";
      }
    }

    /** `deleteDirectGroup`/`deleteIndirectGroup`: removes the group and, when
      groups remain, selects one of them. */
    method DeleteGroup(data: Taxonomy, kind: Kind, name: string, confirmed: bool) returns (effect: Effect)
      modifies this`selectedDirectGroup, this`selectedIndirectGroup
      ensures effect == DeleteGroupEffect(data, kind, name, confirmed)
      ensures effect.DataChange? && effect.next.Get(kind).groups != map[] ==>
        Selected(kind) in effect.next.Get(kind).groups
      ensures effect == NoChange || effect.next.Get(kind).groups == map[] ==>
        Selected(kind) == old(Selected(kind))
      ensures Selected(Other(kind)) == old(Selected(Other(kind)))
    {
      if !confirmed {
        return NoChange;
      }
      var copy := new Draft(data);
      copy.Remove(kind, name);
      effect := DataChange(copy.Value());
      var remaining := copy.Groups(kind);
      if remaining != map[] {
        var first := FirstKeyOr(remaining);
        if kind == Direct {
          selectedDirectGroup := first;
        } else {
          selectedIndirectGroup := first;
        }
      }
    }
  }

  /** `Object.keys(groups)[0] || ''`: some group name, or the empty name when
      there is no group. Which key comes first is not modelled. */
  method FirstKeyOr(groups: map<string, seq<Item>>) returns (key: string)
    ensures groups == map[] ==> key == ""
    ensures groups != map[] ==> key in groups
  {
    if groups == map[] {
      key := "";
    } else {
      key :| key in groups;
    }
  }
}
