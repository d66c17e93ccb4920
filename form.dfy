/** The read-only uses of the taxonomy by the cost form: resolving the chosen
    item's label (`resolveCategoryLabel`), the rows of the summary document and
    the name of the file it is saved under (inside `generatePdf`). */
module Form {
  import opened Taxonomy
  import opened Wrappers

  /** The submitted form values these rules read. `None` is `undefined`. The
      cost type is kept as the raw string: only the value `"DIRECT"` selects the
      DIRECT section. */
  datatype FormValues = FormValues(
    projectName: string,
    agreementNumber: string,
    costType: string,
    directGroup: Option<string>,
    indirectGroup: Option<string>,
    costCategory: string)

  function KindOf(costType: string): (k: Kind)
    ensures k == Direct <==> costType == "DIRECT"
  {
    if costType == "DIRECT" then Direct else Indirect
  }

  /** The group key the form holds for the chosen cost type, whether or not it is set. */
  function ChosenGroup(values: FormValues): Option<string> {
    if KindOf(values.costType) == Direct then values.directGroup else values.indirectGroup
  }

  /** The chosen group key when it is set: `undefined` and `""` both read as unset. */
  function SelectedGroup(values: FormValues): (g: Option<string>)
    ensures g.Some? <==> ChosenGroup(values).Some? && ChosenGroup(values).value != ""
    ensures g.Some? ==> g == ChosenGroup(values)
  {
    match ChosenGroup(values)
    case Some(key) => if key == "" then None else Some(key)
    case None => None
  }

  /** `groups[key] || []`: the items of a group, none for a key that is not there. */
  function GroupItems(section: Section, key: string): (items: seq<Item>)
    ensures key in section.groups ==> items == section.groups[key]
    ensures key !in section.groups ==> items == []
  {
    if key in section.groups then section.groups[key] else []
  }

  /** The label of the chosen item, or `"-"` when no group is chosen or no
      item of the chosen group has the chosen id. */
  function ResolveCategoryLabel(data: Taxonomy, values: FormValues): (r: string)
    ensures SelectedGroup(values).None? ==> r == "-"
    ensures SelectedGroup(values).Some? ==>
      var items := GroupItems(data.Get(KindOf(values.costType)), SelectedGroup(values).value);
      && ((forall i :: 0 <= i < |items| ==> items[i].id != values.costCategory) ==> r == "-")
      && ((exists i :: 0 <= i < |items| && items[i].id == values.costCategory) ==>
            exists i :: IsFirstMatch(items, values.costCategory, i) && r == items[i].caption)
  {
    match SelectedGroup(values)
    case None => "-"
    case Some(key) =>
      var items := GroupItems(data.Get(KindOf(values.costType)), key);
      var index := FindIndex(items, values.costCategory);
      if index == -1 then "-"
      else
        assert IsFirstMatch(items, values.costCategory, index);
        items[index].caption
  }

  /** The text of the group row: the chosen group, or `"-"` when none is chosen. */
  function GroupName(values: FormValues): (r: string)
    ensures SelectedGroup(values).None? ==> r == "-"
    ensures SelectedGroup(values).Some? ==> r == SelectedGroup(values).value
  {
    match SelectedGroup(values)
    case Some(key) => key
    case None => "-"
  }

  const RowKeys: seq<string> :=
    ["NUMER UMOWY PROJEKTU", "NAZWA PROJEKTU", "GRUPA KOSZTU", "KATEGORIA KOSZTU"]

  /** The key/value rows of the summary, in their fixed order: agreement
      number, project name, group and category label. */
  function SummaryRows(data: Taxonomy, values: FormValues): (rows: seq<(string, string)>)
    ensures |rows| == |RowKeys|
    ensures forall i :: 0 <= i < |rows| ==> rows[i].0 == RowKeys[i]
    ensures rows[0].1 == values.agreementNumber && rows[1].1 == values.projectName
    ensures rows[2].1 == GroupName(values)
    ensures rows[3].1 == ResolveCategoryLabel(data, values)
  {
    [(RowKeys[0], values.agreementNumber),
     (RowKeys[1], values.projectName),
     (RowKeys[2], GroupName(values)),
     (RowKeys[3], ResolveCategoryLabel(data, values))]
  }

  /** With no group chosen both the group row and the category row read `"-"`. */
  lemma SummaryWithoutGroup(data: Taxonomy, values: FormValues)
    requires SelectedGroup(values).None?
    ensures SummaryRows(data, values)[2].1 == "-" && SummaryRows(data, values)[3].1 == "-"
  {
  }

  /** What became of the attached invoice: none attached, merged after the
      summary pages, or the merge threw. */
  datatype Attachment = NoAttachment | Merged | MergeFailed

  /** `agreementNumber || 'dane'`. */
  function FileStem(agreementNumber: string): (stem: string)
    ensures stem != ""
    ensures agreementNumber != "" ==> stem == agreementNumber
    ensures agreementNumber == "" ==> stem == "dane"
  {
    if agreementNumber == "" then "dane" else agreementNumber
  }

  const FilePrefix: string := "koszt-"
  const PlainSuffix: string := ".pdf"
  const MergedSuffix: string := "-z-faktura.pdf"

  function FileSuffix(attachment: Attachment): string {
    if attachment == Merged then MergedSuffix else PlainSuffix
  }

  /** The name the document is saved under. */
  function OutputFileName(agreementNumber: string, attachment: Attachment): (name: string)
    ensures |name| == |FilePrefix| + |FileStem(agreementNumber)| + |FileSuffix(attachment)|
    ensures name[..|FilePrefix|] == FilePrefix
    ensures name[|FilePrefix|..|FilePrefix| + |FileStem(agreementNumber)|] == FileStem(agreementNumber)
    ensures name[|name| - |FileSuffix(attachment)|..] == FileSuffix(attachment)
  {
    FilePrefix + FileStem(agreementNumber) + FileSuffix(attachment)
  }

  /** A failed merge saves the summary under the name it has without an attachment. */
  lemma MergeFailureFallsBack(agreementNumber: string)
    ensures OutputFileName(agreementNumber, MergeFailed) == OutputFileName(agreementNumber, NoAttachment)
  {
  }

  /** A merged document and a plain one of the same agreement get different names. */
  lemma MergedNameDiffers(agreementNumber: string)
    ensures OutputFileName(agreementNumber, Merged) != OutputFileName(agreementNumber, NoAttachment)
  {
    assert |OutputFileName(agreementNumber, Merged)| != |OutputFileName(agreementNumber, NoAttachment)|;
  }

  /** A blank agreement number is saved under the placeholder `dane`. */
  lemma BlankAgreementIsDane(attachment: Attachment)
    ensures OutputFileName("", attachment) == OutputFileName("dane", attachment)
  {
  }

  /** Two different non-blank agreement numbers never share a file name of the same kind. */
  lemma FileNameDeterminesAgreement(a: string, b: string, attachment: Attachment)
    requires a != "" && b != ""
    requires OutputFileName(a, attachment) == OutputFileName(b, attachment)
    ensures a == b
  {
    var n := OutputFileName(a, attachment);
    assert |a| == |b|;
    assert a == n[|FilePrefix|..|FilePrefix| + |a|] == b;
  }
}
