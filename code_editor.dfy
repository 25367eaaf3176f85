/**
 * `onEditorChange` of src/ReactAiStudio/components/CodeEditor/index.tsx:
 * the selected file is looked up (`file = files[selectedFileName]`), and the
 * entry stored under that file's own `name` gets the editor text as its
 * value, in place. Looking up a missing file throws, and the collection is
 * then left as it was.
 */
module CodeEditor {
  import opened Wrappers
  import opened FileCollection
  import opened AIStudio

  /** The collection after the edit, or `None` where the source throws a `TypeError`. */
  function Edited(fs: Files, selected: string, value: string): (r: Option<Files>)
    ensures r.Some? <==> selected in fs.entries && fs.entries[selected].name in fs.entries
    ensures r.Some? ==>
      var k := fs.entries[selected].name;
      && r.value.order == fs.order
      && r.value.entries.Keys == fs.entries.Keys
      && r.value.entries[k] == fs.entries[k].(value := value)
      && (forall j :: j != k ==> Lookup(r.value, j) == Lookup(fs, j))
  {
    match Lookup(fs, selected)
    case None => None
    case Some(file) =>
      match Lookup(fs, file.name)
      case None => None
      case Some(target) => Some(Files(fs.order, fs.entries[file.name := target.(value := value)]))
  }

  /**
   * When every entry is named after its key, the edit is exactly "the
   * selected file gets the new text": its name and language stay, and so
   * does every other file.
   */
  lemma EditSelected(fs: Files, selected: string, value: string)
    requires NamesMatchKeys(fs) && Valid(fs)
    requires selected in fs.entries
    ensures var r := Edited(fs, selected, value);
      && r.Some?
      && Valid(r.value)
      && NamesMatchKeys(r.value)
      && r.value.entries[selected].value == value
      && r.value.entries[selected].name == fs.entries[selected].name
      && r.value.entries[selected].language == fs.entries[selected].language
  {
    var r := Edited(fs, selected, value).value;
    forall k | k in r.entries
      ensures r.entries[k].name == k
    {
      assert Lookup(r, k) == Some(r.entries[k]) || k == selected;
    }
  }

  /** `onEditorChange(value)`; `ok` is false where the source throws. */
  method OnEditorChange(studio: Studio, value: string) returns (ok: bool)
    requires studio.Valid()
    modifies studio
    ensures ok <==> Edited(old(studio.files), old(studio.selectedFileName), value).Some?
    ensures ok ==> studio.files == Edited(old(studio.files), old(studio.selectedFileName), value).value
    ensures !ok ==> studio.files == old(studio.files)
    ensures studio.selectedFileName == old(studio.selectedFileName) && studio.isShow == old(studio.isShow)
    ensures studio.Valid()
  {
    var edited := Edited(studio.files, studio.selectedFileName, value);
    if edited.Some? {
      studio.SetFiles(edited.value);
      ok := true;
    } else {
      ok := false;
    }
  }
}
