/**
 * The tab strip of src/ReactAiStudio/components/CodeEditor/FileNameList/index.tsx:
 * one tab per key of the collection, the flags each tab is drawn with, and
 * the handlers for finishing a rename, adding a tab and removing one.
 */
module FileNameList {
  import opened Wrappers
  import opened Strings
  import opened FileCollection
  import opened StudioUtils
  import opened TemplateFiles
  import opened AIStudio

  /** The files that can be neither renamed nor removed. */
  const ReadonlyFileNames: seq<string> := [EntryFileName, ImportMapFileName, AppComponentFileName]

  /** How one tab is drawn. */
  datatype Tab = Tab(value: string, creating: bool, readonly: bool, actived: bool)

  /**
   * The tabs for the keys in enumeration order: only the last one is in
   * creating mode, and only while `creating` holds; a tab is readonly when
   * its name is reserved and active when it is the selected name.
   */
  function Tabs(keys: seq<string>, selected: string, creating: bool): (tabs: seq<Tab>)
    ensures |tabs| == |keys|
    ensures forall i :: 0 <= i < |tabs| ==> tabs[i].value == keys[i]
    ensures forall i :: 0 <= i < |tabs| ==> (tabs[i].creating <==> creating && i == |keys| - 1)
    ensures forall i :: 0 <= i < |tabs| ==> (tabs[i].readonly <==> keys[i] in ReadonlyFileNames)
    ensures forall i :: 0 <= i < |tabs| ==> (tabs[i].actived <==> keys[i] == selected)
    decreases |keys|
  {
    if |keys| == 0 then []
    else
      var i := |keys| - 1;
      Tabs(keys[..i], selected, false)
        + [Tab(keys[i], creating, keys[i] in ReadonlyFileNames, keys[i] == selected)]
  }

  /** With distinct keys at most one tab is active, and one is exactly when the selection is a key. */
  lemma OneActiveTab(keys: seq<string>, selected: string, creating: bool)
    requires Distinct(keys)
    ensures var tabs := Tabs(keys, selected, creating);
      && (forall i, j :: 0 <= i < |tabs| && 0 <= j < |tabs| && tabs[i].actived && tabs[j].actived ==> i == j)
      && ((exists i :: 0 <= i < |tabs| && tabs[i].actived) <==> selected in keys)
  {
    var tabs := Tabs(keys, selected, creating);
    if selected in keys {
      var i :| 0 <= i < |keys| && keys[i] == selected;
      assert tabs[i].actived;
    }
  }

  /**
   * The name `addTab` gives a new file: `comp`, then the characters 2 to 5
   * of the decimal text of a random number in [0, 1), then `tsx`. That
   * slice never holds the number's only dot, which sits at index 1.
   */
  function NewTabName(randomText: string): (name: string)
    requires |randomText| <= 4 && '.' !in randomText
    ensures StartsWith(name, "comp") && EndsWith(name, "tsx")
    ensures 7 <= |name| <= 11
  {
    "comp" + randomText + "tsx"
  }

  /** A new tab's name holds no dot, so it is a JavaScript file. */
  lemma NewTabIsJavaScript(randomText: string)
    requires |randomText| <= 4 && '.' !in randomText
    ensures '.' !in NewTabName(randomText)
    ensures FileName2Language(NewTabName(randomText)) == "javascript"
  {
    var name := NewTabName(randomText);
    assert name[..4] == "comp" && name[4..|name| - 3] == randomText && name[|name| - 3..] == "tsx";
    assert forall k :: 0 <= k < |name| ==> name[k] != '.' by {
      forall k | 0 <= k < |name|
        ensures name[k] != '.'
      {
        if 4 <= k < |name| - 3 {
          assert name[k] == randomText[k - 4];
        }
      }
    }
    DotlessName(name);
  }

  /** A tab added for a name not yet in use is the last one, and the one in creating mode. */
  lemma AddedTabIsCreating(fs: Files, name: string, selected: string)
    requires Valid(fs) && name !in fs.entries
    ensures var tabs := Tabs(Assign(fs, name, NewFile(name)).order, selected, true);
      && tabs[|tabs| - 1].value == name && tabs[|tabs| - 1].creating
      && forall i :: 0 <= i < |tabs| - 1 ==> !tabs[i].creating
  {
  }

  /** The component's own state: whether the last tab is being created. */
  class TabList {
    var creating: bool

    /** The strip starts out not creating. */
    constructor()
      ensures !creating
    {
      creating := false;
    }

    /** The tabs drawn for the studio's current state. */
    function TabsOf(studio: Studio): seq<Tab>
      reads this, studio
    {
      Tabs(studio.files.order, studio.selectedFileName, creating)
    }

    /** `handleEditComplete(name, prevName)`: rename, select the new name, leave creating mode. */
    method HandleEditComplete(studio: Studio, name: string, prevName: string)
      requires studio.Valid()
      modifies this, studio
      ensures studio.files == Renamed(old(studio.files), prevName, Some(name))
      ensures studio.selectedFileName == name
      ensures studio.isShow == old(studio.isShow)
      ensures !creating
      ensures studio.Valid()
    {
      studio.UpdateFileName(prevName, Some(name));
      studio.SetSelectedFileName(name);
      creating := false;
    }

    /** `addTab()`: add a file under a fresh random name and enter creating mode. */
    method AddTab(studio: Studio, randomText: string)
      requires studio.Valid()
      requires |randomText| <= 4 && '.' !in randomText
      modifies this, studio
      ensures studio.files == Assign(old(studio.files), NewTabName(randomText), NewFile(NewTabName(randomText)))
      ensures studio.selectedFileName == old(studio.selectedFileName)
      ensures studio.isShow == old(studio.isShow)
      ensures creating
      ensures studio.Valid()
    {
      studio.AddFile(NewTabName(randomText));
      creating := true;
    }

    /** `handleRemove(name)`: remove the file and select the entry file. */
    method HandleRemove(studio: Studio, name: string)
      requires studio.Valid()
      modifies studio
      ensures studio.files == Delete(old(studio.files), name)
      ensures studio.selectedFileName == EntryFileName
      ensures studio.isShow == old(studio.isShow)
      ensures studio.Valid()
    {
      studio.RemoveFile(name);
      studio.SetSelectedFileName(EntryFileName);
    }

    /** Clicking a tab selects it. */
    method HandleClick(studio: Studio, name: string)
      modifies studio
      ensures studio.selectedFileName == name
      ensures studio.files == old(studio.files) && studio.isShow == old(studio.isShow)
    {
      studio.SetSelectedFileName(name);
    }
  }
}
