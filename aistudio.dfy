/**
 * The studio context of src/ReactAiStudio/AIStudioContext.tsx: the file
 * collection, the selected file name and the visibility of the chat panel,
 * with the operations that add, remove and rename files.
 */
module AIStudio {
  import opened Wrappers
  import opened FileCollection
  import opened StudioUtils
  import opened TemplateFiles

  /** The entry `addFile(name)` stores: empty text and the language of the name. */
  function NewFile(name: string): File
  {
    File(name, "", FileName2Language(name))
  }

  /** Every entry is named after the key it is stored under. */
  ghost predicate NamesMatchKeys(fs: Files)
  {
    forall k :: k in fs.entries ==> fs.entries[k].name == k
  }

  /**
   * `updateFileName(old, new)`: when `files[old]` exists and `new` is not
   * `null`/`undefined` (`None`), the result is `{...rest, ...newFile}`: the
   * collection without `old`, then the key `new` set to the old entry with
   * `name` and `language` taken from the new name. A new key that already
   * exists keeps its place and loses its entry; otherwise it goes last. Any
   * string is accepted as a new name, the empty one included.
   */
  function Renamed(fs: Files, oldName: string, newName: Option<string>): (r: Files)
    ensures oldName !in fs.entries || newName.None? ==> r == fs
    ensures oldName in fs.entries && newName.Some? ==>
      var n := newName.value;
      && Lookup(r, n) == Some(File(n, fs.entries[oldName].value, FileName2Language(n)))
      && (oldName != n ==> Lookup(r, oldName) == None)
      && (forall j :: j != oldName && j != n ==> Lookup(r, j) == Lookup(fs, j))
    ensures oldName in fs.entries && newName.Some? && Valid(fs) ==>
      var rest := Without(fs.order, oldName);
      r.order == if newName.value in rest then rest else rest + [newName.value]
    ensures Valid(fs) ==> Valid(r)
  {
    if oldName !in fs.entries || newName.None? then fs
    else
      var n := newName.value;
      var rest := Delete(fs, oldName);
      assert Valid(fs) ==> (n in rest.entries <==> n in rest.order);
      Assign(rest, n, File(n, fs.entries[oldName].value, FileName2Language(n)))
  }

  /** A rename keeps every entry named after its key. */
  lemma RenamedKeepsNames(fs: Files, oldName: string, newName: Option<string>)
    requires NamesMatchKeys(fs)
    ensures NamesMatchKeys(Renamed(fs, oldName, newName))
  {
    var r := Renamed(fs, oldName, newName);
    forall k | k in r.entries
      ensures r.entries[k].name == k
    {
      assert Lookup(r, k) == Some(r.entries[k]);
    }
  }

  /** Adding a file keeps every entry named after its key. */
  lemma AddKeepsNames(fs: Files, name: string)
    requires NamesMatchKeys(fs)
    ensures NamesMatchKeys(Assign(fs, name, NewFile(name)))
  {
    var r := Assign(fs, name, NewFile(name));
    forall k | k in r.entries
      ensures r.entries[k].name == k
    {
      assert Lookup(r, k) == Some(r.entries[k]);
    }
  }

  /**
   * Renaming a file onto its own name refreshes its language and, because
   * `{...rest, ...newFile}` adds the key again, moves it to the last place.
   */
  lemma RenameToSelf(fs: Files, name: string)
    requires Valid(fs) && name in fs.entries
    ensures var r := Renamed(fs, name, Some(name));
      && name in r.entries
      && r.entries[name] == fs.entries[name].(name := name, language := FileName2Language(name))
      && (forall j :: j != name ==> Lookup(r, j) == Lookup(fs, j))
      && r.order == Without(fs.order, name) + [name]
  {
    var r := Renamed(fs, name, Some(name));
    assert Lookup(r, name) == Some(r.entries[name]);
    assert name !in Without(fs.order, name);
  }

  /**
   * The context's state. `addFile` and `removeFile` change the collection in
   * place and then publish it; `updateFileName` publishes a new one.
   */
  class Studio {
    var files: Files
    var selectedFileName: string
    var isShow: bool

    /** The collection enumerates each of its keys exactly once. */
    ghost predicate Valid()
      reads this
    {
      FileCollection.Valid(files)
    }

    /**
     * The provider's initial state: the collection decoded from the URL hash
     * when that succeeds (`fromUrl`), `initFiles` otherwise; `App.tsx`
     * selected and the chat panel hidden.
     */
    constructor(fromUrl: Option<Files>, main: string, app: string, appCss: string, importMap: string)
      requires fromUrl.Some? ==> FileCollection.Valid(fromUrl.value)
      ensures fromUrl.Some? ==> files == fromUrl.value
      ensures fromUrl.None? ==> files == InitFiles(main, app, appCss, importMap)
      ensures selectedFileName == AppComponentFileName && !isShow
      ensures Valid()
    {
      files := if fromUrl.Some? then fromUrl.value else InitFiles(main, app, appCss, importMap);
      selectedFileName := AppComponentFileName;
      isShow := false;
    }

    /** `addFile(name)`: `files[name]` becomes a fresh empty file, replacing any entry there. */
    method AddFile(name: string)
      requires Valid()
      modifies this
      ensures files == Assign(old(files), name, NewFile(name))
      ensures Lookup(files, name) == Some(File(name, "", FileName2Language(name)))
      ensures forall j :: j != name ==> Lookup(files, j) == Lookup(old(files), j)
      ensures selectedFileName == old(selectedFileName) && isShow == old(isShow)
      ensures Valid()
    {
      files := Assign(files, name, NewFile(name));
    }

    /** `removeFile(name)`: only the key `name` goes; an absent name changes nothing. */
    method RemoveFile(name: string)
      requires Valid()
      modifies this
      ensures files == Delete(old(files), name)
      ensures Lookup(files, name) == None
      ensures forall j :: j != name ==> Lookup(files, j) == Lookup(old(files), j)
      ensures name !in old(files).entries ==> files == old(files)
      ensures selectedFileName == old(selectedFileName) && isShow == old(isShow)
      ensures Valid()
    {
      files := Delete(files, name);
    }

    /** `updateFileName(oldName, newName)` */
    method UpdateFileName(oldName: string, newName: Option<string>)
      requires Valid()
      modifies this
      ensures files == Renamed(old(files), oldName, newName)
      ensures selectedFileName == old(selectedFileName) && isShow == old(isShow)
      ensures Valid()
    {
      files := Renamed(files, oldName, newName);
    }

    /** `setFiles(fs)` */
    method SetFiles(fs: Files)
      requires FileCollection.Valid(fs)
      modifies this
      ensures files == fs
      ensures selectedFileName == old(selectedFileName) && isShow == old(isShow)
      ensures Valid()
    {
      files := fs;
    }

    /** `setSelectedFileName(name)`: any name, present or not. */
    method SetSelectedFileName(name: string)
      modifies this
      ensures selectedFileName == name
      ensures files == old(files) && isShow == old(isShow)
    {
      selectedFileName := name;
    }

    /** `setIsShow(show)` */
    method SetIsShow(show: bool)
      modifies this
      ensures isShow == show
      ensures files == old(files) && selectedFileName == old(selectedFileName)
    {
      isShow := show;
    }
  }
}
