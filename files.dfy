/**
 * src/ReactAiStudio/files.ts: the reserved file names and the collection
 * a new project starts with. The four template texts are imported from
 * files of the repository as raw strings; here they are parameters.
 */
module TemplateFiles {
  import opened FileCollection
  import opened StudioUtils

  /** The module the compile starts from. */
  const EntryFileName: string := "main.tsx"
  /** The import map embedded into the preview document. */
  const ImportMapFileName: string := "import-map.json"
  /** The application component. */
  const AppComponentFileName: string := "App.tsx"
  /** The stylesheet the application component imports. */
  const AppCssFileName: string := "App.css"

  /** The four template names are pairwise different. */
  lemma TemplateNamesDistinct()
    ensures EntryFileName != AppComponentFileName && EntryFileName != AppCssFileName
    ensures EntryFileName != ImportMapFileName && AppComponentFileName != AppCssFileName
    ensures AppComponentFileName != ImportMapFileName && AppCssFileName != ImportMapFileName
  {
    assert EntryFileName[0] != AppComponentFileName[0] && EntryFileName[0] != AppCssFileName[0];
    assert EntryFileName[0] != ImportMapFileName[0] && AppComponentFileName[4] != AppCssFileName[4];
    assert AppComponentFileName[0] != ImportMapFileName[0] && AppCssFileName[0] != ImportMapFileName[0];
  }

  /**
   * `initFiles`: exactly the four keys `main.tsx`, `App.tsx`, `App.css`,
   * `import-map.json` in that order, each entry named after its key and
   * holding its template text. The languages are the values
   * `fileName2Language` gives those names, written out here; that they
   * agree with it is `ReservedLanguages`.
   */
  function InitFiles(main: string, app: string, appCss: string, importMap: string): (r: Files)
    ensures Valid(r)
    ensures r.order == [EntryFileName, AppComponentFileName, AppCssFileName, ImportMapFileName]
    ensures r.entries[EntryFileName] == File(EntryFileName, main, "typescript")
    ensures r.entries[AppComponentFileName] == File(AppComponentFileName, app, "typescript")
    ensures r.entries[AppCssFileName] == File(AppCssFileName, appCss, "css")
    ensures r.entries[ImportMapFileName] == File(ImportMapFileName, importMap, "json")
  {
    TemplateNamesDistinct();
    Files(
      [EntryFileName, AppComponentFileName, AppCssFileName, ImportMapFileName],
      map[
        EntryFileName := File(EntryFileName, main, "typescript"),
        AppComponentFileName := File(AppComponentFileName, app, "typescript"),
        AppCssFileName := File(AppCssFileName, appCss, "css"),
        ImportMapFileName := File(ImportMapFileName, importMap, "json")
      ])
  }

  /** The reserved names get the languages their suffixes name. */
  lemma ReservedLanguages()
    ensures FileName2Language(EntryFileName) == "typescript"
    ensures FileName2Language(AppComponentFileName) == "typescript"
    ensures FileName2Language(AppCssFileName) == "css"
    ensures FileName2Language(ImportMapFileName) == "json"
  {
    assert FileName2Language(EntryFileName) == "typescript";
    assert FileName2Language(AppComponentFileName) == "typescript";
    assert FileName2Language(AppCssFileName) == "css";
  }
}
