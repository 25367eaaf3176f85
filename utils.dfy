/** `fileName2Language` of src/ReactAiStudio/utils.ts: the editor language of a file name. */
module StudioUtils {
  import opened Strings

  /**
   * The text after the last dot of `name`, or all of it when it has no dot:
   * the characters collected from the end back to the first dot met.
   */
  function Suffix(name: string): (r: string)
    ensures '.' !in r && EndsWith(name, r)
    ensures |r| < |name| ==> name[|name| - |r| - 1] == '.'
    decreases |name|
  {
    if |name| == 0 || name[|name| - 1] == '.' then ""
    else Suffix(name[..|name| - 1]) + [name[|name| - 1]]
  }

  /**
   * The language is chosen by the suffix alone, compared exactly (so `TSX`
   * is not `tsx`), and anything unrecognised is JavaScript.
   */
  function FileName2Language(name: string): (r: string)
    ensures r == "javascript" || r == "typescript" || r == "json" || r == "css"
    ensures r == "typescript" <==> Suffix(name) == "ts" || Suffix(name) == "tsx"
    ensures r == "json" <==> Suffix(name) == "json"
    ensures r == "css" <==> Suffix(name) == "css"
    ensures r == "javascript" <==> Suffix(name) !in ["ts", "tsx", "json", "css"]
  {
    var suffix := Suffix(name);
    if suffix in ["js", "jsx"] then "javascript"
    else if suffix in ["ts", "tsx"] then "typescript"
    else if suffix in ["json"] then "json"
    else if suffix in ["css"] then "css"
    else "javascript"
  }

  /** `Suffix` is `name.split('.').pop()`, the last piece of splitting on dots. */
  lemma {:induction false} SuffixIsLastSplitPiece(name: string)
    ensures var parts := SplitOn(name, '.'); Suffix(name) == parts[|parts| - 1]
  {
    var parts := SplitOn(name, '.');
    var p := parts[|parts| - 1];
    var s := Suffix(name);
    LastPiece(name, '.');
    assert |p| <= |s| ==> p == s[|s| - |p|..];
    assert |s| <= |p| ==> s == p[|p| - |s|..];
  }

  /**
   * The suffix holds no dot and ends the name; it follows the last dot when
   * there is one, and it is the whole name when there is none.
   */
  lemma SuffixAfterLastDot(name: string)
    ensures var s := Suffix(name);
      && '.' !in s
      && EndsWith(name, s)
      && ('.' in name ==> |s| < |name| && name[|name| - |s| - 1] == '.')
      && ('.' !in name ==> s == name)
  {
    var s := Suffix(name);
    assert |s| == |name| ==> name == s;
  }

  /** A name without a dot gets the language of the whole name read as a suffix. */
  lemma DotlessName(name: string)
    requires '.' !in name
    requires name !in ["ts", "tsx", "json", "css"]
    ensures FileName2Language(name) == "javascript"
  {
    SuffixAfterLastDot(name);
  }
}
