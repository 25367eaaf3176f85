/**
 * The text-level parts of src/ReactAiStudio/components/Preview/compiler.worker.ts:
 * the automatic `import React` added to JSX/TSX files, the lookup of a
 * relative import in the file collection, and the module texts generated
 * for JSON and CSS files.
 */
module CompilerText {
  import opened Wrappers
  import opened Strings
  import opened FileCollection

  /** The line `beforeTransformCode` puts in front of a JSX/TSX file. */
  const ReactImport: string := "import React from 'react';\n"

  /** `filename.endsWith('.jsx') || filename.endsWith('.tsx')` */
  predicate IsJsxName(name: string)
  {
    EndsWith(name, ".jsx") || EndsWith(name, ".tsx")
  }

  /**
   * `/import\s+React((\s*,)|(\s+from))/` matches at index `i`. Because
   * `React`, `,` and `from` start with characters outside `\s`, each run of
   * spaces the pattern crosses is a maximal one, so the match is decided
   * without backtracking (`ReactImportAtIsRegexMatch`).
   */
  predicate ReactImportAt(code: string, i: nat)
  {
    && At(code, i, "import")
    && var j := SpacesEnd(code, i + 6);
    && j > i + 6
    && At(code, j, "React")
    && var m := SpacesEnd(code, j + 5);
    && (At(code, m, ",") || (m > j + 5 && At(code, m, "from")))
  }

  /** `regexReact.test(code)`: the pattern matches at some index, tried from the start. */
  predicate HasReactImport(code: string)
  {
    ReactImportFrom(code, 0)
  }

  /** The pattern matches at index `i` or later. */
  predicate ReactImportFrom(code: string, i: nat)
    decreases |code| + 1 - i
  {
    i <= |code| && (ReactImportAt(code, i) || ReactImportFrom(code, i + 1))
  }

  /** A match found by the scan is at `i` or later. */
  lemma {:induction false} ReactImportFromSound(code: string, i: nat)
    requires ReactImportFrom(code, i)
    ensures exists k :: i <= k <= |code| && ReactImportAt(code, k)
    decreases |code| + 1 - i
  {
    if !ReactImportAt(code, i) {
      ReactImportFromSound(code, i + 1);
      var k :| i + 1 <= k <= |code| && ReactImportAt(code, k);
      assert i <= k;
    }
  }

  /** A match at `k` is found by a scan that starts at or before `k`. */
  lemma {:induction false} ReactImportFromComplete(code: string, i: nat, k: nat)
    requires i <= k <= |code| && ReactImportAt(code, k)
    ensures ReactImportFrom(code, i)
    decreases k - i
  {
    if i < k {
      ReactImportFromComplete(code, i + 1, k);
    }
  }

  /** The scan finds a match exactly when one exists. */
  lemma ReactImportFromSpec(code: string, i: nat)
    ensures ReactImportFrom(code, i) <==> exists k :: i <= k <= |code| && ReactImportAt(code, k)
  {
    if ReactImportFrom(code, i) {
      ReactImportFromSound(code, i);
    }
    if exists k :: i <= k <= |code| && ReactImportAt(code, k) {
      var k :| i <= k <= |code| && ReactImportAt(code, k);
      ReactImportFromComplete(code, i, k);
    }
  }

  /** Every character of `s[a..b]` is in `\s`. */
  ghost predicate AllSpaces(s: string, a: nat, b: nat)
  {
    a <= b <= |s| && forall k :: a <= k < b ==> IsSpace(s[k])
  }

  /** The pattern read as a regular expression: some choice of the two space runs fits. */
  ghost predicate RegexMatchAt(code: string, i: nat)
  {
    exists j: nat, m: nat ::
      && At(code, i, "import")
      && i + 6 < j && AllSpaces(code, i + 6, j)
      && At(code, j, "React")
      && AllSpaces(code, j + 5, m)
      && (At(code, m, ",") || (m > j + 5 && At(code, m, "from")))
  }

  /** The greedy reading and the regular-expression reading agree. */
  lemma ReactImportAtIsRegexMatch(code: string, i: nat)
    ensures ReactImportAt(code, i) <==> RegexMatchAt(code, i)
  {
    if ReactImportAt(code, i) {
      GreedyMatchIsRegexMatch(code, i);
    }
    if RegexMatchAt(code, i) {
      var j: nat, m: nat :|
        && At(code, i, "import")
        && i + 6 < j && AllSpaces(code, i + 6, j)
        && At(code, j, "React")
        && AllSpaces(code, j + 5, m)
        && (At(code, m, ",") || (m > j + 5 && At(code, m, "from")));
      RegexRunsAreMaximal(code, i, j, m);
    }
  }

  lemma GreedyMatchIsRegexMatch(code: string, i: nat)
    requires ReactImportAt(code, i)
    ensures RegexMatchAt(code, i)
  {
    var j := SpacesEnd(code, i + 6);
    var m := SpacesEnd(code, j + 5);
    assert AllSpaces(code, i + 6, j) && AllSpaces(code, j + 5, m);
  }

  /** In a regular-expression match the two space runs end where `SpacesEnd` says. */
  lemma RegexRunsAreMaximal(code: string, i: nat, j: nat, m: nat)
    requires At(code, i, "import")
    requires i + 6 < j && AllSpaces(code, i + 6, j)
    requires At(code, j, "React")
    requires AllSpaces(code, j + 5, m)
    requires At(code, m, ",") || (m > j + 5 && At(code, m, "from"))
    ensures ReactImportAt(code, i)
  {
    assert code[j] == code[j..j + 5][0];
    SpacesEndUnique(code, i + 6, j);
    assert code[m] == ',' || code[m] == 'f' by {
      if At(code, m, ",") {
        assert code[m] == code[m..m + 1][0];
      } else {
        assert code[m] == code[m..m + 4][0];
      }
    }
    SpacesEndUnique(code, j + 5, m);
  }

  /**
   * `beforeTransformCode(filename, code)`: the code is always a suffix of
   * the result, and the React import line is put in front exactly when the
   * file is JSX/TSX and the code does not already import React.
   */
  function BeforeTransformCode(name: string, code: string): (r: string)
    ensures EndsWith(r, code)
    ensures r != code <==> IsJsxName(name) && !HasReactImport(code)
    ensures r != code ==> r == ReactImport + code
  {
    if IsJsxName(name) && !HasReactImport(code) then
      assert (ReactImport + code)[|ReactImport|..] == code;
      ReactImport + code
    else code
  }

  /** The words and spaces at the start of a text that begins with the React import line. */
  lemma ReactImportLineWords(code: string)
    ensures var s := ReactImport + code;
      && |s| > 17
      && s[0..6] == "import" && s[6] == ' ' && s[7..12] == "React" && s[12] == ' ' && s[13..17] == "from"
  {
    var s := ReactImport + code;
    var l := ReactImport;
    assert l[0..6] == "import" && l[6] == ' ' && l[7..12] == "React" && l[12] == ' ' && l[13..17] == "from";
    assert s[0..6] == l[0..6] && s[7..12] == l[7..12] && s[13..17] == l[13..17];
  }

  /** Code that starts with the React import line imports React. */
  lemma ReactImportLineImportsReact(code: string)
    ensures HasReactImport(ReactImport + code)
  {
    var s := ReactImport + code;
    ReactImportLineWords(code);
    assert At(s, 0, "import");
    assert IsSpace(s[6]) && !IsSpace(s[7]) by { assert s[7] == s[7..12][0]; }
    assert SpacesEnd(s, 6) == 7 by { assert SpacesEnd(s, 7) == 7; }
    assert At(s, 7, "React");
    assert IsSpace(s[12]) && !IsSpace(s[13]) by { assert s[13] == s[13..17][0]; }
    assert SpacesEnd(s, 12) == 13 by { assert SpacesEnd(s, 13) == 13; }
    assert At(s, 13, "from");
    assert ReactImportAt(s, 0);
  }

  /** Applying `beforeTransformCode` twice is applying it once. */
  lemma BeforeTransformCodeIdempotent(name: string, code: string)
    ensures BeforeTransformCode(name, BeforeTransformCode(name, code)) == BeforeTransformCode(name, code)
  {
    if BeforeTransformCode(name, code) != code {
      ReactImportLineImportsReact(code);
    }
  }

  /**
   * `modulePath.split('./').pop()`: the text after the last `./`, or all of
   * the path when it holds none (`./` cannot overlap itself, so the last
   * piece of the split starts right after the last occurrence).
   */
  function ModuleName(path: string): string
    decreases |path|
  {
    if |path| <= 1 then path
    else if path[|path| - 2] == '.' && path[|path| - 1] == '/' then ""
    else ModuleName(path[..|path| - 1]) + [path[|path| - 1]]
  }

  /** `./` at index `i`, character by character. */
  lemma DotSlashAt(s: string, i: int)
    ensures At(s, i, "./") <==> 0 <= i && i + 2 <= |s| && s[i] == '.' && s[i + 1] == '/'
  {
    if 0 <= i && i + 2 <= |s| {
      assert s[i..i + 2] == [s[i], s[i + 1]];
    }
  }

  /** A `.` directly followed by a `/` somewhere in `s`. */
  predicate HasDotSlash(s: string)
  {
    exists i :: 0 <= i < |s| - 1 && s[i] == '.' && s[i + 1] == '/'
  }

  /** `s` contains `./` exactly when it has a `.` directly followed by a `/`. */
  lemma ContainsDotSlash(s: string)
    ensures Contains(s, "./") <==> HasDotSlash(s)
  {
    if Contains(s, "./") {
      var i :| 0 <= i <= |s| && At(s, i, "./");
      DotSlashAt(s, i);
    }
    if HasDotSlash(s) {
      var i :| 0 <= i < |s| - 1 && s[i] == '.' && s[i + 1] == '/';
      DotSlashAt(s, i);
    }
  }

  /** The module name is a suffix of the path. */
  lemma {:induction false} ModuleNameEndsPath(path: string)
    ensures EndsWith(path, ModuleName(path))
    decreases |path|
  {
    var r := ModuleName(path);
    if |path| <= 1 {
      assert path[|path| - |r|..] == path;
    } else if path[|path| - 2] == '.' && path[|path| - 1] == '/' {
      assert r == [];
    } else {
      var p := path[..|path| - 1];
      ModuleNameEndsPath(p);
      var q := ModuleName(p);
      assert r == q + [path[|path| - 1]];
      assert p[|p| - |q|..] == q;
      assert path[|path| - |r|..] == p[|p| - |q|..] + [path[|path| - 1]];
    }
  }

  /** No `.` of the module name is directly followed by a `/`. */
  lemma {:induction false} ModuleNameNoDotSlashChars(path: string)
    ensures !HasDotSlash(ModuleName(path))
    decreases |path|
  {
    if |path| > 1 && !(path[|path| - 2] == '.' && path[|path| - 1] == '/') {
      var p := path[..|path| - 1];
      var q := ModuleName(p);
      var r := q + [path[|path| - 1]];
      assert ModuleName(path) == r;
      ModuleNameNoDotSlashChars(p);
      ModuleNameEndsPath(p);
      forall i | 0 <= i < |r| - 1
        ensures !(r[i] == '.' && r[i + 1] == '/')
      {
        if i + 1 < |q| {
          assert r[i] == q[i] && r[i + 1] == q[i + 1];
        } else {
          assert r[i] == p[|p| - 1] == path[|path| - 2];
        }
      }
    }
  }

  /** The module name holds no `./`. */
  lemma ModuleNameHasNoDotSlash(path: string)
    ensures !Contains(ModuleName(path), "./")
  {
    ModuleNameNoDotSlashChars(path);
    ContainsDotSlash(ModuleName(path));
  }

  /** A path without `./` is its own module name. */
  lemma {:induction false} ModuleNameWithoutDotSlash(path: string)
    requires !HasDotSlash(path)
    ensures ModuleName(path) == path
    decreases |path|
  {
    if |path| > 1 {
      var p := path[..|path| - 1];
      assert !HasDotSlash(p) by {
        forall i | 0 <= i < |p| - 1
          ensures !(p[i] == '.' && p[i + 1] == '/')
        {
          assert p[i] == path[i] && p[i + 1] == path[i + 1];
        }
      }
      ModuleNameWithoutDotSlash(p);
      assert !(path[|path| - 2] == '.' && path[|path| - 1] == '/');
      assert ModuleName(path) == p + [path[|path| - 1]];
      assert path == p + [path[|path| - 1]];
    }
  }

  /** In a path with `./`, the module name starts right after an occurrence of it. */
  lemma {:induction false} ModuleNameAfterDotSlash(path: string)
    requires HasDotSlash(path)
    ensures var r := ModuleName(path);
      |r| + 2 <= |path| && path[|path| - |r| - 2] == '.' && path[|path| - |r| - 1] == '/'
    decreases |path|
  {
    var k :| 0 <= k < |path| - 1 && path[k] == '.' && path[k + 1] == '/';
    if !(path[|path| - 2] == '.' && path[|path| - 1] == '/') {
      var p := path[..|path| - 1];
      assert p[k] == '.' && p[k + 1] == '/';
      ModuleNameAfterDotSlash(p);
      var q := ModuleName(p);
      assert ModuleName(path) == q + [path[|path| - 1]];
      var j := |p| - |q| - 2;
      assert path[j] == p[j] && path[j + 1] == p[j + 1];
    }
  }

  /**
   * The module name is the whole path when the path holds no `./`, and
   * otherwise it follows a `./`.
   */
  lemma ModuleNameFollowsDotSlash(path: string)
    ensures var r := ModuleName(path);
      && |r| <= |path|
      && (Contains(path, "./") ==> |r| + 2 <= |path| && At(path, |path| - |r| - 2, "./"))
      && (!Contains(path, "./") ==> r == path)
  {
    ModuleNameEndsPath(path);
    ContainsDotSlash(path);
    if HasDotSlash(path) {
      ModuleNameAfterDotSlash(path);
      DotSlashAt(path, |path| - |ModuleName(path)| - 2);
    } else {
      ModuleNameWithoutDotSlash(path);
    }
  }

  /** The keys `getModuleFile` may pick for a name without a dot. */
  predicate IsScriptKey(key: string)
  {
    EndsWith(key, ".ts") || EndsWith(key, ".tsx") || EndsWith(key, ".js") || EndsWith(key, ".jsx")
  }

  /** A script key one of whose dot-separated segments is `name`. */
  predicate KeyMatches(key: string, name: string)
  {
    IsScriptKey(key) && name in SplitOn(key, '.')
  }

  /** `keys.filter(IsScriptKey).find(key => key.split('.').includes(name))` */
  function FirstMatch(keys: seq<string>, name: string): (r: Option<nat>)
    ensures r.Some? ==> r.value < |keys|
    decreases |keys|
  {
    if |keys| == 0 then None
    else if KeyMatches(keys[0], name) then Some(0)
    else
      match FirstMatch(keys[1..], name)
      case None => None
      case Some(i) => Some(i + 1)
  }

  /** `FirstMatch` finds the first matching key, and `None` means that no key matches. */
  lemma {:induction false} FirstMatchSpec(keys: seq<string>, name: string)
    ensures var r := FirstMatch(keys, name);
      && (r.Some? ==> KeyMatches(keys[r.value], name))
      && (r.Some? ==> forall i :: 0 <= i < r.value ==> !KeyMatches(keys[i], name))
      && (r.None? ==> forall i :: 0 <= i < |keys| ==> !KeyMatches(keys[i], name))
    decreases |keys|
  {
    if |keys| > 0 && !KeyMatches(keys[0], name) {
      FirstMatchSpec(keys[1..], name);
      var r := FirstMatch(keys, name);
      if r.Some? {
        assert forall i :: 0 < i < r.value ==> keys[i] == keys[1..][i - 1];
      } else {
        assert forall i :: 0 < i < |keys| ==> keys[i] == keys[1..][i - 1];
      }
    }
  }

  /** The first matching key is the one `FirstMatch` finds. */
  lemma FirstMatchIsFirst(keys: seq<string>, name: string, i: nat)
    requires i < |keys| && KeyMatches(keys[i], name)
    requires forall h :: 0 <= h < i ==> !KeyMatches(keys[h], name)
    ensures FirstMatch(keys, name) == Some(i)
  {
    var r := FirstMatch(keys, name);
    FirstMatchSpec(keys, name);
    assert r.Some?;
    assert !(r.value < i);
    assert !(i < r.value);
  }

  /** The key `getModuleFile` reads for a module path. */
  function ModuleKey(keys: seq<string>, path: string): string
  {
    var name := ModuleName(path);
    if '.' in name then name
    else match FirstMatch(keys, name)
      case None => name
      case Some(i) => keys[i]
  }

  /** `getModuleFile(files, modulePath)` */
  function GetModuleFile(fs: Files, path: string): Option<File>
  {
    Lookup(fs, ModuleKey(fs.order, path))
  }

  /**
   * What `getModuleFile` finds: a name with a dot is looked up as it is; a
   * name without one is looked up under the first script key, in
   * enumeration order, having the name as a dot-separated segment, and as
   * it is when no key has. A key that is missing gives `None` (`undefined`).
   */
  lemma GetModuleFileFinds(fs: Files, path: string)
    ensures var name := ModuleName(path);
      '.' in name ==> GetModuleFile(fs, path) == Lookup(fs, name)
    ensures var name := ModuleName(path);
      '.' !in name ==> forall i ::
        0 <= i < |fs.order| && KeyMatches(fs.order[i], name)
        && (forall h :: 0 <= h < i ==> !KeyMatches(fs.order[h], name))
        ==> GetModuleFile(fs, path) == Lookup(fs, fs.order[i])
    ensures var name := ModuleName(path);
      '.' !in name && (forall k :: k in fs.order ==> !KeyMatches(k, name)) ==> GetModuleFile(fs, path) == Lookup(fs, name)
    ensures GetModuleFile(fs, path).Some? ==> GetModuleFile(fs, path).value in fs.entries.Values
  {
    var name := ModuleName(path);
    var key := ModuleKey(fs.order, path);
    FirstMatchSpec(fs.order, name);
    if key in fs.entries {
      assert fs.entries[key] in fs.entries.Values;
    }
    forall i | 0 <= i < |fs.order| && KeyMatches(fs.order[i], name)
        && (forall h :: 0 <= h < i ==> !KeyMatches(fs.order[h], name))
      ensures FirstMatch(fs.order, name) == Some(i)
    {
      FirstMatchIsFirst(fs.order, name, i);
    }
  }

  /** In a well-formed collection, a dotless name that matches some script key always resolves. */
  lemma MatchingKeyResolves(fs: Files, path: string, key: string)
    requires Valid(fs)
    requires '.' !in ModuleName(path)
    requires key in fs.order && KeyMatches(key, ModuleName(path))
    ensures GetModuleFile(fs, path).Some?
  {
    var name := ModuleName(path);
    var i := FirstMatch(fs.order, name);
    FirstMatchSpec(fs.order, name);
    assert i.Some?;
  }

  /** `json2Js`: the module text for a JSON file. */
  function JsonModule(f: File): (js: string)
    ensures StartsWith(js, "export default ") && EndsWith(js, f.value)
    ensures |js| == |"export default "| + |f.value|
  {
    var js := "export default " + f.value;
    assert js[|js| - |f.value|..] == f.value;
    js
  }

  /** The element id `css2Js` gives the style element: `style_<time>_<name>`. */
  function StyleId(time: nat, name: string): string
  {
    "style_" + Digits(time) + "_" + name
  }

  /** The text of the `css2Js` module before the style id. */
  const CssHead: string := "\n(() => {\n    const stylesheet = document.createElement('style')\n    stylesheet.setAttribute('id', '"
  /** The text between the style id and the template literal holding the CSS. */
  const CssMiddle: string := "')\n    document.head.appendChild(stylesheet)\n\n    const styles = document.createTextNode("
  /** The text after the template literal. */
  const CssTail: string := ")\n    stylesheet.innerHTML = ''\n    stylesheet.appendChild(styles)\n})()\n    "

  /**
   * `css2Js`: a module that, when run, appends a `style` element with the
   * id `style_<time>_<name>` whose text is the raw CSS inside a template
   * literal. `time` stands for `new Date().getTime()`.
   */
  function CssModule(f: File, time: nat): (js: string)
  {
    CssHead + StyleId(time, f.name) + CssText(f.value)
  }

  /** The part of the `css2Js` module after the style id: the CSS in a template literal. */
  function CssText(value: string): string
  {
    CssMiddle + ("`" + value + "`") + CssTail
  }

  /** The CSS module text holds the style id and the raw CSS unchanged. */
  lemma CssModuleEmbeds(f: File, time: nat)
    ensures Contains(CssModule(f, time), StyleId(time, f.name))
    ensures Contains(CssModule(f, time), "`" + f.value + "`")
  {
    var id := StyleId(time, f.name);
    var text := CssText(f.value);
    ContainsInfix(CssHead, id, text);
    ContainsInfix(CssMiddle, "`" + f.value + "`", CssTail);
    ContainsAfter(CssHead + id, text, "`" + f.value + "`");
  }

  /**
   * The loader `customResolver` picks by the resolved file's own name:
   * `css2Js` for a `.css` name, then `json2Js` for a `.json` one; any
   * other file has none and is compiled as a script.
   */
  function Loaded(f: File, time: nat): Option<string>
  {
    if EndsWith(f.name, ".css") then Some(CssModule(f, time))
    else if EndsWith(f.name, ".json") then Some(JsonModule(f))
    else None
  }
}
